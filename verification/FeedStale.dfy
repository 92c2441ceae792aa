/** Why the list of a user whose follow failed to drop it is left out of the promise to read back. */
module FeedStale {
  import opened Wrappers
  import opened PostFeed
  import opened FeedNotification
  import W = WsDelivery

  lemma More(actions: seq<Action>, y: System, action: Action)
    requires RunOf(actions) == Some(y) && Possible(y, action)
    ensures RunOf(actions + [action]) == Some(Act(y, action))
  {
    assert (actions + [action])[..|actions|] == actions;
  }

  /** `u` follows `a` and has the one post of `a` in the cache. */
  lemma Cached(u: string, a: string, text: string) returns (actions: seq<Action>, y: System)
    ensures RunOf(actions) == Some(y)
    ensures y == START.(feed := State([Post(0, a, text)], 1, {(u, a)}, {}, map[u := [Post(0, a, text)]]))
  {
    assert RunOf([]) == Some(START);
    More([], START, Call(Follow(u, a, true)));
    var y1 := Act(START, Call(Follow(u, a, true)));
    More([] + [Call(Follow(u, a, true))], y1, Call(Create(a, text, false)));
    var y2 := Act(y1, Call(Create(a, text, false)));
    assert y2.feed == State([Post(0, a, text)], 1, {(u, a)}, {}, map[]);
    assert Select(y2.feed.posts[1..], y2.feed.friends, {}, u) == [];
    assert Query(y2.feed, u) == [Post(0, a, text)];
    More([] + [Call(Follow(u, a, true))] + [Call(Create(a, text, false))], y2, Call(Read(u)));
    actions := [] + [Call(Follow(u, a, true))] + [Call(Create(a, text, false))] + [Call(Read(u))];
    y := Act(y2, Call(Read(u)));
  }

  /** An instance with one session, of `u`. */
  ghost function Listener(u: string): W.Instance { W.Next(W.EMPTY, W.Subscribe(u)) }

  lemma Listening(u: string, a: string, text: string) returns (actions: seq<Action>, y: System)
    ensures RunOf(actions) == Some(y)
    ensures y.feed == State([Post(0, a, text)], 1, {(u, a)}, {}, map[u := [Post(0, a, text)]])
    ensures y.stale == {} && y.times == START.times && y.fanout == {}
    ensures y.nodes == [Node(Listener(u), [], [])]
  {
    var before, cached := Cached(u, a, text);
    More(before, cached, Launch);
    var launched := Act(cached, Launch);
    More(before + [Launch], launched, Session(0, W.Subscribe(u)));
    actions, y := before + [Launch] + [Session(0, W.Subscribe(u))], Act(launched, Session(0, W.Subscribe(u)));
  }

  lemma OneCopy(node: Node, message: Post)
    requires node.copies == []
    ensures WithCopy([node], message) == [node.(copies := [message])]
  {
    assert node.copies + [message] == [message];
  }

  /** `b`, whom `u` does not follow, writes a post. */
  lemma Written(u: string, a: string, b: string, text: string) returns (actions: seq<Action>, y: System)
    ensures RunOf(actions) == Some(y)
    ensures y.feed == State([Post(1, b, text), Post(0, a, text)], 2, {(u, a)}, {Post(1, b, text)},
                            map[u := [Post(0, a, text)]])
    ensures y.nodes == [Node(Listener(u), [], [])] && y.times == START.times
  {
    var before, listening := Listening(u, a, text);
    More(before, listening, Call(Create(b, text, true)));
    actions, y := before + [Call(Create(b, text, true))], Act(listening, Call(Create(b, text, true)));
  }

  /** The post is materialised and published. */
  lemma Published(u: string, a: string, b: string, text: string) returns (actions: seq<Action>, y: System)
    requires a != b
    ensures RunOf(actions) == Some(y)
    ensures y.feed == State([Post(1, b, text), Post(0, a, text)], 2, {(u, a)}, {}, map[u := [Post(0, a, text)]])
    ensures y.nodes == [Node(Listener(u), [Post(1, b, text)], [])] && 1 in y.times.done
  {
    var message := Post(1, b, text);
    var before, written := Written(u, a, b, text);
    More(before, written, Consume(message, {}, true, true));
    actions, y := before + [Consume(message, {}, true, true)], Act(written, Consume(message, {}, true, true));
    OneCopy(Node(Listener(u), [], []), message);
  }

  /** The user follows `b`, and the old list is not dropped. */
  lemma Followed(u: string, a: string, b: string, text: string) returns (actions: seq<Action>, y: System)
    requires a != b
    ensures RunOf(actions) == Some(y)
    ensures y.feed == State([Post(1, b, text), Post(0, a, text)], 2, {(u, a), (u, b)}, {}, map[u := [Post(0, a, text)]])
    ensures y.nodes == [Node(Listener(u), [Post(1, b, text)], [])] && u in y.stale
  {
    var before, published := Published(u, a, b, text);
    More(before, published, Call(Follow(u, b, false)));
    actions, y := before + [Call(Follow(u, b, false))], Act(published, Call(Follow(u, b, false)));
    var message := Post(1, b, text);
    assert message in published.feed.posts && message.id in published.times.done;
    assert !Placed(published.times, [Post(0, a, text)], message.id);
  }

  /**
   A session of the user is then told of the post of `b`, which is nowhere in the list although there is
   room for it.
   */
  lemma KeptFollowHides(u: string, a: string, b: string, text: string) returns (actions: seq<Action>, y: System)
    requires a != b
    ensures RunOf(actions) == Some(y) && |y.nodes| == 1
    ensures 0 in y.nodes[0].ws.queues && y.nodes[0].ws.queues[0] == [Post(1, b, text)]
    ensures 0 in y.nodes[0].ws.owner && y.nodes[0].ws.owner[0] == u && Follows(y.feed.friends, u, b)
    ensures Post(1, b, text) in y.feed.posts
    ensures u in y.stale && !ReadBack(y, u, 1)
  {
    var before, followed := Followed(u, a, b, text);
    assert followed.feed.posts[0] == Post(1, b, text);
    More(before, followed, Notify(0, true));
    actions, y := before + [Notify(0, true)], Act(followed, Notify(0, true));
    Told(u, NoticeOf(followed.feed.friends, Post(1, b, text)));
    assert Feed(y.feed, u) == [Post(0, a, text)];
  }

  lemma Told(u: string, notice: W.Notice)
    requires u in notice.followers
    ensures var w := W.Next(Listener(u), W.Notify(notice));
      0 in w.queues && w.queues[0] == [notice.msg] && 0 in w.owner && w.owner[0] == u
  {
    W.SoundSubscribe(W.EMPTY, u);
    W.NotifyReaches(Listener(u), notice, 0);
  }
}
