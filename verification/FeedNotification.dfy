/**
 From a new post to a session that is told about it, and back to the feed: the feed consumer extends the
 cached lists and then publishes to the fan-out exchange, which puts a copy into the queue of every
 application instance; each instance takes its copies one by one and pushes to the sessions of the followers
 of the moment. Events and copies may be repeated, materialisations may stop part of the way, invalidations
 may fail, friendships may change in between, and instances and sessions come and go.
 */
module FeedNotification {
  import opened Wrappers
  import opened PostFeed
  import opened FeedPaging
  import W = WsDelivery

  /** An application instance. */
  datatype Node = Node(
    ws: W.Instance,                 // its sessions, and what it has processed
    copies: seq<Post>,              // its queue, bound to ws-fanout when it was launched
    acks: seq<bool>)                // for each message processed: was the copy acknowledged or put back?

  /** When posts were materialised, on a clock that counts the deliveries to the feed consumer. */
  datatype Times = Times(
    now: nat,
    done: map<nat, nat>,            // when a post was last pushed to every list it belongs to
    pushed: map<nat, nat>)          // when it was last pushed to any list

  datatype System = System(
    feed: State,
    times: Times,
    fanout: set<Post>,              // messages published to ws-fanout
    stale: set<string>,             // users whose list lacks a new friend's posts, as the follow did not drop it
    nodes: seq<Node>)

  datatype Action =
    | Call(step: Step)              // any step of the feed other than the consumer's
    | Consume(event: Post, missed: set<string>, acked: bool, published: bool)  // materialise, then publish
    | Launch                        // one more instance
    | Session(n: nat, change: W.Step)
    | Notify(n: nat, acked: bool)   // instance n processes the oldest of its copies

  const START := System(INIT, Times(0, map[], map[]), {}, {}, [])

  predicate Possible(y: System, action: Action) {
    match action
    case Call(step) => !step.Process? && Enabled(y.feed, step)
    case Consume(event, missed, acked, published) =>
      event in y.feed.queue && (published ==> missed == {}) && (acked ==> published)
    case Launch => true
    case Session(n, change) => n < |y.nodes| && !change.Notify?
    case Notify(n, acked) => n < |y.nodes| && y.nodes[n].copies != []
  }

  ghost function Act(y: System, action: Action): System
    requires Possible(y, action)
  {
    match action
    case Call(step) => y.(feed := Next(y.feed, step), stale := StaleAfter(y, step))
    case Consume(event, missed, acked, published) =>
      y.(feed := Next(y.feed, Process(event, missed, acked)),
         times := Pushed(y.times, event.id, missed == {}),
         fanout := if published then y.fanout + {event} else y.fanout,
         nodes := if published then WithCopy(y.nodes, event) else y.nodes)
    case Launch => y.(nodes := y.nodes + [Node(W.EMPTY, [], [])])
    case Session(n, change) =>
      y.(nodes := y.nodes[n := y.nodes[n].(ws := W.Next(y.nodes[n].ws, change))])
    case Notify(n, acked) => y.(nodes := y.nodes[n := Processed(y.nodes[n], y.feed.friends, acked)])
  }

  /** A list stays stale until it is dropped. */
  ghost function StaleAfter(y: System, step: Step): set<string>
    requires Enabled(y.feed, step)
  {
    var kept := step.Follow? && !step.dropped && !PlacesAll(y, step.user, step.friend);
    (y.stale + if kept then {step.user} else {}) * Next(y.feed, step).cache.Keys
  }

  /** Has every materialised post of `author` its place in the list of `user`, if there is one? */
  ghost predicate PlacesAll(y: System, user: string, author: string) {
    user in y.feed.cache ==>
      forall p :: p in y.feed.posts && p.author == author && p.id in y.times.done ==>
        Placed(y.times, y.feed.cache[user], p.id)
  }

  function Pushed(times: Times, id: nat, everywhere: bool): Times {
    Times(times.now + 1,
          if everywhere then times.done[id := times.now] else times.done,
          times.pushed[id := times.now])
  }

  /** The exchange puts a copy into every queue bound to it. */
  function WithCopy(nodes: seq<Node>, message: Post): (after: seq<Node>)
    ensures |after| == |nodes|
  {
    seq(|nodes|, n requires 0 <= n < |nodes| => nodes[n].(copies := nodes[n].copies + [message]))
  }

  /** The oldest copy is pushed to the followers of the moment, and acknowledged or put back. */
  ghost function Processed(node: Node, friends: set<(string, string)>, acked: bool): Node
    requires node.copies != []
  {
    Node(W.Next(node.ws, W.Notify(NoticeOf(friends, node.copies[0]))),
         if acked then node.copies[1..] else node.copies,
         node.acks + [acked])
  }

  /** The message, with the followers of its author at this moment. */
  function NoticeOf(friends: set<(string, string)>, message: Post): W.Notice {
    W.Notice(FollowersOf(friends, message.author), message)
  }

  ghost function RunOf(actions: seq<Action>): Option<System> {
    if actions == [] then Some(START)
    else
      var before := RunOf(actions[..|actions| - 1]);
      if before.Some? && Possible(before.value, actions[|actions| - 1])
      then Some(Act(before.value, actions[|actions| - 1]))
      else None
  }

  /* ---- Where materialised posts are ---- */

  /** Is `q` newer in a feed than post `id`: created later, or pushed later? */
  predicate Newer(times: Times, q: Post, id: nat) {
    q.id > id || (q.id in times.pushed && id in times.done && times.pushed[q.id] > times.done[id])
  }

  /** Only newer entries come before post `id`; if they leave no room for it the list is full. */
  ghost predicate PlacedAt(times: Times, list: seq<Post>, id: nat, i: nat) {
    && i <= |list|
    && (forall j :: 0 <= j < i ==> Newer(times, list[j], id))
    && (if i < |list| then list[i].id == id else |list| == MAX_FEED_SIZE)
  }

  ghost predicate Placed(times: Times, list: seq<Post>, id: nat) {
    exists i :: PlacedAt(times, list, id, i)
  }

  /** Every materialised post that still exists has its place in the list of every follower, unless stale. */
  ghost predicate AllPlaced(y: System) {
    forall p, u ::
      p in y.feed.posts && p.id in y.times.done && u in y.feed.cache && u !in y.stale &&
      Follows(y.feed.friends, u, p.author)
      ==> Placed(y.times, y.feed.cache[u], p.id)
  }

  ghost predicate InTime(times: Times, nextId: nat) {
    && (forall id :: id in times.done ==> times.done[id] < times.now && id < nextId)
    && (forall id :: id in times.pushed ==> times.pushed[id] < times.now)
  }

  ghost predicate Sound(y: System) {
    && Ordered(y.feed) && Capped(y.feed)
    && InTime(y.times, y.feed.nextId)
    && (forall e :: e in y.fanout ==> e.id in y.times.done)
    && Matching(y.feed.queue + y.fanout, y.feed.posts, y.feed.nextId)
    && y.stale <= y.feed.cache.Keys
    && AllPlaced(y)
  }

  lemma {:induction false} SelectPlaces(posts: seq<Post>, friends: set<(string, string)>, user: string, p: Post)
    returns (i: nat)
    requires forall i, j :: 0 <= i < j < |posts| ==> posts[i].id > posts[j].id
    requires p in posts && Follows(friends, user, p.author)
    ensures i < |Select(posts, friends, {}, user)|
    ensures Select(posts, friends, {}, user)[i] == p
    ensures forall j :: 0 <= j < i ==> Select(posts, friends, {}, user)[j].id > p.id
  {
    if posts[0] == p {
      i := 0;
    } else {
      i := SelectPlaces(posts[1..], friends, user, p);
      if Selected(posts[0], friends, {}, user) {
        i := i + 1;
      }
    }
  }

  /** A list loaded from the database places every post that its user reads. */
  lemma QueryPlaces(s: State, times: Times, user: string, p: Post)
    requires Ordered(s) && p in s.posts && Follows(s.friends, user, p.author)
    ensures Placed(times, Query(s, user), p.id)
  {
    var i := SelectPlaces(s.posts, s.friends, user, p);
    if i < MAX_FEED_SIZE {
      assert PlacedAt(times, Query(s, user), p.id, i);
    } else {
      assert PlacedAt(times, Query(s, user), p.id, MAX_FEED_SIZE);
    }
  }

  /** Materialising `event` moves every placed post one down, and puts its own post in front. */
  lemma PushPlaces(times: Times, event: Post, everywhere: bool, list: seq<Post>, id: nat)
    requires forall d :: d in times.done ==> times.done[d] < times.now
    requires forall d :: d in times.pushed ==> times.pushed[d] < times.now
    requires id == event.id || (id in times.done && Placed(times, list, id))
    ensures Placed(Pushed(times, event.id, everywhere), Cap([event] + list), id)
  {
    var times' := Pushed(times, event.id, everywhere);
    var list' := Cap([event] + list);
    if id == event.id {
      assert PlacedAt(times', list', id, 0);
    } else {
      var i: nat :| PlacedAt(times, list, id, i);
      PlacedAtKept(times, event.id, everywhere, list, id, i);
      var k: nat := if i + 1 <= MAX_FEED_SIZE then i + 1 else MAX_FEED_SIZE;
      assert forall j :: 0 <= j < |list'| ==> list'[j] == if j == 0 then event else list[j - 1];
      assert PlacedAt(times', list', id, k);
    }
  }

  /** Elsewhere, posts other than the one pushed keep their places; so does it, where it is missed. */
  lemma PlacedAtKept(times: Times, event: nat, everywhere: bool, list: seq<Post>, id: nat, i: nat)
    requires forall d :: d in times.pushed ==> times.pushed[d] < times.now
    requires id in times.done && PlacedAt(times, list, id, i) && (id == event ==> !everywhere)
    ensures PlacedAt(Pushed(times, event, everywhere), list, id, i)
  {
    forall j | 0 <= j < i ensures Newer(Pushed(times, event, everywhere), list[j], id) {
      assert Newer(times, list[j], id);
    }
  }

  lemma PlacedAfterConsume(y: System, event: Post, missed: set<string>, acked: bool, p: Post, u: string)
    requires Sound(y) && Enabled(y.feed, Process(event, missed, acked))
    requires p in y.feed.posts && u in y.feed.cache && u !in y.stale && Follows(y.feed.friends, u, p.author)
    requires p.id in Pushed(y.times, event.id, missed == {}).done
    ensures Placed(Pushed(y.times, event.id, missed == {}),
                   Next(y.feed, Process(event, missed, acked)).cache[u], p.id)
  {
    if Follows(y.feed.friends, u, event.author) && u !in missed {
      PushPlaces(y.times, event, missed == {}, y.feed.cache[u], p.id);
    } else {
      if missed == {} {
        var k :| 0 <= k < |y.feed.posts| && y.feed.posts[k] == p;
        assert p.id != event.id;
      }
      var i: nat :| PlacedAt(y.times, y.feed.cache[u], p.id, i);
      PlacedAtKept(y.times, event.id, missed == {}, y.feed.cache[u], p.id, i);
    }
  }

  lemma AllPlacedConsume(y: System, action: Action)
    requires Sound(y) && action.Consume? && Possible(y, action)
    ensures AllPlaced(Act(y, action))
  {
    var z := Act(y, action);
    forall p, u | p in z.feed.posts && p.id in z.times.done && u in z.feed.cache && u !in z.stale &&
                  Follows(z.feed.friends, u, p.author)
      ensures Placed(z.times, z.feed.cache[u], p.id)
    {
      PlacedAfterConsume(y, action.event, action.missed, action.acked, p, u);
    }
  }

  lemma MatchingConsume(y: System, action: Action)
    requires Sound(y) && action.Consume? && Possible(y, action)
    ensures Matching(Act(y, action).feed.queue + Act(y, action).fanout, y.feed.posts, y.feed.nextId)
  {
    assert Act(y, action).feed.queue + Act(y, action).fanout == y.feed.queue + y.fanout;
  }

  lemma FeedAfterConsume(y: System, action: Action)
    requires Sound(y) && action.Consume? && Possible(y, action)
    ensures Ordered(Act(y, action).feed) && Capped(Act(y, action).feed)
    ensures Act(y, action).feed.posts == y.feed.posts && Act(y, action).feed.nextId == y.feed.nextId
    ensures Act(y, action).feed.cache.Keys == y.feed.cache.Keys
  {
    OrderedStep(y.feed, Process(action.event, action.missed, action.acked));
    CappedStep(y.feed, Process(action.event, action.missed, action.acked));
  }

  lemma InTimeConsume(y: System, action: Action)
    requires Sound(y) && action.Consume? && Possible(y, action)
    ensures InTime(Act(y, action).times, y.feed.nextId)
    ensures forall e :: e in Act(y, action).fanout ==> e.id in Act(y, action).times.done
  {
  }

  lemma SoundConsume(y: System, action: Action)
    requires Sound(y) && action.Consume? && Possible(y, action)
    ensures Sound(Act(y, action))
  {
    FeedAfterConsume(y, action);
    InTimeConsume(y, action);
    AllPlacedConsume(y, action);
    MatchingConsume(y, action);
  }

  /** A post in the state after a handler call was there before, unless it is the one just created. */
  lemma PostBefore(s: State, step: Step, p: Post)
    requires !step.Process? && p in Next(s, step).posts
    ensures p.id == s.nextId || exists q :: q in s.posts && q.id == p.id && q.author == p.author
  {
    var t := Next(s, step);
    match step
    case Update(id, text, dropped) =>
      var k :| 0 <= k < |t.posts| && t.posts[k] == p;
      assert s.posts[k] in s.posts && s.posts[k].id == p.id && s.posts[k].author == p.author;
    case _ =>
  }

  lemma CacheBefore(y: System, step: Step, u: string)
    requires !step.Process? && y.stale <= y.feed.cache.Keys
    requires u in Next(y.feed, step).cache && u !in StaleAfter(y, step)
    ensures u in y.feed.cache ==>
      && Next(y.feed, step).cache[u] == y.feed.cache[u] && u !in y.stale
      && forall a :: Follows(Next(y.feed, step).friends, u, a) ==> Follows(y.feed.friends, u, a) || PlacesAll(y, u, a)
    ensures u !in y.feed.cache ==> step == Read(u) && Next(y.feed, step).cache[u] == Query(y.feed, u)
  {
  }

  /** Messages that were published match their posts as long as those exist, like the events they come from. */
  lemma MatchingCall(y: System, step: Step)
    requires Sound(y) && !step.Process?
    ensures Matching(Next(y.feed, step).queue + y.fanout, Next(y.feed, step).posts, Next(y.feed, step).nextId)
  {
    var s := y.feed.(queue := y.feed.queue + y.fanout);
    if step.Create? {
      var p := Post(s.nextId, step.author, step.text);
      MatchingCreate(s.queue, s.posts, p);
      assert Next(y.feed, step).queue + y.fanout == if step.published then s.queue + {p} else s.queue;
    } else {
      SameButQueue(y.feed, s, step);
      OrderedStep(s, step);
    }
  }

  /** What a handler other than create does to the posts does not depend on the queue, which it leaves alone. */
  lemma SameButQueue(s: State, t: State, step: Step)
    requires t == s.(queue := t.queue) && !step.Create? && !step.Process?
    ensures Next(s, step).queue == s.queue && Next(t, step).queue == t.queue
    ensures Next(t, step).posts == Next(s, step).posts
    ensures Next(t, step).nextId == Next(s, step).nextId == s.nextId
  {
  }

  lemma AllPlacedCall(y: System, step: Step)
    requires Sound(y) && !step.Process?
    ensures AllPlaced(Act(y, Call(step)))
  {
    var z := Act(y, Call(step));
    forall p, u | p in z.feed.posts && p.id in z.times.done && u in z.feed.cache && u !in z.stale &&
                  Follows(z.feed.friends, u, p.author)
      ensures Placed(z.times, z.feed.cache[u], p.id)
    {
      PostBefore(y.feed, step, p);
      CacheBefore(y, step, u);
      if u !in y.feed.cache {
        QueryPlaces(y.feed, y.times, u, p);
      } else {
        PlacedBefore(y, u, p.id, p.author);
      }
    }
  }

  lemma PlacedBefore(y: System, u: string, id: nat, author: string)
    requires AllPlaced(y) && u in y.feed.cache && u !in y.stale && id in y.times.done
    requires exists q :: q in y.feed.posts && q.id == id && q.author == author
    requires Follows(y.feed.friends, u, author) || PlacesAll(y, u, author)
    ensures Placed(y.times, y.feed.cache[u], id)
  {
  }

  lemma NextIdGrows(s: State, step: Step)
    requires Enabled(s, step)
    ensures Next(s, step).nextId >= s.nextId
  {
  }

  lemma SoundCall(y: System, step: Step)
    requires Sound(y) && !step.Process?
    ensures Sound(Act(y, Call(step)))
  {
    OrderedStep(y.feed, step);
    CappedStep(y.feed, step);
    NextIdGrows(y.feed, step);
    MatchingCall(y, step);
    AllPlacedCall(y, step);
  }

  /** What instances and sessions do leaves the feed alone. */
  lemma FeedKept(y: System, action: Action)
    requires Possible(y, action) && !action.Call? && !action.Consume?
    ensures Act(y, action) == y.(nodes := Act(y, action).nodes)
  {
  }

  lemma SoundStep(y: System, action: Action)
    requires Sound(y) && Possible(y, action)
    ensures Sound(Act(y, action))
  {
    if action.Call? {
      SoundCall(y, action.step);
    } else if action.Consume? {
      SoundConsume(y, action);
    } else {
      FeedKept(y, action);
    }
  }

  lemma {:induction false} SoundRun(actions: seq<Action>)
    requires RunOf(actions).Some?
    ensures Sound(RunOf(actions).value)
  {
    if actions != [] {
      var before := actions[..|actions| - 1];
      SoundRun(before);
      SoundStep(RunOf(before).value, actions[|actions| - 1]);
    }
  }

  /* ---- What instances push ---- */

  /** The instance only ever held and pushed messages that were published. */
  ghost predicate Listening(node: Node, fanout: set<Post>) {
    && W.Sound(node.ws)
    && (forall m :: m in node.copies ==> m in fanout)
    && (forall s, m :: s in node.ws.queues && m in node.ws.queues[s] ==> m in fanout)
  }

  ghost predicate AllListening(y: System) {
    forall n :: 0 <= n < |y.nodes| ==> Listening(y.nodes[n], y.fanout)
  }

  lemma ListeningNotify(node: Node, friends: set<(string, string)>, acked: bool, fanout: set<Post>)
    requires Listening(node, fanout) && node.copies != []
    ensures Listening(Processed(node, friends, acked), fanout)
  {
    W.SoundNotify(node.ws, NoticeOf(friends, node.copies[0]));
    assert node.copies[0] in fanout;
  }

  lemma ListeningSession(node: Node, change: W.Step, fanout: set<Post>)
    requires Listening(node, fanout) && !change.Notify?
    ensures Listening(node.(ws := W.Next(node.ws, change)), fanout)
  {
    W.SoundStep(node.ws, change);
  }

  lemma ListeningCopy(node: Node, message: Post, fanout: set<Post>)
    requires Listening(node, fanout)
    ensures Listening(node.(copies := node.copies + [message]), fanout + {message})
  {
  }

  lemma ListeningStep(y: System, action: Action)
    requires AllListening(y) && Possible(y, action)
    ensures AllListening(Act(y, action))
  {
    match action
    case Notify(n, acked) => ListeningNotify(y.nodes[n], y.feed.friends, acked, y.fanout);
    case Session(n, change) => ListeningSession(y.nodes[n], change, y.fanout);
    case Consume(event, _, _, published) =>
      forall n | 0 <= n < |y.nodes| && published ensures Listening(Act(y, action).nodes[n], Act(y, action).fanout) {
        ListeningCopy(y.nodes[n], event, y.fanout);
      }
    case _ =>
  }

  lemma {:induction false} ListeningRun(actions: seq<Action>)
    requires RunOf(actions).Some?
    ensures AllListening(RunOf(actions).value)
  {
    if actions != [] {
      var before := actions[..|actions| - 1];
      ListeningRun(before);
      ListeningStep(RunOf(before).value, actions[|actions| - 1]);
    }
  }

  /** The first 1000 entries of the feed contain post `id`, or are all newer. */
  ghost predicate ReadBack(y: System, user: string, id: nat) {
    var feed := Feed(y.feed, user);
    && Shown(y.feed, user, 0, MAX_FEED_SIZE) == Ok(feed)
    && ((exists q :: q in feed && q.id == id) ||
        (|feed| == MAX_FEED_SIZE && forall q :: q in feed ==> Newer(y.times, q, id)))
  }

  lemma PublishedIsReadBack(y: System, user: string, message: Post, p: Post)
    requires Sound(y) && message in y.fanout && user !in y.stale
    requires p in y.feed.posts && p.id == message.id && Follows(y.feed.friends, user, message.author)
    ensures ReadBack(y, user, message.id)
  {
    var k :| 0 <= k < |y.feed.posts| && y.feed.posts[k] == p;
    assert message in y.feed.queue + y.fanout && p.author == message.author;
    ReadBackIfPlaced(y, user, p);
  }

  /**
   Once a session has been told of a post, on any instance and at any time, a read of the first 1000
   entries of its user's feed contains that post, as long as it exists and its author is followed, or else
   1000 newer entries have displaced it; unless the user's list lacks posts of a new friend, because the
   follow failed to drop it.
   */
  lemma {:induction false} NotificationCanBeReadBack(actions: seq<Action>, n: nat, s: nat, message: Post, p: Post)
    requires RunOf(actions).Some?
    requires n < |RunOf(actions).value.nodes|
    requires var w := RunOf(actions).value.nodes[n].ws;
      && s in w.queues && message in w.queues[s] && s in w.owner
      && Follows(RunOf(actions).value.feed.friends, w.owner[s], message.author)
      && w.owner[s] !in RunOf(actions).value.stale
    requires p in RunOf(actions).value.feed.posts && p.id == message.id
    ensures ReadBack(RunOf(actions).value, RunOf(actions).value.nodes[n].ws.owner[s], message.id)
  {
    SoundRun(actions);
    ListeningRun(actions);
    var y := RunOf(actions).value;
    assert Listening(y.nodes[n], y.fanout);
    PublishedIsReadBack(y, y.nodes[n].ws.owner[s], message, p);
  }

  /** Is `s` a session that a message of `author` must reach? */
  predicate Listens(w: W.Instance, friends: set<(string, string)>, s: nat, author: string) {
    s in w.open && s in w.live && s in w.owner && Follows(friends, w.owner[s], author)
  }

  /**
   When an instance processes a copy, exactly the open live sessions of the author's followers get it, once
   each, and each of their users can read it back at that moment.
   */
  lemma {:induction false} NotifiedCanReadBack(actions: seq<Action>, n: nat, acked: bool, s: nat)
    requires RunOf(actions).Some? && Possible(RunOf(actions).value, Notify(n, acked))
    requires s in RunOf(actions).value.nodes[n].ws.queues
    ensures var y := RunOf(actions).value;
      var w, message, z := y.nodes[n].ws, y.nodes[n].copies[0], Act(y, Notify(n, acked));
      var told := Listens(w, y.feed.friends, s, message.author);
      && s in z.nodes[n].ws.queues
      && z.nodes[n].ws.queues[s] == w.queues[s] + (if told then [message] else [])
      && (told && w.owner[s] !in y.stale && (exists p :: p in y.feed.posts && p.id == message.id) ==>
            ReadBack(z, w.owner[s], message.id))
  {
    SoundRun(actions);
    ListeningRun(actions);
    var y := RunOf(actions).value;
    var w, message, z := y.nodes[n].ws, y.nodes[n].copies[0], Act(y, Notify(n, acked));
    assert Listening(y.nodes[n], y.fanout) && message in y.fanout;
    assert s in w.open && s in w.live ==> W.Served(w, s);
    W.NotifyReaches(w, NoticeOf(y.feed.friends, message), s);
    if Listens(w, y.feed.friends, s, message.author) && w.owner[s] !in y.stale {
      if p :| p in y.feed.posts && p.id == message.id {
        FeedKept(y, Notify(n, acked));
        PublishedIsReadBack(z, w.owner[s], message, p);
      }
    }
  }

  /**
   Over a whole run, a session's queue is exactly the messages its instance processed since it subscribed
   whose author its user then followed, in order and once for each time they were processed.
   */
  lemma {:induction false} SessionsHear(actions: seq<Action>, n: nat, s: nat)
    requires RunOf(actions).Some? && n < |RunOf(actions).value.nodes|
    requires var w := RunOf(actions).value.nodes[n].ws;
      s in w.open && s in w.live
    ensures W.Served(RunOf(actions).value.nodes[n].ws, s)
  {
    ListeningRun(actions);
    assert Listening(RunOf(actions).value.nodes[n], RunOf(actions).value.fanout);
  }

  /** Every materialised post that still exists can be read back by `user`, if its author is followed. */
  ghost predicate ReadsAll(y: System, user: string) {
    forall p :: p in y.feed.posts && p.id in y.times.done && Follows(y.feed.friends, user, p.author) ==>
      ReadBack(y, user, p.id)
  }

  lemma ReadBackIfPlaced(y: System, user: string, p: Post)
    requires Sound(y) && p in y.feed.posts && Follows(y.feed.friends, user, p.author)
    requires user in y.feed.cache ==> Placed(y.times, y.feed.cache[user], p.id)
    ensures ReadBack(y, user, p.id)
  {
    if user !in y.feed.cache {
      QueryPlaces(y.feed, y.times, user, p);
    }
    WholeFeed(y.feed, user);
    var feed := Feed(y.feed, user);
    var i: nat :| PlacedAt(y.times, feed, p.id, i);
    if i < |feed| {
      assert feed[i] in feed;
    }
  }

  /** In every run, whoever's list is not stale can read back every materialised post. */
  lemma {:induction false} FreshReadsAll(actions: seq<Action>, user: string)
    requires RunOf(actions).Some? && user !in RunOf(actions).value.stale
    ensures ReadsAll(RunOf(actions).value, user)
  {
    SoundRun(actions);
    var y := RunOf(actions).value;
    forall p | p in y.feed.posts && p.id in y.times.done && Follows(y.feed.friends, user, p.author)
      ensures ReadBack(y, user, p.id)
    {
      ReadBackIfPlaced(y, user, p);
    }
  }

  /** Is post `id` in the user's list, or the list full of newer ones? */
  ghost predicate InListOrDisplaced(y: System, user: string, id: nat)
    requires user in y.feed.cache
  {
    || (exists q :: q in y.feed.cache[user] && q.id == id)
    || (|y.feed.cache[user]| == MAX_FEED_SIZE && forall q :: q in y.feed.cache[user] ==> Newer(y.times, q, id))
  }

  lemma ReadBackFromList(y: System, user: string, id: nat)
    requires Capped(y.feed) && user in y.feed.cache
    ensures ReadBack(y, user, id) <==> InListOrDisplaced(y, user, id)
  {
    WholeFeed(y.feed, user);
  }

  ghost predicate ShowsAlready(y: System, user: string, friend: string)
    requires user in y.feed.cache
  {
    forall p :: p in y.feed.posts && p.author == friend && p.id in y.times.done ==> InListOrDisplaced(y, user, p.id)
  }

  /** What a user reads from a list does not depend on friendships. */
  lemma SameList(y: System, z: System, user: string, id: nat)
    requires Capped(y.feed) && user in y.feed.cache
    requires z.feed.cache == y.feed.cache && z.times == y.times
    ensures ReadBack(z, user, id) <==> ReadBack(y, user, id)
  {
    ReadBackFromList(y, user, id);
    ReadBackFromList(z, user, id);
  }

  /**
   After any run, a follow that fails to drop the list of its user hides something from that user if and
   only if the list lacks a materialised post of the new friend and is not full of newer ones.
   */
  lemma {:induction false} FollowHidesExactly(actions: seq<Action>, user: string, friend: string)
    requires RunOf(actions).Some?
    requires user in RunOf(actions).value.feed.cache && user !in RunOf(actions).value.stale
    ensures var y := RunOf(actions).value;
      ReadsAll(Act(y, Call(Follow(user, friend, false))), user) <==> ShowsAlready(y, user, friend)
  {
    FreshReadsAll(actions, user);
    SoundRun(actions);
    var y := RunOf(actions).value;
    var z := Act(y, Call(Follow(user, friend, false)));
    forall p | p in y.feed.posts && p.id in y.times.done
      ensures ReadBack(z, user, p.id) <==> InListOrDisplaced(y, user, p.id)
      ensures Follows(y.feed.friends, user, p.author) ==> ReadBack(z, user, p.id)
    {
      SameList(y, z, user, p.id);
      ReadBackFromList(y, user, p.id);
    }
  }
}
