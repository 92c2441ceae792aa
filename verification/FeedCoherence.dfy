/** When the cached feeds agree with the query: the exact condition on every step, for every run. */
module FeedCoherence {
  import opened Wrappers
  import opened PostFeed
  import opened FeedSelection

  /** Every cached list is the query without the posts that are still queued. */
  ghost predicate Coherent(s: State) {
    forall u :: u in s.cache ==> s.cache[u] == Materialised(s, u) && s.cache[u] != []
  }

  /** Has a user with a cached list befriended `author`? */
  ghost predicate HasCachedFollower(s: State, author: string) { Reaches(s, author, {}) }

  /** Is there a cached list of a follower of `author` other than those missed? */
  ghost predicate Reaches(s: State, author: string, missed: set<string>) {
    exists u :: u in s.cache && Follows(s.friends, u, author) && u !in missed
  }

  /** Is the post in no cached list? */
  ghost predicate Unlisted(s: State, p: Post) { forall u :: u in s.cache ==> p !in s.cache[u] }

  /** Is the user's list full of posts newer than all that `friend` has and that are not queued? */
  ghost predicate FullOfNewer(s: State, user: string, friend: string)
    requires user in s.cache
  {
    forall p :: p in s.posts && p.author == friend && p.id !in Ids(s.queue) ==>
      |s.cache[user]| == MAX_FEED_SIZE && p.id < s.cache[user][MAX_FEED_SIZE - 1].id
  }

  /** Is everything newer that a cached follower reads still queued behind `event`? */
  ghost predicate InOrder(s: State, event: Post) {
    forall u, p ::
      u in s.cache && Follows(s.friends, u, event.author) &&
      p in s.posts && p.id > event.id && Follows(s.friends, u, p.author)
      ==> p.id in Ids(s.queue)
  }

  /**
   The condition under which a step keeps the caches coherent: a post whose event is lost concerns no
   cached list; a feed is not loaded while a post it shows is queued; an event that reaches a cached list
   is acknowledged, says what the database says, and comes in order; and an invalidation only fails when
   the change does not show in any list it should have dropped.
   */
  ghost predicate Guard(s: State, step: Step) {
    match step
    case Create(author, text, published) => published || !HasCachedFollower(s, author)
    case Update(id, text, dropped) =>
      var i := Find(s.posts, id);
      dropped || i == |s.posts| || text == s.posts[i].text || Unlisted(s, s.posts[i])
    case Delete(id, dropped) =>
      var i := Find(s.posts, id);
      dropped || i == |s.posts| || Unlisted(s, s.posts[i])
    case Follow(user, friend, dropped) =>
      dropped || user !in s.cache || Follows(s.friends, user, friend) || FullOfNewer(s, user, friend)
    case Unfollow(user, friend, dropped) =>
      dropped || user !in s.cache || forall p :: p in s.cache[user] ==> p.author != friend
    case Read(user) => user in s.cache || forall p :: p in Query(s, user) ==> p.id !in Ids(s.queue)
    case Process(event, missed, acked) =>
      !Reaches(s, event.author, missed) || (acked && event in s.posts && InOrder(s, event))
  }

  /* ---- Create ---- */

  lemma GoodCreate(s: State, author: string, text: string, published: bool)
    requires Ordered(s) && Coherent(s) && Guard(s, Create(author, text, published))
    ensures Coherent(Next(s, Create(author, text, published)))
  {
    forall u | u in s.cache
      ensures Materialised(Next(s, Create(author, text, published)), u) == Materialised(s, u)
    {
      CreateHidden(s, author, text, published, u);
    }
  }

  /** A queued post is not materialised yet; a post of someone else is not selected at all. */
  lemma CreateHidden(s: State, author: string, text: string, published: bool, u: string)
    requires Ordered(s) && (published || !Follows(s.friends, u, author))
    ensures Materialised(Next(s, Create(author, text, published)), u) == Materialised(s, u)
  {
    var t := Next(s, Create(author, text, published));
    assert t.posts[1..] == s.posts;
    assert published ==> t.posts[0] in t.queue;
    SelectAgree(s.posts, s.friends, Ids(s.queue), t.friends, Ids(t.queue), u);
  }

  /** A post whose publish failed is missing from the list of every follower who has one. */
  lemma BadCreate(s: State, author: string, text: string, published: bool)
    requires Ordered(s) && Coherent(s) && !Guard(s, Create(author, text, published))
    ensures !Coherent(Next(s, Create(author, text, published)))
  {
    var t := Next(s, Create(author, text, published));
    var u :| u in s.cache && Follows(s.friends, u, author);
    MaterialisedMembers(s, u);
    assert t.posts[0] == Materialised(t, u)[0];
    assert s.cache[u][0] in Materialised(s, u);
  }

  /* ---- Update, Delete, Follow, Unfollow ---- */

  lemma NotShown(s: State, u: string, p: Post)
    requires Coherent(s) && u in s.cache && (Unlisted(s, p) || !Follows(s.friends, u, p.author))
    ensures p !in Top(MAX_FEED_SIZE, s.posts, s.friends, Ids(s.queue), u)
  {
    MaterialisedMembers(s, u);
    assert s.cache[u] == Materialised(s, u);
  }

  lemma GoodUpdate(s: State, id: nat, text: string, dropped: bool)
    requires Coherent(s) && Guard(s, Update(id, text, dropped))
    ensures Coherent(Updated(s, id, text, dropped))
  {
    var t := Updated(s, id, text, dropped);
    var i := Find(s.posts, id);
    if i < |s.posts| {
      if text == s.posts[i].text {
        assert t.posts == s.posts;
      } else {
        forall u | u in t.cache ensures t.cache[u] == Materialised(t, u) {
          NotShown(s, u, s.posts[i]);
          SwapBeyond(MAX_FEED_SIZE, s.posts, i, t.posts[i], s.friends, Ids(s.queue), u);
        }
      }
    }
  }

  /** The list still shows the old text. */
  lemma BadUpdate(s: State, id: nat, text: string, dropped: bool)
    requires Ordered(s) && !Guard(s, Update(id, text, dropped))
    ensures !Coherent(Updated(s, id, text, dropped))
  {
    var t := Updated(s, id, text, dropped);
    var i := Find(s.posts, id);
    var shown := s.posts[i];
    var u :| u in s.cache && shown in s.cache[u];
    forall k | 0 <= k < |t.posts| ensures t.posts[k] != shown {
      assert k != i ==> s.posts[k].id != s.posts[i].id;
    }
    MaterialisedMembers(t, u);
    assert t.cache[u] == Materialised(t, u) ==> shown in Materialised(t, u);
  }

  lemma GoodDelete(s: State, id: nat, dropped: bool)
    requires Coherent(s) && Guard(s, Delete(id, dropped))
    ensures Coherent(Deleted(s, id, dropped))
  {
    var t := Deleted(s, id, dropped);
    var i := Find(s.posts, id);
    if i < |s.posts| {
      forall u | u in t.cache ensures t.cache[u] == Materialised(t, u) {
        NotShown(s, u, s.posts[i]);
        DropBeyond(MAX_FEED_SIZE, s.posts, i, s.friends, Ids(s.queue), u);
      }
    }
  }

  /** The list still shows the deleted post. */
  lemma BadDelete(s: State, id: nat, dropped: bool)
    requires Ordered(s) && !Guard(s, Delete(id, dropped))
    ensures !Coherent(Deleted(s, id, dropped))
  {
    var t := Deleted(s, id, dropped);
    var i := Find(s.posts, id);
    var shown := s.posts[i];
    var u :| u in s.cache && shown in s.cache[u];
    forall k | 0 <= k < |t.posts| ensures t.posts[k] != shown {
      assert t.posts[k] == s.posts[if k < i then k else k + 1];
    }
    MaterialisedMembers(t, u);
    assert t.cache[u] == Materialised(t, u) ==> shown in Materialised(t, u);
  }

  /** A change of what one user reads does not concern anybody else. */
  lemma OthersRead(s: State, user: string, friends: set<(string, string)>, dropped: bool)
    requires Coherent(s)
    requires forall u, a :: u != user ==> (Follows(friends, u, a) <==> Follows(s.friends, u, a))
    requires !dropped && user in s.cache ==>
      Materialised(Befriended(s, user, friends, dropped), user) == Materialised(s, user)
    ensures Coherent(Befriended(s, user, friends, dropped))
  {
    var t := Befriended(s, user, friends, dropped);
    forall u | u in t.cache ensures t.cache[u] == Materialised(t, u) {
      if u != user {
        SelectAgree(s.posts, s.friends, Ids(s.queue), friends, Ids(s.queue), u);
      }
    }
  }

  lemma GoodFollow(s: State, user: string, friend: string, dropped: bool)
    requires Ordered(s) && Coherent(s) && Guard(s, Follow(user, friend, dropped))
    ensures Coherent(Next(s, Follow(user, friend, dropped)))
  {
    if !dropped && user in s.cache {
      FollowUnseen(s, user, friend);
    }
    OthersRead(s, user, s.friends + {(user, friend)}, dropped);
  }

  /** Posts too old for a full list do not show when their author is followed. */
  lemma FollowUnseen(s: State, user: string, friend: string)
    requires Ordered(s) && Coherent(s) && user in s.cache
    requires Follows(s.friends, user, friend) || FullOfNewer(s, user, friend)
    ensures Top(MAX_FEED_SIZE, s.posts, s.friends + {(user, friend)}, Ids(s.queue), user) == Materialised(s, user)
  {
    var f, f', h := s.friends, s.friends + {(user, friend)}, Ids(s.queue);
    assert s.cache[user] == Top(MAX_FEED_SIZE, s.posts, f, h, user);
    if Follows(f, user, friend) || |s.cache[user]| < MAX_FEED_SIZE {
      SelectAgree(s.posts, f, h, f', h, user);
    } else {
      TopMore(MAX_FEED_SIZE, s.posts, f, h, f', user);
    }
  }

  /** The list lacks a post of the new friend that belongs there. */
  lemma BadFollow(s: State, user: string, friend: string)
    requires Ordered(s) && Coherent(s) && !Guard(s, Follow(user, friend, false))
    ensures !Coherent(Next(s, Follow(user, friend, false)))
  {
    var t := Next(s, Follow(user, friend, false));
    var p :| p in s.posts && p.author == friend && p.id !in Ids(s.queue) &&
             !(|s.cache[user]| == MAX_FEED_SIZE && p.id < s.cache[user][MAX_FEED_SIZE - 1].id);
    assert s.cache[user] == Materialised(s, user);
    MaterialisedMembers(s, user);
    if t.cache[user] == Materialised(t, user) {
      ShownOrOlder(t.posts, t.friends, Ids(t.queue), user, p);
    }
  }

  lemma GoodUnfollow(s: State, user: string, friend: string, dropped: bool)
    requires Coherent(s) && Guard(s, Unfollow(user, friend, dropped))
    ensures Coherent(Next(s, Unfollow(user, friend, dropped)))
  {
    var friends := s.friends - {(user, friend)};
    if !dropped && user in s.cache {
      MaterialisedMembers(s, user);
      assert s.cache[user] == Materialised(s, user);
      TopFewer(MAX_FEED_SIZE, s.posts, s.friends, Ids(s.queue), friends, Ids(s.queue), user);
    }
    OthersRead(s, user, friends, dropped);
  }

  /** The list still shows a post of the former friend. */
  lemma BadUnfollow(s: State, user: string, friend: string)
    requires !Guard(s, Unfollow(user, friend, false))
    ensures !Coherent(Next(s, Unfollow(user, friend, false)))
  {
    var t := Next(s, Unfollow(user, friend, false));
    var p :| p in s.cache[user] && p.author == friend;
    MaterialisedMembers(t, user);
    assert t.cache[user] == Materialised(t, user) ==> p in Materialised(t, user);
  }

  /* ---- Read ---- */

  lemma GoodRead(s: State, user: string)
    requires Coherent(s) && Guard(s, Read(user))
    ensures Coherent(Next(s, Read(user)))
  {
    if user !in s.cache && Query(s, user) != [] {
      QueryMembers(s, user);
      TopFewer(MAX_FEED_SIZE, s.posts, s.friends, {}, s.friends, Ids(s.queue), user);
    }
  }

  /** A feed loaded too early holds a post that its event will add again. */
  lemma BadRead(s: State, user: string)
    requires !Guard(s, Read(user))
    ensures !Coherent(Next(s, Read(user)))
  {
    var t := Next(s, Read(user));
    var p :| p in Query(s, user) && p.id in Ids(s.queue);
    assert t.cache[user] == Query(s, user);
    MaterialisedMembers(t, user);
    assert t.cache[user] == Materialised(t, user) ==> p in Materialised(t, user);
  }

  /* ---- Process ---- */

  lemma CapPush(p: Post, feed: seq<Post>)
    ensures Cap([p] + Cap(feed)) == Cap([p] + feed)
  {
  }

  lemma AckHides(queue: set<Post>, e: Post)
    requires e in queue && forall f :: f in queue && f.id == e.id ==> f == e
    ensures Ids(queue - {e}) == Ids(queue) - {e.id}
  {
  }

  lemma GoodProcess(s: State, event: Post, missed: set<string>, acked: bool)
    requires Ordered(s) && Coherent(s) && Enabled(s, Process(event, missed, acked))
    requires Guard(s, Process(event, missed, acked))
    ensures Coherent(Next(s, Process(event, missed, acked)))
  {
    var t := Next(s, Process(event, missed, acked));
    AckHides(s.queue, event);
    forall u | u in t.cache ensures t.cache[u] == Materialised(t, u) && t.cache[u] != [] {
      if !Follows(s.friends, u, event.author) {
        OthersMatch(s, t, event, u);
      } else if u !in missed {
        PushMatches(s, event, u);
      }
    }
  }

  lemma PushMatches(s: State, event: Post, u: string)
    requires Ordered(s) && Coherent(s) && event in s.queue && event in s.posts && InOrder(s, event)
    requires u in s.cache && Follows(s.friends, u, event.author)
    ensures Cap([event] + s.cache[u]) == Cap(Select(s.posts, s.friends, Ids(s.queue) - {event.id}, u))
  {
    assert event.id in Ids(s.queue);
    SelectReveal(s.posts, s.friends, Ids(s.queue), u, event);
    CapPush(event, Select(s.posts, s.friends, Ids(s.queue), u));
  }

  lemma OthersMatch(s: State, t: State, event: Post, u: string)
    requires Ordered(s) && event in s.queue && !Follows(s.friends, u, event.author)
    requires t.posts == s.posts && t.friends == s.friends
    requires Ids(t.queue) == Ids(s.queue) || Ids(t.queue) == Ids(s.queue) - {event.id}
    ensures Materialised(t, u) == Materialised(s, u)
  {
    forall p | p in s.posts
      ensures Selected(p, t.friends, Ids(t.queue), u) == Selected(p, s.friends, Ids(s.queue), u)
    {
      var i :| 0 <= i < |s.posts| && s.posts[i] == p;
      assert p.id == event.id ==> s.posts[i].author == event.author;
    }
    SelectAgree(s.posts, s.friends, Ids(s.queue), t.friends, Ids(t.queue), u);
  }

  /** Pushing an event that differs from the database makes a stale entry. */
  lemma StalePush(s: State, event: Post, missed: set<string>, acked: bool)
    requires Enabled(s, Process(event, missed, acked)) && event !in s.posts && Reaches(s, event.author, missed)
    ensures !Coherent(Next(s, Process(event, missed, acked)))
  {
    var t := Next(s, Process(event, missed, acked));
    var u :| u in s.cache && Follows(s.friends, u, event.author) && u !in missed;
    MaterialisedMembers(t, u);
    assert t.cache[u][0] == event;
    assert t.cache[u] == Materialised(t, u) ==> event in Materialised(t, u);
  }

  /** An event that stays queued will be pushed again. */
  lemma RepeatedPush(s: State, event: Post, missed: set<string>)
    requires event in s.queue && Reaches(s, event.author, missed)
    ensures !Coherent(Next(s, Process(event, missed, false)))
  {
    var t := Next(s, Process(event, missed, false));
    var u :| u in s.cache && Follows(s.friends, u, event.author) && u !in missed;
    MaterialisedMembers(t, u);
    assert event.id in Ids(t.queue) && t.cache[u][0] == event;
    assert t.cache[u] == Materialised(t, u) ==> event in Materialised(t, u);
  }

  /** An event that comes after a newer one is pushed to the wrong place. */
  lemma LatePush(s: State, event: Post)
    requires Ordered(s) && event in s.queue && !InOrder(s, event)
    ensures !Coherent(Next(s, Process(event, {}, true)))
  {
    var t := Next(s, Process(event, {}, true));
    AckHides(s.queue, event);
    MatchingFewer(s.queue, t.queue, s.posts, s.nextId);
    var u, p :| u in s.cache && Follows(s.friends, u, event.author) && p in s.posts && p.id > event.id &&
                Follows(s.friends, u, p.author) && p.id !in Ids(s.queue);
    HeadIsNewer(t, u, p);
    assert t.cache[u][0] == event;
  }

  lemma HeadIsNewer(s: State, u: string, p: Post)
    requires Ordered(s) && p in s.posts && Follows(s.friends, u, p.author) && p.id !in Ids(s.queue)
    ensures Materialised(s, u) != [] && Materialised(s, u)[0].id >= p.id
  {
    SelectHead(s.posts, s.friends, Ids(s.queue), u, p);
  }

  lemma BadProcess(s: State, event: Post, missed: set<string>, acked: bool)
    requires Ordered(s) && Enabled(s, Process(event, missed, acked)) && !Guard(s, Process(event, missed, acked))
    ensures !Coherent(Next(s, Process(event, missed, acked)))
  {
    if event !in s.posts {
      StalePush(s, event, missed, acked);
    } else if acked {
      LatePush(s, event);
    } else {
      RepeatedPush(s, event, missed);
    }
  }

  /* ---- The theorems ---- */

  /** A step keeps every cached list equal to the query, less what is queued, exactly under its guard. */
  lemma GuardIsExact(s: State, step: Step)
    requires Ordered(s) && Coherent(s) && Enabled(s, step)
    ensures Coherent(Next(s, step)) <==> Guard(s, step)
  {
    match step
    case Create(author, text, published) =>
      if Guard(s, step) { GoodCreate(s, author, text, published); } else { BadCreate(s, author, text, published); }
    case Update(id, text, dropped) =>
      if Guard(s, step) { GoodUpdate(s, id, text, dropped); } else { BadUpdate(s, id, text, dropped); }
    case Delete(id, dropped) =>
      if Guard(s, step) { GoodDelete(s, id, dropped); } else { BadDelete(s, id, dropped); }
    case Follow(user, friend, dropped) =>
      if Guard(s, step) { GoodFollow(s, user, friend, dropped); } else { BadFollow(s, user, friend); }
    case Unfollow(user, friend, dropped) =>
      if Guard(s, step) { GoodUnfollow(s, user, friend, dropped); } else { BadUnfollow(s, user, friend); }
    case Read(user) =>
      if Guard(s, step) { GoodRead(s, user); } else { BadRead(s, user); }
    case Process(event, missed, acked) =>
      if Guard(s, step) { GoodProcess(s, event, missed, acked); } else { BadProcess(s, event, missed, acked); }
  }

  /** In every state of the run each cached list is the query without the posts still queued. */
  ghost predicate AlwaysCoherent(steps: seq<Step>)
    requires Run(INIT, steps).Some?
  {
    && Coherent(Run(INIT, steps).value)
    && (steps == [] || AlwaysCoherent(steps[..|steps| - 1]))
  }

  ghost predicate AlwaysGuarded(steps: seq<Step>)
    requires Run(INIT, steps).Some?
  {
    steps == [] ||
    (var before := steps[..|steps| - 1];
     AlwaysGuarded(before) && Guard(Run(INIT, before).value, steps[|steps| - 1]))
  }

  /**
   The feed cache refines the query throughout a run exactly when every step of the run is taken under
   its guard.
   */
  lemma {:induction false} RefinesExactly(steps: seq<Step>)
    requires Run(INIT, steps).Some?
    ensures AlwaysCoherent(steps) <==> AlwaysGuarded(steps)
  {
    if steps != [] {
      var before := steps[..|steps| - 1];
      RefinesExactly(before);
      if AlwaysCoherent(before) {
        OrderedRun(before);
        assert Coherent(Run(INIT, before).value);
        GuardIsExact(Run(INIT, before).value, steps[|steps| - 1]);
      }
    }
  }
}
