/**
 The materialised post feed: posts and friendships in the database, events of new posts on their way
 to the feed consumer, and one capped list per user in Redis. Every handler or consumer call is one
 step, also when it fails part of the way: the row is written and the lists are not dropped, or only some
 of the followers' lists get the new post. A post's id is its place in the order of creation, which the
 query sorts by.
 */
module PostFeed {
  import opened Wrappers

  datatype Post = Post(id: nat, author: string, text: string)

  datatype State = State(
    posts: seq<Post>,                 // newest first
    nextId: nat,
    friends: set<(string, string)>,   // (user, friend): user reads the posts of friend
    queue: set<Post>,                 // events in feed-materialization that are not acknowledged
    cache: map<string, seq<Post>>)    // the list under feed:<user>; a present list is never empty

  datatype Step =
    | Create(author: string, text: string, published: bool)
    | Update(id: nat, text: string, dropped: bool)      // dropped: was the invalidation after the write done?
    | Delete(id: nat, dropped: bool)
    | Follow(user: string, friend: string, dropped: bool)
    | Unfollow(user: string, friend: string, dropped: bool)
    | Read(user: string)
    | Process(event: Post, missed: set<string>, acked: bool)  // missed: users not reached before it stopped

  const MAX_FEED_SIZE := 1000

  const INIT := State([], 0, {}, {}, map[])

  function Take(n: nat, feed: seq<Post>): seq<Post> {
    if |feed| > n then feed[..n] else feed
  }

  /** `LTRIM 0 999`, and the LIMIT of the query. */
  function Cap(feed: seq<Post>): seq<Post> { Take(MAX_FEED_SIZE, feed) }

  predicate Follows(friends: set<(string, string)>, user: string, author: string) { (user, author) in friends }

  function FollowersOf(friends: set<(string, string)>, author: string): (followers: set<string>)
    ensures forall u :: u in followers <==> Follows(friends, u, author)
  {
    set row | row in friends && row.1 == author :: row.0
  }

  /** `SELECT user_id FROM friendships WHERE friend_id = $1`, in whatever order rows come. */
  method SelectFollowers(friends: set<(string, string)>, author: string) returns (followers: seq<string>)
    ensures forall u :: u in followers <==> Follows(friends, u, author)
    ensures forall i, j :: 0 <= i < j < |followers| ==> followers[i] != followers[j]
  {
    var rest := FollowersOf(friends, author);
    followers := [];
    while rest != {}
      invariant forall u :: u in followers || u in rest <==> Follows(friends, u, author)
      invariant forall u :: u in followers ==> u !in rest
      invariant forall i, j :: 0 <= i < j < |followers| ==> followers[i] != followers[j]
      decreases rest
    {
      var u :| u in rest;
      followers := followers + [u];
      rest := rest - {u};
    }
  }

  /** The posts that `user` reads and that are not hidden, newest first. */
  function Select(posts: seq<Post>, friends: set<(string, string)>, hidden: set<nat>, user: string): seq<Post> {
    if posts == [] then []
    else
      (if Selected(posts[0], friends, hidden, user) then [posts[0]] else [])
      + Select(posts[1..], friends, hidden, user)
  }

  predicate Selected(p: Post, friends: set<(string, string)>, hidden: set<nat>, user: string) {
    Follows(friends, user, p.author) && p.id !in hidden
  }

  /** The friends query of `LoadFeedFromDb`. */
  function Query(s: State, user: string): seq<Post> { Cap(Select(s.posts, s.friends, {}, user)) }

  function Ids(queue: set<Post>): set<nat> { set e | e in queue :: e.id }

  /** The friends query as if the posts whose events are still queued did not exist yet. */
  function Materialised(s: State, user: string): seq<Post> {
    Cap(Select(s.posts, s.friends, Ids(s.queue), user))
  }

  /** The position of the post with this id, or the number of posts. */
  function Find(posts: seq<Post>, id: nat): (i: nat)
    ensures i <= |posts|
    ensures i < |posts| ==> posts[i].id == id
    ensures i == |posts| ==> forall j :: 0 <= j < |posts| ==> posts[j].id != id
  {
    if posts == [] || posts[0].id == id then 0 else Find(posts[1..], id) + 1
  }

  function Without(posts: seq<Post>, i: nat): (rest: seq<Post>)
    requires i < |posts|
    ensures |rest| == |posts| - 1
    ensures forall k :: 0 <= k < |rest| ==> rest[k] == posts[if k < i then k else k + 1]
  {
    posts[..i] + posts[i + 1..]
  }

  function DropFollowersOf(cache: map<string, seq<Post>>, friends: set<(string, string)>, author: string)
    : map<string, seq<Post>>
  {
    map u | u in cache && !Follows(friends, u, author) :: cache[u]
  }

  /** `OnPostCreated`: only lists that exist are extended, and only those it gets to. */
  function Push(cache: map<string, seq<Post>>, friends: set<(string, string)>, p: Post, missed: set<string>)
    : map<string, seq<Post>>
  {
    map u | u in cache :: if Follows(friends, u, p.author) && u !in missed then Cap([p] + cache[u]) else cache[u]
  }

  predicate Enabled(s: State, step: Step) {
    step.Process? ==> step.event in s.queue && (step.acked ==> step.missed == {})
  }

  function Next(s: State, step: Step): State
    requires Enabled(s, step)
  {
    match step
    case Create(author, text, published) =>
      var p := Post(s.nextId, author, text);
      s.(posts := [p] + s.posts, nextId := s.nextId + 1, queue := if published then s.queue + {p} else s.queue)
    case Update(id, text, dropped) => Updated(s, id, text, dropped)
    case Delete(id, dropped) => Deleted(s, id, dropped)
    case Follow(user, friend, dropped) => Befriended(s, user, s.friends + {(user, friend)}, dropped)
    case Unfollow(user, friend, dropped) => Befriended(s, user, s.friends - {(user, friend)}, dropped)
    case Read(user) =>
      if user in s.cache || Query(s, user) == [] then s
      else s.(cache := s.cache[user := Query(s, user)])
    case Process(event, missed, acked) =>
      s.(cache := Push(s.cache, s.friends, event, missed), queue := if acked then s.queue - {event} else s.queue)
  }

  function Updated(s: State, id: nat, text: string, dropped: bool): State {
    var i := Find(s.posts, id);
    if i == |s.posts| then s
    else s.(posts := s.posts[i := s.posts[i].(text := text)],
            cache := if dropped then DropFollowersOf(s.cache, s.friends, s.posts[i].author) else s.cache)
  }

  function Deleted(s: State, id: nat, dropped: bool): State {
    var i := Find(s.posts, id);
    if i == |s.posts| then s
    else s.(posts := Without(s.posts, i),
            cache := if dropped then DropFollowersOf(s.cache, s.friends, s.posts[i].author) else s.cache)
  }

  function Befriended(s: State, user: string, friends: set<(string, string)>, dropped: bool): State {
    s.(friends := friends, cache := if dropped then s.cache - {user} else s.cache)
  }

  /** The list a user is shown: the cached one, or else the query. */
  function Feed(s: State, user: string): seq<Post> {
    if user in s.cache then s.cache[user] else Query(s, user)
  }

  /** A list that is present is not empty, and not too long. */
  ghost predicate Capped(s: State) {
    forall u :: u in s.cache ==> 0 < |s.cache[u]| <= MAX_FEED_SIZE
  }

  lemma CappedStep(s: State, step: Step)
    requires Capped(s) && Enabled(s, step)
    ensures Capped(Next(s, step))
  {
  }

  ghost function Run(s: State, steps: seq<Step>): Option<State> {
    if steps == [] then Some(s)
    else
      var before := Run(s, steps[..|steps| - 1]);
      if before.Some? && Enabled(before.value, steps[|steps| - 1])
      then Some(Next(before.value, steps[|steps| - 1]))
      else None
  }

  /** Ids fall along the posts. */
  ghost predicate Falling(posts: seq<Post>, nextId: nat) {
    && (forall i, j :: 0 <= i < j < |posts| ==> posts[i].id > posts[j].id)
    && (forall i :: 0 <= i < |posts| ==> posts[i].id < nextId)
  }

  /** An event carries the id and the author of its post. */
  ghost predicate Matching(queue: set<Post>, posts: seq<Post>, nextId: nat) {
    && (forall e :: e in queue ==> e.id < nextId)
    && (forall e, f :: e in queue && f in queue && e.id == f.id ==> e == f)
    && (forall e, i :: e in queue && 0 <= i < |posts| && e.id == posts[i].id ==> e.author == posts[i].author)
  }

  ghost predicate Ordered(s: State) {
    Falling(s.posts, s.nextId) && Matching(s.queue, s.posts, s.nextId)
  }

  lemma FallingCreate(posts: seq<Post>, p: Post)
    requires Falling(posts, p.id)
    ensures Falling([p] + posts, p.id + 1)
  {
  }

  lemma MatchingCreate(queue: set<Post>, posts: seq<Post>, p: Post)
    requires Matching(queue, posts, p.id) && Falling(posts, p.id)
    ensures Matching(queue, [p] + posts, p.id + 1)
    ensures Matching(queue + {p}, [p] + posts, p.id + 1)
  {
  }

  lemma OrderedDelete(s: State, i: nat)
    requires Ordered(s) && i < |s.posts|
    ensures Falling(Without(s.posts, i), s.nextId)
    ensures Matching(s.queue, Without(s.posts, i), s.nextId)
  {
    var rest := Without(s.posts, i);
    assert forall k :: 0 <= k < |rest| ==> rest[k] == s.posts[if k < i then k else k + 1];
  }

  lemma OrderedUpdate(s: State, i: nat, text: string)
    requires Ordered(s) && i < |s.posts|
    ensures Falling(s.posts[i := s.posts[i].(text := text)], s.nextId)
    ensures Matching(s.queue, s.posts[i := s.posts[i].(text := text)], s.nextId)
  {
  }

  lemma OrderedUpdated(s: State, id: nat, text: string, dropped: bool)
    requires Ordered(s)
    ensures Ordered(Updated(s, id, text, dropped))
  {
    var i := Find(s.posts, id);
    if i < |s.posts| {
      OrderedUpdate(s, i, text);
    }
  }

  lemma OrderedDeleted(s: State, id: nat, dropped: bool)
    requires Ordered(s)
    ensures Ordered(Deleted(s, id, dropped))
  {
    var i := Find(s.posts, id);
    if i < |s.posts| {
      OrderedDelete(s, i);
    }
  }

  lemma MatchingFewer(queue: set<Post>, fewer: set<Post>, posts: seq<Post>, nextId: nat)
    requires Matching(queue, posts, nextId) && fewer <= queue
    ensures Matching(fewer, posts, nextId)
  {
  }

  lemma {:induction false} OrderedStep(s: State, step: Step)
    requires Ordered(s) && Enabled(s, step)
    ensures Ordered(Next(s, step))
  {
    match step
    case Create(author, text, published) =>
      var p := Post(s.nextId, author, text);
      FallingCreate(s.posts, p);
      MatchingCreate(s.queue, s.posts, p);
    case Update(id, text, dropped) => OrderedUpdated(s, id, text, dropped);
    case Delete(id, dropped) => OrderedDeleted(s, id, dropped);
    case Process(event, missed, acked) => MatchingFewer(s.queue, Next(s, step).queue, s.posts, s.nextId);
    case _ =>
  }

  lemma {:induction false} OrderedRun(steps: seq<Step>)
    requires Run(INIT, steps).Some?
    ensures Ordered(Run(INIT, steps).value)
  {
    if steps != [] {
      var before := steps[..|steps| - 1];
      OrderedRun(before);
      OrderedStep(Run(INIT, before).value, steps[|steps| - 1]);
    }
  }

  /* ---- Only friends' posts ---- */

  ghost predicate Isolated(s: State) {
    forall u, p :: u in s.cache && p in s.cache[u] ==> Follows(s.friends, u, p.author)
  }

  lemma {:induction false} SelectMembers(posts: seq<Post>, friends: set<(string, string)>, hidden: set<nat>, user: string)
    ensures forall p :: p in Select(posts, friends, hidden, user) <==>
      p in posts && Selected(p, friends, hidden, user)
  {
    if posts != [] {
      SelectMembers(posts[1..], friends, hidden, user);
      assert posts == [posts[0]] + posts[1..];
    }
  }

  lemma QueryMembers(s: State, user: string)
    ensures forall p :: p in Query(s, user) ==> p in s.posts && Follows(s.friends, user, p.author)
  {
    SelectMembers(s.posts, s.friends, {}, user);
    assert forall p :: p in Query(s, user) ==> p in Select(s.posts, s.friends, {}, user);
  }

  /** The only way to leave someone else's posts in a list: an unfollow whose drop fails, with posts to drop. */
  predicate KeepsFriendsOnly(s: State, step: Step) {
    step.Unfollow? && !step.dropped && step.user in s.cache ==>
      forall p :: p in s.cache[step.user] ==> p.author != step.friend
  }

  lemma IsolatedKept(s: State, step: Step)
    requires Isolated(s) && Enabled(s, step) && !step.Unfollow?
    ensures Isolated(Next(s, step))
  {
    match step
    case Read(user) => QueryMembers(s, user);
    case _ =>
  }

  lemma IsolatedUnfollow(s: State, step: Step)
    requires Isolated(s) && step.Unfollow?
    ensures Isolated(Next(s, step)) <==> KeepsFriendsOnly(s, step)
  {
    var t := Next(s, step);
    if !KeepsFriendsOnly(s, step) {
      var p :| p in s.cache[step.user] && p.author == step.friend;
      assert step.user in t.cache && p in t.cache[step.user];
    }
  }

  lemma IsolatedExactly(s: State, step: Step)
    requires Isolated(s) && Enabled(s, step)
    ensures Isolated(Next(s, step)) <==> KeepsFriendsOnly(s, step)
  {
    if step.Unfollow? {
      IsolatedUnfollow(s, step);
    } else {
      IsolatedKept(s, step);
    }
  }

  /** In every state of the run the lists hold posts of people followed at that time, and no others. */
  ghost predicate AlwaysIsolated(steps: seq<Step>)
    requires Run(INIT, steps).Some?
  {
    && Isolated(Run(INIT, steps).value)
    && (steps == [] || AlwaysIsolated(steps[..|steps| - 1]))
  }

  ghost predicate AlwaysKeepsFriendsOnly(steps: seq<Step>)
    requires Run(INIT, steps).Some?
  {
    steps == [] ||
    (var before := steps[..|steps| - 1];
     AlwaysKeepsFriendsOnly(before) && KeepsFriendsOnly(Run(INIT, before).value, steps[|steps| - 1]))
  }

  /**
   Friend isolation, exactly. With events repeated, late, out of order or half materialised, and whatever
   invalidations fail, every entry of a cached feed was written by someone its user follows, throughout a
   run, if and only if no unfollow fails to drop a list that holds a post of the former friend.
   */
  lemma {:induction false} FriendIsolation(steps: seq<Step>)
    requires Run(INIT, steps).Some?
    ensures AlwaysIsolated(steps) <==> AlwaysKeepsFriendsOnly(steps)
  {
    if steps != [] {
      var before := steps[..|steps| - 1];
      FriendIsolation(before);
      if AlwaysIsolated(before) {
        assert Isolated(Run(INIT, before).value);
        IsolatedExactly(Run(INIT, before).value, steps[|steps| - 1]);
      }
    }
  }

  /** In particular when every unfollow drops the user's list. */
  lemma {:induction false} DroppedIsIsolated(steps: seq<Step>)
    requires Run(INIT, steps).Some?
    requires forall n :: 0 <= n < |steps| && steps[n].Unfollow? ==> steps[n].dropped
    ensures Isolated(Run(INIT, steps).value)
  {
    if steps != [] {
      var before := steps[..|steps| - 1];
      DroppedIsIsolated(before);
      IsolatedExactly(Run(INIT, before).value, steps[|steps| - 1]);
    }
  }
}
