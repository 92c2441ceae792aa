/**
 The feed lists at the granularity of single Redis commands: any number of writers, each a sequence of
 commands, interleaved in any way. Coherence is out of reach here; the length of a list is not.
 */
module FeedCommands {
  import opened Wrappers
  import opened Sums
  import opened PostFeed

  /** `OnPostCreated` for one follower: EXISTS, then LPUSH and LTRIM if there is a list. */
  datatype Adding = AskToAdd | Push | TrimAdded | Added

  /** `GetFeed`: EXISTS, and on a miss the query, then RPUSH and LTRIM if it found posts. */
  datatype Loading = AskToLoad | Load | Fill(batch: seq<Post>) | TrimLoaded | Loaded

  datatype Writer =
    | Adder(user: string, post: Post, adding: Adding)
    | Loader(user: string, loading: Loading)

  datatype Redis = Redis(lists: map<string, seq<Post>>, writers: seq<Writer>)

  datatype Command =
    | Start(writer: Writer)
    | Go(i: nat)                          // the next command of a writer
    | Answer(i: nat, batch: seq<Post>)    // the query of a loader returns
    | Del(users: set<string>)

  const EMPTY := Redis(map[], [])

  function ListOf(r: Redis, user: string): seq<Post> { if user in r.lists then r.lists[user] else [] }

  predicate Allowed(r: Redis, c: Command) {
    match c
    case Start(Adder(_, _, adding)) => adding.AskToAdd?
    case Start(Loader(_, loading)) => loading.AskToLoad?
    case Go(i) =>
      i < |r.writers| &&
      (match r.writers[i]
       case Adder(_, _, adding) => !adding.Added?
       case Loader(_, loading) => !loading.Load? && !loading.Loaded?)
    case Answer(i, batch) =>
      i < |r.writers| && r.writers[i].Loader? && r.writers[i].loading.Load? && |batch| <= MAX_FEED_SIZE
    case Del(_) => true
  }

  /** `LTRIM` does nothing to a list that is gone. */
  function Trimmed(lists: map<string, seq<Post>>, user: string): map<string, seq<Post>> {
    if user in lists then lists[user := Cap(lists[user])] else lists
  }

  /** The lists and the writer after its next command. */
  function Moved(r: Redis, w: Writer): (map<string, seq<Post>>, Writer) {
    match w
    case Adder(user, post, AskToAdd) => (r.lists, w.(adding := if user in r.lists then Push else Added))
    case Adder(user, post, Push) => (r.lists[user := [post] + ListOf(r, user)], w.(adding := TrimAdded))
    case Adder(user, post, TrimAdded) => (Trimmed(r.lists, user), w.(adding := Added))
    case Loader(user, AskToLoad) => (r.lists, w.(loading := if user in r.lists then Loaded else Load))
    case Loader(user, Fill(batch)) => (r.lists[user := ListOf(r, user) + batch], w.(loading := TrimLoaded))
    case Loader(user, TrimLoaded) => (Trimmed(r.lists, user), w.(loading := Loaded))
    case _ => (r.lists, w)
  }

  function Next(r: Redis, c: Command): Redis
    requires Allowed(r, c)
  {
    match c
    case Start(writer) => r.(writers := r.writers + [writer])
    case Go(i) =>
      var (lists, w) := Moved(r, r.writers[i]);
      Redis(lists, r.writers[i := w])
    case Answer(i, batch) =>
      r.(writers := r.writers[i := r.writers[i].(loading := if batch == [] then Loaded else Fill(batch))])
    case Del(users) => r.(lists := r.lists - users)
  }

  ghost function Run(commands: seq<Command>): Option<Redis> {
    if commands == [] then Some(EMPTY)
    else
      var before := Run(commands[..|commands| - 1]);
      if before.Some? && Allowed(before.value, commands[|commands| - 1])
      then Some(Next(before.value, commands[|commands| - 1]))
      else None
  }

  /* ---- What each command does to the list of its writer ---- */

  /** No other list and no other writer is touched by a writer's command. */
  lemma GoesAlone(r: Redis, i: nat)
    requires Allowed(r, Go(i))
    ensures var t := Next(r, Go(i));
      && |t.writers| == |r.writers| && t.writers[i].user == r.writers[i].user
      && (forall j :: 0 <= j < |r.writers| && j != i ==> t.writers[j] == r.writers[j])
      && (forall u :: u != r.writers[i].user ==> ListOf(t, u) == ListOf(r, u))
  {
  }

  /** EXISTS changes no list and decides what follows. */
  lemma AskDecides(r: Redis, i: nat)
    requires Allowed(r, Go(i))
    ensures var w, v := r.writers[i], Next(r, Go(i)).writers[i];
      && (w.Adder? && w.adding.AskToAdd? ==>
            Next(r, Go(i)).lists == r.lists && v == w.(adding := if w.user in r.lists then Push else Added))
      && (w.Loader? && w.loading.AskToLoad? ==>
            Next(r, Go(i)).lists == r.lists && v == w.(loading := if w.user in r.lists then Loaded else Load))
  {
  }

  /** LPUSH puts the post in front of what is there. */
  lemma PushGoesFirst(r: Redis, i: nat)
    requires Allowed(r, Go(i)) && r.writers[i].Adder? && r.writers[i].adding.Push?
    ensures var w, list, list' := r.writers[i], ListOf(r, r.writers[i].user), ListOf(Next(r, Go(i)), r.writers[i].user);
      && |list'| == |list| + 1 && list'[0] == w.post && list'[1..] == list
      && Next(r, Go(i)).writers[i].adding == TrimAdded
  {
  }

  /** RPUSH puts the posts of the query behind what is there, in their order. */
  lemma FillGoesLast(r: Redis, i: nat)
    requires Allowed(r, Go(i)) && r.writers[i].Loader? && r.writers[i].loading.Fill?
    ensures var w, list, list' := r.writers[i], ListOf(r, r.writers[i].user), ListOf(Next(r, Go(i)), r.writers[i].user);
      && |list'| == |list| + |w.loading.batch| && list'[..|list|] == list && list'[|list|..] == w.loading.batch
      && Next(r, Go(i)).writers[i].loading == TrimLoaded
  {
  }

  /** LTRIM keeps the first 1000. */
  lemma TrimKeepsFirst(r: Redis, i: nat)
    requires Allowed(r, Go(i))
    requires if r.writers[i].Adder? then r.writers[i].adding.TrimAdded? else r.writers[i].loading.TrimLoaded?
    ensures var list, list' := ListOf(r, r.writers[i].user), ListOf(Next(r, Go(i)), r.writers[i].user);
      list' == list[..if |list| > 1000 then 1000 else |list|]
  {
  }

  /** A writer goes on, and nobody else, until it has ended or `n` commands are done. */
  function GoesOn(r: Redis, i: nat, n: nat): (t: Redis)
    ensures |t.writers| == |r.writers|
    decreases n
  {
    if n == 0 || !Allowed(r, Go(i)) then r else GoesOn(Next(r, Go(i)), i, n - 1)
  }

  /** An addition that nobody interrupts is the one step it is at the granularity of handlers. */
  lemma AdditionAlone(r: Redis, i: nat)
    requires i < |r.writers| && r.writers[i].Adder? && r.writers[i].adding.AskToAdd?
    ensures var w, t := r.writers[i], GoesOn(r, i, 3);
      && t.writers[i] == w.(adding := Added)
      && t.lists == PostFeed.Push(r.lists, {(w.user, w.post.author)}, w.post, {})
  {
    var w := r.writers[i];
    var r1 := Next(r, Go(i));
    if w.user in r.lists {
      var r2 := Next(r1, Go(i));
      assert r2.writers[i] == w.(adding := TrimAdded);
      var r3 := Next(r2, Go(i));
      assert GoesOn(r2, i, 1) == r3 && GoesOn(r1, i, 2) == r3;
    } else {
      assert GoesOn(r1, i, 2) == r1;
    }
  }

  /** So is a load: a list that is there stays, and otherwise the posts of the query are the list. */
  lemma LoadAlone(r: Redis, i: nat, batch: seq<Post>)
    requires i < |r.writers| && r.writers[i].Loader? && r.writers[i].loading.AskToLoad?
    requires r.writers[i].user !in r.lists && |batch| <= MAX_FEED_SIZE
    ensures var user, asked := r.writers[i].user, Next(r, Go(i));
      && Allowed(asked, Answer(i, batch))
      && GoesOn(Next(asked, Answer(i, batch)), i, 2).lists == if batch == [] then r.lists else r.lists[user := batch]
  {
    var r1 := Next(Next(r, Go(i)), Answer(i, batch));
    if batch != [] {
      var r2 := Next(r1, Go(i));
      assert r2.lists[r.writers[i].user] == batch;
      var r3 := Next(r2, Go(i));
      assert GoesOn(r2, i, 1) == r3 && GoesOn(r1, i, 2) == r3;
    } else {
      assert GoesOn(r1, i, 2) == r1;
    }
  }

  /** What a writer may have added to the list and not trimmed yet. */
  function Untrimmed(user: string): Writer -> int {
    (w: Writer) =>
      if w.user != user then 0
      else match w
        case Adder(_, _, TrimAdded) => 1
        case Loader(_, TrimLoaded) => MAX_FEED_SIZE
        case _ => 0
  }

  ghost function Slack(r: Redis, user: string): int { SeqSum(r.writers, Untrimmed(user)) }

  /** What loaders are about to push is no more than the query returns. */
  ghost predicate BatchesFit(r: Redis) {
    forall i :: 0 <= i < |r.writers| && r.writers[i].Loader? && r.writers[i].loading.Fill? ==>
      |r.writers[i].loading.batch| <= MAX_FEED_SIZE
  }

  ghost predicate Bounded(r: Redis) {
    BatchesFit(r) && forall u :: |ListOf(r, u)| <= MAX_FEED_SIZE + Slack(r, u)
  }

  lemma BatchesFitStep(r: Redis, c: Command)
    requires BatchesFit(r) && Allowed(r, c)
    ensures BatchesFit(Next(r, c))
  {
  }

  lemma BoundedGo(r: Redis, i: nat, u: string)
    requires Bounded(r) && Allowed(r, Go(i))
    ensures |ListOf(Next(r, Go(i)), u)| <= MAX_FEED_SIZE + Slack(Next(r, Go(i)), u)
  {
    var t := Next(r, Go(i));
    SeqSumUpdate(r.writers, i, t.writers[i], Untrimmed(u));
    SeqSumNonNegative(t.writers, Untrimmed(u));
    assert |ListOf(r, u)| <= MAX_FEED_SIZE + Slack(r, u);
  }

  lemma BoundedOther(r: Redis, c: Command, u: string)
    requires Bounded(r) && Allowed(r, c) && !c.Go?
    ensures |ListOf(Next(r, c), u)| <= MAX_FEED_SIZE + Slack(Next(r, c), u)
  {
    assert |ListOf(r, u)| <= MAX_FEED_SIZE + Slack(r, u);
    match c
    case Start(writer) => SeqSumAppend(r.writers, writer, Untrimmed(u));
    case Answer(i, batch) => SeqSumUpdate(r.writers, i, Next(r, c).writers[i], Untrimmed(u));
    case Del(users) => SeqSumNonNegative(r.writers, Untrimmed(u));
  }

  lemma BoundedStep(r: Redis, c: Command)
    requires Bounded(r) && Allowed(r, c)
    ensures Bounded(Next(r, c))
  {
    BatchesFitStep(r, c);
    forall u ensures |ListOf(Next(r, c), u)| <= MAX_FEED_SIZE + Slack(Next(r, c), u) {
      if c.Go? {
        BoundedGo(r, c.i, u);
      } else {
        BoundedOther(r, c, u);
      }
    }
  }

  /**
   However the commands of any number of writers interleave, a list has at most 1000 posts, and one more
   for each addition, and 1000 more for each load, that is between its push and its trim.
   */
  lemma {:induction false} LengthBound(commands: seq<Command>)
    requires Run(commands).Some?
    ensures Bounded(Run(commands).value)
  {
    if commands != [] {
      var before := commands[..|commands| - 1];
      LengthBound(before);
      BoundedStep(Run(before).value, commands[|commands| - 1]);
    }
  }

  /* ---- The bound is reached ---- */

  ghost predicate Reachable(r: Redis) { exists commands :: Run(commands) == Some(r) }

  lemma Reach(r: Redis, c: Command)
    requires Reachable(r) && Allowed(r, c)
    ensures Reachable(Next(r, c))
  {
    var commands :| Run(commands) == Some(r);
    assert (commands + [c])[..|commands|] == commands;
    assert Run(commands + [c]) == Some(Next(r, c));
  }

  function Batch(): (batch: seq<Post>)
    ensures |batch| == MAX_FEED_SIZE
  {
    seq(MAX_FEED_SIZE, k requires 0 <= k < MAX_FEED_SIZE => Post(k, "", ""))
  }

  function Repeat(w: Writer, n: nat): (ws: seq<Writer>)
    ensures |ws| == n && forall i :: 0 <= i < n ==> ws[i] == w
  {
    if n == 0 then [] else Repeat(w, n - 1) + [w]
  }

  /** Any number of loads can miss together. */
  lemma {:induction false} LoadersMiss(user: string, n: nat)
    ensures Reachable(Redis(map[], Repeat(Loader(user, Fill(Batch())), n)))
  {
    if n == 0 {
      assert Run([]) == Some(EMPTY);
    } else {
      LoadersMiss(user, n - 1);
      var ws := Repeat(Loader(user, Fill(Batch())), n - 1);
      var r := Redis(map[], ws);
      Reach(r, Start(Loader(user, AskToLoad)));
      var r1 := Next(r, Start(Loader(user, AskToLoad)));
      Reach(r1, Go(n - 1));
      var r2 := Next(r1, Go(n - 1));
      Reach(r2, Answer(n - 1, Batch()));
      assert Next(r2, Answer(n - 1, Batch())).writers == ws + [Loader(user, Fill(Batch()))];
    }
  }

  /** Once one of them has filled the list, any number of additions can see that there is one. */
  lemma {:induction false} AddersHit(user: string, post: Post, r: Redis, n: nat)
    requires Reachable(r) && user in r.lists
    ensures Reachable(r.(writers := r.writers + Repeat(Adder(user, post, Push), n)))
  {
    if n == 0 {
      assert r.(writers := r.writers + []) == r;
    } else {
      AddersHit(user, post, r, n - 1);
      var t := r.(writers := r.writers + Repeat(Adder(user, post, Push), n - 1));
      Reach(t, Start(Adder(user, post, AskToAdd)));
      var t1 := Next(t, Start(Adder(user, post, AskToAdd)));
      Reach(t1, Go(|t.writers|));
      assert Next(t1, Go(|t.writers|)).writers == r.writers + Repeat(Adder(user, post, Push), n);
    }
  }

  /** What a writer that is about to push will add. */
  function Ready(user: string): Writer -> int {
    (w: Writer) =>
      if w.user != user then 0
      else match w
        case Adder(_, _, Push) => 1
        case Loader(_, Fill(batch)) => |batch|
        case _ => 0
  }

  ghost predicate Tight(r: Redis, user: string) {
    |ListOf(r, user)| == MAX_FEED_SIZE + Slack(r, user)
  }

  predicate AboutToPush(w: Writer) {
    (w.Adder? && w.adding.Push?) || (w.Loader? && w.loading.Fill? && |w.loading.batch| == MAX_FEED_SIZE)
  }

  predicate Idle(w: Writer) { w.Loader? && w.loading.Loaded? }

  /** The first `n` writers are the user's, and each is about to push or has ended. */
  ghost predicate Waiting(r: Redis, user: string, n: nat) {
    n <= |r.writers| &&
    forall i :: 0 <= i < n ==> r.writers[i].user == user && (AboutToPush(r.writers[i]) || Idle(r.writers[i]))
  }

  lemma PushOne(r: Redis, user: string, i: nat) returns (t: Redis)
    requires Reachable(r) && Tight(r, user) && Waiting(r, user, i + 1) && AboutToPush(r.writers[i])
    ensures Reachable(t) && Tight(t, user) && Waiting(t, user, i)
    ensures Slack(t, user) == Slack(r, user) + Ready(user)(r.writers[i])
    ensures t.writers[..i] == r.writers[..i]
  {
    Reach(r, Go(i));
    t := Next(r, Go(i));
    SeqSumUpdate(r.writers, i, t.writers[i], Untrimmed(user));
  }

  lemma PushOrPass(r: Redis, user: string, i: nat) returns (t: Redis)
    requires Reachable(r) && Tight(r, user) && Waiting(r, user, i + 1)
    ensures Reachable(t) && Tight(t, user) && Waiting(t, user, i)
    ensures Slack(t, user) == Slack(r, user) + Ready(user)(r.writers[i])
    ensures t.writers[..i] == r.writers[..i]
  {
    if Idle(r.writers[i]) {
      t := r;
    } else {
      t := PushOne(r, user, i);
    }
  }

  /** Let every writer that is about to push do so, and none of them trim. */
  lemma {:induction false} PushAll(r: Redis, user: string, n: nat) returns (t: Redis)
    requires Reachable(r) && Tight(r, user) && Waiting(r, user, n)
    ensures Reachable(t) && Tight(t, user)
    ensures Slack(t, user) == Slack(r, user) + SeqSum(r.writers[..n], Ready(user))
    decreases n
  {
    if n == 0 {
      t := r;
    } else {
      SeqSumTake(r.writers, n, Ready(user));
      var r1 := PushOrPass(r, user, n - 1);
      t := PushAll(r1, user, n - 1);
    }
  }

  lemma OneMoreTimes(n: nat, c: int)
    ensures n * c + c == (n + 1) * c
  {
  }

  lemma {:induction false} SumOfRepeat(w: Writer, n: nat, weight: Writer -> int)
    ensures SeqSum(Repeat(w, n), weight) == n * weight(w)
  {
    if n > 0 {
      SumOfRepeat(w, n - 1, weight);
      SeqSumAppend(Repeat(w, n - 1), w, weight);
      OneMoreTimes(n - 1, weight(w));
    }
  }

  /** A load that missed fills the list and trims it; the others have still to push. */
  lemma OneFills(user: string, loads: nat) returns (r: Redis)
    ensures Reachable(r) && user in r.lists && |r.lists[user]| == MAX_FEED_SIZE
    ensures r.writers == Repeat(Loader(user, Fill(Batch())), loads) + [Loader(user, Loaded)]
  {
    LoadersMiss(user, loads + 1);
    var r0 := Redis(map[], Repeat(Loader(user, Fill(Batch())), loads + 1));
    Reach(r0, Go(loads));
    var r1 := Next(r0, Go(loads));
    Reach(r1, Go(loads));
    r := Next(r1, Go(loads));
  }

  lemma WritersReady(user: string, post: Post, adds: nat, loads: nat) returns (r: Redis)
    ensures Reachable(r) && user in r.lists && |r.lists[user]| == MAX_FEED_SIZE
    ensures r.writers == Repeat(Loader(user, Fill(Batch())), loads) + [Loader(user, Loaded)]
                         + Repeat(Adder(user, post, Push), adds)
    ensures Waiting(r, user, |r.writers|)
  {
    var r0 := OneFills(user, loads);
    AddersHit(user, post, r0, adds);
    r := r0.(writers := r0.writers + Repeat(Adder(user, post, Push), adds));
  }

  lemma SumOfWriters(r: Redis, user: string, post: Post, adds: nat, loads: nat, weight: Writer -> int)
    requires r.writers == Repeat(Loader(user, Fill(Batch())), loads) + [Loader(user, Loaded)]
                          + Repeat(Adder(user, post, Push), adds)
    ensures SeqSum(r.writers, weight)
      == loads * weight(Loader(user, Fill(Batch()))) + weight(Loader(user, Loaded))
         + adds * weight(Adder(user, post, Push))
  {
    var a, b := Repeat(Loader(user, Fill(Batch())), loads), Repeat(Adder(user, post, Push), adds);
    SeqSumConcat(a + [Loader(user, Loaded)], b, weight);
    SeqSumAppend(a, Loader(user, Loaded), weight);
    SumOfRepeat(Loader(user, Fill(Batch())), loads, weight);
    SumOfRepeat(Adder(user, post, Push), adds, weight);
  }

  /** Before any of them pushes, nothing is left to trim. */
  lemma NothingUntrimmed(r: Redis, user: string, post: Post, adds: nat, loads: nat)
    requires r.writers == Repeat(Loader(user, Fill(Batch())), loads) + [Loader(user, Loaded)]
                          + Repeat(Adder(user, post, Push), adds)
    ensures Slack(r, user) == 0
  {
    var weight := Untrimmed(user);
    assert weight(Loader(user, Fill(Batch()))) == weight(Loader(user, Loaded)) == weight(Adder(user, post, Push)) == 0;
    SumOfWriters(r, user, post, adds, loads, weight);
  }

  lemma AllReady(r: Redis, user: string, post: Post, adds: nat, loads: nat)
    requires r.writers == Repeat(Loader(user, Fill(Batch())), loads) + [Loader(user, Loaded)]
                          + Repeat(Adder(user, post, Push), adds)
    ensures SeqSum(r.writers[..|r.writers|], Ready(user)) == adds + MAX_FEED_SIZE * loads
  {
    var weight := Ready(user);
    assert weight(Loader(user, Fill(Batch()))) == MAX_FEED_SIZE;
    assert weight(Loader(user, Loaded)) == 0 && weight(Adder(user, post, Push)) == 1;
    SumOfWriters(r, user, post, adds, loads, weight);
    assert r.writers[..|r.writers|] == r.writers;
  }

  /** No smaller bound would do: for any numbers of writers some run reaches it. */
  lemma BoundIsReached(user: string, post: Post, adds: nat, loads: nat) returns (r: Redis)
    ensures Reachable(r)
    ensures Slack(r, user) == adds + MAX_FEED_SIZE * loads
    ensures |ListOf(r, user)| == MAX_FEED_SIZE + adds + MAX_FEED_SIZE * loads
  {
    var r0 := WritersReady(user, post, adds, loads);
    NothingUntrimmed(r0, user, post, adds, loads);
    AllReady(r0, user, post, adds, loads);
    r := PushAll(r0, user, |r0.writers|);
  }

  /* ---- Why coherence is out of reach ---- */

  predicate Deletes(c: Command, user: string) { c.Del? && user in c.users }

  /** Whoever is about to push to the user's list finds one. */
  ghost predicate PushersFindList(r: Redis, user: string) {
    forall i :: 0 <= i < |r.writers| && r.writers[i].Adder? && r.writers[i].user == user && r.writers[i].adding.Push?
      ==> user in r.lists
  }

  /** Nobody stands between EXISTS and LPUSH on the user's list. */
  ghost predicate NobodyPushes(r: Redis, user: string) {
    forall i :: 0 <= i < |r.writers| && r.writers[i].Adder? && r.writers[i].user == user ==> !r.writers[i].adding.Push?
  }

  lemma PushersKept(r: Redis, c: Command, user: string)
    requires PushersFindList(r, user) && Allowed(r, c) && !Deletes(c, user)
    ensures PushersFindList(Next(r, c), user)
  {
    match c
    case Start(writer) =>
    case Go(i) =>
    case Answer(i, batch) =>
    case Del(users) =>
  }

  /** A command leaves a pusher without a list if and only if it deletes the list under one. */
  lemma PushersLoseListExactly(r: Redis, c: Command, user: string)
    requires PushersFindList(r, user) && Allowed(r, c)
    ensures PushersFindList(Next(r, c), user) <==> (Deletes(c, user) ==> NobodyPushes(r, user))
  {
    if !Deletes(c, user) {
      PushersKept(r, c, user);
    }
  }

  /** In every state of the run, whoever is about to push to the user's list finds one. */
  ghost predicate AlwaysFindList(commands: seq<Command>, user: string)
    requires Run(commands).Some?
  {
    && PushersFindList(Run(commands).value, user)
    && (commands == [] || AlwaysFindList(commands[..|commands| - 1], user))
  }

  /** The user's list is only ever deleted while nobody stands between EXISTS and LPUSH on it. */
  ghost predicate DeletedUnwatched(commands: seq<Command>, user: string)
    requires Run(commands).Some?
  {
    commands == [] ||
    (var before := commands[..|commands| - 1];
     && DeletedUnwatched(before, user)
     && (Deletes(commands[|commands| - 1], user) ==> NobodyPushes(Run(before).value, user)))
  }

  /**
   Throughout a run additions only extend lists that are there, if and only if no deletion of the list
   comes between the EXISTS and the LPUSH of an addition.
   */
  lemma {:induction false} PushExtendsExactly(commands: seq<Command>, user: string)
    requires Run(commands).Some?
    ensures AlwaysFindList(commands, user) <==> DeletedUnwatched(commands, user)
  {
    if commands != [] {
      var before := commands[..|commands| - 1];
      PushExtendsExactly(before, user);
      if AlwaysFindList(before, user) {
        assert PushersFindList(Run(before).value, user);
        PushersLoseListExactly(Run(before).value, commands[|commands| - 1], user);
      }
    }
  }

  /** In particular when nobody deletes the list at all. */
  lemma {:induction false} PushExtends(commands: seq<Command>, user: string)
    requires Run(commands).Some? && forall c :: c in commands ==> !Deletes(c, user)
    ensures PushersFindList(Run(commands).value, user)
  {
    NeverDeleted(commands, user);
    PushExtendsExactly(commands, user);
  }

  lemma {:induction false} NeverDeleted(commands: seq<Command>, user: string)
    requires Run(commands).Some? && forall c :: c in commands ==> !Deletes(c, user)
    ensures DeletedUnwatched(commands, user)
  {
    if commands != [] {
      NeverDeleted(commands[..|commands| - 1], user);
      assert commands[|commands| - 1] in commands;
    }
  }

  /** With a deletion between EXISTS and LPUSH, a list of 1000 posts becomes a list of one. */
  lemma LoneEntry(user: string, post: Post) returns (full: Redis, r: Redis)
    ensures Reachable(full) && user in full.lists && |full.lists[user]| == MAX_FEED_SIZE
    ensures full.writers == [Loader(user, Loaded), Adder(user, post, Push)]
    ensures r == Next(Next(full, Del({user})), Go(1)) && Reachable(r)
    ensures user in r.lists && r.lists[user] == [post]
  {
    var filled := OneFills(user, 0);
    AddersHit(user, post, filled, 1);
    full := filled.(writers := filled.writers + Repeat(Adder(user, post, Push), 1));
    assert full.writers == [Loader(user, Loaded), Adder(user, post, Push)];
    Reach(full, Del({user}));
    Reach(Next(full, Del({user})), Go(1));
    r := Next(Next(full, Del({user})), Go(1));
  }
}
