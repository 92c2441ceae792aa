/**
 The periodic reconciler: it walks the Redis keyspace with SCAN and reconciles the user behind every
 key it meets. What SCAN answers, and which calls fail, is up to the environment.
 */
module CounterReconciler {
  import opened CounterFunctions

  /** A failed call either never ran in Redis, or it ran and only its reply was lost. */
  datatype Outcome = Replied | NotRun | ReplyLost

  /** A key in a SCAN reply, with the outcome of the call the reconciler then makes for it. */
  datatype Visit = Visit(key: string, outcome: Outcome)

  datatype ScanReply = Failed | Batch(cursor: string, visits: seq<Visit>)

  const START := "0"

  /** `MATCH counters:*` */
  predicate Matches(key: string) { KEY_PREFIX <= key }

  function UserOf(key: string): string
    requires Matches(key)
  {
    key[|KEY_PREFIX|..]
  }

  predicate AllMatch(replies: seq<ScanReply>) {
    forall n, v :: 0 <= n < |replies| && replies[n].Batch? && v in replies[n].visits ==> Matches(v.key)
  }

  predicate IsLast(reply: ScanReply) { reply.Failed? || reply.cursor == START }

  function RanFor(visits: seq<Visit>): (users: set<string>)
    requires forall v :: v in visits ==> Matches(v.key)
    ensures forall u :: u in users <==> exists v :: v in visits && UserOf(v.key) == u && !v.outcome.NotRun?
  {
    set v | v in visits && !v.outcome.NotRun? :: UserOf(v.key)
  }

  /** The users for whom a reconcile call runs before the cursor returns to 0 or a SCAN fails. */
  ghost function Repaired(replies: seq<ScanReply>): set<string>
    requires AllMatch(replies)
  {
    if replies == [] || replies[0].Failed? then {}
    else RanFor(replies[0].visits) + if IsLast(replies[0]) then {} else Repaired(replies[1..])
  }

  /** `redis` is `before` with exactly the users in `repaired` reconciled. */
  ghost predicate ReconciledExactly(before: Redis, redis: Redis, repaired: set<string>) {
    forall u :: HashOf(redis, u) ==
      if u in repaired then Reconciled(HashOf(before, u)) else HashOf(before, u)
  }

  lemma UserOfInvertsKey(user: string)
    ensures Key(user) == "counters:" + user && Matches(Key(user)) && UserOf(Key(user)) == user
  {
  }

  lemma KeyInvertsUserOf(key: string)
    requires Matches(key)
    ensures Key(UserOf(key)) == key
  {
  }

  /** Reconciling twice is reconciling once, so a key that SCAN repeats does no harm. */
  lemma ReconcileTwice(h: Hash)
    ensures Reconciled(Reconciled(h)) == Reconciled(h)
  {
    assert CountedFields(Reconciled(h)) == CountedFields(h);
  }

  lemma OneMoreReconciled(before: Redis, redis: Redis, repaired: set<string>, user: string)
    requires ReconciledExactly(before, redis, repaired)
    ensures ReconciledExactly(before, redis[Key(user) := Reconciled(HashOf(redis, user))], repaired + {user})
  {
    ReconcileTwice(HashOf(before, user));
    var redis' := redis[Key(user) := Reconciled(HashOf(redis, user))];
    forall u ensures HashOf(redis', u) ==
      if u in repaired + {user} then Reconciled(HashOf(before, u)) else HashOf(before, u)
    {
      assert Key(u) == Key(user) ==> u == user;
    }
  }

  /** The loop over the keys of one SCAN reply: a call that fails is logged and skipped. */
  method ReconcileBatch(store: CounterStore, visits: seq<Visit>, ghost before: Redis, ghost repaired: set<string>)
    requires forall v :: v in visits ==> Matches(v.key)
    requires ReconciledExactly(before, store.redis, repaired)
    modifies store
    ensures ReconciledExactly(before, store.redis, repaired + RanFor(visits))
  {
    ghost var done := repaired;
    for n := 0 to |visits|
      invariant ReconciledExactly(before, store.redis, done)
      invariant done == repaired + RanFor(visits[..n])
    {
      assert visits[..n + 1] == visits[..n] + [visits[n]];
      var userId := visits[n].key[|KEY_PREFIX|..];
      if !visits[n].outcome.NotRun? {
        OneMoreReconciled(before, store.redis, done, userId);
        var _ := store.ReconcileUser(userId);
        done := done + {userId};
      }
    }
    assert visits[..|visits|] == visits;
  }

  /** `RunReconciliation`; it is left early when a SCAN itself fails. */
  method RunReconciliation(store: CounterStore, replies: seq<ScanReply>) returns (completed: bool)
    requires AllMatch(replies)
    requires exists n :: 0 <= n < |replies| && IsLast(replies[n])
    modifies store
    ensures ReconciledExactly(old(store.redis), store.redis, Repaired(replies))
    ensures completed <==> exists n :: 0 <= n < |replies| && replies[n].Batch? && replies[n].cursor == START &&
                             forall m :: 0 <= m < n ==> !IsLast(replies[m])
  {
    ghost var repaired := {};
    var cursor := START;
    var n := 0;
    while true
      invariant 0 <= n <= |replies|
      invariant forall m :: 0 <= m < n ==> !IsLast(replies[m])
      invariant ReconciledExactly(old(store.redis), store.redis, repaired)
      invariant repaired + Repaired(replies[n..]) == Repaired(replies)
      decreases |replies| - n
    {
      var reply := replies[n];
      assert replies[n..][0] == reply && replies[n..][1..] == replies[n + 1..];
      if reply.Failed? {
        return false;
      }
      cursor := reply.cursor;
      ReconcileBatch(store, reply.visits, old(store.redis), repaired);
      repaired := repaired + RanFor(reply.visits);
      if cursor == START {
        return true;
      }
      n := n + 1;
    }
  }

  /**
   A pass without concurrent writers leaves `total` equal to the dialog fields for every user for whom
   a call ran, and leaves every other user as it was.
   */
  lemma PassEndsDrift(before: Redis, redis: Redis, replies: seq<ScanReply>, user: string)
    requires AllMatch(replies)
    requires ReconciledExactly(before, redis, Repaired(replies))
    requires NonNegative(HashOf(before, user))
    ensures user in Repaired(replies) ==> Drift(HashOf(redis, user)) == 0
    ensures user !in Repaired(replies) ==> HashOf(redis, user) == HashOf(before, user)
    ensures Dialogs(HashOf(redis, user)) == Dialogs(HashOf(before, user))
  {
    ReconcileEndsDrift(HashOf(before, user));
  }

  /** The keys the loop visits: those of the replies up to the first with cursor 0, or to a failure. */
  ghost function Visited(replies: seq<ScanReply>): seq<Visit> {
    if replies == [] || replies[0].Failed? then []
    else replies[0].visits + if IsLast(replies[0]) then [] else Visited(replies[1..])
  }

  /** Exactly the users whose key is visited by a call that runs are repaired. */
  lemma {:induction false} RepairedExactly(replies: seq<ScanReply>, user: string)
    requires AllMatch(replies)
    ensures user in Repaired(replies) <==>
      exists v :: v in Visited(replies) && v.key == Key(user) && !v.outcome.NotRun?
  {
    if replies != [] && replies[0].Batch? {
      forall v | v in replies[0].visits ensures UserOf(v.key) == user <==> v.key == Key(user) {
        KeyInvertsUserOf(v.key);
      }
      if !IsLast(replies[0]) {
        RepairedExactly(replies[1..], user);
      }
    }
  }
}
