/**
 The unread counters of the counter service: one Redis hash per user, with the field `total` and one
 field `dialog:<partner>` per dialog, and the two atomic Lua functions that act on it.
 */
module CounterFunctions {
  import opened Sums

  type Hash = map<string, int>
  type Redis = map<string, Hash>

  const TOTAL := "total"
  const KEY_PREFIX := "counters:"

  function Key(user: string): (key: string)
    ensures |key| >= |KEY_PREFIX| && key[|KEY_PREFIX|..] == user
  {
    KEY_PREFIX + user
  }

  function DialogField(partner: string): (field: string)
    ensures field != TOTAL && |field| >= 7 && field[7..] == partner
  {
    "dialog:" + partner
  }

  function HashOf(redis: Redis, user: string): Hash {
    if Key(user) in redis then redis[Key(user)] else map[]
  }

  /** `HGET`, with a missing field read as 0. */
  function Get(h: Hash, field: string): int {
    if field in h then h[field] else 0
  }

  function Total(redis: Redis, user: string): int { Get(HashOf(redis, user), TOTAL) }

  function CountOf(redis: Redis, user: string, partner: string): int { Get(HashOf(redis, user), DialogField(partner)) }

  function Incr(h: Hash, field: string, delta: int): Hash {
    h[field := Get(h, field) + delta]
  }

  /** The amounts the reconciler adds up: what is stored under a dialog field, never below zero. */
  function CountedFields(h: Hash): (m: Hash)
    ensures forall f :: f in m <==> f in h && f != TOTAL
    ensures forall f :: f in m ==> m[f] == Max0(h[f])
  {
    map f | f in h && f != TOTAL :: if h[f] > 0 then h[f] else 0
  }

  function Dialogs(h: Hash): Hash {
    map f | f in h && f != TOTAL :: h[f]
  }

  ghost function DialogSum(h: Hash): int { MapSum(Dialogs(h)) }

  /** How far `total` is ahead of the dialog fields. */
  ghost function Drift(h: Hash): int { Get(h, TOTAL) - DialogSum(h) }

  ghost predicate NonNegative(h: Hash) { forall f :: f in h ==> h[f] >= 0 }

  /** Does opening the dialog with `partner` push `total` below zero? */
  predicate Clamps(h: Hash, partner: string) {
    Get(h, DialogField(partner)) > 0 && Get(h, TOTAL) < Get(h, DialogField(partner))
  }

  /** The hash after `counter_reset_dialog`. */
  function Reset(h: Hash, partner: string): Hash {
    var count := Get(h, DialogField(partner));
    if count <= 0 then h
    else h[DialogField(partner) := 0][TOTAL := if Clamps(h, partner) then 0 else Get(h, TOTAL) - count]
  }

  /** The hash after `counter_reconcile_user`. */
  ghost function Reconciled(h: Hash): Hash { h[TOTAL := MapSum(CountedFields(h))] }

  /** Only these two counters of `user` may have changed, and they have these values now. */
  ghost predicate OnlySets(before: Redis, after: Redis, user: string, partner: string, total: int, count: int) {
    && Total(after, user) == total && CountOf(after, user, partner) == count
    && (forall f :: f != TOTAL && f != DialogField(partner) ==> Same(HashOf(before, user), HashOf(after, user), f))
    && (forall key :: key != Key(user) ==> Same(before, after, key))
  }

  ghost predicate Same<K, V>(before: map<K, V>, after: map<K, V>, k: K) {
    (k in after <==> k in before) && (k in before ==> k in after && after[k] == before[k])
  }

  function Max0(n: int): (m: nat)
    ensures m == n || (m == 0 && n < 0)
  {
    if n < 0 then 0 else n
  }

  class CounterStore {
    var redis: Redis

    constructor ()
      ensures redis == map[]
    {
      redis := map[];
    }

    /** `HINCRBY counters:<user> <field> <delta>` */
    method HIncrBy(user: string, field: string, delta: int) returns (value: int)
      modifies this
      ensures redis == old(redis)[Key(user) := Incr(HashOf(old(redis), user), field, delta)]
      ensures value == Get(HashOf(redis, user), field) == Get(HashOf(old(redis), user), field) + delta
      ensures forall f :: f != field ==> Same(HashOf(old(redis), user), HashOf(redis, user), f)
    {
      var h := if Key(user) in redis then redis[Key(user)] else map[];
      value := Get(h, field) + delta;
      redis := redis[Key(user) := h[field := value]];
    }

    /** `HSET counters:<user> <field> <value>` */
    method HSet(user: string, field: string, value: int)
      modifies this
      ensures redis == old(redis)[Key(user) := HashOf(old(redis), user)[field := value]]
    {
      var h := if Key(user) in redis then redis[Key(user)] else map[];
      redis := redis[Key(user) := h[field := value]];
    }

    /** `FCALL counter_reset_dialog`. A user without unread messages in the dialog gets no key. */
    method ResetDialog(user: string, partner: string) returns (dialogCount: int)
      modifies this
      ensures dialogCount == Get(HashOf(old(redis), user), DialogField(partner))
      ensures HashOf(redis, user) == Reset(HashOf(old(redis), user), partner)
      ensures redis == if dialogCount > 0 then old(redis)[Key(user) := HashOf(redis, user)] else old(redis)
      ensures dialogCount > 0 ==>
        OnlySets(old(redis), redis, user, partner, Max0(Total(old(redis), user) - dialogCount), 0)
    {
      var field := DialogField(partner);
      dialogCount := Get(HashOf(redis, user), field);
      if dialogCount > 0 {
        HSet(user, field, 0);
        var newTotal := HIncrBy(user, TOTAL, -dialogCount);
        if newTotal < 0 {
          HSet(user, TOTAL, 0);
        }
      }
    }

    /** `HGETALL`: names and values alternate, the fields in no particular order. */
    method HGetAll(user: string) returns (all: seq<Cell>, ghost order: seq<string>)
      ensures Enumerates(order, HashOf(redis, user).Keys)
      ensures IsReply(all, order, HashOf(redis, user))
    {
      var h := HashOf(redis, user);
      var rest := h.Keys;
      all, order := [], [];
      while rest != {}
        invariant rest <= h.Keys
        invariant Enumerates(order, h.Keys - rest)
        invariant IsReply(all, order, h)
        decreases rest
      {
        var f :| f in rest;
        ReplyAppend(all, order, f, h);
        all := all + [Name(f), Value(h[f])];
        order := order + [f];
        rest := rest - {f};
      }
      assert h.Keys - rest == h.Keys;
    }

    /** `FCALL counter_reconcile_user` */
    method ReconcileUser(user: string) returns (computedTotal: int)
      modifies this
      ensures redis == old(redis)[Key(user) := Reconciled(HashOf(old(redis), user))]
      ensures computedTotal == Total(redis, user) == MapSum(CountedFields(HashOf(old(redis), user)))
      ensures forall f :: f != TOTAL ==> Same(HashOf(old(redis), user), HashOf(redis, user), f)
      ensures forall key :: key != Key(user) ==> Same(old(redis), redis, key)
    {
      var all, order := HGetAll(user);
      computedTotal := ComputeTotal(all, order, HashOf(redis, user));
      HSet(user, TOTAL, computedTotal);
    }
  }

  /** The loop of `counter_reconcile_user` over the `HGETALL` reply, whatever the order of the fields. */
  method ComputeTotal(all: seq<Cell>, ghost order: seq<string>, ghost h: Hash) returns (computedTotal: int)
    requires Enumerates(order, h.Keys)
    requires IsReply(all, order, h)
    ensures computedTotal == MapSum(CountedFields(h))
  {
    computedTotal := 0;
    var i := 0;
    while i < |all|
      invariant 0 <= i <= |all| && i % 2 == 0
      invariant computedTotal == Counted(all[..i])
    {
      ReplyAt(all, order, h, i / 2);
      CountedMore(all, i);
      var field := all[i].field;
      var value := all[i + 1].value;
      if field != TOTAL && value > 0 {
        computedTotal := computedTotal + value;
      }
      i := i + 2;
    }
    assert all[..i] == all;
    CountedIsSum(all, order, h);
  }

  /** What a name and a value add to the total. */
  function Amount(name: Cell, value: Cell): int {
    if name.Name? && value.Value? && name.field != TOTAL && value.value > 0 then value.value else 0
  }

  /** The total of a flat reply, pair by pair. */
  function Counted(all: seq<Cell>): int {
    if |all| < 2 then 0 else Counted(all[..|all| - 2]) + Amount(all[|all| - 2], all[|all| - 1])
  }

  lemma CountedMore(all: seq<Cell>, i: nat)
    requires i + 2 <= |all|
    ensures Counted(all[..i + 2]) == Counted(all[..i]) + Amount(all[i], all[i + 1])
  {
    assert all[..i + 2][..i] == all[..i];
  }

  lemma CountedIsSum(all: seq<Cell>, order: seq<string>, h: Hash)
    requires Enumerates(order, h.Keys) && IsReply(all, order, h)
    ensures Counted(all) == MapSum(CountedFields(h))
  {
    forall n | 0 <= n < |order|
      ensures Amount(all[2 * n], all[2 * n + 1]) == Get(CountedFields(h), order[n])
    {
      ReplyAt(all, order, h, n);
    }
    CountedIsSeqSum(all, order, CountedFields(h));
    SeqSumIsMapSum(order, CountedFields(h));
    assert Restrict(CountedFields(h), order) == CountedFields(h);
  }

  function FieldIn(m: Hash): string -> int { (f: string) => Get(m, f) }

  lemma {:induction false} CountedIsSeqSum(all: seq<Cell>, order: seq<string>, m: Hash)
    requires |all| == 2 * |order|
    requires forall i :: 0 <= i < |order| ==> Amount(all[2 * i], all[2 * i + 1]) == Get(m, order[i])
    ensures Counted(all) == SeqSum(order, FieldIn(m))
  {
    if order != [] {
      var n := |order| - 1;
      CountedIsSeqSum(all[..2 * n], order[..n], m);
      assert Amount(all[2 * n], all[2 * n + 1]) == Get(m, order[n]);
    }
  }

  lemma {:induction false} SeqSumIsMapSum(order: seq<string>, m: Hash)
    requires forall i, j :: 0 <= i < j < |order| ==> order[i] != order[j]
    ensures SeqSum(order, FieldIn(m)) == MapSum(Restrict(m, order))
  {
    if order == [] {
      assert Restrict(m, order) == map[];
    } else {
      var front, last := order[..|order| - 1], order[|order| - 1];
      SeqSumIsMapSum(front, m);
      RestrictMore(m, front, last);
      assert order == front + [last];
    }
  }

  lemma ReplyAt(all: seq<Cell>, order: seq<string>, h: Hash, n: nat)
    requires Enumerates(order, h.Keys) && IsReply(all, order, h) && n < |order|
    ensures |all| == 2 * |order| && all[2 * n] == Name(order[n])
    ensures order[n] in h && all[2 * n + 1] == Value(h[order[n]])
  {
    assert order[n] in order;
  }

  /** One element of a flat `HGETALL` reply. */
  datatype Cell = Name(field: string) | Value(value: int)

  /** `order` names every element of `fields` exactly once. */
  ghost predicate Enumerates(order: seq<string>, fields: set<string>) {
    && (forall f :: f in order <==> f in fields)
    && (forall i, j :: 0 <= i < j < |order| ==> order[i] != order[j])
  }

  /** A flat reply: every field of `order` is followed by its value. */
  ghost predicate IsReply(all: seq<Cell>, order: seq<string>, h: Hash) {
    && |all| == 2 * |order|
    && forall n :: 0 <= n < |order| ==>
         order[n] in h && all[2 * n] == Name(order[n]) && all[2 * n + 1] == Value(h[order[n]])
  }

  lemma ReplyAppend(all: seq<Cell>, order: seq<string>, f: string, h: Hash)
    requires IsReply(all, order, h) && f in h
    ensures IsReply(all + [Name(f), Value(h[f])], order + [f], h)
  {
  }

  ghost function Restrict(m: Hash, fields: seq<string>): Hash {
    map f | f in m && f in fields :: m[f]
  }

  lemma RestrictMore(m: Hash, front: seq<string>, f: string)
    requires f !in front
    ensures MapSum(Restrict(m, front + [f])) == MapSum(Restrict(m, front)) + Get(m, f)
  {
    var old', new' := Restrict(m, front), Restrict(m, front + [f]);
    if f in m {
      assert new' == old'[f := m[f]];
      MapSumPut(old', f, m[f]);
    } else {
      assert new' == old';
    }
  }

  /** Writing a dialog field moves the sum by the change of that field; writing `total` does not. */
  lemma DialogSumPut(h: Hash, field: string, v: int)
    ensures DialogSum(h[field := v]) == if field == TOTAL then DialogSum(h) else DialogSum(h) - Get(h, field) + v
  {
    if field == TOTAL {
      assert Dialogs(h[field := v]) == Dialogs(h);
    } else {
      assert Dialogs(h[field := v]) == Dialogs(h)[field := v];
      MapSumPut(Dialogs(h), field, v);
    }
  }

  lemma DialogSumNonNegative(h: Hash)
    requires NonNegative(h)
    ensures DialogSum(h) >= 0
    ensures forall p :: Get(h, DialogField(p)) <= DialogSum(h)
  {
    MapSumNonNegative(Dialogs(h));
    forall p ensures Get(h, DialogField(p)) <= DialogSum(h) {
      if DialogField(p) in h {
        assert Dialogs(h)[DialogField(p)] == h[DialogField(p)];
      }
    }
  }

  /** Reconciling removes all drift; it never touches a dialog field. */
  lemma ReconcileEndsDrift(h: Hash)
    requires NonNegative(h)
    ensures Drift(Reconciled(h)) == 0
    ensures NonNegative(Reconciled(h))
    ensures Dialogs(Reconciled(h)) == Dialogs(h)
  {
    assert CountedFields(h) == Dialogs(h);
    DialogSumPut(h, TOTAL, MapSum(CountedFields(h)));
    DialogSumNonNegative(h);
  }

  /** Without a clamp a reset keeps the drift; a clamp moves a negative drift up, to at most zero. */
  lemma ResetDrift(h: Hash, partner: string)
    requires NonNegative(h)
    ensures NonNegative(Reset(h, partner))
    ensures Get(Reset(h, partner), DialogField(partner)) == 0
    ensures forall p :: p != partner ==> Get(Reset(h, partner), DialogField(p)) == Get(h, DialogField(p))
    ensures !Clamps(h, partner) ==> Drift(Reset(h, partner)) == Drift(h)
    ensures Clamps(h, partner) ==>
      Drift(Reset(h, partner)) == Drift(h) + Get(h, DialogField(partner)) - Get(h, TOTAL) <= 0
  {
    var count := Get(h, DialogField(partner));
    if count > 0 {
      var h1 := h[DialogField(partner) := 0];
      DialogSumPut(h, DialogField(partner), 0);
      DialogSumPut(h1, TOTAL, if Clamps(h, partner) then 0 else Get(h, TOTAL) - count);
      DialogSumNonNegative(h);
    }
  }
}
