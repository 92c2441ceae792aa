/**
 Dialogs in Redis. A list per pair of users holds message ids in the order they were sent, a hash per
 message id holds the message. The log of all sends is the reference this index is compared with.
 */
module DialogStore {
  import opened Wrappers
  import opened Order

  datatype Message = Message(from: string, to: string, text: string)

  /** `dialog:msg:<id>` and `dialog:idx:<id>:<id>` */
  datatype Store = Store(records: map<string, Message>, index: map<string, seq<string>>)

  datatype Sent = Sent(id: string, msg: Message)

  /** Lua's order on strings in the C locale. */
  predicate Less(a: string, b: string) { Precedes(a, b, CharBelow) }

  predicate CharBelow(x: char, y: char) { x < y }

  const INDEX_PREFIX := "dialog:idx:"

  function OrderedKey(a: string, b: string): string { INDEX_PREFIX + a + ":" + b }

  /** `idx_key` */
  function IdxKey(id1: string, id2: string): string {
    if Less(id1, id2) then OrderedKey(id1, id2) else OrderedKey(id2, id1)
  }

  function IdsAt(store: Store, key: string): seq<string> {
    if key in store.index then store.index[key] else []
  }

  /** `HMGET dialog:msg:<id> from to text` */
  function RecordOf(store: Store, id: string): Option<Message> {
    if id in store.records then Some(store.records[id]) else None
  }

  /** The store after `dialog_send`. */
  function Send(store: Store, from: string, to: string, text: string, id: string): Store {
    var key := IdxKey(from, to);
    Store(store.records[id := Message(from, to, text)], store.index[key := IdsAt(store, key) + [id]])
  }

  /** The reply of `dialog_list`; a missing record makes an entry without a message. */
  function List(store: Store, user1: string, user2: string): (reply: seq<Option<Message>>)
    ensures |reply| == |IdsAt(store, IdxKey(user1, user2))|
    ensures forall i :: 0 <= i < |reply| ==> reply[i] == RecordOf(store, IdsAt(store, IdxKey(user1, user2))[i])
  {
    var ids := IdsAt(store, IdxKey(user1, user2));
    seq(|ids|, i requires 0 <= i < |ids| => RecordOf(store, ids[i]))
  }

  /** The message is under its id and at the end of its pair's index, and everything else is as before. */
  ghost predicate Holds(before: Store, after: Store, from: string, to: string, text: string, id: string) {
    && RecordOf(after, id) == Some(Message(from, to, text))
    && (forall other :: other != id ==> RecordOf(after, other) == RecordOf(before, other))
    && IdsAt(after, IdxKey(from, to)) == IdsAt(before, IdxKey(from, to)) + [id]
    && (forall key :: key != IdxKey(from, to) ==> IdsAt(after, key) == IdsAt(before, key))
  }

  class DialogRedis {
    var records: map<string, Message>
    var index: map<string, seq<string>>

    function View(): Store
      reads this
    {
      Store(records, index)
    }

    constructor ()
      ensures View() == EMPTY
    {
      records, index := map[], map[];
    }

    /** `FCALL dialog_send` */
    method DialogSend(fromId: string, toId: string, text: string, msgId: string)
      modifies this
      ensures View() == Send(old(View()), fromId, toId, text, msgId)
      ensures Holds(old(View()), View(), fromId, toId, text, msgId)
    {
      var key := IdxKey(fromId, toId);
      records := records[msgId := Message(fromId, toId, text)];
      index := index[key := (if key in index then index[key] else []) + [msgId]];
    }

    /** `FCALL dialog_list` */
    method DialogList(user1: string, user2: string) returns (result: seq<Option<Message>>)
      ensures result == List(View(), user1, user2)
    {
      var key := IdxKey(user1, user2);
      var ids := if key in index then index[key] else [];
      result := [];
      for n := 0 to |ids|
        invariant result == List(View(), user1, user2)[..n]
      {
        var d := if ids[n] in records then Some(records[ids[n]]) else None;
        result := result + [d];
      }
    }
  }

  const EMPTY := Store(map[], map[])

  /** The store after a whole run of sends. */
  ghost function Replay(log: seq<Sent>): Store {
    if log == [] then EMPTY
    else
      var e := log[|log| - 1];
      Send(Replay(log[..|log| - 1]), e.msg.from, e.msg.to, e.msg.text, e.id)
  }

  predicate Between(m: Message, a: string, b: string) {
    (m.from == a && m.to == b) || (m.from == b && m.to == a)
  }

  /** The reference: the sends between two users, in the order they were made. */
  function PairLog(log: seq<Sent>, a: string, b: string): seq<Sent> {
    if log == [] then []
    else
      var e := log[|log| - 1];
      PairLog(log[..|log| - 1], a, b) + if Between(e.msg, a, b) then [e] else []
  }

  ghost predicate DistinctIds(log: seq<Sent>) {
    forall i, j :: 0 <= i < j < |log| ==> log[i].id != log[j].id
  }

  lemma IdxKeySymmetric(a: string, b: string)
    ensures IdxKey(a, b) == IdxKey(b, a)
  {
    PrecedesIsStrictTotal(a, b, CharBelow);
  }

  /** The id with the smaller character at the first difference comes first in the key. */
  lemma SmallerComesFirst(a: string, b: string, k: nat)
    requires k < |a| && k < |b| && a[..k] == b[..k] && a[k] != b[k]
    ensures IdxKey(a, b) == "dialog:idx:" + if a[k] < b[k] then a + ":" + b else b + ":" + a
  {
    PrecedesAt(a, b, CharBelow, k);
    var x, y := if a[k] < b[k] then a else b, if a[k] < b[k] then b else a;
    assert INDEX_PREFIX + x + ":" + y == "dialog:idx:" + (x + ":" + y);
  }

  /* ---- Which pairs share a key ---- */

  predicate SamePair(a: string, b: string, c: string, d: string) { (a == c && b == d) || (a == d && b == c) }

  function Smaller(a: string, b: string): string { if Less(a, b) then a else b }

  function Larger(a: string, b: string): string { if Less(a, b) then b else a }

  /** The text `x:y` read as `z:w`, split at a later colon. */
  predicate Shifted(x: string, y: string, z: string, w: string) {
    |x| < |z| && z[..|x|] == x && z[|x|] == ':' && y == z[|x| + 1..] + ":" + w
  }

  lemma OrderedKeyParts(a: string, b: string)
    ensures |OrderedKey(a, b)| == 12 + |a| + |b|
    ensures OrderedKey(a, b)[11..11 + |a|] == a
    ensures OrderedKey(a, b)[11 + |a|] == ':'
    ensures OrderedKey(a, b)[12 + |a|..] == b
  {
  }

  lemma ShiftedSharesKey(x: string, y: string, z: string, w: string)
    requires Shifted(x, y, z, w)
    ensures OrderedKey(x, y) == OrderedKey(z, w)
  {
    assert z == x + ":" + z[|x| + 1..];
    assert OrderedKey(x, y) == INDEX_PREFIX + x + ":" + z[|x| + 1..] + ":" + w;
  }

  /** A shared key whose first split comes earlier. */
  lemma SharedKeyIsShifted(x: string, y: string, z: string, w: string)
    requires OrderedKey(x, y) == OrderedKey(z, w) && |x| < |z|
    ensures Shifted(x, y, z, w)
  {
    var key := OrderedKey(x, y);
    OrderedKeyParts(x, y);
    OrderedKeyParts(z, w);
    assert z[..|x|] == key[11..11 + |z|][..|x|] == key[11..11 + |x|];
    assert z[|x|] == key[11 + |x|];
    assert y == key[12 + |x|..11 + |z|] + key[11 + |z|..12 + |z|] + key[12 + |z|..];
    assert key[12 + |x|..11 + |z|] == key[11..11 + |z|][|x| + 1..];
  }

  lemma OrderedKeyExact(x: string, y: string, z: string, w: string)
    ensures OrderedKey(x, y) == OrderedKey(z, w) <==>
      (x == z && y == w) || Shifted(x, y, z, w) || Shifted(z, w, x, y)
  {
    if Shifted(x, y, z, w) {
      ShiftedSharesKey(x, y, z, w);
    } else if Shifted(z, w, x, y) {
      ShiftedSharesKey(z, w, x, y);
    } else if OrderedKey(x, y) == OrderedKey(z, w) {
      if |x| < |z| {
        SharedKeyIsShifted(x, y, z, w);
      } else if |z| < |x| {
        SharedKeyIsShifted(z, w, x, y);
      } else {
        OrderedKeyParts(x, y);
        OrderedKeyParts(z, w);
      }
    }
  }

  /**
   Whatever the ids, two pairs share a key exactly when they are the same unordered pair, or the text of
   one is that of the other, split at another of its colons.
   */
  lemma IdxKeyExact(a: string, b: string, c: string, d: string)
    ensures IdxKey(a, b) == IdxKey(c, d) <==>
      || SamePair(a, b, c, d)
      || Shifted(Smaller(a, b), Larger(a, b), Smaller(c, d), Larger(c, d))
      || Shifted(Smaller(c, d), Larger(c, d), Smaller(a, b), Larger(a, b))
  {
    PrecedesIsStrictTotal(a, b, CharBelow);
    PrecedesIsStrictTotal(c, d, CharBelow);
    OrderedKeyExact(Smaller(a, b), Larger(a, b), Smaller(c, d), Larger(c, d));
  }

  predicate ColonFree(id: string) { ':' !in id }

  /** So the key tells pairs of ids apart as long as no id contains the separator. */
  lemma IdxKeyInjective(a: string, b: string, c: string, d: string)
    requires ColonFree(a) && ColonFree(b) && ColonFree(c) && ColonFree(d)
    ensures IdxKey(a, b) == IdxKey(c, d) <==> SamePair(a, b, c, d)
  {
    IdxKeyExact(a, b, c, d);
  }

  /** The text form of a UUID, section 4 of RFC 9562: 8-4-4-4-12 lower-case hex digits. */
  predicate UuidText(s: string) {
    && |s| == 36
    && forall i :: 0 <= i < 36 ==>
         if i in {8, 13, 18, 23} then s[i] == '-' else '0' <= s[i] <= '9' || 'a' <= s[i] <= 'f'
  }

  lemma UuidIsColonFree(id: string)
    requires UuidText(id)
    ensures ColonFree(id)
  {
    assert forall i :: 0 <= i < 36 ==> id[i] != ':';
  }

  /** With a colon in an id, two different pairs can share a key. */
  lemma IdxKeyCollision()
    ensures IdxKey("a", "b:c") == IdxKey("a:b", "c")
  {
    assert Less("a", "b:c") && Less("a:b", "c");
    assert Shifted("a", "b:c", "a:b", "c");
    IdxKeyExact("a", "b:c", "a:b", "c");
  }

  ghost predicate Ids(ids: seq<string>, entries: seq<Sent>) {
    |ids| == |entries| && forall i :: 0 <= i < |ids| ==> ids[i] == entries[i].id
  }

  lemma {:induction false} PairLogFromLog(log: seq<Sent>, a: string, b: string)
    ensures forall e :: e in PairLog(log, a, b) <==> e in log && Between(e.msg, a, b)
  {
    if log != [] {
      PairLogFromLog(log[..|log| - 1], a, b);
      assert log == log[..|log| - 1] + [log[|log| - 1]];
    }
  }

  /** Every send is found under its id. */
  lemma {:induction false} ReplayRecord(log: seq<Sent>, i: nat)
    requires DistinctIds(log) && i < |log|
    ensures RecordOf(Replay(log), log[i].id) == Some(log[i].msg)
  {
    var n := |log| - 1;
    if i < n {
      ReplayRecord(log[..n], i);
      assert log[i].id != log[n].id;
    }
  }

  /** The sends that went to one index, in the order they were made. */
  function KeyLog(log: seq<Sent>, key: string): seq<Sent> {
    if log == [] then []
    else
      var e := log[|log| - 1];
      KeyLog(log[..|log| - 1], key) + if IdxKey(e.msg.from, e.msg.to) == key then [e] else []
  }

  lemma {:induction false} KeyLogFromLog(log: seq<Sent>, key: string)
    ensures forall e :: e in KeyLog(log, key) <==> e in log && IdxKey(e.msg.from, e.msg.to) == key
  {
    if log != [] {
      KeyLogFromLog(log[..|log| - 1], key);
      assert log == log[..|log| - 1] + [log[|log| - 1]];
    }
  }

  lemma {:induction false} ReplayIndex(log: seq<Sent>, key: string)
    ensures Ids(IdsAt(Replay(log), key), KeyLog(log, key))
  {
    if log != [] {
      ReplayIndex(log[..|log| - 1], key);
    }
  }

  /**
   After any sends with distinct ids, between any users, listing a dialog from either side gives the
   messages sent to its index, in the order they were sent, and none is missing its record.
   */
  lemma ListIsKeyLog(log: seq<Sent>, a: string, b: string)
    requires DistinctIds(log)
    ensures List(Replay(log), a, b) == Messages(KeyLog(log, IdxKey(a, b)))
    ensures List(Replay(log), b, a) == List(Replay(log), a, b)
  {
    IdxKeySymmetric(a, b);
    ReplayIndex(log, IdxKey(a, b));
    KeyLogFromLog(log, IdxKey(a, b));
    var entries := KeyLog(log, IdxKey(a, b));
    forall i | 0 <= i < |entries|
      ensures List(Replay(log), a, b)[i] == Some(entries[i].msg)
    {
      var j :| 0 <= j < |log| && log[j] == entries[i];
      ReplayRecord(log, j);
    }
  }

  /** The index keeps the order of the log. */
  lemma {:induction false} KeyLogInOrder(log: seq<Sent>, key: string) returns (at: seq<nat>)
    ensures Positions(at, log, KeyLog(log, key))
  {
    at := [];
    if log != [] {
      var front, e := log[..|log| - 1], log[|log| - 1];
      at := KeyLogInOrder(front, key);
      PositionsMore(at, front, KeyLog(front, key), e);
      assert log == front + [e];
      at := at + if IdxKey(e.msg.from, e.msg.to) == key then [|front|] else [];
    }
  }

  /** And so does the reference. */
  lemma {:induction false} PairLogInOrder(log: seq<Sent>, a: string, b: string) returns (at: seq<nat>)
    ensures Positions(at, log, PairLog(log, a, b))
  {
    at := [];
    if log != [] {
      var front, e := log[..|log| - 1], log[|log| - 1];
      at := PairLogInOrder(front, a, b);
      PositionsMore(at, front, PairLog(front, a, b), e);
      assert log == front + [e];
      at := at + if Between(e.msg, a, b) then [|front|] else [];
    }
  }

  /** No send between another pair went to the index of `a` and `b`. */
  ghost predicate Unmixed(log: seq<Sent>, a: string, b: string) {
    forall e :: e in log && IdxKey(e.msg.from, e.msg.to) == IdxKey(a, b) ==> Between(e.msg, a, b)
  }

  lemma {:induction false} UnmixedLogsAgree(log: seq<Sent>, a: string, b: string)
    requires Unmixed(log, a, b)
    ensures PairLog(log, a, b) == KeyLog(log, IdxKey(a, b))
  {
    if log != [] {
      UnmixedLogsAgree(log[..|log| - 1], a, b);
      IdxKeySymmetric(a, b);
      assert log[|log| - 1] in log;
    }
  }

  lemma {:induction false} PairLogIsShorter(log: seq<Sent>, a: string, b: string)
    ensures |PairLog(log, a, b)| <= |KeyLog(log, IdxKey(a, b))|
  {
    if log != [] {
      PairLogIsShorter(log[..|log| - 1], a, b);
      IdxKeySymmetric(a, b);
    }
  }

  lemma {:induction false} MixedLogIsLonger(log: seq<Sent>, a: string, b: string, i: nat)
    requires i < |log| && !Between(log[i].msg, a, b)
    requires IdxKey(log[i].msg.from, log[i].msg.to) == IdxKey(a, b)
    ensures |PairLog(log, a, b)| < |KeyLog(log, IdxKey(a, b))|
  {
    var n := |log| - 1;
    IdxKeySymmetric(a, b);
    if i == n {
      PairLogIsShorter(log[..n], a, b);
    } else {
      MixedLogIsLonger(log[..n], a, b, i);
    }
  }

  /**
   The listing is exactly the messages the two users sent each other, in send order, if and only if no
   other pair of the log shares their key.
   */
  lemma ListRefinesPairLog(log: seq<Sent>, a: string, b: string)
    requires DistinctIds(log)
    ensures List(Replay(log), a, b) == Messages(PairLog(log, a, b)) <==> Unmixed(log, a, b)
  {
    ListIsKeyLog(log, a, b);
    if Unmixed(log, a, b) {
      UnmixedLogsAgree(log, a, b);
    } else {
      var i :| 0 <= i < |log| && IdxKey(log[i].msg.from, log[i].msg.to) == IdxKey(a, b) && !Between(log[i].msg, a, b);
      MixedLogIsLonger(log, a, b, i);
    }
  }

  ghost predicate ColonFreeUsers(log: seq<Sent>) {
    forall e :: e in log ==> ColonFree(e.msg.from) && ColonFree(e.msg.to)
  }

  /** Ids without the separator, as all UUID texts are, are enough for that. */
  lemma ColonFreeIsUnmixed(log: seq<Sent>, a: string, b: string)
    requires ColonFreeUsers(log) && ColonFree(a) && ColonFree(b)
    ensures Unmixed(log, a, b)
  {
    forall e | e in log && IdxKey(e.msg.from, e.msg.to) == IdxKey(a, b) ensures Between(e.msg, a, b) {
      IdxKeyInjective(e.msg.from, e.msg.to, a, b);
    }
  }

  function Messages(entries: seq<Sent>): (reply: seq<Option<Message>>)
    ensures |reply| == |entries| && forall i :: 0 <= i < |reply| ==> reply[i] == Some(entries[i].msg)
  {
    seq(|entries|, i requires 0 <= i < |entries| => Some(entries[i].msg))
  }

  /** An indexed id is the id of a send. */
  lemma {:induction false} IndexedWasSent(log: seq<Sent>, key: string, n: nat) returns (i: nat)
    requires key in Replay(log).index && n < |Replay(log).index[key]|
    ensures i < |log| && log[i].id == Replay(log).index[key][n]
    ensures key == IdxKey(log[i].msg.from, log[i].msg.to)
  {
    var last := |log| - 1;
    var before := Replay(log[..last]);
    if key in before.index && n < |before.index[key]| {
      i := IndexedWasSent(log[..last], key, n);
    } else {
      i := last;
    }
  }

  /** Every indexed id has its record, and that record says which index the id is in. */
  lemma IndexedHasRecord(log: seq<Sent>, key: string, n: nat)
    requires DistinctIds(log)
    requires key in Replay(log).index && n < |Replay(log).index[key]|
    ensures var record := RecordOf(Replay(log), Replay(log).index[key][n]);
      record.Some? && key == IdxKey(record.value.from, record.value.to)
  {
    var i := IndexedWasSent(log, key, n);
    ReplayRecord(log, i);
  }

  /** So an id is in one index only, and there only once. */
  lemma {:induction false} IndexedOnce(log: seq<Sent>, key: string, n: nat, key': string, n': nat)
    requires DistinctIds(log)
    requires key in Replay(log).index && n < |Replay(log).index[key]|
    requires key' in Replay(log).index && n' < |Replay(log).index[key']|
    requires Replay(log).index[key][n] == Replay(log).index[key'][n']
    ensures key == key' && n == n'
  {
    IndexedHasRecord(log, key, n);
    IndexedHasRecord(log, key', n');
    if n != n' {
      IndexDistinct(log, key, if n < n' then n else n', if n < n' then n' else n);
    }
  }

  lemma {:induction false} IndexDistinct(log: seq<Sent>, key: string, m: nat, n: nat)
    requires DistinctIds(log)
    requires key in Replay(log).index && m < n < |Replay(log).index[key]|
    ensures Replay(log).index[key][m] != Replay(log).index[key][n]
  {
    var last := |log| - 1;
    var before := Replay(log[..last]);
    if n < |IdsAt(before, key)| {
      IndexDistinct(log[..last], key, m, n);
    } else {
      var i := IndexedWasSent(log[..last], key, m);
      assert log[i].id != log[last].id;
    }
  }
}
