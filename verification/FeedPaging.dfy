/**
 The slice of a feed that `GetFeed` returns: a hit asks Redis for a range of the list, a miss cuts the
 loaded feed with unsigned arithmetic.
 */
module FeedPaging {
  import opened Wrappers
  import opened PostFeed

  const INT_MAX := 0x7fff_ffff
  const SIZE_MOD := 0x1_0000_0000_0000_0000

  predicate IsInt(n: int) { -INT_MAX - 1 <= n <= INT_MAX }

  /** What the language leaves undefined: int overflow, or a range whose end is before its begin. */
  datatype Fault = IntOverflow | ReversedRange

  function Min(a: int, b: int): int { if a < b then a else b }

  /** A negative Redis index counts from the end. */
  function FromEnd(index: int, length: nat): int { if index < 0 then length + index else index }

  /** `LRANGE`, with both ends included. */
  function LRange<T>(list: seq<T>, start: int, stop: int): seq<T> {
    var first := if FromEnd(start, |list|) < 0 then 0 else FromEnd(start, |list|);
    var last := FromEnd(stop, |list|);
    if first > last || first >= |list| then []
    else list[first..Min(last + 1, |list|)]
  }

  function HitSlice<T>(list: seq<T>, offset: int, limit: int): Result<seq<T>, Fault> {
    if !IsInt(offset + limit) || !IsInt(offset + limit - 1) then Err(IntOverflow)
    else Ok(LRange(list, offset, offset + limit - 1))
  }

  /** `static_cast<std::size_t>` */
  function ToSize(n: int): nat { n % SIZE_MOD }

  function MissSlice<T>(feed: seq<T>, offset: int, limit: int): Result<seq<T>, Fault> {
    var begin := ToSize(offset);
    if begin >= |feed| then Ok([])
    else
      var end := Min(ToSize(begin + ToSize(limit)), |feed|);
      if end < begin then Err(ReversedRange) else Ok(feed[begin..end])
  }

  /** What `GetFeed` returns: a range of the cached list, or a slice of the loaded one. */
  function Shown(s: State, user: string, offset: int, limit: int): Result<seq<Post>, Fault> {
    if user in s.cache then HitSlice(s.cache[user], offset, limit) else MissSlice(Query(s, user), offset, limit)
  }

  function Page<T>(feed: seq<T>, offset: nat, limit: nat): seq<T> {
    feed[Min(offset, |feed|)..Min(offset + limit, |feed|)]
  }

  /** The page has the entries from `offset` on, `limit` of them unless the feed ends before. */
  lemma PageAt<T>(feed: seq<T>, offset: nat, limit: nat)
    ensures |Page(feed, offset, limit)| ==
      if offset >= |feed| then 0 else if offset + limit > |feed| then |feed| - offset else limit
    ensures forall k :: 0 <= k < |Page(feed, offset, limit)| ==> Page(feed, offset, limit)[k] == feed[offset + k]
  {
  }

  /** For a proper page, a hit and a miss both return it. */
  lemma ProperPage<T>(feed: seq<T>, offset: nat, limit: nat)
    requires limit >= 1 && offset + limit <= INT_MAX && |feed| <= INT_MAX
    ensures HitSlice(feed, offset, limit) == Ok(Page(feed, offset, limit))
    ensures MissSlice(feed, offset, limit) == Ok(Page(feed, offset, limit))
  {
    ToSizeOf(offset);
    ToSizeOf(limit);
    ToSizeOf(offset + limit);
    if offset >= |feed| {
      assert Page(feed, offset, limit) == [];
    }
  }

  /** A read of the first 1000 entries shows the whole feed. */
  lemma WholeFeed(s: State, user: string)
    requires Capped(s)
    ensures Shown(s, user, 0, MAX_FEED_SIZE) == Ok(Feed(s, user))
  {
    var feed := Feed(s, user);
    ProperPage(feed, 0, MAX_FEED_SIZE);
    assert feed[0..|feed|] == feed;
  }

  lemma ToSizeOf(n: int)
    requires -SIZE_MOD <= n < SIZE_MOD
    ensures ToSize(n) == if n >= 0 then n else n + SIZE_MOD
  {
  }

  /** What the arguments must satisfy for a hit and a miss to agree on a list of `length` posts. */
  predicate Agreeing(length: nat, offset: int, limit: int) {
    && IsInt(offset + limit) && IsInt(offset + limit - 1)
    && if offset >= 0 then
         limit >= 1 || (limit == 0 && offset > 0) || offset >= length
       else
         var stop := offset + limit - 1;
         limit <= 0 || (if stop < 0 then stop + length < 0 else limit <= length)
  }

  /**
   For any int arguments and any feed that Redis can hold, a hit and a miss agree exactly under that
   condition. A sum that overflows leaves only the hit undefined; without overflow, `limit = 0` at offset
   0 is where they first differ.
   */
  lemma {:induction false} HitAndMissAgree<T>(feed: seq<T>, offset: int, limit: int)
    requires IsInt(offset) && IsInt(limit)
    requires 0 < |feed| <= 1000
    ensures HitSlice(feed, offset, limit) == MissSlice(feed, offset, limit) <==> Agreeing(|feed|, offset, limit)
  {
    ToSizeOf(offset);
    ToSizeOf(limit);
    if offset < 0 {
      MissBeforeStart(feed, offset, limit);
    } else if offset < |feed| {
      MissInside(feed, offset, limit);
    }
  }

  /** They do differ: a hit returns the whole list, a miss nothing. */
  lemma ZeroLimitDiffers<T>(feed: seq<T>)
    requires 0 < |feed| <= 1000
    ensures HitSlice(feed, 0, 0) == Ok(feed) && MissSlice(feed, 0, 0) == Ok([])
  {
    ToSizeOf(0);
    assert feed[0..|feed|] == feed && feed[0..0] == [];
  }

  lemma MissBeforeStart<T>(feed: seq<T>, offset: int, limit: int)
    requires IsInt(offset) && offset < 0 && |feed| <= 1000
    ensures MissSlice(feed, offset, limit) == Ok([])
  {
    ToSizeOf(offset);
  }

  lemma MissInside<T>(feed: seq<T>, offset: int, limit: int)
    requires 0 <= offset < |feed| <= 1000 && IsInt(limit)
    ensures MissSlice(feed, offset, limit) ==
      if limit >= 0 then Ok(Page(feed, offset, limit))
      else if offset + limit >= 0 then Err(ReversedRange)
      else Ok(feed[offset..])
  {
    ToSizeOf(offset);
    ToSizeOf(limit);
    if limit >= 0 {
      ToSizeOf(offset + limit);
    } else if offset + limit < 0 {
      ToSizeOf(offset + ToSize(limit));
      assert feed[offset..|feed|] == feed[offset..];
    } else {
      assert offset + ToSize(limit) == offset + limit + SIZE_MOD;
      assert ToSize(offset + ToSize(limit)) == offset + limit;
    }
  }

  /** Pages of `limit` posts, read one after another until the offset passes the end. */
  function Pages<T>(feed: seq<T>, offset: nat, limit: nat): seq<T>
    requires limit >= 1
    decreases |feed| - offset
  {
    if offset >= |feed| then [] else Page(feed, offset, limit) + Pages(feed, offset + limit, limit)
  }

  /** Consecutive pages are the whole feed, without a gap or a repetition. */
  lemma {:induction false} PagesTile<T>(feed: seq<T>, offset: nat, limit: nat)
    requires limit >= 1 && offset <= |feed|
    ensures Pages(feed, offset, limit) == feed[offset..]
    decreases |feed| - offset
  {
    if offset + limit <= |feed| && offset < |feed| {
      PagesTile(feed, offset + limit, limit);
      assert feed[offset..] == feed[offset..offset + limit] + feed[offset + limit..];
    }
  }
}
