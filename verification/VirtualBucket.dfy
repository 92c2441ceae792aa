/**
 The virtual bucket of a dialog: FNV-1a (section 2 of draft-eastlake-fnv) over the smaller of the two
 user ids, in wrapping 64-bit arithmetic, modulo 1024.
 */
module VirtualBucket {
  import opened Bits
  import opened Order

  const SIZE_MOD := 0x1_0000_0000_0000_0000
  const BUCKET_COUNT := 1024
  const FNV_OFFSET_BASIS := 14695981039346656037
  const FNV_PRIME := 1099511628211

  /** The order of UUIDs, byte by byte. */
  predicate Less(u1: Bytes, u2: Bytes) { Precedes(u1, u2, ByteBelow) }

  predicate ByteBelow(x: Byte, y: Byte) { x < y }

  function MinUuid(u1: Bytes, u2: Bytes): Bytes { if Less(u1, u2) then u1 else u2 }

  /** `hash ^ byte`: a byte only meets the lowest eight bits. */
  function Xor(x: nat, byte: Byte): nat { x / 256 * 256 + XorBits(x % 256, byte) }

  function FnvStep(hash: nat, byte: Byte): nat { Xor(hash, byte) * FNV_PRIME % SIZE_MOD }

  function Fnv(data: Bytes): nat {
    if data == [] then FNV_OFFSET_BASIS else FnvStep(Fnv(data[..|data| - 1]), data[|data| - 1])
  }

  method FnvHash(data: Bytes) returns (hash: nat)
    ensures hash == Fnv(data)
  {
    hash := FNV_OFFSET_BASIS;
    for n := 0 to |data|
      invariant hash == Fnv(data[..n])
    {
      assert data[..n + 1][..n] == data[..n];
      hash := Xor(hash, data[n]);
      hash := hash * FNV_PRIME % SIZE_MOD;
    }
    assert data[..|data|] == data;
  }

  method GetVirtualBucket(user1: Bytes, user2: Bytes) returns (bucket: nat)
    ensures bucket == Bucket(MinUuid(user1, user2))
    ensures bucket < BUCKET_COUNT
  {
    var key := MinUuid(user1, user2);
    var hash := FnvHash(key);
    bucket := hash % BUCKET_COUNT;
    TenBitsSuffice(key);
  }

  /* ---- Ten bits are enough ---- */

  /** One step of the fold on ten-bit values. */
  function TenStep(x: nat, byte: Byte): nat { Xor(x, byte) * 435 % 1024 }

  function TenFold(start: nat, data: Bytes): nat {
    if data == [] then start else TenStep(TenFold(start, data[..|data| - 1]), data[|data| - 1])
  }

  function Bucket(key: Bytes): nat { TenFold(805, key) }

  lemma Congruent(a: int, b: int, k: int)
    requires a == b + 1024 * k
    ensures a % 1024 == b % 1024
  {
  }

  lemma XorParts(x: nat, byte: Byte)
    ensures Xor(x, byte) / 256 == x / 256
    ensures Xor(x, byte) % 256 == XorBits(x % 256, byte) < 256
  {
    Pow2Of8();
    XorBitsBound(x % 256, byte, 8);
  }

  /** The bits above the tenth are untouched. */
  lemma {:induction false} XorAbove(a: nat, x: nat, byte: Byte)
    ensures Xor(1024 * a + x, byte) == 1024 * a + Xor(x, byte)
  {
    assert (1024 * a + x) / 256 == 4 * a + x / 256;
    assert (1024 * a + x) % 256 == x % 256;
  }

  lemma XorInRange(x: nat, byte: Byte)
    requires x < 1024
    ensures Xor(x, byte) < 1024
  {
    XorParts(x, byte);
  }

  lemma {:induction false} XorTen(x: nat, byte: Byte)
    ensures Xor(x, byte) % 1024 == Xor(x % 1024, byte) < 1024
  {
    XorInRange(x % 1024, byte);
    XorAbove(x / 1024, x % 1024, byte);
    Remainder(Xor(x, byte), Xor(x % 1024, byte), x / 1024);
  }

  lemma {:induction false} TenBitsOfStep(hash: nat, byte: Byte)
    ensures FnvStep(hash, byte) % 1024 == TenStep(hash % 1024, byte)
  {
    XorTen(hash, byte);
    Wrapped(Xor(hash, byte));
  }

  /** 64-bit wrap-around does not reach the lowest ten bits. */
  lemma {:induction false} Wrapped(x: nat)
    ensures x * FNV_PRIME % SIZE_MOD % 1024 == x % 1024 * 435 % 1024
  {
    var q, r := x / 1024, x % 1024;
    var w := x * FNV_PRIME / SIZE_MOD;
    var k := q * FNV_PRIME + r * 1073741824 - w * 18014398509481984;
    assert x * FNV_PRIME % SIZE_MOD == r * 435 + 1024 * k;
    Congruent(x * FNV_PRIME % SIZE_MOD, r * 435, k);
  }

  /** The bucket is a ten-bit fold: multiplier 435, started at 805. */
  lemma {:induction false} TenBitsSuffice(data: Bytes)
    ensures Fnv(data) % BUCKET_COUNT == Bucket(data) < BUCKET_COUNT
  {
    if data != [] {
      TenBitsSuffice(data[..|data| - 1]);
      TenBitsOfStep(Fnv(data[..|data| - 1]), data[|data| - 1]);
    }
  }

  /* ---- Every step is a bijection ---- */

  /** The value a step came from: 379 is the inverse of 435 modulo 1024. */
  function TenBack(y: nat, byte: Byte): nat { Xor(y * 379 % 1024, byte) }

  lemma XorTwice(x: nat, byte: Byte)
    ensures Xor(Xor(x, byte), byte) == x
  {
    XorParts(x, byte);
    XorBitsTwice(x % 256, byte);
  }

  /** 435 * 379 is 1 modulo 1024: 435 * 379 == 161 * 1024 + 1. */
  lemma Cancel379(y: nat, z: nat, a: nat)
    requires z == y * 435 - 1024 * a && y < 1024
    ensures z * 379 % 1024 == y
  {
    assert z * 379 == y + 1024 * (161 * y - 379 * a);
    Remainder(z * 379, y, 161 * y - 379 * a);
  }

  lemma Cancel435(y: nat, z: nat, a: nat)
    requires z == y * 379 - 1024 * a && y < 1024
    ensures z * 435 % 1024 == y
  {
    assert z * 435 == y + 1024 * (161 * y - 435 * a);
    Remainder(z * 435, y, 161 * y - 435 * a);
  }

  lemma Remainder(x: int, y: nat, k: int)
    requires x == y + 1024 * k && y < 1024
    ensures x % 1024 == y
  {
  }

  lemma DivideOut(y: nat)
    requires y < 1024
    ensures y * 435 % 1024 * 379 % 1024 == y
  {
    Cancel379(y, y * 435 % 1024, y * 435 / 1024);
  }

  lemma MultiplyOut(y: nat)
    requires y < 1024
    ensures y * 379 % 1024 * 435 % 1024 == y
  {
    Cancel435(y, y * 379 % 1024, y * 379 / 1024);
  }

  lemma {:induction false} TenStepThenBack(x: nat, byte: Byte)
    requires x < 1024
    ensures TenStep(x, byte) < 1024 && TenBack(TenStep(x, byte), byte) == x
  {
    XorTen(x, byte);
    DivideOut(Xor(x, byte));
    XorTwice(x, byte);
  }

  lemma {:induction false} TenBackThenStep(x: nat, byte: Byte)
    requires x < 1024
    ensures TenBack(x, byte) < 1024 && TenStep(TenBack(x, byte), byte) == x
  {
    MultiplyOut(x);
    XorTen(x * 379 % 1024, byte);
    XorTwice(x * 379 % 1024, byte);
  }

  /** A step permutes 0..1023. */
  lemma {:induction false} TenStepIsBijection(x: nat, byte: Byte)
    requires x < 1024
    ensures TenStep(x, byte) < 1024 && TenBack(TenStep(x, byte), byte) == x
    ensures TenBack(x, byte) < 1024 && TenStep(TenBack(x, byte), byte) == x
  {
    TenStepThenBack(x, byte);
    TenBackThenStep(x, byte);
  }

  lemma {:induction false} TenFoldInRange(start: nat, data: Bytes)
    requires start < 1024
    ensures TenFold(start, data) < 1024
  {
  }

  /** Different values stay different however many bytes follow. */
  lemma {:induction false} TenFoldInjective(x: nat, y: nat, data: Bytes)
    requires x < 1024 && y < 1024 && x != y
    ensures TenFold(x, data) != TenFold(y, data)
  {
    if data != [] {
      var before, byte := data[..|data| - 1], data[|data| - 1];
      TenFoldInjective(x, y, before);
      TenFoldInRange(x, before);
      TenFoldInRange(y, before);
      TenStepIsBijection(TenFold(x, before), byte);
      TenStepIsBijection(TenFold(y, before), byte);
    }
  }

  lemma {:induction false} TenFoldAppend(start: nat, first: Bytes, second: Bytes)
    ensures TenFold(start, first + second) == TenFold(TenFold(start, first), second)
  {
    if second == [] {
      assert first + second == first;
    } else {
      var whole := first + second;
      assert whole[..|whole| - 1] == first + second[..|second| - 1];
      TenFoldAppend(start, first, second[..|second| - 1]);
    }
  }

  lemma XorSeparates(x: nat, b: Byte, c: Byte)
    requires b != c
    ensures Xor(x, b) != Xor(x, c)
  {
    XorBitsInjective(x % 256, b, c);
  }

  /** From one value, different bytes lead to different values. */
  lemma TenStepSeparates(x: nat, b: Byte, c: Byte)
    requires x < 1024 && b != c
    ensures TenStep(x, b) < 1024 && TenStep(x, c) < 1024 && TenStep(x, b) != TenStep(x, c)
  {
    XorSeparates(x, b, c);
    XorInRange(x, b);
    XorInRange(x, c);
    TimesSeparates(Xor(x, b), Xor(x, c));
  }

  lemma TimesSeparates(y: nat, z: nat)
    requires y < 1024 && z < 1024 && y != z
    ensures y * 435 % 1024 != z * 435 % 1024
  {
    DivideOut(y);
    DivideOut(z);
  }

  /** Two keys that differ in exactly one byte never share a bucket. */
  lemma {:induction false} NearKeysSeparate(key: Bytes, i: nat, c: Byte)
    requires i < |key| && key[i] != c
    ensures Bucket(key[i := c]) != Bucket(key)
  {
    var x, suffix := TenFold(805, key[..i]), key[i + 1..];
    FoldThrough(key, i);
    FoldThrough(key[i := c], i);
    assert key[i := c][..i] == key[..i] && key[i := c][i + 1..] == suffix;
    TenFoldInRange(805, key[..i]);
    TenStepSeparates(x, key[i], c);
    TenFoldInjective(TenStep(x, key[i]), TenStep(x, c), suffix);
  }

  /** The fold as it passes byte `i`. */
  lemma {:induction false} FoldThrough(key: Bytes, i: nat)
    requires i < |key|
    ensures Bucket(key) == TenFold(TenStep(TenFold(805, key[..i]), key[i]), key[i + 1..])
  {
    assert key == key[..i + 1] + key[i + 1..];
    assert key[..i + 1][..i] == key[..i];
    TenFoldAppend(805, key[..i + 1], key[i + 1..]);
  }

  /** The smaller id is the one with the smaller byte at the first difference. */
  lemma MinIsSmaller(u1: Bytes, u2: Bytes, k: nat)
    requires k < |u1| && k < |u2| && u1[..k] == u2[..k] && u1[k] != u2[k]
    ensures MinUuid(u1, u2) == if u1[k] < u2[k] then u1 else u2
  {
    PrecedesAt(u1, u2, ByteBelow, k);
  }

  /** The known 64-bit FNV-1a values of the empty string and of "a". */
  lemma FnvOfA()
    ensures Fnv([]) == 0xcbf29ce484222325
    ensures Fnv([97]) == 0xaf63dc4c8601ec8c
  {
    assert [97][..0] == [];
    StepOfA();
  }

  lemma StepOfA()
    ensures FnvStep(0xcbf29ce484222325, 97) == 0xaf63dc4c8601ec8c
  {
    XorOfA();
    TimesPrimeOfA();
  }

  lemma XorOfA()
    ensures Xor(0xcbf29ce484222325, 97) == 0xcbf29ce484222344
  {
    var x: nat := 0xcbf29ce484222325;
    assert x / 256 == 0xcbf29ce4842223 && x % 256 == 37;
    XorOf37And97();
  }

  lemma TimesPrimeOfA()
    ensures 0xcbf29ce484222344 * FNV_PRIME % SIZE_MOD == 0xaf63dc4c8601ec8c
  {
    assert 0xcbf29ce484222344 * FNV_PRIME == 875948729822 * SIZE_MOD + 0xaf63dc4c8601ec8c;
  }

  lemma XorOf37And97()
    ensures XorBits(37, 97) == 68
  {
    assert XorBits(2, 6) == 4;
    assert XorBits(9, 24) == 17;
  }

  /** Both users of a dialog find the same bucket. */
  lemma {:induction false} BucketSymmetric(user1: Bytes, user2: Bytes)
    ensures Bucket(MinUuid(user1, user2)) == Bucket(MinUuid(user2, user1))
  {
    PrecedesIsStrictTotal(user1, user2, ByteBelow);
  }
}
