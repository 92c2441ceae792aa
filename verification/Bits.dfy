/** Bytes and the bitwise operations on them, on numbers. */
module Bits {
  type Byte = n: nat | n < 256
  type Bytes = seq<Byte>

  /** Exclusive or, lowest bit first. */
  function XorBits(x: nat, y: nat): nat {
    if x == 0 && y == 0 then 0 else (if x % 2 == y % 2 then 0 else 1) + 2 * XorBits(x / 2, y / 2)
  }

  /** Inclusive or, lowest bit first. */
  function OrBits(x: nat, y: nat): nat {
    if x == 0 && y == 0 then 0 else (if x % 2 == 0 && y % 2 == 0 then 0 else 1) + 2 * OrBits(x / 2, y / 2)
  }

  function Pow2(k: nat): (m: nat)
    ensures m > 0
  {
    if k == 0 then 1 else 2 * Pow2(k - 1)
  }

  lemma Pow2Of8()
    ensures Pow2(8) == 256
  {
    assert Pow2(4) == 16;
  }

  lemma {:induction false} XorBitsBound(x: nat, y: nat, n: nat)
    requires x < Pow2(n) && y < Pow2(n)
    ensures XorBits(x, y) < Pow2(n)
  {
    if n > 0 {
      XorBitsBound(x / 2, y / 2, n - 1);
    }
  }

  lemma {:induction false} XorBitsTwice(x: nat, y: nat)
    ensures XorBits(XorBits(x, y), y) == x
  {
    if x != 0 || y != 0 {
      var rest := XorBits(x / 2, y / 2);
      assert XorBits(x, y) / 2 == rest && XorBits(x, y) % 2 == if x % 2 == y % 2 then 0 else 1;
      XorBitsTwice(x / 2, y / 2);
    }
  }

  lemma {:induction false} XorBitsSymmetric(x: nat, y: nat)
    ensures XorBits(x, y) == XorBits(y, x)
  {
    if x != 0 || y != 0 {
      XorBitsSymmetric(x / 2, y / 2);
    }
  }

  lemma XorBitsInjective(x: nat, b: nat, c: nat)
    requires b != c
    ensures XorBits(x, b) != XorBits(x, c)
  {
    XorBitsSymmetric(x, b);
    XorBitsSymmetric(x, c);
    XorBitsTwice(b, x);
    XorBitsTwice(c, x);
  }

  /** An exclusive or is zero exactly when its arguments are equal, an inclusive or when both are zero. */
  lemma {:induction false} XorBitsZero(x: nat, y: nat)
    ensures XorBits(x, y) == 0 <==> x == y
  {
    if x != 0 || y != 0 {
      XorBitsZero(x / 2, y / 2);
    }
  }

  lemma {:induction false} OrBitsZero(x: nat, y: nat)
    ensures OrBits(x, y) == 0 <==> x == 0 && y == 0
  {
    if x != 0 || y != 0 {
      OrBitsZero(x / 2, y / 2);
    }
  }

  /** Bit `k` of `x`, counted from the lowest. */
  function Bit(x: nat, k: nat): nat {
    if k == 0 then x % 2 else Bit(x / 2, k - 1)
  }

  lemma {:induction false} ZeroBits(k: nat)
    ensures Bit(0, k) == 0
  {
    if k > 0 {
      ZeroBits(k - 1);
    }
  }

  /** A bit of an exclusive or is set exactly when it differs in the arguments. */
  lemma {:induction false} XorBitsAt(x: nat, y: nat, k: nat)
    ensures Bit(XorBits(x, y), k) == if Bit(x, k) == Bit(y, k) then 0 else 1
  {
    if x == 0 && y == 0 {
      ZeroBits(k);
    } else {
      var rest := XorBits(x / 2, y / 2);
      assert XorBits(x, y) / 2 == rest && XorBits(x, y) % 2 == if x % 2 == y % 2 then 0 else 1;
      if k > 0 {
        XorBitsAt(x / 2, y / 2, k - 1);
      }
    }
  }

  /** A bit of an inclusive or is set exactly when it is in one of the arguments. */
  lemma {:induction false} OrBitsAt(x: nat, y: nat, k: nat)
    ensures Bit(OrBits(x, y), k) == if Bit(x, k) == 0 && Bit(y, k) == 0 then 0 else 1
  {
    if x == 0 && y == 0 {
      ZeroBits(k);
    } else {
      var rest := OrBits(x / 2, y / 2);
      assert OrBits(x, y) / 2 == rest && OrBits(x, y) % 2 == if x % 2 == 0 && y % 2 == 0 then 0 else 1;
      if k > 0 {
        OrBitsAt(x / 2, y / 2, k - 1);
      }
    }
  }
}
