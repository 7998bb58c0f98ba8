/** Machine words as natural numbers: powers of two and bitwise exclusive
    or, as the three-bit computer of day 17 and the secret numbers of
    day 22 use them. */
module Bits {
  import opened Common

  function Pow2(n: nat): (r: nat)
    ensures r >= 1
  {
    if n == 0 then 1 else 2 * Pow2(n - 1)
  }

  lemma {:induction false} Pow2Add(x: nat, y: nat)
    ensures Pow2(x + y) == Pow2(x) * Pow2(y)
    decreases y
  {
    if y > 0 {
      Pow2Add(x, y - 1);
    }
  }

  /** The `usize` registers hold exactly the numbers below 2^64. */
  lemma Pow2SixtyFour()
    ensures Pow2(64) == U64Limit
  {
    assert Pow2(2) == 4;
    Pow2Add(2, 2);
    assert Pow2(4) == 16;
    Pow2Add(4, 4);
    assert Pow2(8) == 256;
    Pow2Add(8, 8);
    assert Pow2(16) == 0x1_0000;
    Pow2Add(16, 16);
    assert Pow2(32) == 0x1_0000_0000;
    Pow2Add(32, 32);
  }

  /** Bitwise exclusive or (`^`), one binary digit at a time. */
  function Xor(x: nat, y: nat): nat
    decreases x + y
  {
    if x == 0 then y
    else if y == 0 then x
    else 2 * Xor(x / 2, y / 2) + (if x % 2 == y % 2 then 0 else 1)
  }

  /** The lowest bit of x ^ y is set exactly when the lowest bits differ,
      and the other bits are the exclusive or of the other bits. */
  lemma XorBits(x: nat, y: nat)
    ensures Xor(x, y) % 2 == (if x % 2 == y % 2 then 0 else 1)
    ensures Xor(x, y) / 2 == Xor(x / 2, y / 2)
  {
    if x == 0 {
      assert Xor(x / 2, y / 2) == y / 2;
    } else if y == 0 {
      assert Xor(x / 2, y / 2) == x / 2;
    } else {
      HalfOf(Xor(x / 2, y / 2), if x % 2 == y % 2 then 0 else 1);
    }
  }

  /** One binary digit of `^`: knowing the exclusive or of the higher
      digits gives that of the whole. */
  lemma XorStep(x: nat, y: nat, high: nat)
    requires x != 0 && y != 0 && Xor(x / 2, y / 2) == high
    ensures Xor(x, y) == 2 * high + (if x % 2 == y % 2 then 0 else 1)
  {
  }

  /** Exclusive or with zero changes nothing. */
  lemma XorWithZero(x: nat, y: nat)
    requires x == 0 || y == 0
    ensures Xor(x, y) == x + y
  {
  }

  lemma HalfOf(q: nat, bit: nat)
    requires bit < 2
    ensures (2 * q + bit) % 2 == bit && (2 * q + bit) / 2 == q
  {
  }

  lemma {:induction false} XorCommutes(x: nat, y: nat)
    ensures Xor(x, y) == Xor(y, x)
    decreases x + y
  {
    if x != 0 && y != 0 {
      XorCommutes(x / 2, y / 2);
    }
  }

  /** A value is determined by its lowest bit and the rest. */
  lemma BitsDetermine(u: nat, v: nat)
    requires u % 2 == v % 2 && u / 2 == v / 2
    ensures u == v
  {
  }

  /** Exclusive or with the same value twice undoes itself. */
  lemma {:induction false} XorSelfInverse(x: nat, y: nat)
    ensures Xor(Xor(x, y), y) == x
    decreases x + y
  {
    var z := Xor(x, y);
    XorBits(x, y);
    XorBits(z, y);
    if x != 0 && y != 0 {
      XorSelfInverse(x / 2, y / 2);
      BitsDetermine(Xor(z, y), x);
    } else if x == 0 {
      assert z == y;
      XorZero(y);
    } else {
      assert z == x;
    }
  }

  lemma {:induction false} XorZero(x: nat)
    ensures Xor(x, x) == 0
    decreases x
  {
    if x != 0 {
      XorZero(x / 2);
    }
  }

  /** Exclusive or of two k-bit numbers is a k-bit number, so `^` keeps a
      `usize` register within its width. */
  lemma {:induction false} XorBelow(x: nat, y: nat, k: nat)
    requires x < Pow2(k) && y < Pow2(k)
    ensures Xor(x, y) < Pow2(k)
    decreases k
  {
    if x != 0 && y != 0 {
      XorBelow(x / 2, y / 2, k - 1);
    }
  }
}
