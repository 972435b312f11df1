/** Bitwise operations on natural numbers, digit by digit, and what masks do arithmetically. */
module Bits {
  function Pow2(n: nat): (r: nat)
    ensures r > 0
  {
    if n == 0 then 1 else 2 * Pow2(n - 1)
  }

  const WORD16: nat := 0x1_0000
  const WORD32: nat := 0x1_0000_0000
  const WORD64: nat := 0x1_0000_0000_0000_0000

  type Byte = b: nat | b < 256
  type U16 = n: nat | n < WORD16
  type U32 = n: nat | n < WORD32
  type U64 = n: nat | n < WORD64

  function And(x: nat, y: nat): nat {
    if x == 0 || y == 0 then 0 else 2 * And(x / 2, y / 2) + if x % 2 == 1 && y % 2 == 1 then 1 else 0
  }

  function Or(x: nat, y: nat): nat {
    if x == 0 then y else if y == 0 then x else 2 * Or(x / 2, y / 2) + if x % 2 == 1 || y % 2 == 1 then 1 else 0
  }

  function Xor(x: nat, y: nat): nat {
    if x == 0 then y else if y == 0 then x else 2 * Xor(x / 2, y / 2) + (x % 2 + y % 2) % 2
  }

  lemma {:induction false} Pow2Add(m: nat, n: nat)
    ensures Pow2(m + n) == Pow2(m) * Pow2(n)
    decreases m
  {
    if m > 0 {
      Pow2Add(m - 1, n);
      assert Pow2(m + n) == 2 * (Pow2(m - 1) * Pow2(n));
    }
  }

  lemma {:induction false} Pow2Mono(m: nat, n: nat)
    requires m <= n
    ensures Pow2(m) <= Pow2(n)
    decreases n
  {
    if m < n {
      Pow2Mono(m, n - 1);
    }
  }

  lemma Pow2Words()
    ensures Pow2(8) == 256 && Pow2(16) == WORD16 && Pow2(32) == WORD32 && Pow2(64) == WORD64
  {
    assert Pow2(8) == 256;
    Pow2Add(8, 8);
    Pow2Add(16, 16);
    Pow2Add(32, 32);
  }

  /** A remainder by a power of two, one digit at a time. */
  lemma ModStep(x: nat, k: nat)
    requires k > 0
    ensures x % Pow2(k) == 2 * ((x / 2) % Pow2(k - 1)) + x % 2
  {
    var p := Pow2(k - 1);
    var q, r := (x / 2) / p, (x / 2) % p;
    assert x == 2 * (q * p + r) + x % 2;
    ModUnique(x, q, 2 * p, 2 * r + x % 2);
  }

  lemma ModUnique(x: nat, q: nat, p: nat, r: nat)
    requires p > 0 && x == q * p + r && r < p
    ensures x % p == r && x / p == q
  {
    var d: int := q - x / p;
    assert d * p == q * p - (x / p) * p;
    assert d * p == x % p - r;
    if d >= 1 {
      AtLeast(d, p);
    } else if d <= -1 {
      AtLeast(-d, p);
    }
  }

  lemma AtLeast(d: int, p: nat)
    requires d >= 1
    ensures d * p >= p
  {
    assert d * p == p + (d - 1) * p;
  }

  /** `x & (2^k - 1)` is the remainder by `2^k`. */
  lemma {:induction false} AndMask(x: nat, k: nat)
    ensures And(x, Pow2(k) - 1) == x % Pow2(k)
    decreases k
  {
    if k == 0 {
      assert x % 1 == 0;
    } else {
      AndMask(x / 2, k - 1);
      ModStep(x, k);
      assert (Pow2(k) - 1) / 2 == Pow2(k - 1) - 1 && (Pow2(k) - 1) % 2 == 1;
    }
  }

  lemma AndHalves(x: nat, y: nat)
    ensures And(x, y) == 2 * And(x / 2, y / 2) + if x % 2 == 1 && y % 2 == 1 then 1 else 0
  {
  }

  /** `x & ~(2^k - 1)`, in a word of `n` bits, rounds down to a multiple of `2^k`. */
  lemma {:induction false} AndHigh(x: nat, k: nat, n: nat)
    requires k <= n && x < Pow2(n)
    ensures Pow2(k) <= Pow2(n)
    ensures And(x, Pow2(n) - Pow2(k)) == x - x % Pow2(k)
    decreases n
  {
    hide And;
    Pow2Mono(k, n);
    if k == 0 {
      AndMask(x, n);
      ModSmall(x, Pow2(n));
    } else {
      var y := Pow2(n) - Pow2(k);
      AndHigh(x / 2, k - 1, n - 1);
      ModStep(x, k);
      AndHalves(x, y);
      assert y == 2 * (Pow2(n - 1) - Pow2(k - 1));
      assert y / 2 == Pow2(n - 1) - Pow2(k - 1) && y % 2 == 0;
    }
  }

  lemma ModSmall(x: nat, p: nat)
    requires x < p
    ensures x % p == x
  {
  }

  predicate IsPow2(x: nat) { exists k: nat :: k <= x && x == Pow2(k) }

  lemma {:induction false} Pow2Above(k: nat)
    ensures k < Pow2(k)
    decreases k
  {
    if k > 0 {
      Pow2Above(k - 1);
    }
  }

  /** The test `x != 0 && (x & (x - 1)) == 0` picks out the powers of two. */
  lemma {:induction false} PowerOfTwoTest(x: nat)
    requires x > 0
    ensures And(x, x - 1) == 0 <==> IsPow2(x)
    decreases x
  {
    if x == 1 {
      assert x == Pow2(0);
    } else if x % 2 == 0 {
      PowerOfTwoTest(x / 2);
      assert (x - 1) / 2 == x / 2 - 1 && (x - 1) % 2 == 1;
      if IsPow2(x / 2) {
        var k: nat :| k <= x / 2 && x / 2 == Pow2(k);
        assert x == Pow2(k + 1);
      }
      if IsPow2(x) {
        var k: nat :| k <= x && x == Pow2(k);
        Pow2Above(k - 1);
        assert x / 2 == Pow2(k - 1);
      }
    } else {
      assert (x - 1) / 2 == x / 2 && (x - 1) % 2 == 0;
      AndSelf(x / 2);
      if IsPow2(x) {
        assert false;
      }
    }
  }

  lemma {:induction false} AndSelf(x: nat)
    ensures And(x, x) == x
    decreases x
  {
    if x > 0 {
      AndSelf(x / 2);
    }
  }

  lemma {:induction false} XorBound(x: nat, y: nat, n: nat)
    requires x < Pow2(n) && y < Pow2(n)
    ensures Xor(x, y) < Pow2(n)
    decreases n
  {
    if n > 0 {
      XorBound(x / 2, y / 2, n - 1);
    }
  }

  lemma {:induction false} OrBound(x: nat, y: nat, n: nat)
    requires x < Pow2(n) && y < Pow2(n)
    ensures Or(x, y) < Pow2(n)
    decreases n
  {
    if n > 0 {
      OrBound(x / 2, y / 2, n - 1);
    }
  }

  // ---- Single bits -----------------------------------------------------------------------

  function BitAt(x: nat, j: nat): (r: nat)
    ensures r < 2
  {
    if j == 0 then x % 2 else BitAt(x / 2, j - 1)
  }

  lemma {:induction false} AndBit(x: nat, y: nat, j: nat)
    ensures BitAt(And(x, y), j) == if BitAt(x, j) == 1 && BitAt(y, j) == 1 then 1 else 0
    decreases j
  {
    if x == 0 || y == 0 {
      ZeroBit(j);
    } else if j > 0 {
      AndBit(x / 2, y / 2, j - 1);
    }
  }

  lemma {:induction false} OrBit(x: nat, y: nat, j: nat)
    ensures BitAt(Or(x, y), j) == if BitAt(x, j) == 1 || BitAt(y, j) == 1 then 1 else 0
    decreases j
  {
    if x == 0 || y == 0 {
      ZeroBit(j);
    } else if j > 0 {
      OrBit(x / 2, y / 2, j - 1);
    }
  }

  lemma {:induction false} XorBit(x: nat, y: nat, j: nat)
    ensures BitAt(Xor(x, y), j) == if BitAt(x, j) == BitAt(y, j) then 0 else 1
    decreases j
  {
    if x == 0 || y == 0 {
      ZeroBit(j);
    } else if j > 0 {
      XorBit(x / 2, y / 2, j - 1);
    }
  }

  /** Bit `j` of a number, and the number without its `j` low bits, by division. */
  lemma {:induction false} BitValue(x: nat, j: nat)
    ensures BitAt(x, j) == x / Pow2(j) % 2 && Shr(x, j) == x / Pow2(j)
    decreases j
  {
    if j > 0 {
      BitValue(x / 2, j - 1);
      Halved(x, Pow2(j - 1));
    }
  }

  lemma Halved(x: nat, p: nat)
    requires p > 0
    ensures x / 2 / p == x / (2 * p)
  {
    var q, r := x / 2 / p, x / 2 % p;
    assert x / 2 == p * q + r && p * q * 2 == q * (2 * p);
    ModUnique(x, q, 2 * p, 2 * r + x % 2);
  }

  /** Exclusive or with the same number keeps different numbers different. */
  lemma XorInjective(x: nat, y: nat, z: nat, n: nat)
    requires x < Pow2(n) && y < Pow2(n) && Xor(x, z) == Xor(y, z)
    ensures x == y
  {
    hide Pow2, Xor, BitAt;
    forall j | 0 <= j < n
      ensures BitAt(x, j) == BitAt(y, j)
    {
      XorBit(x, z, j);
      XorBit(y, z, j);
    }
    SameBits(x, y, n);
  }

  lemma {:induction false} XorSwap(x: nat, y: nat)
    ensures Xor(x, y) == Xor(y, x)
  {
    if x != 0 && y != 0 {
      XorSwap(x / 2, y / 2);
    }
  }

  lemma {:induction false} ZeroBit(j: nat)
    ensures BitAt(0, j) == 0
    decreases j
  {
    if j > 0 {
      ZeroBit(j - 1);
    }
  }

  /** The bits of a number put above `k` bits of another. */
  lemma {:induction false} JoinedBit(low: nat, high: nat, k: nat, j: nat)
    requires low < Pow2(k)
    ensures BitAt(low + Pow2(k) * high, j) == if j < k then BitAt(low, j) else BitAt(high, j - k)
    decreases k
  {
    if k > 0 {
      var p := Pow2(k - 1);
      assert Pow2(k) * high == 2 * (p * high);
      assert (low + Pow2(k) * high) / 2 == low / 2 + p * high && (low + Pow2(k) * high) % 2 == low % 2;
      if j > 0 {
        JoinedBit(low / 2, high, k - 1, j - 1);
      }
    } else {
      assert low + Pow2(k) * high == high;
    }
  }

  lemma LowBit(x: nat, k: nat, j: nat)
    ensures BitAt(x % Pow2(k), j) == if j < k then BitAt(x, j) else 0
  {
    hide Pow2, BitAt;
    var p := Pow2(k);
    Parts(x, p);
    JoinedBit(x % p, x / p, k, j);
    JoinedBit(x % p, 0, k, j);
    if j >= k {
      ZeroBit(j - k);
    }
  }

  function Shr(x: nat, k: nat): (r: nat)
    ensures r <= x
    decreases k
  {
    if k == 0 then x else Shr(x / 2, k - 1)
  }

  lemma {:induction false} HighBit(x: nat, k: nat, j: nat)
    ensures BitAt(Shr(x, k), j) == BitAt(x, j + k)
    decreases k
  {
    if k > 0 {
      HighBit(x / 2, k - 1, j);
    }
  }

  lemma Parts(x: nat, p: nat)
    requires p > 0
    ensures x % p + p * (x / p) == x && x % p + p * 0 == x % p && x % p < p
  {
  }

  lemma ShiftedBit(x: nat, k: nat, j: nat)
    ensures BitAt(x * Pow2(k), j) == if j < k then 0 else BitAt(x, j - k)
  {
    JoinedBit(0, x, k, j);
    ZeroBit(j);
  }

  /** The bits of the complement in `n` bits. */
  lemma {:induction false} ComplementBit(x: nat, n: nat, j: nat)
    requires x < Pow2(n)
    ensures BitAt(Pow2(n) - 1 - x, j) == if j < n then 1 - BitAt(x, j) else 0
    decreases n
  {
    if n == 0 {
      ZeroBit(j);
    } else if j > 0 {
      assert (Pow2(n) - 1 - x) / 2 == Pow2(n - 1) - 1 - x / 2;
      ComplementBit(x / 2, n - 1, j - 1);
    }
  }

  lemma MaskBit(k: nat, j: nat)
    ensures BitAt(Pow2(k) - 1, j) == if j < k then 1 else 0
  {
    ComplementBit(0, k, j);
    ZeroBit(j);
  }

  /** Numbers below `2^n` with the same `n` bits are the same. */
  lemma {:induction false} SameBits(x: nat, y: nat, n: nat)
    requires x < Pow2(n) && y < Pow2(n) && forall j :: 0 <= j < n ==> BitAt(x, j) == BitAt(y, j)
    ensures x == y
    decreases n
  {
    if n > 0 {
      assert BitAt(x, 0) == BitAt(y, 0);
      forall j | 0 <= j < n - 1 ensures BitAt(x / 2, j) == BitAt(y / 2, j) {
        assert BitAt(x, j + 1) == BitAt(y, j + 1);
      }
      SameBits(x / 2, y / 2, n - 1);
    }
  }
}
