/** Aligning with a bit mask, and why the mask may be trusted. */
module Alignment {
  const ONE_MIB_BYTES: nat := 1048576

  /** `x & ~m` on naturals, bit by bit. */
  function AndNot(x: nat, m: nat): nat {
    if x == 0 then 0 else 2 * AndNot(x / 2, m / 2) + (if x % 2 == 1 && m % 2 == 0 then 1 else 0)
  }

  function AlignUp(size: nat, block: nat): nat
    requires block > 0
  {
    AndNot(size + block - 1, block - 1)
  }

  function Pow2(k: nat): (p: nat)
    ensures p > 0
  {
    if k == 0 then 1 else 2 * Pow2(k - 1)
  }

  ghost predicate IsPow2(b: nat) { exists k: nat :: b == Pow2(k) }

  /** `r` is the least multiple of `block` that is not below `size`. */
  ghost predicate LeastMultiple(r: nat, size: nat, block: nat)
    requires block > 0
  {
    && r % block == 0 && size <= r < size + block
    && forall m: nat :: m % block == 0 && size <= m ==> r <= m
  }

  lemma {:induction false} AndNotZero(x: nat)
    ensures AndNot(x, 0) == x
  {
    if x > 0 {
      AndNotZero(x / 2);
    }
  }

  lemma ProductAtLeast(d: int, p: int)
    requires d >= 1 && p >= 0
    ensures d * p >= p
  {
    assert d * p == (d - 1) * p + p;
    assert (d - 1) * p >= 0;
  }

  lemma ProductMonotone(a: int, b: int, p: int)
    requires a <= b && p >= 0
    ensures a * p <= b * p
  {
    assert b * p - a * p == (b - a) * p;
    assert (b - a) * p >= 0;
  }

  lemma QuotientAtMost(p: int, q: int, r: int, q': int, r': int)
    requires q * p + r == q' * p + r' && 0 <= r < p && 0 <= r' < p
    ensures q <= q'
  {
    assert (q - q') * p == q * p - q' * p;
    if q > q' {
      ProductAtLeast(q - q', p);
    }
  }

  lemma DivModUnique(x: int, p: int, q: int, r: int)
    requires p > 0 && x == q * p + r && 0 <= r < p
    ensures x / p == q && x % p == r
  {
    assert x == (x / p) * p + x % p;
    QuotientAtMost(p, q, r, x / p, x % p);
    QuotientAtMost(p, x / p, x % p, q, r);
  }

  lemma ModHalf(x: nat, p: nat)
    requires p > 0
    ensures x % (2 * p) == 2 * ((x / 2) % p) + x % 2
  {
    var h := x / 2;
    assert h == (h / p) * p + h % p;
    assert x == (h / p) * (2 * p) + (2 * (h % p) + x % 2);
    DivModUnique(x, 2 * p, h / p, 2 * (h % p) + x % 2);
  }

  lemma AndNotOdd(x: nat, p: nat)
    requires p > 0
    ensures AndNot(x, 2 * p - 1) == 2 * AndNot(x / 2, p - 1)
  {
    assert (2 * p - 1) / 2 == p - 1 && (2 * p - 1) % 2 == 1;
    assert x == 0 ==> AndNot(x / 2, p - 1) == 0;
  }

  lemma {:induction false} AndNotMask(x: nat, k: nat, p: nat)
    requires p == Pow2(k)
    ensures AndNot(x, p - 1) == x - x % p
    decreases k
  {
    if k == 0 {
      AndNotZero(x);
    } else {
      var h := Pow2(k - 1);
      assert p == 2 * h;
      assert AndNot(x, p - 1) == 2 * AndNot(x / 2, h - 1) by { AndNotOdd(x, h); }
      assert AndNot(x / 2, h - 1) == x / 2 - (x / 2) % h by { AndNotMask(x / 2, k - 1, h); }
      assert x % p == 2 * ((x / 2) % h) + x % 2 by { ModHalf(x, h); }
    }
  }

  lemma MultipleGap(a: int, b: int, block: int)
    requires block > 0 && a % block == 0 && b % block == 0 && b - block < a < b + block
    ensures a == b
  {
    var d := b / block - a / block;
    assert d * block == (b / block) * block - (a / block) * block;
    assert b - a == d * block;
    if d > 0 {
      ProductAtLeast(d, block);
    } else if d < 0 {
      assert (-d) * block == -(d * block);
      ProductAtLeast(-d, block);
    }
  }

  lemma SubtractRemainder(x: nat, block: nat)
    requires block > 0
    ensures (x - x % block) % block == 0
  {
    assert x - x % block == (x / block) * block + 0;
    DivModUnique(x - x % block, block, x / block, 0);
  }

  lemma AlignUpBounds(size: nat, block: nat)
    requires block > 0 && IsPow2(block)
    ensures AlignUp(size, block) % block == 0 && size <= AlignUp(size, block) < size + block
  {
    var k: nat :| block == Pow2(k);
    var x := size + block - 1;
    AndNotMask(x, k, block);
    SubtractRemainder(x, block);
  }

  lemma MultiplesApart(a: int, b: int, block: int)
    requires block > 0 && a % block == 0 && b % block == 0 && a < b
    ensures a + block <= b
  {
    if b < a + block {
      MultipleGap(a, b, block);
    }
  }

  /** For a power of two the mask form rounds up exactly. */
  lemma AlignUpIsLeast(size: nat, block: nat)
    requires block > 0 && IsPow2(block)
    ensures LeastMultiple(AlignUp(size, block), size, block)
  {
    AlignUpBounds(size, block);
    var r := AlignUp(size, block);
    forall m: nat | m % block == 0 && size <= m ensures r <= m {
      if m < r {
        MultiplesApart(m, r, block);
      }
    }
  }

  lemma LeastMultipleUnique(r: nat, s: nat, size: nat, block: nat)
    requires block > 0 && LeastMultiple(r, size, block) && LeastMultiple(s, size, block)
    ensures r == s
  {
    MultipleGap(r, s, block);
  }

  lemma SelfMultiple(mib: nat)
    requires mib > 0
    ensures mib % mib == 0 && 0 % mib == 0
  {
    assert mib == 1 * mib + 0;
    DivModUnique(mib, mib, 1, 0);
  }

  lemma SumOfMultiples(a: nat, b: nat, block: nat)
    requires block > 0 && a % block == 0 && b % block == 0
    ensures (a + b) % block == 0
  {
    assert a == (a / block) * block && b == (b / block) * block;
    assert a + b == (a / block + b / block) * block + 0;
    DivModUnique(a + b, block, a / block + b / block, 0);
  }

  /** Aligning past an aligned start only aligns the rest. */
  lemma AlignUpFrom(start: nat, size: nat, block: nat)
    requires block > 0 && IsPow2(block) && start % block == 0
    ensures AlignUp(start + size, block) == start + AlignUp(size, block)
  {
    AlignUpBounds(size, block);
    AlignUpBounds(start + size, block);
    SumOfMultiples(start, AlignUp(size, block), block);
    var r, s := AlignUp(start + size, block), start + AlignUp(size, block);
    MultipleGap(r, s, block);
  }

  lemma AlignUpMultiple(at: nat, block: nat)
    requires block > 0 && IsPow2(block) && at % block == 0
    ensures AlignUp(at, block) == at
  {
    AlignUpBounds(at, block);
    MultipleGap(AlignUp(at, block), at, block);
  }

  lemma HalfPow2(b: nat)
    requires b > 0 && b % 2 == 0
    ensures IsPow2(b) <==> IsPow2(b / 2)
  {
    if k: nat :| b == Pow2(k) {
      assert k > 0 && b / 2 == Pow2(k - 1);
    }
    if k: nat :| b / 2 == Pow2(k) {
      assert b == Pow2(k + 1);
    }
  }

  lemma OddPow2(b: nat)
    requires b % 2 == 1
    ensures IsPow2(b) <==> b == 1
  {
    assert Pow2(0) == 1;
    if k: nat :| b == Pow2(k) {
      assert k > 0 ==> Pow2(k) == 2 * Pow2(k - 1);
    }
  }

  lemma {:induction false} AndNotSelf(x: nat)
    ensures AndNot(x, x) == 0
  {
    if x > 0 {
      AndNotSelf(x / 2);
    }
  }

  /** `b & ~(b - 1)` is the lowest bit of `b`, which is all of `b` for powers of two only. */
  lemma {:induction false} LowestBit(b: nat)
    requires b > 0
    ensures 0 < AndNot(b, b - 1) <= b && (AndNot(b, b - 1) == b <==> IsPow2(b))
  {
    if b % 2 == 0 {
      AndNotOdd(b, b / 2);
      LowestBit(b / 2);
      HalfPow2(b);
    } else {
      assert AndNot(b / 2, b / 2) == 0 by { AndNotSelf(b / 2); }
      OddPow2(b);
    }
  }

  /** For any other block size the smallest size is already aligned wrongly. */
  lemma OneMisaligned(b: nat)
    requires b > 0 && !IsPow2(b)
    ensures AlignUp(1, b) % b != 0
  {
    LowestBit(b);
    var r := AndNot(b, b - 1);
    assert AlignUp(1, b) == r;
    assert r == 0 * b + r;
    DivModUnique(r, b, 0, r);
  }

  /** The mask form yields multiples for every size exactly when the block size is a power of two,
      and then it yields the least ones. */
  lemma MaskNeedsPow2(b: nat)
    requires b > 0
    ensures (forall size: nat :: AlignUp(size, b) % b == 0) <==> IsPow2(b)
    ensures (forall size: nat :: LeastMultiple(AlignUp(size, b), size, b)) <==> IsPow2(b)
  {
    if IsPow2(b) {
      forall size: nat ensures LeastMultiple(AlignUp(size, b), size, b) {
        AlignUpIsLeast(size, b);
      }
    } else {
      OneMisaligned(b);
      assert !LeastMultiple(AlignUp(1, b), 1, b);
    }
  }

  lemma OddTimesOdd(d: nat, e: nat, half: nat)
    requires d % 2 == 1 && d * e == 2 * half
    ensures e % 2 == 0 && (half > 0 ==> e > 0)
  {
    var a, b := d / 2, e / 2;
    assert d == 2 * a + 1;
    assert (2 * a + 1) * e == 2 * (a * e) + e;
  }

  /** A factor of a power of two is a power of two. */
  lemma {:induction false} FactorOfPow2(d: nat, e: nat, n: nat)
    requires d * e == Pow2(n)
    ensures IsPow2(d)
    decreases d + e, n
  {
    if d == 1 {
    } else if n == 0 {
      assert d * e == e * d;
      if e >= 1 {
        ProductAtLeast(e, d);
      }
    } else if d % 2 == 0 {
      assert 2 * ((d / 2) * e) == d * e;
      FactorOfPow2(d / 2, e, n - 1);
      var k: nat :| d / 2 == Pow2(k);
      assert d == Pow2(k + 1);
    } else {
      OddTimesOdd(d, e, Pow2(n - 1));
      assert 2 * (d * (e / 2)) == d * e;
      FactorOfPow2(d, e / 2, n - 1);
    }
  }
}
