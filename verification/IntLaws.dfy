/** What the integer operators promise, stated with the numbers themselves. */
module IntLaws {
  import opened Wrappers
  import opened Ints

  /** How many bits a width has. */
  function Bits(w: Width): nat {
    match w
    case I1 => 1
    case I8 => 8
    case I16 => 16
    case I32 => 32
    case I64 => 64
  }

  function TwoTo(n: nat): (p: int)
    ensures p > 0
  {
    if n == 0 then 1 else 2 * TwoTo(n - 1)
  }

  lemma TwoTo16()
    ensures TwoTo(1) == 2 && TwoTo(8) == 0x100 && TwoTo(16) == 0x1_0000
  {
    assert TwoTo(4) == 16;
    assert TwoTo(8) == 0x100;
    assert TwoTo(12) == 0x1000;
  }

  lemma {:induction false} TwoToSum(a: nat, b: nat)
    ensures TwoTo(a + b) == TwoTo(a) * TwoTo(b)
  {
    if a > 0 {
      TwoToSum(a - 1, b);
      assert a + b - 1 == (a - 1) + b;
      assert TwoTo(a + b) == 2 * TwoTo((a - 1) + b);
      assert TwoTo(a) * TwoTo(b) == 2 * TwoTo(a - 1) * TwoTo(b);
    }
  }

  /** A width has the two's complement range of its bits. */
  lemma RangeOfBits(w: Width, x: int)
    ensures InRange(w, x) <==> -TwoTo(Bits(w)) <= 2 * x < TwoTo(Bits(w))
  {
    TwoTo16();
    TwoToSum(16, 16);
    TwoToSum(32, 32);
    assert TwoTo(32) == 0x1_0000_0000;
    assert TwoTo(64) == 0x1_0000_0000_0000_0000;
  }

  /** `r` is the value of width `w` that differs from the exact one by a multiple of two to
      the number of bits. */
  ghost predicate Reduced(w: Width, exact: int, r: int) {
    InRange(w, r) && exists k: int :: r == exact + k * TwoTo(Bits(w))
  }

  lemma WrapReduced(w: Width, x: int)
    ensures Reduced(w, x, Wrap(w, x))
  {
    TwoTo16();
    TwoToSum(16, 16);
    TwoToSum(32, 32);
    assert TwoTo(32) == 0x1_0000_0000 && TwoTo(64) == 0x1_0000_0000_0000_0000;
    var m := TwoTo(Bits(w));
    var k := match w
      case I1 => (x + 1) / 2
      case I8 => (x + 0x80) / 0x100
      case I16 => (x + 0x8000) / 0x1_0000
      case I32 => (x + 0x8000_0000) / 0x1_0000_0000
      case I64 => (x + 0x8000_0000_0000_0000) / 0x1_0000_0000_0000_0000;
    assert Wrap(w, x) == x + (-k) * m;
  }

  /** There is only one such value. */
  lemma ReducedUnique(w: Width, x: int, a: int, b: int)
    requires Reduced(w, x, a) && Reduced(w, x, b)
    ensures a == b
  {
    hide TwoTo;
    var m := TwoTo(Bits(w));
    var j :| a == x + j * m;
    var k :| b == x + k * m;
    RangeOfBits(w, a);
    RangeOfBits(w, b);
    assert j * m - k * m == (j - k) * m;
    OnlyZero(j - k, m);
  }

  lemma OnlyZero(d: int, m: int)
    requires -m < d * m < m
    ensures d == 0
  {
    AtLeastOnce(d, m);
  }

  lemma AtLeastOnce(d: int, m: int)
    requires m > 0
    ensures d >= 1 ==> d * m >= m
    ensures d <= -1 ==> d * m <= -m
  {
    if d >= 1 {
      assert d * m == m + (d - 1) * m;
    } else {
      assert d * m == -m + (d + 1) * m;
    }
  }

  /** Sums, differences and products are exact up to the width. */
  lemma RingLaws(w: Width, a: int, b: int)
    ensures var r := Arith(Add, w, a, b); r.Some? && Reduced(w, a + b, r.value)
    ensures var r := Arith(Sub, w, a, b); r.Some? && Reduced(w, a - b, r.value)
    ensures var r := Arith(Mul, w, a, b); r.Some? && Reduced(w, a * b, r.value)
  {
    WrapReduced(w, a + b);
    WrapReduced(w, a - b);
    WrapReduced(w, a * b);
  }

  /** The least number of the width divided by -1, or a division by 0. */
  predicate Undivided(w: Width, a: int, b: int) { b == 0 || (2 * a == -TwoTo(Bits(w)) && b == -1) }

  /** Quotient and remainder are there except in those two cases, and then they are those of
      division toward zero: the remainder is less than the divisor, and is 0 or has the sign
      of the dividend. */
  lemma DivisionLaws(w: Width, a: int, b: int)
    requires InRange(w, a) && InRange(w, b)
    ensures Arith(Quo, w, a, b).None? <==> Undivided(w, a, b)
    ensures Arith(Rem, w, a, b).None? <==> Undivided(w, a, b)
    ensures !Undivided(w, a, b) ==>
      var q, r := Arith(Quo, w, a, b).value, Arith(Rem, w, a, b).value;
      && a == b * q + r
      && (if b > 0 then -b < r < b else b < r < -b)
      && (if a >= 0 then r >= 0 else r <= 0)
  {
    LeastOf(w);
    if !Undivided(w, a, b) {
      Truncated(a, b);
      var q := Truncate(a, b);
      QuotientFits(w, a, b);
      WrapIdentity(w, q);
      WrapIdentity(w, a - b * q);
    }
  }

  lemma LeastOf(w: Width)
    ensures 2 * Half(w) == TwoTo(Bits(w))
  {
    RangeOfBits(w, -Half(w));
    RangeOfBits(w, -Half(w) - 1);
    RangeOfBits(w, Half(w));
    RangeOfBits(w, Half(w) - 1);
    TwoTo16();
    assert TwoTo(Bits(w)) == 2 * TwoTo(Bits(w) - 1);
  }

  lemma Truncated(a: int, b: int)
    requires b != 0
    ensures var r := a - b * Truncate(a, b);
      (if b > 0 then -b < r < b else b < r < -b) && (if a >= 0 then r >= 0 else r <= 0)
  {
    var n: int, d: int := Abs(a), Abs(b);
    var q := n / d;
    Signs(d, q);
    assert n == d * q + n % d && 0 <= n % d < d;
  }

  lemma Signs(d: int, q: int)
    ensures -d * q == -(d * q) && d * -q == -(d * q) && -d * -q == d * q
  {
  }

  lemma QuotientFits(w: Width, a: int, b: int)
    requires InRange(w, a) && InRange(w, b) && !Overflows(w, a, b)
    ensures InRange(w, Truncate(a, b)) && InRange(w, a - b * Truncate(a, b))
  {
    Truncated(a, b);
    Cut(Abs(a), Abs(b));
  }

  lemma Cut(n: nat, d: nat)
    requires d > 0
    ensures 0 <= n / d <= n && (d > 1 && n > 0 ==> n / d < n)
  {
    CutOf(n, d, n / d, n % d);
  }

  lemma CutOf(n: int, d: int, q: int, r: int)
    requires n == d * q + r && 0 <= r < d && n >= 0
    ensures 0 <= q <= n && (d > 1 && n > 0 ==> q < n)
  {
    AtLeastOnce(q, d);
    assert q * d == d * q;
    if q > 0 {
      AtLeastOnce(d, q);
      AtLeastOnce(d - 1, q);
      assert (d - 1) * q == d * q - q;
    }
  }

  /** Exactly one of less, equal and greater is true; the other three comparisons are their
      negations. True is all ones. */
  lemma OrderLaws(w: Width, a: int, b: int)
    ensures Arith(Lss, w, a, b) == Some(if a < b then -1 else 0)
    ensures Arith(Gtr, w, a, b) == Arith(Lss, w, b, a)
    ensures Arith(Eql, w, a, b) == Some(-1) <==> Arith(Lss, w, a, b) == Some(0) && Arith(Gtr, w, a, b) == Some(0)
    ensures Arith(Geq, w, a, b) == Some(-1) <==> Arith(Lss, w, a, b) == Some(0)
    ensures Arith(Leq, w, a, b) == Some(-1) <==> Arith(Gtr, w, a, b) == Some(0)
    ensures Arith(Neq, w, a, b) == Some(-1) <==> Arith(Eql, w, a, b) == Some(0)
    ensures forall op :: op in {Lss, Leq, Gtr, Geq, Eql, Neq} ==> Arith(op, w, a, b) in {Some(-1), Some(0)} && ResultWidth(op, w) == I1
  {
  }
}
