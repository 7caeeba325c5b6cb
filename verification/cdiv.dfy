/** C integer division, and the floored division built on it (section
    3.2.2.1 of ANS Forth, ANSI X3.215-1994). Dafny's own `/` and `%` are
    Euclidean, so C's truncating operators are defined here explicitly. */
module CDiv {

  function Abs(x: int): nat {
    if x < 0 then -x else x
  }

  /** Euclidean division of a natural number by a positive one. */
  lemma NatDivision(x: int, y: int)
    requires x >= 0 && y > 0
    ensures x / y >= 0 && x == y * (x / y) + x % y && 0 <= x % y < y
  {
  }

  /** C's `a / b`: the quotient rounded toward zero. */
  function TruncDiv(a: int, b: int): int
    requires b != 0
  {
    var q := Abs(a) / Abs(b);
    if (a < 0) == (b < 0) then q else -q
  }

  /** C's `a % b`: what is left after the truncated quotient. */
  function TruncRem(a: int, b: int): int
    requires b != 0
  {
    a - b * TruncDiv(a, b)
  }

  /** The truncated remainder is the Euclidean remainder of the magnitudes,
      carrying the dividend's sign. */
  lemma TruncRemMagnitude(a: int, b: int)
    requires b != 0
    ensures TruncRem(a, b) == (if a < 0 then -(Abs(a) % Abs(b)) else Abs(a) % Abs(b))
  {
    var A, B := Abs(a), Abs(b);
    var q0: int, r0: int := A / B, A % B;
    NatDivision(A, B);
    var q := TruncDiv(a, b);
    if (a < 0) == (b < 0) {
      assert q == q0;
      assert b * q == (if b < 0 then -(B * q0) else B * q0);
    } else {
      assert q == -q0;
      assert b * q == (if b < 0 then B * q0 else -(B * q0));
    }
  }

  /** The defining properties of C division: the remainder has the sign of
      the dividend and is smaller in magnitude than the divisor, and the
      quotient's sign is the product of the operands' signs. */
  lemma TruncDivision(a: int, b: int)
    requires b != 0
    ensures a == b * TruncDiv(a, b) + TruncRem(a, b)
    ensures Abs(TruncRem(a, b)) < Abs(b)
    ensures TruncRem(a, b) == 0 || (TruncRem(a, b) < 0) == (a < 0)
    ensures TruncDiv(a, b) == 0 || (TruncDiv(a, b) < 0) == ((a < 0) != (b < 0))
  {
    TruncRemMagnitude(a, b);
    TruncRemBound(a, b);
    TruncDivSign(a, b);
  }

  lemma TruncDivSign(a: int, b: int)
    requires b != 0
    ensures TruncDiv(a, b) == 0 || (TruncDiv(a, b) < 0) == ((a < 0) != (b < 0))
  {
    NatDivision(Abs(a), Abs(b));
  }

  lemma TruncRemBound(a: int, b: int)
    requires b != 0
    requires TruncRem(a, b) == (if a < 0 then -(Abs(a) % Abs(b)) else Abs(a) % Abs(b))
    ensures Abs(TruncRem(a, b)) < Abs(b)
    ensures TruncRem(a, b) == 0 || (TruncRem(a, b) < 0) == (a < 0)
  {
    NatDivision(Abs(a), Abs(b));
  }

  datatype QuotRem = QuotRem(q: int, r: int)

  /** The ANS Forth rule for a quotient and remainder pair: the remainder is
      smaller than the divisor in magnitude and, unless zero, has the
      divisor's sign. */
  predicate Floored(a: int, b: int, d: QuotRem) {
    && a == b * d.q + d.r
    && Abs(d.r) < Abs(b)
    && (d.r == 0 || (d.r < 0) == (b < 0))
  }

  /** `floored_divmod`: start from C's truncating pair and, when the
      remainder's sign differs from the divisor's, move the quotient down by
      one and the remainder over by the divisor. */
  function FlooredDivMod(a: int, b: int): (d: QuotRem)
    requires b != 0
    ensures Floored(a, b, d)
  {
    TruncDivision(a, b);
    var q0 := TruncDiv(a, b);
    var r0 := TruncRem(a, b);
    if r0 != 0 && ((r0 < 0) != (b < 0)) then QuotRem(q0 - 1, r0 + b)
    else QuotRem(q0, r0)
  }

  /** A multiple of b smaller in magnitude than b is zero. */
  lemma SmallMultiple(b: int, k: int)
    requires b != 0 && Abs(b * k) < Abs(b)
    ensures k == 0
  {
  }

  lemma Distrib(b: int, x: int, y: int)
    ensures b * (x - y) == b * x - b * y
  {
  }

  /** Two pairs satisfying the ANS rule for the same operands are equal. */
  lemma FlooredPairsEqual(a: int, b: int, d: QuotRem, e: QuotRem)
    requires b != 0 && Floored(a, b, d) && Floored(a, b, e)
    ensures d == e
  {
    var k := d.q - e.q;
    Distrib(b, d.q, e.q);
    assert b * k == e.r - d.r;
    if b > 0 {
      assert 0 <= d.r < b && 0 <= e.r < b;
    } else {
      assert b < d.r <= 0 && b < e.r <= 0;
    }
    SmallMultiple(b, k);
  }

  /** The floored pair is unique: any pair satisfying the ANS rule is the
      one `floored_divmod` computes. */
  lemma FlooredUnique(a: int, b: int, d: QuotRem)
    requires b != 0 && Floored(a, b, d)
    ensures d == FlooredDivMod(a, b)
  {
    FlooredPairsEqual(a, b, d, FlooredDivMod(a, b));
  }

  /** For a positive divisor the floored pair coincides with Euclidean
      division, an independent reference definition. */
  lemma FlooredPositiveDivisor(a: int, b: int)
    requires b > 0
    ensures FlooredDivMod(a, b) == QuotRem(a / b, a % b)
  {
    FlooredUnique(a, b, QuotRem(a / b, a % b));
  }

  /** The remainder-sign cases of the floored pair in terms of C's pair:
      they agree exactly when the truncated remainder is zero or already
      has the divisor's sign. */
  lemma FlooredVersusTruncated(a: int, b: int)
    requires b != 0
    ensures FlooredDivMod(a, b) == QuotRem(TruncDiv(a, b), TruncRem(a, b))
        <==> (TruncRem(a, b) == 0 || (TruncRem(a, b) < 0) == (b < 0))
  {
  }

  /** The signed examples the program's test suite checks. */
  lemma SignedExamples()
    ensures FlooredDivMod(10, 3) == QuotRem(3, 1)
    ensures FlooredDivMod(-10, 3) == QuotRem(-4, 2)
    ensures FlooredDivMod(10, -3) == QuotRem(-4, -2)
    ensures FlooredDivMod(-10, -3) == QuotRem(3, -1)
    ensures FlooredDivMod(-9, 3) == QuotRem(-3, 0)
    ensures FlooredDivMod(9, -3) == QuotRem(-3, 0)
    ensures TruncDiv(-1, -1) == 1 && TruncDiv(1, 2) == 0
  {
    FlooredUnique(10, 3, QuotRem(3, 1));
    FlooredUnique(-10, 3, QuotRem(-4, 2));
    FlooredUnique(10, -3, QuotRem(-4, -2));
    FlooredUnique(-10, -3, QuotRem(3, -1));
    FlooredUnique(-9, 3, QuotRem(-3, 0));
    FlooredUnique(9, -3, QuotRem(-3, 0));
  }
}
