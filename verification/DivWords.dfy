/**
 Division of two words by one and of three words by two through a precomputed reciprocal.
 The candidate quotient comes from one multiplication; wrapping remainders decide two corrections.
 */
module DivWords {
  import opened Words
  import opened Reciprocal

  const P192: int := P128 * BASE

  ghost predicate IsReciprocal2(d: U128, v: int)
  {
    0 < P192 - (v + BASE) * Val(d) <= Val(d)
  }

  lemma Reciprocal2IsFloor(d: U128, v: int)
    requires Val(d) > 0 && IsReciprocal2(d, v)
    ensures v == (P192 - 1) / Val(d) - BASE
  {
    DivModUnique(P192 - 1, Val(d), v + BASE, P192 - 1 - (v + BASE) * Val(d));
  }

  //
  // reciprocal_3by2
  //

  lemma AtLeastBase(w: int, d1: Word, d0: Word)
    requires w * d1 + d0 >= P128 - d1
    ensures w >= BASE
  {
    if w < BASE {
      MulLe(w, BASE - 1, d1);
    }
  }

  /** First half: absorbs d0, so that (v + 2^64) d1 + d0 = 2^128 - 2^64 + p. */
  method AbsorbLow(d: U128, v0: Word) returns (v: Word, p: Word)
    requires d.hi >= P63 && IsReciprocal(d.hi, v0)
    ensures (v + BASE) * d.hi + d.lo == P128 - BASE + p && BASE - d.hi <= p
  {
    v := v0;
    ghost var k;
    p, k := MulLow(d.hi, v);
    ghost var x := (v + BASE) * d.hi;
    assert x == k * BASE + p + BASE * d.hi;
    assert k + d.hi == BASE - 1;
    p := Plus(p, d.lo);
    if p < d.lo {
      assert p == x + d.lo - P128;
      ghost var w := v + BASE;
      Lower(w, d.hi);
      AtLeastBase(w - 1, d.hi, d.lo);
      v := Minus(v, 1);
      if p >= d.hi {
        AtLeastBase(w - 2, d.hi, d.lo);
        v := Minus(v, 1);
        p := Minus(p, d.hi);
      }
      p := Minus(p, d.hi);
    }
  }

  lemma FoldLow(v: int, d: U128, p: int, t: int)
    requires (v + BASE) * d.hi + d.lo == P128 - BASE + p && t == v * d.lo
    ensures (v + BASE) * Val(d) == P192 - BASE * (BASE - p) + t
  {
    calc {
      (v + BASE) * Val(d);
      (v + BASE) * (d.hi * BASE + d.lo);
      BASE * ((v + BASE) * d.hi) + v * d.lo + BASE * d.lo;
    }
  }

  lemma AtLeastBase2(w: int, d: U128)
    requires P192 - w * Val(d) <= Val(d)
    ensures w >= BASE
  {
    if w < BASE {
      MulLe(w, BASE - 1, Val(d));
    }
  }

  /** How far (v + 2^64) d is from 2^192, read off the words the source compares. */
  lemma ProductResidual(d: U128, p0: Word, t: U128, res: int)
    requires d.hi >= P63 && BASE - d.hi <= p0
    requires res == BASE * (BASE - p0) - Val(t)
    ensures p0 + t.hi < BASE ==> 0 < res <= Val(d)
    ensures p0 + t.hi >= BASE ==> var p := p0 + t.hi - BASE;
      && res == -(p * BASE + t.lo) && p * BASE + t.lo < 2 * Val(d)
      && (p > d.hi || (p == d.hi && t.lo >= d.lo) <==> p * BASE + t.lo >= Val(d))
  {
  }

  lemma Lower(w: int, d: int)
    ensures (w - 1) * d == w * d - d && (w - 2) * d == w * d - 2 * d
  {
  }

  /** Second half: absorbs v d0 by at most two decrements. */
  method AbsorbProduct(d: U128, v0: Word, p0: Word) returns (v: Word)
    requires d.hi >= P63
    requires (v0 + BASE) * d.hi + d.lo == P128 - BASE + p0 && BASE - d.hi <= p0
    ensures IsReciprocal2(d, v)
  {
    v := v0;
    var t := UMul(v, d.lo);
    FoldLow(v, d, p0, Val(t));
    ghost var w := v + BASE;
    Lower(w, Val(d));
    ProductResidual(d, p0, t, P192 - w * Val(d));
    var p := Plus(p0, t.hi);
    if p < t.hi {
      AtLeastBase2(w - 1, d);
      v := Minus(v, 1);
      if p >= d.hi {
        if p > d.hi || t.lo >= d.lo {
          AtLeastBase2(w - 2, d);
          v := Minus(v, 1);
        }
      }
    }
  }

  /** The three-by-two reciprocal floor((2^192 - 1) / d) - 2^64 of a normalised two-word divisor. */
  method Reciprocal3By2(d: U128) returns (v: Word)
    requires d.hi >= P63
    ensures v == (P192 - 1) / Val(d) - BASE && IsReciprocal2(d, v)
  {
    var v0 := Reciprocal2By1(d.hi);
    var v1, p := AbsorbLow(d, v0);
    v := AbsorbProduct(d, v1, p);
    Reciprocal2IsFloor(d, v);
  }

  //
  // udivrem_2by1
  //

  /** B r = u1 k + u0 (B - d) + q0 d - B d, the identity behind both bounds on r. */
  lemma Candidate2By1(u1: int, u0: int, d: int, v: int, q1: int, q0: int, r: int)
    requires q1 * BASE + q0 == (v + BASE) * u1 + u0
    requires r == u1 * BASE + u0 - (q1 + 1) * d
    ensures BASE * r == u1 * (P128 - (v + BASE) * d) + u0 * (BASE - d) + q0 * d - BASE * d
  {
    var w := v + BASE;
    assert (q1 + 1) * d == q1 * d + d;
    assert BASE * (q1 * d) == (q1 * BASE) * d == (w * u1 + u0 - q0) * d == w * u1 * d + u0 * d - q0 * d;
    assert w * u1 * d == u1 * (w * d);
    assert u1 * (P128 - w * d) == P128 * u1 - u1 * (w * d);
  }

  lemma Bounds2By1(u1: int, u0: int, d: int, k: int, q0: int, r: int)
    requires 0 <= u1 < d < BASE && 0 <= u0 < BASE && 0 < k <= d && 0 <= q0 < BASE
    requires BASE * r == u1 * k + u0 * (BASE - d) + q0 * d - BASE * d
    ensures -d <= r && q0 - BASE < r && (r < BASE - d || r < q0)
  {
    MulLe(0, u1, k);
    MulLe(0, u0, BASE - d);
    MulLe(0, q0, d);
    assert -d <= r;
    assert (BASE - q0) * (BASE - d) == P128 - BASE * d - q0 * BASE + q0 * d;
    MulLe(1, BASE - q0, BASE - d);
    assert q0 - BASE < r;
    MulLe(u1, d - 1, k);
    MulLe(k, d, d - 1);
    assert u1 * k < d * d;
    MulLe(u0, BASE - 1, BASE - d);
    assert BASE * r < (BASE - d) * (BASE - d) + q0 * d;
    Weighted(BASE - d, d, BASE - d, q0, r);
  }

  /** A weighted mean of a and b bounds r, so the larger of them does. */
  lemma Weighted(wa: int, wb: int, a: int, b: int, r: int)
    requires wa >= 0 && wb >= 0 && (wa + wb) * r < wa * a + wb * b
    ensures r < a || r < b
  {
    if r >= a && r >= b {
      MulLe(a, r, wa);
      MulLe(b, r, wb);
    }
  }

  lemma CandidateFits2By1(u1: int, u0: int, d: int, v: int)
    requires 0 <= u1 < d && 0 <= u0 < BASE && v >= 0 && 0 < P128 - (v + BASE) * d
    ensures 0 <= (v + BASE) * u1 + u0 < P128
  {
    var w := v + BASE;
    MulLe(0, u1, w);
    MulLe(u1, d - 1, w);
    assert (d - 1) * w == w * d - w;
  }

  /** Exact quotient and remainder of a two-word numerator whose high word is below d. */
  method UDivRem2By1(u: U128, d: Word, v: Word) returns (quot: Word, rem: Word)
    requires d >= P63 && IsReciprocal(d, v) && u.hi < d
    ensures Val(u) == quot * d + rem && rem < d
  {
    var m := UMul(v, u.hi);
    var q, carry := Add128(m, u);
    assert Val(m) + Val(u) == (v + BASE) * u.hi + u.lo;
    CandidateFits2By1(u.hi, u.lo, d, v);
    ghost var r0 := Val(u) - (q.hi + 1) * d;
    Remainder2By1(u, d, v, q, r0);

    var quot0 := Plus(q.hi, 1);
    var x, k := MulLow(quot0, d);
    var rem0 := Minus(u.lo, x);
    RemainderWord(u, d, q.hi + 1, quot0, x, k, r0);
    ghost var c;
    quot, rem, c := Correct2By1(quot0, rem0, q.lo, d, q.hi + 1, r0);
    Neighbours(q.hi + 1, d);
    QuotientFits(Val(u), d, c, rem);
  }

  lemma Remainder2By1(u: U128, d: Word, v: Word, q: U128, r0: int)
    requires IsReciprocal(d, v) && u.hi < d && Val(q) == (v + BASE) * u.hi + u.lo
    requires r0 == Val(u) - (q.hi + 1) * d
    ensures r0 + d >= 0 && q.lo - BASE < r0 && (r0 < BASE - d || r0 < q.lo)
  {
    Candidate2By1(u.hi, u.lo, d, v, q.hi, q.lo, r0);
    Bounds2By1(u.hi, u.lo, d, P128 - (v + BASE) * d, q.lo, r0);
  }

  lemma Neighbours(c: int, d: int)
    ensures (c - 1) * d == c * d - d && (c + 1) * d == c * d + d
  {
  }

  /** The two conditional corrections, on wrapped words standing for quotient c0 and remainder r0. */
  method Correct2By1(quot0: Word, rem0: Word, q0: Word, d: Word, ghost c0: int, ghost r0: int)
    returns (quot: Word, rem: Word, ghost c: int)
    requires d >= P63 && 1 <= c0 <= BASE && (quot0 == c0 || quot0 == c0 - BASE) && (rem0 == r0 || rem0 == r0 + BASE)
    requires r0 + d >= 0 && q0 - BASE < r0 && (r0 < BASE - d || r0 < q0)
    ensures (quot == c || quot == c - BASE) && rem < d
    ensures (c == c0 && rem == r0) || (c == c0 - 1 && rem == r0 + d) || (c == c0 + 1 && rem == r0 - d)
  {
    quot, rem, c := quot0, rem0, c0;
    if rem > q0 {
      quot := Minus(quot, 1);
      rem := Plus(rem, d);
      c := c - 1;
    }
    if rem >= d {
      quot := Plus(quot, 1);
      rem := Minus(rem, d);
      c := c + 1;
    }
  }

  lemma RemainderWord(u: U128, d: Word, c: int, quot: Word, x: Word, k: int, r0: int)
    requires quot * d == k * BASE + x && r0 == Val(u) - c * d && (quot == c || quot == c - BASE)
    requires -BASE < r0 < BASE
    ensures Minus(u.lo, x) == r0 || Minus(u.lo, x) == r0 + BASE
  {
    var j := if quot == c then 0 else 1;
    assert c * d == quot * d + j * d * BASE;
    SmallResidue(u.lo, x, u.hi - j * d - k, r0);
  }

  lemma SmallResidue(a: Word, x: Word, k: int, r: int)
    requires r == a - x + k * BASE && -BASE < r < BASE
    ensures Minus(a, x) == r || Minus(a, x) == r + BASE
  {
  }

  lemma QuotientFits(u: int, d: int, c: int, rem: int)
    requires u == c * d + rem && 0 <= rem < d && 0 <= u < BASE * d
    ensures 0 <= c < BASE
  {
    if c < 0 { MulLe(c, -1, d); }
    if c >= BASE { MulLe(BASE, c, d); }
  }

  //
  // udivrem_3by2
  //

  /** B r = u2 k + u1 (B^2 - D) + u0 B + q0 D - B D, where k = B^3 - (v + B) D. */
  lemma Candidate3By2(u2: int, u1: int, u0: int, d: int, v: int, q1: int, q0: int, r: int)
    requires q1 * BASE + q0 == (v + BASE) * u2 + u1
    requires r == u2 * P128 + u1 * BASE + u0 - (q1 + 1) * d
    ensures BASE * r == u2 * (P192 - (v + BASE) * d) + u1 * (P128 - d) + u0 * BASE + q0 * d - BASE * d
  {
    var w := v + BASE;
    assert (q1 + 1) * d == q1 * d + d;
    assert BASE * (q1 * d) == (q1 * BASE) * d == (w * u2 + u1 - q0) * d == w * u2 * d + u1 * d - q0 * d;
    assert w * u2 * d == u2 * (w * d);
    assert u2 * (P192 - w * d) == P192 * u2 - u2 * (w * d);
    assert u1 * (P128 - d) == P128 * u1 - u1 * d;
  }

  lemma LowerBounds3By2(u2: int, u1: int, u0: int, d: int, k: int, q0: int, r: int)
    requires 0 <= u2 && 0 <= u1 && 0 <= u0 && 0 < k && 0 <= q0 < BASE && 0 < d < P128
    requires BASE * r == u2 * k + u1 * (P128 - d) + u0 * BASE + q0 * d - BASE * d
    ensures r + d >= 0 && (q0 - BASE) * BASE < r
  {
    MulLe(0, u2, k);
    MulLe(0, u1, P128 - d);
    MulLe(0, q0, d);
    assert r + d >= 0;
    assert (BASE - q0) * (P128 - d) == P192 - BASE * d - q0 * P128 + q0 * d;
    MulLe(1, BASE - q0, P128 - d);
  }

  /** The case u2 < d1 of the upper bound. */
  lemma UpperBelow(u2: int, u1: int, u0: int, d1: int, d0: int, k: int)
    requires 0 <= u2 < d1 < BASE && 0 <= u1 < BASE && 0 <= u0 < BASE && 0 <= d0 < BASE
    requires 0 < k <= d1 * BASE + d0
    ensures var d := d1 * BASE + d0;
      u2 * k + u1 * (P128 - d) + u0 * BASE <= d1 * d + BASE * (P128 - d) - BASE
  {
    var d := d1 * BASE + d0;
    MulLe(u2, d1 - 1, k);
    MulLe(k, d, d1 - 1);
    assert (d1 - 1) * d == d1 * d - d;
    MulLe(u1, BASE - 1, P128 - d);
  }

  /** The case u2 = d1, u1 < d0: k is at most D and at most B (B^2 - D), and one of the two is enough. */
  lemma UpperEqual(u1: int, u0: int, d1: int, d0: int, d: int, g: int, k: int)
    requires 0 <= d1 < BASE && 0 <= u1 < d0 < BASE && 0 <= u0 < BASE
    requires d == d1 * BASE + d0 && d + g == P128 && 0 < g
    requires 0 < k <= d && k <= BASE * g
    ensures BASE * (d1 * k + u1 * g + u0 * BASE - BASE * d) < g * g
  {
    var z := d1 * k + u1 * g + u0 * BASE - BASE * d;
    assert z <= d1 * k + d0 * g - g + P128 - BASE - BASE * d by {
      MulLe(u1, d0 - 1, g);
      assert (d0 - 1) * g == d0 * g - g;
    }
    if d <= g * BASE {
      UpperEqualLarge(d1, d0, d, g, k, z);
    } else {
      UpperEqualSmall(d1, d0, d, g, k, z);
    }
  }

  lemma UpperEqualLarge(d1: int, d0: int, d: int, g: int, k: int, z: int)
    requires 0 <= d1 && d0 < BASE && d == d1 * BASE + d0 && d + g == P128 && k <= d <= g * BASE
    requires z <= d1 * k + d0 * g - g + P128 - BASE - BASE * d
    ensures BASE * z < g * g
  {
    SumSquares(d, g, d0);
    MulLe(k, d, d1);
    HighTimes(d1, d0, d);
    EqualLarge(d, g, d1 * k, d1 * d, d0 * g, g * d, d0 * d, d * d, g * g, z);
  }

  lemma UpperEqualSmall(d1: int, d0: int, d: int, g: int, k: int, z: int)
    requires 0 <= d1 && d == d1 * BASE + d0 && d + g == P128 && 0 < g && k <= BASE * g < d
    requires z <= d1 * k + d0 * g - g + P128 - BASE - BASE * d
    ensures BASE * z < g * g
  {
    HighTimes(d1, d0, g);
    CapSmall(d1, k, g);
    MulLe(g, BASE - 1, d);
    assert (d - d0) * g == g * d - d0 * g;
    EqualSmall(d, g, d1 * k, d0 * g, g * d, z);
    MulLe(0, g, g);
  }

  lemma HighTimes(d1: int, d0: int, x: int)
    ensures var d := d1 * BASE + d0; BASE * (d1 * x) == d * x - d0 * x
  {
  }

  lemma CapSmall(d1: int, k: int, g: int)
    requires 0 <= d1 && k <= BASE * g
    ensures d1 * k <= BASE * (d1 * g)
  {
    MulLe(k, BASE * g, d1);
    assert (BASE * g) * d1 == BASE * (d1 * g);
  }

  lemma SumSquares(d: int, g: int, d0: int)
    requires g == P128 - d && d <= g * BASE && d0 < BASE
    ensures d * d == P128 * d - g * d && g * g == P128 * g - g * d
    ensures BASE * d - d0 * d <= P128 * g - BASE * (d0 * g)
  {
    assert d * d == d * (P128 - g);
    assert g * g == g * (P128 - d);
    MulLe(d, g * BASE, BASE - d0);
    assert (g * BASE) * (BASE - d0) == g * P128 - BASE * (d0 * g);
    assert d * (BASE - d0) == BASE * d - d0 * d;
  }

  /** Both lemmas are linear: the products of `UpperEqual` enter as plain integers. */
  lemma EqualLarge(d: int, g: int, dk: int, d1d: int, d0g: int, gd: int, d0d: int, dd: int, gg: int, z: int)
    requires d + g == P128 && z <= dk + d0g - g + P128 - BASE - BASE * d && dk <= d1d
    requires BASE * d1d == dd - d0d && dd == P128 * d - gd && gg == P128 * g - gd
    requires BASE * d - d0d <= P128 * g - BASE * d0g
    ensures BASE * z < gg
  {
  }

  lemma EqualSmall(d: int, g: int, dk: int, d0g: int, gd: int, z: int)
    requires d + g == P128 && z <= dk + d0g - g + P128 - BASE - BASE * d
    requires dk <= gd - d0g && gd <= (BASE - 1) * d
    ensures z < 0
  {
  }

  lemma UpperBound3By2(u2: int, u1: int, u0: int, d: U128, k: int, q0: int, r: int)
    requires 0 <= u2 && 0 <= u1 < BASE && 0 <= u0 < BASE && 0 <= q0 < BASE && Val(d) > 0
    requires u2 * BASE + u1 < Val(d) && 0 < k <= Val(d) && k <= BASE * (P128 - Val(d))
    requires BASE * r == u2 * k + u1 * (P128 - Val(d)) + u0 * BASE + q0 * Val(d) - BASE * Val(d)
    ensures r < P128 - Val(d) || r < q0 * BASE
  {
    var dv, g := Val(d), P128 - Val(d);
    var z := u2 * k + u1 * g + u0 * BASE - BASE * dv;
    if u2 < d.hi {
      UpperBelow(u2, u1, u0, d.hi, d.lo, k);
      UpperBelowSquare(d, z);
    } else {
      UpperEqual(u1, u0, d.hi, d.lo, dv, g, k);
    }
    UpperMean(z, g, dv, q0, r);
  }

  lemma UpperMean(z: int, g: int, dv: int, q0: int, r: int)
    requires 0 <= g && 0 <= dv && g + dv == P128 && BASE * z < g * g && BASE * r == z + q0 * dv
    ensures r < g || r < q0 * BASE
  {
    assert (g + dv) * r == P128 * r == BASE * z + BASE * (q0 * dv);
    assert dv * (q0 * BASE) == BASE * (q0 * dv);
    Weighted(g, dv, g, q0 * BASE, r);
  }

  lemma UpperBelowSquare(d: U128, z: int)
    requires z <= d.hi * Val(d) + BASE * (P128 - Val(d)) - BASE - BASE * Val(d)
    ensures BASE * z < (P128 - Val(d)) * (P128 - Val(d))
  {
    var dv := Val(d);
    assert BASE * (d.hi * dv) == (dv - d.lo) * dv == dv * dv - d.lo * dv;
    MulLe(0, d.lo, dv);
    assert (P128 - dv) * (P128 - dv) == P128 * P128 - 2 * P128 * dv + dv * dv;
  }

  lemma CandidateFits3By2(u2: int, u1: int, d: U128, v: int)
    requires 0 <= u2 && 0 <= u1 < BASE && v >= 0 && u2 * BASE + u1 < Val(d)
    requires 0 < P192 - (v + BASE) * Val(d)
    ensures 0 <= (v + BASE) * u2 + u1 < P128
  {
    var w := v + BASE;
    MulLe(0, u2, w);
    assert w * Val(d) == BASE * (w * d.hi) + w * d.lo;
    if u2 < d.hi {
      MulLe(u2, d.hi - 1, w);
      assert (d.hi - 1) * w == w * d.hi - w;
      MulLe(0, d.lo, w);
    } else {
      assert u2 == d.hi;
      MulLe(BASE, w, d.lo);
    }
  }

  lemma Remainder3By2(u2: Word, u1: Word, u0: Word, d: U128, v: Word, q: U128, r0: int)
    requires IsReciprocal2(d, v) && u2 * BASE + u1 < Val(d) && Val(q) == (v + BASE) * u2 + u1
    requires r0 == u2 * P128 + u1 * BASE + u0 - (q.hi + 1) * Val(d)
    ensures r0 + Val(d) >= 0 && (q.lo - BASE) * BASE < r0 && (r0 < P128 - Val(d) || r0 < q.lo * BASE)
  {
    var k := P192 - (v + BASE) * Val(d);
    MulLe(0, v, Val(d));
    assert (v + BASE) * Val(d) == v * Val(d) + BASE * Val(d);
    Candidate3By2(u2, u1, u0, Val(d), v, q.hi, q.lo, r0);
    LowerBounds3By2(u2, u1, u0, Val(d), k, q.lo, r0);
    UpperBound3By2(u2, u1, u0, d, k, q.lo, r0);
  }

  /** The wrapped 128-bit remainder stands for the candidate's true remainder r0. */
  lemma Remainder128(u2: Word, u1: Word, u0: Word, d: U128, q1: Word, x: Word, kx: int, r1: Word, t: U128,
                     s: U128, cs: bool, r: U128, cr: bool, r0: int)
    requires q1 * d.hi == kx * BASE + x && r1 == Minus(u1, x) && Val(t) == d.lo * q1
    requires Val(U128(u0, r1)) - Val(t) == Val(s) - Bit(cs) * BASE * BASE
    requires Val(s) - Val(d) == Val(r) - Bit(cr) * BASE * BASE
    requires r0 == u2 * P128 + u1 * BASE + u0 - (q1 + 1) * Val(d) && -P128 < r0 < P128
    ensures Val(r) == r0 || Val(r) == r0 + P128
  {
    var b := if u1 >= x then 0 else 1;
    TimesVal(q1, d);
    Linear128(u2, u1, u0, Val(d), x, kx, r1, b, Val(t), Val(s), Bit(cs), Val(r), Bit(cr), r0);
    Residue128(Val(r), r0, Bit(cs) + Bit(cr) + b + kx - u2);
  }

  lemma TimesVal(q1: int, d: U128)
    ensures (q1 + 1) * Val(d) == BASE * (q1 * d.hi) + d.lo * q1 + Val(d)
  {
  }

  lemma Linear128(u2: int, u1: int, u0: int, d: int, x: int, kx: int, r1: int, b: int, t: int,
                  s: int, cs: int, r: int, cr: int, r0: int)
    requires r1 == u1 - x + b * BASE
    requires r1 * BASE + u0 - t == s - cs * P128 && s - d == r - cr * P128
    requires r0 == u2 * P128 + u1 * BASE + u0 - (BASE * (kx * BASE + x) + t + d)
    ensures r == r0 + P128 * (cs + cr + b + kx - u2)
  {
  }

  lemma Residue128(r: int, r0: int, k: int)
    requires r == r0 + P128 * k && 0 <= r < P128 && -P128 < r0 < P128
    ensures r == r0 || r == r0 + P128
  {
  }

  method Correct3By2(quot0: Word, rem0: U128, q0: Word, d: U128, ghost c0: int, ghost r0: int)
    returns (quot: Word, rem: U128, ghost c: int)
    requires d.hi >= P63 && 1 <= c0 <= BASE && (quot0 == c0 || quot0 == c0 - BASE)
    requires Val(rem0) == r0 || Val(rem0) == r0 + P128
    requires r0 + Val(d) >= 0 && (q0 - BASE) * BASE < r0 && (r0 < P128 - Val(d) || r0 < q0 * BASE)
    ensures (quot == c || quot == c - BASE) && Val(rem) < Val(d)
    ensures || (c == c0 && Val(rem) == r0)
            || (c == c0 - 1 && Val(rem) == r0 + Val(d))
            || (c == c0 + 1 && Val(rem) == r0 - Val(d))
  {
    ghost var carry;
    quot, rem, c := quot0, rem0, c0;
    if rem.hi >= q0 {
      quot := Minus(quot, 1);
      rem, carry := Add128(rem, d);
      c := c - 1;
    }
    if Val(rem) >= Val(d) {
      quot := Plus(quot, 1);
      rem, carry := Sub128(rem, d);
      c := c + 1;
    }
  }

  /** The candidate quotient word and what its remainder r0 is worth. */
  method CandidateQuotient(u2: Word, u1: Word, ghost u0: Word, d: U128, v: Word) returns (q: U128, ghost r0: int)
    requires d.hi >= P63 && IsReciprocal2(d, v) && u2 * BASE + u1 < Val(d)
    ensures r0 == u2 * P128 + u1 * BASE + u0 - (q.hi + 1) * Val(d)
    ensures r0 + Val(d) >= 0 && (q.lo - BASE) * BASE < r0 && (r0 < P128 - Val(d) || r0 < q.lo * BASE)
  {
    var m := UMul(v, u2);
    ghost var carry;
    q, carry := Add128(m, U128(u1, u2));
    assert Val(m) + Val(U128(u1, u2)) == (v + BASE) * u2 + u1;
    CandidateFits3By2(u2, u1, d, v);
    r0 := u2 * P128 + u1 * BASE + u0 - (q.hi + 1) * Val(d);
    Remainder3By2(u2, u1, u0, d, v, q, r0);
  }

  /** The remainder of candidate q1 + 1, computed in wrapping 128-bit arithmetic. */
  method CandidateRemainder(ghost u2: Word, u1: Word, u0: Word, d: U128, q1: Word, ghost r0: int) returns (r: U128)
    requires r0 == u2 * P128 + u1 * BASE + u0 - (q1 + 1) * Val(d) && -P128 < r0 < P128
    ensures Val(r) == r0 || Val(r) == r0 + P128
  {
    var x, kx := MulLow(q1, d.hi);
    var r1 := Minus(u1, x);
    var t := UMul(d.lo, q1);
    var s, cs := Sub128(U128(u0, r1), t);
    ghost var cr;
    r, cr := Sub128(s, d);
    Remainder128(u2, u1, u0, d, q1, x, kx, r1, t, s, cs, r, cr, r0);
  }

  /** Exact quotient and remainder of a three-word numerator whose two high words are below d. */
  method UDivRem3By2(u2: Word, u1: Word, u0: Word, d: U128, v: Word) returns (quot: Word, rem: U128)
    requires d.hi >= P63 && IsReciprocal2(d, v) && u2 * BASE + u1 < Val(d)
    ensures u2 * P128 + u1 * BASE + u0 == quot * Val(d) + Val(rem) && Val(rem) < Val(d)
  {
    var q, r0 := CandidateQuotient(u2, u1, u0, d, v);
    var r := CandidateRemainder(u2, u1, u0, d, q.hi, r0);
    ghost var c;
    quot, rem, c := Correct3By2(Plus(q.hi, 1), r, q.lo, d, q.hi + 1, r0);
    Neighbours(q.hi + 1, Val(d));
    QuotientFits(u2 * P128 + u1 * BASE + u0, Val(d), c, Val(rem));
  }
}
