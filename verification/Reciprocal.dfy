/**
 Word reciprocals for division by invariant integers.

 Four Newton-like refinements v0..v3 bring a 9-bit table estimate to within one unit of
 floor((2^128 - 1) / d); the last step removes that unit.  The proofs follow the errors:
   e0 = 2^50 - v0 d40,   e1 = 2^60 - v1 d40,   e2 = 2^97 - v2 d,   e3 = 2^128 - v3 d,
 where each error is, up to rounding, the scaled square of the previous one.
 */
module Reciprocal {
  import opened Words

  const P24: int := 0x100_0000
  const P31: int := 0x8000_0000
  const P34: int := 0x4_0000_0000
  const P38: int := 0x40_0000_0000
  const P40: int := 0x100_0000_0000
  const P47: int := 0x8000_0000_0000
  const P50: int := 0x4_0000_0000_0000
  const P53: int := 0x20_0000_0000_0000
  const P55: int := 0x80_0000_0000_0000
  const P60: int := 0x1000_0000_0000_0000
  const P65: int := 0x2_0000_0000_0000_0000
  const P66: int := 0x4_0000_0000_0000_0000
  const P97: int := P63 * P34
  const P128: int := BASE * BASE

  function Wrap32(x: int): int { x % 0x1_0000_0000 }

  /** Entry i of the 256-entry lookup table. */
  function TableItem(i: nat): (v: int)
    requires i < 256
    ensures v == 0x7fd00 / (0x100 + i)
  {
    assert Pow2(8) == 256;
    BitOrDisjoint(0x100, i, 8);
    TableBounds(0x100 + i, 0x7fd00 / (0x100 + i));
    (0x7fd00 / BitOr(0x100, i)) % 0x1_0000
  }

  //
  // v0 and v1: the 40-bit approximation
  //

  lemma Stage0(d: Word, d9: int, v0: int, d40: int)
    requires d >= P63
    requires d9 == d / P55 && v0 == 0x7fd00 / d9 && d40 == d / P24 + 1
    ensures 256 <= d9 <= 511 && 1024 <= v0 <= 2045 && P40 / 2 < d40 <= P40
    ensures -1280 * P31 < P50 - v0 * d40 < 1280 * P31
  {
    assert 256 <= d9 <= 511;
    TableBounds(d9, v0);
    assert d9 * P31 <= d40 <= (d9 + 1) * P31;
    MulLe(d40, (d9 + 1) * P31, v0);
    MulLe(d9 * P31, d40, v0);
    assert (d9 + 1) * P31 * v0 == (v0 * d9 + v0) * P31;
    assert d9 * P31 * v0 == (v0 * d9) * P31;
    assert d40 * v0 == v0 * d40;
  }

  lemma TableBounds(d9: int, v0: int)
    requires 256 <= d9 <= 511 && v0 == 0x7fd00 / d9
    ensures 1024 <= v0 <= 2045
    ensures 0x7fd00 - d9 < v0 * d9 <= 0x7fd00
  {
    assert 0x7fd00 == v0 * d9 + 0x7fd00 % d9;
    if v0 > 2045 { MulLe(2046, v0, d9); }
    if v0 < 1024 { MulLe(v0, 1023, d9); }
  }

  /** e1 is the scaled square of e0 plus one rounding term. */
  lemma Error1(v0: int, d40: int, h: int, v1: int, e0: int, e1: int)
    requires e0 == P50 - v0 * d40 && e1 == P60 - v1 * d40
    requires P40 * v1 == 2 * P50 * v0 - (v0 * (v0 * d40) - h) - P40
    ensures P40 * e1 == e0 * e0 + (P40 - h) * d40
  {
    var x := v0 * d40;
    assert v0 * x == v0 * (P50 - e0) == P50 * v0 - v0 * e0;
    assert P40 * v1 == P50 * v0 + v0 * e0 - (P40 - h);
    assert P40 * (v1 * d40) == (P40 * v1) * d40;
    assert (P50 * v0 + v0 * e0 - (P40 - h)) * d40 == P50 * x + e0 * x - (P40 - h) * d40 by {
      assert (v0 * e0) * d40 == e0 * (v0 * d40);
    }
    assert P50 * x + e0 * x == P50 * (P50 - e0) + e0 * (P50 - e0) == P50 * P50 - e0 * e0 by {
      assert e0 * (P50 - e0) == P50 * e0 - e0 * e0;
    }
  }

  lemma SquareLe(x: int, b: int)
    requires -b <= x <= b
    ensures 0 <= x * x <= b * b
  {
    var y := if x < 0 then -x else x;
    assert x * x == y * y;
    MulLe(y, b, y);
    MulLe(y, b, b);
  }

  lemma Stage1(v0: int, d40: int, g: int, h: int, v1: int)
    requires 1024 <= v0 <= 2045 && P40 / 2 < d40 <= P40
    requires -1280 * P31 < P50 - v0 * d40 < 1280 * P31
    requires v0 * v0 * d40 == g * P40 + h && 0 <= h < P40
    requires v1 == 2048 * v0 - g - 1
    ensures 0 < P60 - v1 * d40 <= 29 * P38
    ensures 0 < v1 < 0x20_0000
  {
    var e0, e1 := P50 - v0 * d40, P60 - v1 * d40;
    assert v0 * v0 * d40 == v0 * (v0 * d40);
    Error1(v0, d40, h, v1, e0, e1);
    SquareLe(e0, 1280 * P31);
    MulLe(1, P40 - h, d40);
    MulLe(P40 - h, P40, d40);
    assert 0 < e1 <= 29 * P38;
    if v1 <= 0 { MulLe(v1, 0, d40); }
    if v1 >= 0x20_0000 { MulLe(0x20_0000, v1, d40); }
  }

  //
  // v2: the 34-bit approximation
  //

  lemma Error2(v1: int, d40: int, c: int, d: int, e1: int, h: int, v2: int, e2: int)
    requires e1 == P60 - v1 * d40 && d == P24 * d40 - c && e2 == P97 - v2 * d
    requires P47 * v2 == P60 * v1 + v1 * e1 - h
    ensures P47 * e2 == P24 * (e1 * e1) + c * (P47 * v2 + h) + h * d
  {
    var w := P60 * v1 + v1 * e1;
    assert P47 * (v2 * d) == (P47 * v2) * d == w * d - h * d;
    assert w * d == P24 * (w * d40) - w * c;
    assert w * d40 == P60 * (v1 * d40) + e1 * (v1 * d40) by {
      assert (v1 * e1) * d40 == e1 * (v1 * d40);
    }
    assert P60 * (P60 - e1) + e1 * (P60 - e1) == P60 * P60 - e1 * e1 by {
      assert e1 * (P60 - e1) == P60 * e1 - e1 * e1;
    }
    assert w * c == c * (P47 * v2 + h);
  }

  lemma Stage2(d: Word, v1: int, d40: int, g: int, h: int, v2: int)
    requires d >= P63 && d40 == d / P24 + 1
    requires 0 < P60 - v1 * d40 <= 29 * P38 && 0 < v1 < 0x20_0000
    requires v1 * (P60 - v1 * d40) == g * P47 + h && 0 <= h < P47
    requires v2 == 0x2000 * v1 + g
    ensures 0 < P97 - v2 * d < 873 * P53 + d
    ensures 0 < v2 < P34
  {
    var e1, e2 := P60 - v1 * d40, P97 - v2 * d;
    var c := P24 * d40 - d;
    assert 0 < c <= P24;
    MulLe(0, v1, e1);
    assert g >= 0;
    Error2(v1, d40, c, d, e1, h, v2, e2);
    SquareLe(e1, 29 * P38);
    MulLe(1, e1, e1);
    MulLe(0, h, d);
    MulLe(h, P47 - 1, d);
    MulLe(0, c, P47 * v2 + h);
    assert e2 > 0;
    if v2 >= P34 { MulLe(P34, v2, d); }
    MulLe(c, P24, P47 * v2 + h);
  }

  //
  // v3: within one of the reciprocal
  //

  lemma Error3(v2: int, d: int, e2: int, r: int, v3: int, e3: int)
    requires e2 == P97 - v2 * d && e3 == P128 - v3 * d
    requires P66 * v3 == P97 * v2 + v2 * e2 - r
    ensures P66 * e3 == e2 * e2 + r * d
  {
    assert P66 * (v3 * d) == (P66 * v3) * d == (P97 * v2 + v2 * e2) * d - r * d;
    assert (P97 * v2 + v2 * e2) * d == P97 * (v2 * d) + e2 * (v2 * d) by {
      assert (v2 * e2) * d == e2 * (v2 * d);
    }
    assert P97 * (P97 - e2) + e2 * (P97 - e2) == P97 * P97 - e2 * e2 by {
      assert e2 * (P97 - e2) == P97 * e2 - e2 * e2;
    }
  }

  lemma SumSquareLe(e: int, f: int, d: int)
    requires 0 <= e <= f + d && 0 <= f <= d
    ensures e * e <= d * (3 * f + d)
  {
    SquareLe(e, f + d);
    assert (f + d) * (f + d) == f * f + 2 * (f * d) + d * d;
    MulLe(f, d, f);
    assert d * (3 * f + d) == 3 * (f * d) + d * d;
  }

  lemma Stage3(d: Word, v2: int, e: int, g: int, h: int, v3: int)
    requires P63 <= d
    requires 0 < P97 - v2 * d < 873 * P53 + d && 0 < v2 < P34
    requires e == (P97 - v2 * d) / 2
    requires v2 * e == g * P65 + h && 0 <= h < P65
    requires v3 == P31 * v2 + g
    ensures 0 < P128 - v3 * d < 2 * d
  {
    var e2, e3 := P97 - v2 * d, P128 - v3 * d;
    var p := e2 % 2;
    var r := v2 * p + 2 * h;
    assert e2 == 2 * e + p;
    assert v2 * e2 == 2 * (v2 * e) + v2 * p;
    assert 0 <= v2 * p < P34 by {
      if p == 0 { assert v2 * p == 0; } else { assert v2 * p == v2; }
    }
    Error3(v2, d, e2, r, v3, e3);
    MulLe(1, e2, e2);
    MulLe(0, r, d);
    assert e3 > 0;
    SumSquareLe(e2, 873 * P53, d);
    MulLe(3 * (873 * P53) + d, 4667 * P53, d);
    MulLe(r, P66 + P34, d);
    assert d * (3 * (873 * P53) + d) == (3 * (873 * P53) + d) * d;
  }

  //
  // v4: the exact reciprocal
  //

  ghost predicate IsReciprocal(d: Word, v: int)
  {
    0 < P128 - (v + BASE) * d <= d
  }

  lemma ReciprocalIsFloor(d: Word, v: int)
    requires d > 0 && IsReciprocal(d, v)
    ensures v == (P128 - 1) / d - BASE
  {
    DivModUnique(P128 - 1, d, v + BASE, P128 - 1 - (v + BASE) * d);
  }

  lemma Stage4(d: Word, v3: int)
    requires P63 <= d && 0 < P128 - v3 * d < 2 * d
    ensures BASE <= v3 < 2 * BASE
    ensures P128 - v3 * d <= d ==> (v3 * d + d) / BASE == BASE && IsReciprocal(d, v3 - BASE)
    ensures P128 - v3 * d > d ==> (v3 * d + d) / BASE == BASE - 1 && IsReciprocal(d, v3 + 1 - BASE) && v3 < 2 * BASE - 1
  {
    if v3 < BASE { MulLe(v3, BASE - 1, d); }
    if v3 >= 2 * BASE { MulLe(2 * BASE, v3, d); }
    var e3 := P128 - v3 * d;
    if e3 <= d {
      DivModUnique(v3 * d + d, BASE, BASE, d - e3);
    } else {
      DivModUnique(v3 * d + d, BASE, BASE - 1, BASE - (e3 - d));
      assert (v3 + 1) * d == v3 * d + d;
      if v3 >= 2 * BASE - 1 { MulLe(2 * BASE, v3 + 1, d); }
    }
  }

  /** floor(e2 / 2) as the source gets it from ceil(d / 2), without a 65-bit product. */
  lemma HalfError(d: Word, v2: int, e2: int)
    requires e2 == P97 - v2 * d
    ensures (if d % 2 == 1 then v2 / 2 else 0) - v2 * (d / 2 + d % 2) + P97 / 2 == e2 / 2
  {
    var m := d / 2;
    if d % 2 == 0 {
      assert v2 * d == 2 * (v2 * m);
    } else {
      assert v2 * d == 2 * (v2 * m) + v2;
      assert v2 * (m + 1) == v2 * m + v2;
    }
  }

  /** v1 of the source: 32-bit arithmetic except the product with d40. */
  method Refine1(v0: int, d40: Word) returns (v1: int)
    requires 1024 <= v0 <= 2045 && P40 / 2 < d40 <= P40
    requires -1280 * P31 < P50 - v0 * d40 < 1280 * P31
    ensures 0 < P60 - v1 * d40 <= 29 * P38 && 0 < v1 < 0x20_0000
  {
    var sq, k0 := Mul32(v0, v0);
    SquareLe(v0, 2045);
    var f, k := MulLow(sq, d40);
    MulLe(sq, 2045 * 2045, d40);
    MulLe(0, sq, d40);
    ghost var g, h, w := Quotient40(f);
    Stage1(v0, d40, g, h, 2048 * v0 - g - 1);
    v1 := Wrap32(Wrap32(v0 * 2048) - Wrap32(f / P40) - 1);
    Fits32(g, v0);
  }

  lemma Quotient40(f: int) returns (g: int, h: int, w: int)
    requires 0 <= f <= 2045 * 2045 * P40
    ensures f == g * P40 + h && 0 <= h < P40 && g == f / P40 && 0 <= g <= 2045 * 2045 && w == Wrap32(g)
  {
    g, h, w := f / P40, f % P40, Wrap32(f / P40);
  }

  lemma Fits32(g: int, v0: int)
    requires 0 <= g <= 2045 * 2045 && 1024 <= v0 <= 2045
    ensures Wrap32(g) == g && Wrap32(v0 * 2048) == v0 * 2048
    ensures 0 < 2048 * v0 - g - 1 < 0x20_0000 ==> Wrap32(v0 * 2048 - g - 1) == 2048 * v0 - g - 1
  {
  }

  method Refine2(ghost d: Word, v1: int, d40: Word) returns (v2: Word)
    requires d >= P63 && d40 == d / P24 + 1
    requires 0 < P60 - v1 * d40 <= 29 * P38 && 0 < v1 < 0x20_0000
    ensures 0 < P97 - v2 * d < 873 * P53 + d && 0 < v2 < P34
  {
    var e1 := ErrorWord(v1, d40);
    var f, j := MulLow(v1, e1);
    MulLe(0, v1, e1);
    MulLe(v1, 0x20_0000, e1);
    var g := f / P47;
    v2 := Plus(Wrap(v1 * 0x2000), g);
    SmallSum(v1, g);
    Stage2(d, v1, d40, g, f % P47, v2);
  }

  /** The error of v1, without wrap-around. */
  method ErrorWord(v1: int, d40: Word) returns (e1: Word)
    requires 0 < P60 - v1 * d40 <= 29 * P38 && 0 < v1 < 0x20_0000
    ensures e1 == P60 - v1 * d40
  {
    var x, k := MulLow(v1, d40);
    MulLe(0, v1, d40);
    e1 := Minus(P60, x);
  }

  lemma SmallSum(v1: int, g: Word)
    requires 0 < v1 < 0x20_0000 && g < 0x1000_0000
    ensures Plus(Wrap(v1 * 0x2000), g) == 0x2000 * v1 + g
  {
  }

  lemma SmallDiff(x: Word, y: Word, k: int, e: int)
    requires x - y == k * BASE + e && 0 <= e < BASE
    ensures Minus(x, y) == e
  {
  }

  lemma HalfErrorFits(d: Word, e2: int)
    requires P63 <= d && 0 < e2 < 873 * P53 + d
    ensures 0 <= e2 / 2 < BASE
  {
  }

  /** The parity of d, and x & (0 - parity). */
  method ParityMask(d: Word, x: Word) returns (d0: Word, y: Word)
    ensures d0 == d % 2 && y == if d0 == 1 then x else 0
  {
    LowBit(d);
    d0 := BitAnd(d, 1);
    MaskWord(x, d0);
    y := BitAnd(x, Wrap(0 - (d0 as int)));
  }

  /** e of the source: half the error of v2, exactly, from wrapping arithmetic. */
  method HalfErrorWord(d: Word, v2: Word) returns (e: Word)
    requires P63 <= d && 0 < P97 - v2 * d < 873 * P53 + d
    ensures e == (P97 - v2 * d) / 2
  {
    var d0, x := ParityMask(d, v2 / 2);
    var d63 := Plus(d / 2, d0);
    var y, k := MulLow(v2, d63);
    e := Minus(x, y);
    HalfErrorExact(d, v2, x, y, k);
  }

  lemma HalfErrorExact(d: Word, v2: Word, x: Word, y: Word, k: int)
    requires P63 <= d && 0 < P97 - v2 * d < 873 * P53 + d
    requires x == if d % 2 == 1 then v2 / 2 else 0
    requires v2 * (d / 2 + d % 2) == k * BASE + y
    ensures Minus(x, y) == (P97 - v2 * d) / 2
  {
    var e := HalfErrorValue(d, v2);
    SmallDiff(x, y, k - P97 / 2 / BASE, e);
  }

  lemma HalfErrorValue(d: Word, v2: Word) returns (e: int)
    requires P63 <= d && 0 < P97 - v2 * d < 873 * P53 + d
    ensures e == (P97 - v2 * d) / 2 && 0 <= e < BASE
    ensures (if d % 2 == 1 then v2 / 2 else 0) - v2 * (d / 2 + d % 2) + P97 / 2 == e
  {
    HalfError(d, v2, P97 - v2 * d);
    HalfErrorFits(d, P97 - v2 * d);
    e := (P97 - v2 * d) / 2;
  }

  /** v3 of the source; `u3` is the 65-bit value it stands for. */
  method Refine3(d: Word, v2: Word) returns (v3: Word, ghost u3: int)
    requires P63 <= d && 0 < P97 - v2 * d < 873 * P53 + d && 0 < v2 < P34
    ensures 0 < P128 - u3 * d < 2 * d && v3 == Wrap(u3)
  {
    var e := HalfErrorWord(d, v2);
    var p := UMul(v2, e);
    v3 := Plus(p.hi / 2, Wrap(v2 * P31));

    u3 := P31 * v2 + p.hi / 2;
    SplitDouble(p, v2 * e);
    Stage3(d, v2, e, p.hi / 2, (p.hi % 2) * BASE + p.lo, u3);
    WrappedSum(v2, p.hi / 2);
  }

  lemma SplitDouble(p: U128, x: int)
    requires Val(p) == x
    ensures x == (p.hi / 2) * P65 + ((p.hi % 2) * BASE + p.lo) && 0 <= (p.hi % 2) * BASE + p.lo < P65
  {
    assert p.hi == 2 * (p.hi / 2) + p.hi % 2;
  }

  lemma WrappedSum(v2: Word, g: Word)
    ensures Plus(g, Wrap(v2 * P31)) == Wrap(P31 * v2 + g)
  {
    PlusMinusWrap(g, Wrap(v2 * P31));
    WrapCong(P31 * v2 + g, g + Wrap(v2 * P31), (v2 * P31) / BASE);
  }

  /** v4 of the source: corrects the last unit. */
  method Refine4(d: Word, v3: Word, ghost u3: int) returns (v4: Word)
    requires P63 <= d && 0 < P128 - u3 * d < 2 * d && v3 == Wrap(u3)
    ensures IsReciprocal(d, v4)
  {
    var p := UMul(v3, d);
    var s, k := Add128(p, U128(d, 0));
    v4 := Minus(Minus(v3, s.hi), d);
    LastUnit(d, v3, u3, s, k);
  }

  lemma LastUnit(d: Word, v3: Word, u3: int, s: U128, k: bool)
    requires P63 <= d && 0 < P128 - u3 * d < 2 * d && v3 == Wrap(u3)
    requires v3 * d + d == Val(s) + Bit(k) * BASE * BASE
    ensures IsReciprocal(d, Minus(Minus(v3, s.hi), d))
  {
    Stage4(d, u3);
    assert u3 == BASE + v3;
    var w := TopProduct(d, v3, u3);
    HighPart(w, d, s, k);
    FinalWrap(v3, s.hi, d);
  }

  lemma TopProduct(d: Word, v3: Word, u3: int) returns (w: int)
    requires u3 == BASE + v3
    ensures w == u3 * d + d && v3 * d + d == w - BASE * d
  {
    w := u3 * d + d;
  }

  lemma HighPart(w: int, d: Word, s: U128, k: bool)
    requires w / BASE == BASE || w / BASE == BASE - 1
    requires d >= P63 && w - BASE * d == Val(s) + Bit(k) * BASE * BASE
    ensures s.hi == w / BASE - d
  {
    var q, r := w / BASE, w % BASE;
    assert q * BASE + r - BASE * d == s.hi * BASE + s.lo + Bit(k) * P128;
  }

  lemma FinalWrap(w: Word, hi: Word, d: Word)
    requires hi == BASE - d || (hi == BASE - 1 - d && w < BASE - 1)
    ensures hi == BASE - d ==> Minus(Minus(w, hi), d) == w
    ensures hi == BASE - 1 - d ==> Minus(Minus(w, hi), d) == w + 1
  {
  }

  /** The word reciprocal floor((2^128 - 1) / d) - 2^64 of a normalised divisor. */
  method Reciprocal2By1(d: Word) returns (v: Word)
    requires d >= P63
    ensures v == (P128 - 1) / d - BASE && IsReciprocal(d, v)
  {
    var d9 := d / P55;
    var v0 := TableItem(d9 - 256);
    var d40 := Wrap(d / P24 + 1);
    Stage0(d, d9, v0, d40);
    var v1 := Refine1(v0, d40);
    var v2 := Refine2(d, v1, d40);
    var v3, u3 := Refine3(d, v2);
    v := Refine4(d, v3, u3);
    ReciprocalIsFloor(d, v);
  }
}
