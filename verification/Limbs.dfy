/**
 Multi-word unsigned integers: little-endian word sequences, their value, and the carry chains,
 schoolbook multiplication and truncated multiplication over them, for every word count.
 */
module Limbs {
  import opened Words

  type Limbs = seq<Word>

  function Pow(n: nat): (p: int)
    ensures p > 0
  {
    if n == 0 then 1 else BASE * Pow(n - 1)
  }

  function Value(s: Limbs): (v: int)
    ensures v >= 0
  {
    if |s| == 0 then 0 else s[0] + BASE * Value(s[1..])
  }

  function Zeros(n: nat): (s: Limbs)
    ensures |s| == n && forall i :: 0 <= i < n ==> s[i] == 0
  {
    seq(n, i => 0)
  }

  lemma {:induction false} PowAdd(a: nat, b: nat)
    ensures Pow(a + b) == Pow(a) * Pow(b)
  {
    if a == 0 {
    } else {
      PowAdd(a - 1, b);
      assert BASE * (Pow(a - 1) * Pow(b)) == (BASE * Pow(a - 1)) * Pow(b);
    }
  }

  lemma {:induction false} ValueConcat(a: Limbs, b: Limbs)
    ensures Value(a + b) == Value(a) + Pow(|a|) * Value(b)
  {
    if |a| == 0 {
      assert a + b == b;
    } else {
      assert (a + b)[1..] == a[1..] + b;
      ValueConcat(a[1..], b);
      assert BASE * (Pow(|a| - 1) * Value(b)) == (BASE * Pow(|a| - 1)) * Value(b);
    }
  }

  lemma ValueOne(w: Word)
    ensures Value([w]) == w
  {
    assert [w][1..] == [];
  }

  /** Splitting a number at word i. */
  lemma ValueSplit(s: Limbs, i: nat)
    requires i <= |s|
    ensures Value(s) == Value(s[..i]) + Pow(i) * Value(s[i..])
  {
    assert s == s[..i] + s[i..];
    ValueConcat(s[..i], s[i..]);
  }

  lemma ValueSnoc(s: Limbs, i: nat)
    requires i < |s|
    ensures Value(s[..i + 1]) == Value(s[..i]) + Pow(i) * s[i]
  {
    assert s[..i + 1] == s[..i] + [s[i]];
    ValueConcat(s[..i], [s[i]]);
    ValueOne(s[i]);
  }

  lemma {:induction false} ValueBound(s: Limbs)
    ensures 0 <= Value(s) < Pow(|s|)
  {
    if |s| > 0 {
      ValueBound(s[1..]);
    }
  }

  lemma {:induction false} ValueZeros(s: Limbs)
    requires forall i :: 0 <= i < |s| ==> s[i] == 0
    ensures Value(s) == 0
  {
    if |s| > 0 {
      ValueZeros(s[1..]);
    }
  }

  /** Leading zero words do not change the value. */
  lemma ValuePrefix(s: Limbs, i: nat)
    requires i <= |s| && forall k :: i <= k < |s| ==> s[k] == 0
    ensures Value(s) == Value(s[..i])
  {
    ValueSplit(s, i);
    ValueZeros(s[i..]);
  }

  lemma {:induction false} ValueInjective(a: Limbs, b: Limbs)
    requires |a| == |b| && Value(a) == Value(b)
    ensures a == b
  {
    if |a| > 0 {
      var x, y := Value(a[1..]), Value(b[1..]);
      assert a[0] - b[0] == BASE * (y - x);
      assert a[0] == b[0] && x == y;
      ValueInjective(a[1..], b[1..]);
      assert a == [a[0]] + a[1..];
      assert b == [b[0]] + b[1..];
    }
  }

  //
  // Carry chains
  //

  lemma Distribute(p: int, a: int, b: int, c: int, d: int)
    ensures p * (a + b + c) == p * a + p * b + p * c && p * (a - b - c) == p * a - p * b - p * c
    ensures p * (a + d * BASE) == p * a + d * (BASE * p)
    ensures p * (a - d * BASE) == p * a - d * (BASE * p)
  {
  }

  /** The sum and the carry are exact: x + y + carry = s + k 2^(64 n). */
  method AddWords(x: Limbs, y: Limbs, carry: bool) returns (s: Limbs, k: bool)
    requires |x| == |y|
    ensures |s| == |x|
    ensures Value(x) + Value(y) + Bit(carry) == Value(s) + Bit(k) * Pow(|x|)
  {
    s, k := [], carry;
    for i := 0 to |x|
      invariant |s| == i
      invariant Value(x[..i]) + Value(y[..i]) + Bit(carry) == Value(s) + Bit(k) * Pow(i)
    {
      var t := Plus(x[i], y[i]);
      var k1 := t < x[i];
      t := Plus(t, Bit(k));
      ghost var kin := k;
      k := t < Bit(k) || k1;
      assert x[i] + y[i] + Bit(kin) == t + Bit(k) * BASE;
      AddStep(x, y, i, s, t, kin, k);
      s := s + [t];
    }
    assert x[..|x|] == x && y[..|y|] == y;
  }

  lemma AddStep(x: Limbs, y: Limbs, i: nat, s: Limbs, t: Word, kin: bool, k: bool)
    requires i < |x| == |y| && |s| == i && x[i] + y[i] + Bit(kin) == t + Bit(k) * BASE
    ensures Value(x[..i + 1]) + Value(y[..i + 1]) - Value(s + [t]) - Bit(k) * Pow(i + 1)
         == Value(x[..i]) + Value(y[..i]) - Value(s) - Bit(kin) * Pow(i)
  {
    ValueSnoc(x, i);
    ValueSnoc(y, i);
    ValueConcat(s, [t]);
    ValueOne(t);
    Distribute(Pow(i), x[i], y[i], Bit(kin), 0);
    Distribute(Pow(i), t, 0, 0, Bit(k));
  }

  /** The difference and the borrow are exact: x - y - carry = z - k 2^(64 n). */
  method SubWords(x: Limbs, y: Limbs, carry: bool) returns (z: Limbs, k: bool)
    requires |x| == |y|
    ensures |z| == |x|
    ensures Value(x) - Value(y) - Bit(carry) == Value(z) - Bit(k) * Pow(|x|)
  {
    z, k := [], carry;
    for i := 0 to |x|
      invariant |z| == i
      invariant Value(x[..i]) - Value(y[..i]) - Bit(carry) == Value(z) - Bit(k) * Pow(i)
    {
      var t := Minus(x[i], y[i]);
      var k1 := x[i] < y[i];
      var k2 := t < Bit(k);
      t := Minus(t, Bit(k));
      ghost var kin := k;
      k := k1 || k2;
      assert x[i] - y[i] - Bit(kin) == t - Bit(k) * BASE;
      SubStep(x, y, i, z, t, kin, k);
      z := z + [t];
    }
    assert x[..|x|] == x && y[..|y|] == y;
  }

  lemma SubStep(x: Limbs, y: Limbs, i: nat, z: Limbs, t: Word, kin: bool, k: bool)
    requires i < |x| == |y| && |z| == i && x[i] - y[i] - Bit(kin) == t - Bit(k) * BASE
    ensures Value(x[..i + 1]) - Value(y[..i + 1]) - Value(z + [t]) + Bit(k) * Pow(i + 1)
         == Value(x[..i]) - Value(y[..i]) - Value(z) + Bit(kin) * Pow(i)
  {
    ValueSnoc(x, i);
    ValueSnoc(y, i);
    ValueConcat(z, [t]);
    ValueOne(t);
    Distribute(Pow(i), x[i], y[i], Bit(kin), 0);
    Distribute(Pow(i), t, 0, 0, Bit(k));
  }

  //
  // Multiplication
  //

  /** One step of the inner loop: the double-word sum x y + p + k never overflows. */
  method MulAdd(x: Word, y: Word, p: Word, k: Word) returns (lo: Word, hi: Word)
    ensures x * y + p + k == hi * BASE + lo
  {
    var t := UMul(x, y);
    MulLe(x, BASE - 1, y);
    MulLe(y, BASE - 1, BASE - 1);
    var s, c := Add128(t, U128(p, 0));
    var r, c' := Add128(s, U128(k, 0));
    lo, hi := r.lo, r.hi;
  }

  /** The inner loop: adds x * y into the words of p from j on, returning the word carried out. */
  method MulRow(p0: Limbs, x: Limbs, y: Word, j: nat) returns (p: Limbs, k: Word)
    requires j + |x| <= |p0|
    ensures |p| == |p0| && forall t :: 0 <= t < |p| && !(j <= t < j + |x|) ==> p[t] == p0[t]
    ensures Value(p[j..j + |x|]) + k * Pow(|x|) == Value(p0[j..j + |x|]) + Value(x) * y
  {
    p, k := p0, 0;
    for i := 0 to |x|
      invariant RowDone(p0, p, x, y, j, i, k)
    {
      p, k := MulStep(p0, p, x, y, j, i, k);
    }
    assert x[..|x|] == x;
  }

  /** After i steps of the inner loop. */
  ghost predicate RowDone(p0: Limbs, p: Limbs, x: Limbs, y: Word, j: nat, i: nat, k: Word)
    requires j + |x| <= |p0| && i <= |x|
  {
    && |p| == |p0|
    && (forall t :: 0 <= t < |p| && !(j <= t < j + i) ==> p[t] == p0[t])
    && Value(p[j..j + i]) + k * Pow(i) == Value(p0[j..j + i]) + Value(x[..i]) * y
  }

  method MulStep(ghost p0: Limbs, p: Limbs, x: Limbs, y: Word, j: nat, i: nat, k: Word) returns (p': Limbs, k': Word)
    requires j + |x| <= |p0| && i < |x| && RowDone(p0, p, x, y, j, i, k)
    ensures RowDone(p0, p', x, y, j, i + 1, k')
  {
    var lo, hi := MulAdd(x[i], y, p[i + j], k);
    RowStep(p0, p, x, y, j, i, lo, hi, k);
    p' := p[i + j := lo];
    k' := hi;
  }

  lemma RowStep(p0: Limbs, p: Limbs, x: Limbs, y: Word, j: nat, i: nat, lo: Word, hi: Word, k: Word)
    requires j + |x| <= |p0| == |p| && i < |x| && p[i + j] == p0[i + j]
    requires x[i] * y + p0[i + j] + k == hi * BASE + lo
    ensures Value(p[i + j := lo][j..j + i + 1]) + hi * Pow(i + 1) - Value(p0[j..j + i + 1]) - Value(x[..i + 1]) * y
         == Value(p[j..j + i]) + k * Pow(i) - Value(p0[j..j + i]) - Value(x[..i]) * y
  {
    assert p[i + j := lo][j..j + i + 1] == p[j..j + i] + [lo];
    ValueConcat(p[j..j + i], [lo]);
    ValueOne(lo);
    assert p0[j..j + i + 1] == p0[j..j + i] + [p0[i + j]];
    ValueConcat(p0[j..j + i], [p0[i + j]]);
    ValueOne(p0[i + j]);
    ValueSnoc(x, i);
    RowArith(Value(p[j..j + i]), Value(p0[j..j + i]), Value(x[..i]), y, Pow(i), lo, hi, k, x[i], p0[i + j]);
  }

  lemma RowArith(vp: int, v0: int, vx: int, y: int, b: int, lo: int, hi: int, k: int, xi: int, w0: int)
    requires xi * y + w0 + k == hi * BASE + lo
    ensures (vp + b * lo) + hi * (BASE * b) - (v0 + b * w0) - (vx + b * xi) * y == vp + k * b - v0 - vx * y
  {
    assert (vx + b * xi) * y == vx * y + b * (xi * y);
    Distribute(b, xi * y, w0, k, 0);
    Distribute(b, lo, 0, 0, hi);
    assert k * b == b * k;
  }

  /** Full product: 2n words hold x y exactly. */
  method UMulWords(x: Limbs, y: Limbs) returns (p: Limbs)
    requires |x| == |y|
    ensures |p| == 2 * |x| && Value(p) == Value(x) * Value(y)
  {
    var n := |x|;
    p := Zeros(2 * n);
    ValueZeros(p[..n]);
    for j := 0 to n
      invariant |p| == 2 * n
      invariant Value(p[..j + n]) == Value(x) * Value(y[..j])
      invariant forall i :: j + n <= i < 2 * n ==> p[i] == 0
    {
      var p1, k := MulRow(p, x, y[j], j);
      assert p1[..j] == p[..j];
      ProductStep(p, p1, x, y, n, j, k);
      p := p1[j + n := k];
    }
    assert p[..2 * n] == p && y[..n] == y;
  }

  lemma ProductStep(p: Limbs, p1: Limbs, x: Limbs, y: Limbs, n: nat, j: nat, k: Word)
    requires |x| == |y| == n && j < n && |p| == |p1| == 2 * n && p1[..j] == p[..j]
    requires Value(p1[j..j + n]) + k * Pow(n) == Value(p[j..j + n]) + Value(x) * y[j]
    ensures Value(p1[j + n := k][..j + 1 + n]) - Value(x) * Value(y[..j + 1])
         == Value(p[..j + n]) - Value(x) * Value(y[..j])
  {
    var p2 := p1[j + n := k];
    assert p2[..j + 1 + n] == p1[..j] + (p1[j..j + n] + [k]);
    ValueConcat(p1[..j], p1[j..j + n] + [k]);
    ValueConcat(p1[j..j + n], [k]);
    ValueOne(k);
    assert p[..j + n] == p[..j] + p[j..j + n];
    ValueConcat(p[..j], p[j..j + n]);
    ValueSnoc(y, j);
    ProductArith(Value(p[..j]), Value(p1[j..j + n]), Value(p[j..j + n]), Value(x), Value(y[..j]), y[j], Pow(j), Pow(n),
                 k);
  }

  lemma ProductArith(low: int, seg1: int, seg: int, xv: int, yv: int, yj: int, b: int, m: int, k: int)
    requires seg1 + k * m == seg + xv * yj
    ensures (low + b * (seg1 + m * k)) - xv * (yv + b * yj) == (low + b * seg) - xv * yv
  {
    assert b * (seg + xv * yj) == b * seg + xv * (b * yj);
    assert xv * (yv + b * yj) == xv * yv + xv * (b * yj);
  }

  //
  // Truncated multiplication
  //

  /** The low n words of the product: x y modulo 2^(64 n). */
  method MulWords(x: Limbs, y: Limbs) returns (p: Limbs)
    requires |x| == |y|
    ensures |p| == |x| && Value(p) == (Value(x) * Value(y)) % Pow(|x|)
  {
    var n := |x|;
    p := Zeros(n);
    ValueZeros(p);
    ghost var c := 0;
    for j := 0 to n
      invariant |p| == n
      invariant Value(x) * Value(y[..j]) == Value(p) + c * Pow(n)
    {
      var p1, k := MulRow(p, x[..n - j - 1], y[j], j);
      var m, km := MulLow(x[n - j - 1], y[j]);
      var t := Plus(m, k);
      var lo := Plus(p1[n - 1], t);
      ghost var carry := km + (if m + k < BASE then 0 else 1) + (if p1[n - 1] + t < BASE then 0 else 1);
      var p2 := p1[n - 1 := lo];
      assert p1[..j] == p[..j];
      TruncatedRow(p, p1, p2, x, y, j, k, lo, carry, c);
      p, c := p2, c + (carry + Value(x[n - j..]) * y[j]);
    }
    assert y[..n] == y;
    ValueBound(p);
    DivModUnique(Value(x) * Value(y), Pow(n), c, Value(p));
  }

  lemma TruncatedRow(p: Limbs, p1: Limbs, p2: Limbs, x: Limbs, y: Limbs, j: nat, k: Word, lo: Word, carry: int, c: int)
    requires var n := |x|; |y| == |p| == |p1| == |p2| == n && j < n
    requires var n := |x|;
             && p1[..j] == p[..j] && p1[n - 1] == p[n - 1] && p2 == p1[n - 1 := lo]
             && Value(p1[j..n - 1]) + k * Pow(n - 1 - j) == Value(p[j..n - 1]) + Value(x[..n - j - 1]) * y[j]
             && p[n - 1] + x[n - j - 1] * y[j] + k == carry * BASE + lo
    requires Value(x) * Value(y[..j]) == Value(p) + c * Pow(|x|)
    ensures Value(x) * Value(y[..j + 1]) == Value(p2) + (c + (carry + Value(x[|x| - j..]) * y[j])) * Pow(|x|)
  {
    var n := |x|;
    TruncatedStep(p, p1, p2, x, y[j], n, j, k, lo, carry);
    ValueSnoc(y, j);
    TruncatedSum(Value(x), Value(y[..j]), y[j], Pow(j), Value(p), c, carry + Value(x[n - j..]) * y[j], Pow(n),
                 Value(p2));
  }

  lemma TruncatedSum(xv: int, yv: int, yj: int, b: int, pv: int, c: int, dc: int, m: int, pv': int)
    requires xv * yv == pv + c * m && pv' == pv + b * (xv * yj) - dc * m
    ensures xv * (yv + b * yj) == pv' + (c + dc) * m
  {
    assert xv * (yv + b * yj) == xv * yv + b * (xv * yj);
  }

  /** One outer step of the truncated product changes the value by x y_j 2^(64 j), modulo 2^(64 n). */
  lemma TruncatedStep(p: Limbs, p1: Limbs, p2: Limbs, x: Limbs, yj: Word, n: nat, j: nat, k: Word, lo: Word, carry: int)
    requires |x| == |p| == |p1| == |p2| == n && j < n
    requires p1[..j] == p[..j] && p1[n - 1] == p[n - 1]
    requires Value(p1[j..n - 1]) + k * Pow(n - 1 - j) == Value(p[j..n - 1]) + Value(x[..n - j - 1]) * yj
    requires p[n - 1] + x[n - j - 1] * yj + k == carry * BASE + lo && p2 == p1[n - 1 := lo]
    ensures Value(p2) == Value(p) + Pow(j) * (Value(x) * yj) - (carry + Value(x[n - j..]) * yj) * Pow(n)
  {
    var i := n - 1 - j;
    assert p2[..j] == p[..j] && p2[j..n - 1] == p1[j..n - 1];
    TruncatedSums(p, p2, x, yj, n, j, i, k, lo, carry);
  }

  lemma TruncatedSums(p: Limbs, p2: Limbs, x: Limbs, yj: Word, n: nat, j: nat, i: nat, k: Word, lo: Word, carry: int)
    requires |x| == |p| == |p2| == n && j + i == n - 1 && p2[..j] == p[..j] && p2[n - 1] == lo
    requires Value(p2[j..n - 1]) + k * Pow(i) == Value(p[j..n - 1]) + Value(x[..i]) * yj
    requires p[n - 1] + x[i] * yj + k == carry * BASE + lo
    ensures Value(p2) == Value(p) + Pow(j) * (Value(x) * yj) - (carry + Value(x[i + 1..]) * yj) * Pow(n)
  {
    ThreeParts(p, n, j);
    ThreeParts(p2, n, j);
    AroundWord(x, i);
    PowAdd(j, i);
    TruncatedArith(Value(p[..j]), Value(p2[j..n - 1]), Value(p[j..n - 1]), Value(x[..i]), x[i], Value(x[i + 1..]),
                   Value(x[i..]), yj, Pow(j), Pow(i), Pow(n - 1), k, p[n - 1], lo, carry);
  }

  /** Words below `j`, words from there, and the top word. */
  lemma ThreeParts(p: Limbs, n: nat, j: nat)
    requires |p| == n && j < n
    ensures Value(p) == Value(p[..j]) + Pow(j) * Value(p[j..n - 1]) + Pow(n - 1) * p[n - 1]
  {
    var low := p[..n - 1];
    ValueSnoc(p, n - 1);
    assert p[..n] == p && low[..j] == p[..j] && low[j..] == p[j..n - 1];
    ValueSplit(low, j);
  }

  /** Words below one word, that word, and those above it. */
  lemma AroundWord(x: Limbs, i: nat)
    requires i < |x|
    ensures Value(x) == Value(x[..i]) + Pow(i) * Value(x[i..]) && Value(x[i..]) == x[i] + BASE * Value(x[i + 1..])
  {
    ValueSplit(x, i);
    var t := x[i..];
    assert t[1..] == x[i + 1..] && t[0] == x[i];
  }

  lemma TruncatedArith(low: int, seg1: int, seg: int, xl: int, xm: int, xh: int, xt: int, yj: int, b: int, m: int,
                       bm: int, k: int, top: int, lo: int, carry: int)
    requires seg1 + k * m == seg + xl * yj && top + xm * yj + k == carry * BASE + lo
    requires bm == b * m && xt == xm + BASE * xh
    ensures low + b * seg1 + bm * lo
         == low + b * seg + bm * top + b * ((xl + m * xt) * yj) - (carry + xh * yj) * (BASE * bm)
  {
    assert b * seg1 == b * (seg + xl * yj - k * m) == b * seg + b * (xl * yj) - bm * k;
    assert bm * (top + xm * yj + k) == bm * top + bm * (xm * yj) + bm * k;
    assert bm * (carry * BASE + lo) == carry * (BASE * bm) + bm * lo;
    SpreadProduct(xl, xm, xh, yj, m);
    assert b * (xl * yj + m * (xm * yj) + m * (BASE * (xh * yj)))
        == b * (xl * yj) + bm * (xm * yj) + (xh * yj) * (BASE * bm);
  }

  lemma SpreadProduct(xl: int, xm: int, xh: int, yj: int, m: int)
    ensures (xl + m * (xm + BASE * xh)) * yj == xl * yj + m * (xm * yj) + m * (BASE * (xh * yj))
  {
    assert (m * (xm + BASE * xh)) * yj == m * ((xm + BASE * xh) * yj);
    assert (xm + BASE * xh) * yj == xm * yj + BASE * (xh * yj);
  }

  //
  // Scaling by a power of the base
  //

  /** x 2^(64 n), as a function the solver does not expand into products. */
  ghost function Scale(n: nat, x: int): int {
    if n == 0 then x else BASE * Scale(n - 1, x)
  }

  lemma {:induction false} ScaleIsMul(n: nat, x: int)
    ensures Scale(n, x) == Pow(n) * x
  {
    if n > 0 {
      ScaleIsMul(n - 1, x);
      assert BASE * (Pow(n - 1) * x) == (BASE * Pow(n - 1)) * x;
    }
  }

  lemma {:induction false} ScaleAdd(n: nat, x: int, y: int)
    ensures Scale(n, x + y) == Scale(n, x) + Scale(n, y)
  {
    if n > 0 {
      ScaleAdd(n - 1, x, y);
    }
  }

  lemma {:induction false} ScaleMonotone(n: nat, x: int, y: int)
    requires x <= y
    ensures Scale(n, x) <= Scale(n, y) && Scale(n, 0) == 0 && (x >= 0 ==> Scale(n, x) >= x)
  {
    if n > 0 {
      ScaleMonotone(n - 1, x, y);
    }
  }

  /** Scaling commutes with multiplication by a fixed factor. */
  lemma {:induction false} ScaleTimes(n: nat, q: int, x: int)
    ensures q * Scale(n, x) == Scale(n, q * x)
  {
    if n > 0 {
      ScaleTimes(n - 1, q, x);
      assert q * (BASE * Scale(n - 1, x)) == BASE * (q * Scale(n - 1, x));
    }
  }

  lemma {:induction false} ScaleScale(a: nat, b: nat, x: int)
    ensures Scale(a, Scale(b, x)) == Scale(a + b, x)
  {
    if a > 0 {
      ScaleScale(a - 1, b, x);
    }
  }

  lemma SplitScaled(s: Limbs, i: nat)
    requires i <= |s|
    ensures Value(s) == Value(s[..i]) + Scale(i, Value(s[i..])) && 0 <= Value(s[..i]) < Scale(i, 1)
  {
    ValueSplit(s, i);
    ScaleIsMul(i, Value(s[i..]));
    ScaleIsMul(i, 1);
    ValueBound(s[..i]);
  }
}
