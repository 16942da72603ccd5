/**
 Division arguments are shifted left until the divisor's top bit is set.
 Shifting word by word multiplies the value by a power of two; the word counts that come out
 decide which division routine runs, and make its preconditions true.
 */
module Normalize {
  import opened Words
  import opened Limbs

  /** clz_generic: binary search for the highest set bit. */
  method CountLeadingZeros(x: Word) returns (n: nat)
    requires x != 0
    ensures n <= 63 && Pow2(63 - n) <= x < Pow2(64 - n)
  {
    n := 64;
    var y: nat := x;
    WordWidth(x);
    for i := 6 downto 0
      invariant Pow2(i) <= n <= 64 && 1 <= y < Pow2(Pow2(i)) && y == ShiftRight(x, 64 - n)
    {
      var s := Pow2(i);
      assert Pow2(i + 1) == s + s;
      y, n := HalvingStep(x, y, n, s);
    }
    TopBitPosition(x, 64 - n, y);
    n := n - y;
  }

  method HalvingStep(x: Word, y: nat, n: nat, s: nat) returns (y': nat, n': nat)
    requires 1 <= y < Pow2(s + s) && s + s <= n <= 64 && y == ShiftRight(x, 64 - n)
    ensures 1 <= y' < Pow2(s) && s <= n' <= 64 && y' == ShiftRight(x, 64 - n')
  {
    y', n' := y, n;
    var hi := y / Pow2(s);
    ShiftRightIsDiv(y, s);
    ShiftRightBound(y, s, s);
    ShiftRightTwice(x, 64 - n, s);
    if hi != 0 {
      n' := n - s;
      y' := hi;
    }
  }

  /** x without its low k bits, one bit at a time. */
  ghost function ShiftRight(x: nat, k: nat): nat {
    if k == 0 then x else ShiftRight(x / 2, k - 1)
  }

  lemma {:induction false} ShiftRightIsDiv(x: nat, k: nat)
    ensures x / Pow2(k) == ShiftRight(x, k)
  {
    if k > 0 {
      ShiftRightIsDiv(x / 2, k - 1);
      HalfDiv(x, Pow2(k - 1));
    }
  }

  lemma HalfDiv(x: nat, p: nat)
    requires p > 0
    ensures x / (2 * p) == (x / 2) / p
  {
    DoubleMod(x, p);
    var q := (x / 2) / p;
    assert x / 2 == q * p + (x / 2) % p;
    assert q * (2 * p) == 2 * (q * p);
    DivModUnique(x, 2 * p, q, x % (2 * p));
  }

  lemma {:induction false} ShiftRightTwice(x: nat, a: nat, b: nat)
    ensures ShiftRight(ShiftRight(x, a), b) == ShiftRight(x, a + b)
  {
    if a > 0 {
      ShiftRightTwice(x / 2, a - 1, b);
    }
  }

  lemma {:induction false} ShiftRightBound(x: nat, a: nat, k: nat)
    requires x < Pow2(a + k)
    ensures ShiftRight(x, k) < Pow2(a) && (ShiftRight(x, k) == 0 ==> x < Pow2(k))
  {
    if k > 0 {
      assert Pow2(a + k) == 2 * Pow2(a + k - 1);
      ShiftRightBound(x / 2, a, k - 1);
    }
  }

  lemma {:induction false} TopBitPosition(x: nat, k: nat, y: nat)
    requires 1 <= y < Pow2(Pow2(0)) && ShiftRight(x, k) == y
    ensures y == 1 && Pow2(k) <= x < Pow2(k + 1)
  {
    if k > 0 {
      TopBitPosition(x / 2, k - 1, y);
    }
  }

  lemma WordWidth(x: Word)
    ensures Pow2(6) == 64 && x < Pow2(Pow2(6))
  {
    assert Pow2(6) == 64;
    Pow2Values();
  }

  //
  // Shifting
  //

  /** What a left shift by s splits one word into: the word left in place and the bits carried up. */
  lemma ShiftWord(v: Word, s: nat)
    requires 0 < s < 64
    ensures var a, b := Pow2(s), Pow2(64 - s);
      && v * a == (v / b) * BASE + Wrap(v * a)
      && 0 <= v / b < a && Wrap(v * a) % a == 0 && Wrap(v * a) + a <= BASE
  {
    Pow2Values();
    Pow2Add(s, 64 - s);
    ShiftWordArith(v, Pow2(s), Pow2(64 - s));
  }

  lemma ShiftWordArith(v: Word, a: int, b: int)
    requires 0 < a && 0 < b && a * b == BASE
    ensures v * a == (v / b) * BASE + Wrap(v * a)
    ensures 0 <= v / b < a && Wrap(v * a) % a == 0 && Wrap(v * a) + a <= BASE
  {
    var q, r := v / b, v % b;
    assert v == q * b + r;
    assert v * a == q * (a * b) + r * a by { assert (q * b) * a == q * (a * b); }
    MulLe(r, b - 1, a);
    assert (b - 1) * a == a * b - a;
    MulLe(0, r, a);
    DivModUnique(v * a, BASE, q, r * a);
    DivModUnique(r * a, a, r, 0);
    if q >= a { MulLe(a, q, b); }
    if q < 0 { MulLe(q, -1, b); }
  }

  /** (hi << s) | (lo >> (64 - s)): the two parts share no bit, so OR adds them. */
  method ShiftPair(hi: Word, lo: Word, s: nat) returns (w: Word)
    requires 0 < s < 64
    ensures ChainLink(hi, lo / Pow2(64 - s), hi / Pow2(64 - s), w, Pow2(s))
  {
    ShiftWord(hi, s);
    ShiftWord(lo, s);
    BitOrDisjoint(Wrap(hi * Pow2(s)), lo / Pow2(64 - s), s);
    w := BitOr(Wrap(hi * Pow2(s)), lo / Pow2(64 - s));
  }

  /** One word of a multiplication by a: v takes the carry c in, leaves w and carries c' out. */
  ghost predicate ChainLink(v: int, c: int, c': int, w: int, a: int) {
    v * a + c == c' * BASE + w
  }

  ghost function Carried(v: Limbs, i: nat, s: nat): int
    requires i <= |v| && s <= 64
  {
    if i == 0 then 0 else v[i - 1] / Pow2(64 - s)
  }

  ghost predicate Shifted(v: Limbs, w: Limbs, s: nat)
    requires s <= 64
  {
    |w| == |v| && forall i :: 0 <= i < |v| ==> ChainLink(v[i], Carried(v, i, s), Carried(v, i + 1, s), w[i], Pow2(s))
  }

  /** A chain of links multiplies the whole number, up to the carry in and the carry out. */
  lemma {:induction false} ChainValue(v: Limbs, w: Limbs, c: seq<int>, a: int, i: nat)
    requires |w| == |v| && |c| == |v| + 1 && i <= |v|
    requires forall k :: 0 <= k < |v| ==> ChainLink(v[k], c[k], c[k + 1], w[k], a)
    ensures Value(w[..i]) + Pow(i) * c[i] == a * Value(v[..i]) + c[0]
  {
    if i == 0 {
    } else {
      ChainValue(v, w, c, a, i - 1);
      ValueSnoc(v, i - 1);
      ValueSnoc(w, i - 1);
      assert ChainLink(v[i - 1], c[i - 1], c[i], w[i - 1], a);
      ChainStep(Pow(i - 1), a, Value(w[..i - 1]), Value(v[..i - 1]), v[i - 1], w[i - 1], c[i - 1], c[i], c[0]);
    }
  }

  lemma ShiftedValue(v: Limbs, w: Limbs, s: nat)
    requires s <= 64 && Shifted(v, w, s)
    ensures Value(w) + Pow(|v|) * Carried(v, |v|, s) == Pow2(s) * Value(v)
  {
    var c := seq(|v| + 1, i requires 0 <= i <= |v| => Carried(v, i, s));
    ChainValue(v, w, c, Pow2(s), |v|);
    assert v[..|v|] == v && w[..|v|] == w;
  }

  lemma ChainStep(m: int, a: int, wv: int, vv: int, v: int, w: int, c: int, c': int, c0: int)
    requires wv + m * c == a * vv + c0 && ChainLink(v, c, c', w, a)
    ensures (wv + m * w) + (BASE * m) * c' == a * (vv + m * v) + c0
  {
    assert m * (c' * BASE + w) == (BASE * m) * c' + m * w;
    assert m * (v * a + c) == m * (v * a) + m * c;
    assert a * (vv + m * v) == a * vv + m * (v * a);
  }

  /** The shifting loop: every word takes the bits carried from the word below. */
  method ShiftLeft(v: Limbs, s: nat) returns (w: Limbs)
    requires |v| > 0 && 0 < s < 64
    ensures Shifted(v, w, s)
  {
    w := Zeros(|v|);
    var i := |v| - 1;
    while i > 0
      invariant 0 <= i < |v| == |w|
      invariant forall k :: i < k < |v| ==> ChainLink(v[k], Carried(v, k, s), Carried(v, k + 1, s), w[k], Pow2(s))
    {
      var t := ShiftPair(v[i], v[i - 1], s);
      w := w[i := t];
      i := i - 1;
    }
    ShiftWord(v[0], s);
    w := w[0 := Wrap(v[0] * Pow2(s))];
  }

  //
  // normalize
  //

  method SignificantWords(u: Limbs) returns (m: nat)
    ensures m <= |u| && (forall i :: m <= i < |u| ==> u[i] == 0) && (m > 0 ==> u[m - 1] != 0)
  {
    m := |u|;
    while m > 0 && u[m - 1] == 0
      invariant m <= |u| && forall i :: m <= i < |u| ==> u[i] == 0
    {
      m := m - 1;
    }
  }

  datatype DivArgs = DivArgs(divisor: Limbs, numerator: Limbs, divisorWords: nat, numeratorWords: nat, shift: nat)

  /** What the division routines may rely on. */
  ghost predicate Normalized(u: Limbs, v: Limbs, a: DivArgs) {
    && |a.divisor| == |v| && |a.numerator| == |u| + 1 && a.shift <= 63
    && 1 <= a.divisorWords <= |v| && a.numeratorWords <= |u| + 1
    && (forall i :: a.divisorWords <= i < |v| ==> v[i] == 0 && a.divisor[i] == 0)
    && (forall i :: a.numeratorWords <= i < |a.numerator| ==> a.numerator[i] == 0)
    && a.divisor[a.divisorWords - 1] >= P63
    && (a.numeratorWords > 0 ==> a.numerator[a.numeratorWords - 1] < a.divisor[a.divisorWords - 1])
    && Value(a.divisor) == Pow2(a.shift) * Value(v)
    && Value(a.numerator) == Pow2(a.shift) * Value(u)
  }

  /** Divisor half: n significant words, the top one brought to at least 2^63, nothing shifted out. */
  method NormalizeDivisor(v: Limbs) returns (vn: Limbs, n: nat, s: nat)
    requires exists i :: 0 <= i < |v| && v[i] != 0
    ensures |vn| == |v| && s <= 63 && 1 <= n <= |v|
    ensures forall i :: n <= i < |v| ==> v[i] == 0 && vn[i] == 0
    ensures vn[n - 1] >= P63 && Value(vn) == Pow2(s) * Value(v)
  {
    n := SignificantWords(v);
    s := CountLeadingZeros(v[n - 1]);
    TopBit(v[n - 1], s);
    if s != 0 {
      vn := ShiftLeft(v, s);
      ShiftedValue(v, vn, s);
      ShiftedTop(v, vn, s, n);
    } else {
      vn := v;
      UnitScale(v[n - 1], Value(v));
    }
  }

  lemma UnitScale(x: int, y: int)
    ensures x * Pow2(0) == x && Pow2(0) * y == y
  {
  }

  lemma TopBit(x: Word, s: nat)
    requires s <= 63 && Pow2(63 - s) <= x < Pow2(64 - s)
    ensures x / Pow2(64 - s) == 0 && x * Pow2(s) >= P63
  {
    Pow2Values();
    Pow2Add(63 - s, s);
    MulLe(Pow2(63 - s), x, Pow2(s));
    DivModUnique(x, Pow2(64 - s), 0, x);
  }

  lemma ShiftedTop(v: Limbs, vn: Limbs, s: nat, n: nat)
    requires 0 < s <= 63 && Shifted(v, vn, s) && 1 <= n <= |v| && (forall i :: n <= i < |v| ==> v[i] == 0)
    requires v[n - 1] / Pow2(64 - s) == 0 && v[n - 1] * Pow2(s) >= P63
    ensures vn[n - 1] >= P63 && (forall i :: n <= i < |v| ==> vn[i] == 0) && Carried(v, |v|, s) == 0
  {
    if n > 1 { ShiftWord(v[n - 2], s); }
    assert ChainLink(v[n - 1], Carried(v, n - 1, s), Carried(v, n, s), vn[n - 1], Pow2(s));
    forall i | n <= i <= |v| ensures Carried(v, i, s) == 0 {
      if i > n { DivModUnique(0, Pow2(64 - s), 0, 0); }
    }
    forall i | n <= i < |v| ensures vn[i] == 0 {
      ZeroWord(v, vn, s, i);
    }
  }

  //
  // Numerator half
  //

  /** The numerator gains one word, which takes the bits shifted out of the top. */
  method ShiftNumerator(u: Limbs, m: nat, s: nat) returns (un: Limbs)
    requires |u| > 0 && s <= 63 && m <= |u| && forall i :: m <= i < |u| ==> u[i] == 0
    ensures |un| == |u| + 1 && Value(un) == Pow2(s) * Value(u)
    ensures un[m] < P63 && forall i :: m < i <= |u| ==> un[i] == 0
  {
    if s != 0 {
      var w := ShiftLeft(u, s);
      ShiftWord(u[|u| - 1], s);
      var top := u[|u| - 1] / Pow2(64 - s);
      un := w + [top];
      ShiftedValue(u, w, s);
      ValueConcat(w, [top]);
      ValueOne(top);
      NumeratorTop(u, w, un, m, s);
    } else {
      un := u + [0];
      ValueConcat(u, [0]);
      ValueOne(0);
    }
  }

  /** A zero word keeps just what is carried into it, and carries nothing on. */
  lemma ZeroWord(v: Limbs, w: Limbs, s: nat, i: nat)
    requires 0 < s <= 63 && Shifted(v, w, s) && i < |v| && v[i] == 0
    ensures w[i] == Carried(v, i, s) && Carried(v, i + 1, s) == 0
  {
    DivModUnique(0, Pow2(64 - s), 0, 0);
    assert ChainLink(v[i], Carried(v, i, s), Carried(v, i + 1, s), w[i], Pow2(s));
  }

  /** Word m holds only bits shifted out of word m - 1, and above it nothing is left. */
  lemma NumeratorTop(u: Limbs, w: Limbs, un: Limbs, m: nat, s: nat)
    requires |u| > 0 && m <= |u| && 0 < s <= 63
    requires forall i :: m <= i < |u| ==> u[i] == 0
    requires Shifted(u, w, s) && |un| == |u| + 1 && un[|u|] == Carried(u, |u|, s)
    requires forall i :: 0 <= i < |u| ==> un[i] == w[i]
    ensures un[m] < P63 && forall i :: m < i <= |u| ==> un[i] == 0
  {
    forall i | m <= i <= |u| ensures un[i] == Carried(u, i, s) && (i > m ==> un[i] == 0) {
      if i < |u| { ZeroWord(u, w, s, i); }
      if i > m { ZeroWord(u, w, s, i - 1); }
    }
    SmallCarry(u, m, s);
  }

  lemma SmallCarry(u: Limbs, m: nat, s: nat)
    requires m <= |u| && 0 < s <= 63
    ensures Carried(u, m, s) < P63
  {
    if m > 0 { ShiftWord(u[m - 1], s); }
    Pow2Monotone(s, 63);
    Pow2Values();
  }

  /**
   Shifted divisor and numerator with their significant word counts.  `stray` is whatever the word
   before the numerator holds: the source reads it when the numerator is zero, and the promise
   below does not depend on it.
   */
  method NormalizeArgs(u: Limbs, v: Limbs, stray: Word) returns (a: DivArgs)
    requires |u| > 0 && exists i :: 0 <= i < |v| && v[i] != 0
    ensures Normalized(u, v, a)
  {
    var m := SignificantWords(u);
    var vn, n, s := NormalizeDivisor(v);
    var un := ShiftNumerator(u, m, s);
    var below := if m == 0 then stray else un[m - 1];
    if un[m] != 0 || below >= vn[n - 1] {
      m := m + 1;
    }
    a := DivArgs(vn, un, n, m, s);
  }
}
