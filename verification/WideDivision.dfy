/**
 Division and modular arithmetic on multi-word integers: normalise, divide by the routine the divisor's
 word count selects, and shift the remainder back.
 */
module WideDivision {
  import opened Words
  import opened Limbs
  import opened Normalize
  import opened Division
  import opened Knuth

  //
  // Shifting the remainder back
  //

  lemma SplitLow(w: Word, s: nat)
    requires 0 < s < 64
    ensures var a, b := Pow2(s), Pow2(64 - s);
      && w == (w / a) * a + w % a && a * b == BASE
      && 0 <= w / a < b && 0 <= w % a < a && Wrap(w * b) == (w % a) * b && Wrap(w * b) % b == 0
  {
    var a, b := Pow2(s), Pow2(64 - s);
    Pow2Values();
    Pow2Add(s, 64 - s);
    assert 64 - (64 - s) == s;
    ShiftWord(w, 64 - s);
    SplitLowArith(w, a, b);
  }

  lemma SplitLowArith(w: Word, a: int, b: int)
    requires 0 < a && 0 < b && a * b == BASE && w * b == (w / a) * BASE + Wrap(w * b)
    ensures w == (w / a) * a + w % a && 0 <= w / a < b && 0 <= w % a < a && Wrap(w * b) == (w % a) * b
  {
    var q, r := w / a, w % a;
    assert w == q * a + r;
    assert (q * a + r) * b == q * (a * b) + r * b;
    if q >= b { MulLe(b, q, a); }
    if q < 0 { MulLe(q, -1, a); }
  }

  /** (lo >> s) | (hi << (64 - s)). */
  method ShiftRightPair(lo: Word, hi: Word, s: nat) returns (r: Word)
    requires 0 < s < 64
    ensures ChainLink(r, lo % Pow2(s), hi % Pow2(s), lo, Pow2(s))
  {
    SplitLow(lo, s);
    SplitLow(hi, s);
    BitOrDisjoint(Wrap(hi * Pow2(64 - s)), lo / Pow2(s), 64 - s);
    RightLink(lo, hi, Pow2(s), Pow2(64 - s));
    r := BitOr(Wrap(hi * Pow2(64 - s)), lo / Pow2(s));
  }

  lemma RightLink(lo: Word, hi: Word, a: int, b: int)
    requires 0 < a && 0 < b && a * b == BASE && lo == (lo / a) * a + lo % a && 0 <= lo / a < b && 0 <= hi % a < a
    ensures var r := (hi % a) * b + lo / a; 0 <= r < BASE && r * a + lo % a == (hi % a) * BASE + lo
  {
    var h := hi % a;
    assert (h * b + lo / a) * a == h * (a * b) + (lo / a) * a;
    MulLe(h, a - 1, b);
    MulLe(0, h, b);
    assert (a - 1) * b == a * b - b;
  }

  method ShiftRightTop(w: Word, s: nat) returns (r: Word)
    requires 0 < s < 64
    ensures ChainLink(r, w % Pow2(s), 0, w, Pow2(s))
  {
    SplitLow(w, s);
    r := w / Pow2(s);
  }

  /** w shifted right by s > 0, word by word. */
  method ShiftRightLoop(w: Limbs, s: nat) returns (r: Limbs)
    requires |w| > 0 && 0 < s <= 63
    ensures |r| == |w| && Value(r) == Value(w) / Pow2(s)
  {
    r := [];
    ghost var c, a := DroppedBits(w, s), Pow2(s);
    for i := 0 to |w| - 1
      invariant |r| == i
      invariant forall k :: 0 <= k < i ==> ChainLink(r[k], c[k], c[k + 1], w[k], a)
    {
      var t := ShiftRightPair(w[i], w[i + 1], s);
      r := r + [t];
    }
    var t := ShiftRightTop(w[|w| - 1], s);
    r := r + [t];
    DroppedValue(w, r, c, s);
  }

  lemma DroppedValue(w: Limbs, r: Limbs, c: seq<int>, s: nat)
    requires |r| == |w| > 0 && |c| == |w| + 1 && c[|w|] == 0 && c[0] == w[0] % Pow2(s)
    requires forall k :: 0 <= k < |w| ==> ChainLink(r[k], c[k], c[k + 1], w[k], Pow2(s))
    ensures Value(r) == Value(w) / Pow2(s)
  {
    var vw, vr, p := ChainFacts(w, r, c, s);
    DroppedArith(vw, p, vr, c[0]);
  }

  lemma ChainFacts(w: Limbs, r: Limbs, c: seq<int>, s: nat) returns (vw: int, vr: int, p: int)
    requires |r| == |w| > 0 && |c| == |w| + 1 && c[|w|] == 0 && c[0] == w[0] % Pow2(s)
    requires forall k :: 0 <= k < |w| ==> ChainLink(r[k], c[k], c[k + 1], w[k], Pow2(s))
    ensures vw == Value(w) && vr == Value(r) && p == Pow2(s) && vw == p * vr + c[0] && 0 <= c[0] < p
  {
    ChainValue(r, w, c, Pow2(s), |w|);
    assert r[..|w|] == r && w[..|w|] == w;
    vw, vr, p := Value(w), Value(r), Pow2(s);
  }

  lemma DroppedArith(vw: int, p: int, vr: int, c0: int)
    requires vw == p * vr + c0 && 0 <= c0 < p
    ensures vr == vw / p
  {
    DivModUnique(vw, p, vr, c0);
  }

  /** The remainder loop of the source: shifted right by s, or copied when s is zero. */
  method ShiftRightWords(w: Limbs, s: nat) returns (r: Limbs)
    requires |w| > 0 && s <= 63
    ensures |r| == |w| && Value(r) == Value(w) / Pow2(s)
  {
    if s == 0 {
      r := w;
      assert Pow2(0) == 1;
    } else {
      r := ShiftRightLoop(w, s);
    }
  }

  ghost function DroppedBits(w: Limbs, s: nat): (c: seq<int>)
    ensures |c| == |w| + 1 && c[|w|] == 0 && forall i :: 0 <= i < |w| ==> c[i] == w[i] % Pow2(s)
  {
    seq(|w| + 1, i requires 0 <= i <= |w| => if i == |w| then 0 else w[i] % Pow2(s))
  }

  //
  // udivrem
  //

  /** Undoing the normalisation: the common factor a cancels from quotient and remainder. */
  lemma Unscale(a: int, u: int, v: int, q: int, r: int)
    requires a > 0 && a * u == q * (a * v) + r && 0 <= r < a * v
    ensures u == q * v + r / a && 0 <= r / a < v
  {
    var t := u - q * v;
    assert a * t == a * u - q * (a * v);
    DivModUnique(r, a, t, 0);
    if t >= v { MulLe(v, t, a); }
    if t < 0 { MulLe(t, -1, a); }
  }

  /** The conversion uint<M> -> uint<N>: high words dropped or zero words added. */
  function Resize(s: Limbs, n: nat): (r: Limbs)
    ensures |r| == n
  {
    if |s| >= n then s[..n] else s + Zeros(n - |s|)
  }

  lemma ResizeValue(s: Limbs, n: nat)
    requires forall i :: n <= i < |s| ==> s[i] == 0
    ensures Value(Resize(s, n)) == Value(s)
  {
    if |s| >= n {
      ValuePrefix(s, n);
    } else {
      ValueConcat(s, Zeros(n - |s|));
      ValueZeros(Zeros(n - |s|));
      assert Pow(|s|) * 0 == 0;
    }
  }

  /** A value below 2^(64 n) has no word at n or above. */
  lemma {:induction false} HighWordsZero(s: Limbs, n: nat)
    requires Value(s) < Pow(n)
    ensures forall i :: n <= i < |s| ==> s[i] == 0
  {
    if |s| == 0 {
    } else if n == 0 {
      assert s[0] == 0 && Value(s[1..]) == 0;
      HighWordsZero(s[1..], 0);
      forall i | 0 <= i < |s| ensures s[i] == 0 {
        if i > 0 { assert s[i] == s[1..][i - 1]; }
      }
    } else {
      HighWordsZero(s[1..], n - 1);
      forall i | n <= i < |s| ensures s[i] == 0 {
        assert s[i] == s[1..][i - 1];
      }
    }
  }

  /** Too few numerator words: the numerator is below the divisor, before and after normalisation. */
  lemma SmallNumerator(u: Limbs, v: Limbs, a: DivArgs)
    requires Normalized(u, v, a) && a.numeratorWords <= a.divisorWords
    ensures Value(u) < Value(v)
  {
    var m, n := a.numeratorWords, a.divisorWords;
    ValuePrefix(a.numerator, m);
    ValuePrefix(a.divisor, n);
    TopWordBelow(a.numerator, m, a.divisor, n);
    CancelFactor(Pow2(a.shift), Value(u), Value(v));
  }

  lemma CancelFactor(p: int, x: int, y: int)
    requires p > 0 && p * x < p * y
    ensures x < y
  {
    if x >= y { MulLe(y, x, p); }
  }

  lemma TopWordBelow(x: Limbs, m: nat, y: Limbs, n: nat)
    requires m <= |x| && m <= n <= |y| && 1 <= n && y[n - 1] > 0 && (m > 0 ==> x[m - 1] < y[n - 1])
    ensures Value(x[..m]) < Value(y[..n])
  {
    var k := if m == 0 then 0 else m - 1;
    var t: int := if m == 0 then 0 else x[m - 1] + 1;
    PrefixTop(y, n - 1);
    assert Value(x[..m]) < Scale(k, t) || m == 0 by {
      if m > 0 {
        PrefixTop(x, k);
        ScaleAdd(k, x[k], 1);
      }
    }
    ScaleMonotone(n - 1 - k, y[n - 1], y[n - 1]);
    ScaleScale(k, n - 1 - k, y[n - 1]);
    ScaleMonotone(k, t, Scale(n - 1 - k, y[n - 1]));
    ScaleMonotone(n - 1, 1, y[n - 1]);
    ScaleMonotone(n - 1, 1, 1);
  }

  lemma PrefixTop(s: Limbs, i: nat)
    requires i < |s|
    ensures Value(s[..i + 1]) == Value(s[..i]) + Scale(i, s[i]) && 0 <= Value(s[..i]) < Scale(i, 1)
  {
    WordAt(s, 0, i);
    assert s[0..0 + i + 1] == s[..i + 1] && s[0..0 + i] == s[..i];
    ValueBelow(s[..i]);
  }

  /** What a division of the normalised arguments is worth for the original ones. */
  lemma FinishDivision(u: Limbs, v: Limbs, a: DivArgs, q: int, rem: int)
    requires Normalized(u, v, a) && Value(a.numerator) == q * Value(a.divisor) + rem && 0 <= rem < Value(a.divisor)
    ensures Value(u) == q * Value(v) + rem / Pow2(a.shift) && 0 <= rem / Pow2(a.shift) < Value(v)
  {
    Unscale(Pow2(a.shift), Value(u), Value(v), q, rem);
  }

  /** A quotient left in the numerator's words fits the numerator's type: its top word is zero. */
  lemma QuotientWords(w: Limbs, m: nat, n: nat)
    requires |w| == n + 1 && 1 <= m <= n + 1 && w[m - 1] == 0 && forall t :: m <= t < |w| ==> w[t] == 0
    ensures Value(Resize(w, n)) == Value(w[..m])
  {
    ValuePrefix(w, m);
    ResizeValue(w, n);
  }

  method CopyWords(s: Limbs) returns (w: array<Word>)
    ensures fresh(w) && w[..] == s
  {
    w := new Word[|s|](i requires 0 <= i < |s| => s[i]);
  }

  method DivideBy1(u: Limbs, v: Limbs, a: DivArgs) returns (q: Limbs, r: Limbs)
    requires Normalized(u, v, a) && a.divisorWords == 1 < a.numeratorWords
    ensures |q| == |u| && |r| == |v|
    ensures Value(u) == Value(q) * Value(v) + Value(r) && Value(r) < Value(v)
  {
    var un := CopyWords(a.numerator);
    var m, d := a.numeratorWords, a.divisor[0];
    ValuePrefix(a.numerator, m);
    ValuePrefix(a.divisor, 1);
    assert a.divisor[..1] == [d] && un[..m] == a.numerator[..m];
    ValueOne(d);
    var rem := UDivRemBy1(un, m, d);
    q := Resize(un[..], |u|);
    QuotientWords(un[..], m, |u|);
    assert un[..][..m] == un[..m];
    FinishDivision(u, v, a, Value(q), rem);
    var t := Shr(rem, a.shift);
    r := Resize([t], |v|);
    ResizeValue([t], |v|);
    ValueOne(t);
  }

  lemma SmallQuotient(x: Word, s: nat)
    ensures 0 <= x / Pow2(s) < BASE
  {
    var p := Pow2(s);
    var y := x / p;
    assert x == y * p + x % p;
    if y >= BASE { MulLe(1, p, y); }
    if y < 0 { MulLe(y, -1, p); }
  }

  /** x >> s on one word. */
  function Shr(x: Word, s: nat): Word {
    SmallQuotient(x, s);
    x / Pow2(s)
  }

  /** uint128 >> s for s below 64, by the source's two-step shift of the high word. */
  method Shr128(x: U128, s: nat) returns (y: U128)
    requires s <= 63
    ensures Val(y) == Val(x) / Pow2(s)
  {
    TwoStepShift(x.hi, s);
    ghost var lo, hi := ShiftRightParts(x, s);
    y := U128(BitOr(Shr(x.lo, s), Wrap(Wrap(x.hi * 2) * Pow2(63 - s))), Shr(x.hi, s));
  }

  lemma TwoStepShift(h: Word, s: nat)
    requires s <= 63
    ensures Wrap(Wrap(h * 2) * Pow2(63 - s)) == Wrap(h * Pow2(64 - s))
  {
    TwoStepArith(h, Pow2(63 - s));
  }

  lemma TwoStepArith(h: Word, b: int)
    ensures Wrap(Wrap(h * 2) * b) == Wrap(h * (2 * b))
  {
    var k := (h * 2) / BASE;
    assert h * 2 == k * BASE + Wrap(h * 2);
    assert h * (2 * b) == (h * 2) * b == k * b * BASE + Wrap(h * 2) * b;
    WrapCong(h * (2 * b), Wrap(h * 2) * b, k * b);
  }

  lemma WholeWordShift(h: Word)
    ensures Wrap(h * Pow2(64)) == 0
  {
    Pow2Values();
    WrapIs(h * BASE, h, 0);
  }

  lemma BitOrZero(x: nat)
    ensures BitOr(x, 0) == x
  {
    assert Pow2(0) == 1;
    BitOrDisjoint(x, 0, 0);
  }

  lemma ShiftRightParts(x: U128, s: nat) returns (lo: Word, hi: Word)
    requires s <= 63
    ensures lo == BitOr(Shr(x.lo, s), Wrap(x.hi * Pow2(64 - s))) && hi == Shr(x.hi, s)
    ensures Val(U128(lo, hi)) == Val(x) / Pow2(s)
  {
    hi := Shr(x.hi, s);
    if s == 0 {
      assert Pow2(0) == 1;
      WholeWordShift(x.hi);
      BitOrZero(x.lo);
      lo := x.lo;
    } else {
      lo := LowPart(x, s);
      PartsArith(x.lo, x.hi, Pow2(s), lo);
    }
  }

  lemma LowPart(x: U128, s: nat) returns (lo: Word)
    requires 0 < s <= 63
    ensures lo == BitOr(Shr(x.lo, s), Wrap(x.hi * Pow2(64 - s)))
    ensures lo * Pow2(s) + x.lo % Pow2(s) == (x.hi % Pow2(s)) * BASE + x.lo
  {
    SplitLow(x.lo, s);
    SplitLow(x.hi, s);
    BitOrDisjoint(Wrap(x.hi * Pow2(64 - s)), Shr(x.lo, s), 64 - s);
    BitOrComm(Shr(x.lo, s), Wrap(x.hi * Pow2(64 - s)));
    RightLink(x.lo, x.hi, Pow2(s), Pow2(64 - s));
    lo := BitOr(Shr(x.lo, s), Wrap(x.hi * Pow2(64 - s)));
  }

  lemma PartsArith(lo: Word, hi: Word, a: int, r: int)
    requires a > 0 && r * a + lo % a == (hi % a) * BASE + lo
    ensures (hi / a) * BASE + r == (hi * BASE + lo) / a
  {
    var q := hi / a;
    assert hi == q * a + hi % a;
    assert (q * BASE + r) * a == BASE * (q * a) + r * a;
    DivModUnique(hi * BASE + lo, a, q * BASE + r, lo % a);
  }

  lemma {:induction false} BitOrComm(x: nat, y: nat)
    ensures BitOr(x, y) == BitOr(y, x)
    decreases x + y
  {
    if x + y > 0 {
      BitOrComm(x / 2, y / 2);
    }
  }

  method DivideBy2(u: Limbs, v: Limbs, a: DivArgs) returns (q: Limbs, r: Limbs)
    requires Normalized(u, v, a) && a.divisorWords == 2 < a.numeratorWords
    ensures |q| == |u| && |r| == |v|
    ensures Value(u) == Value(q) * Value(v) + Value(r) && Value(r) < Value(v)
  {
    var un := CopyWords(a.numerator);
    var m, d := a.numeratorWords, U128(a.divisor[0], a.divisor[1]);
    ValuePrefix(a.numerator, m);
    ValuePrefix(a.divisor, 2);
    assert a.divisor[..2] == [d.lo, d.hi] && un[..m] == a.numerator[..m];
    TwoWords(d.lo, d.hi);
    var rem := UDivRemBy2(un, m, d);
    q := Resize(un[..], |u|);
    QuotientWords(un[..], m, |u|);
    assert un[..][..m] == un[..m];
    FinishDivision(u, v, a, Value(q), Val(rem));
    var t := Shr128(rem, a.shift);
    r := Resize([t.lo, t.hi], |v|);
    ResizeValue([t.lo, t.hi], |v|);
    TwoWords(t.lo, t.hi);
  }

  lemma KnuthReady(u: Limbs, v: Limbs, a: DivArgs, m: nat, n: nat)
    requires Normalized(u, v, a) && 3 <= n < m && m == a.numeratorWords && n == a.divisorWords
    ensures Value(a.numerator[m - n..m]) < Value(a.divisor[..n])
    ensures Value(a.numerator) == Value(a.numerator[..m]) && Value(a.divisor) == Value(a.divisor[..n])
  {
    ValuePrefix(a.numerator, m);
    ValuePrefix(a.divisor, n);
    var w := a.numerator[m - n..m];
    TopWordBelow(w, n, a.divisor, n);
    assert w[..n] == w;
  }

  method DivideKnuth(u: Limbs, v: Limbs, a: DivArgs) returns (q: Limbs, r: Limbs)
    requires Normalized(u, v, a) && 3 <= a.divisorWords < a.numeratorWords
    ensures |q| == |u| && |r| == |v|
    ensures Value(u) == Value(q) * Value(v) + Value(r) && Value(r) < Value(v)
  {
    var un := CopyWords(a.numerator);
    var qn := CopyWords(Zeros(|u|));
    var m, n := a.numeratorWords, a.divisorWords;
    var d := a.divisor[..n];
    KnuthReady(u, v, a, m, n);
    assert un[..m] == a.numerator[..m] && un[m - n..m] == a.numerator[m - n..m];
    UDivRemKnuth(qn, un, m, d);
    q := qn[..];
    ValuePrefix(q, m - n);
    assert q[..m - n] == qn[..m - n];
    FinishDivision(u, v, a, Value(q), Value(un[..n]));
    var t := ShiftRightWords(un[..n], a.shift);
    r := Resize(t, |v|);
    ResizeValue(t, |v|);
  }

  /**
   Quotient and remainder for every numerator width and every non-zero divisor.
   `stray` is the word before the numerator, read only when the numerator is zero.
   */
  method UDivRem(u: Limbs, v: Limbs, stray: Word) returns (q: Limbs, r: Limbs)
    requires |u| > 0 && exists i :: 0 <= i < |v| && v[i] != 0
    ensures |q| == |u| && |r| == |v|
    ensures Value(u) == Value(q) * Value(v) + Value(r) && Value(r) < Value(v)
  {
    var a := NormalizeArgs(u, v, stray);
    if a.numeratorWords <= a.divisorWords {
      SmallNumerator(u, v, a);
      ValueBound(v);
      HighWordsZero(u, |v|);
      q, r := Zeros(|u|), Resize(u, |v|);
      ResizeValue(u, |v|);
      ValueZeros(q);
    } else if a.divisorWords == 1 {
      q, r := DivideBy1(u, v, a);
    } else if a.divisorWords == 2 {
      q, r := DivideBy2(u, v, a);
    } else {
      q, r := DivideKnuth(u, v, a);
    }
  }

  //
  // addmod and mulmod on 256-bit integers
  //

  type U256 = s: Limbs | |s| == 4 witness [0, 0, 0, 0]

  /** One conditional subtraction reduces an operand whose top word does not exceed the modulus's. */
  method ReduceOnce(x: U256, m: U256) returns (s: U256, ghost taken: bool)
    requires m[3] != 0 && x[3] <= m[3]
    ensures Value(s) < Value(m) && Value(x) == Value(s) + (if taken then Value(m) else 0)
  {
    var d, borrow := SubWords(x, m, false);
    ValueBound(d);
    ValueBound(x);
    TopWordPair(x, m);
    s := if borrow then x else d;
    taken := !borrow;
  }

  /** x[3] <= m[3] leaves x below twice m: the low words add less than one unit of the top word. */
  lemma TopWordPair(x: U256, m: U256)
    requires m[3] != 0 && x[3] <= m[3]
    ensures 0 < Value(m) && Value(x) < 2 * Value(m)
  {
    PrefixTop(x, 3);
    PrefixTop(m, 3);
    assert x[..4] == x && m[..4] == m;
    ScaleMonotone(3, x[3], m[3]);
    ScaleMonotone(3, 1, m[3]);
  }

  /** The fast path: operands reduced once each, then one more conditional subtraction. */
  method AddModFast(x: U256, y: U256, m: U256) returns (r: U256)
    requires m[3] != 0 && x[3] <= m[3] && y[3] <= m[3]
    ensures Value(m) > 0 && Value(r) == (Value(x) + Value(y)) % Value(m)
  {
    var s, j := ReduceOnce(x, m);
    var t, k := ReduceOnce(y, m);
    var sum, carry := AddWords(s, t, false);
    var diff, borrow := SubWords(sum, m, false);
    r := if carry || !borrow then diff else sum;
    ghost var mv, sumv, diffv, p := FastFacts(m, sum, diff);
    FastSum(Value(x), Value(y), mv, Value(s), Value(t), j, k, sumv, carry, diffv, borrow, Value(r), p);
  }

  /** (x + y) mod m for every modulus but zero, on the fast path and through division. */
  method AddMod(x: U256, y: U256, m: U256, stray: Word) returns (r: U256)
    requires exists i :: 0 <= i < 4 && m[i] != 0
    ensures Value(m) > 0 && Value(r) == (Value(x) + Value(y)) % Value(m)
  {
    if m[3] != 0 && x[3] <= m[3] && y[3] <= m[3] {
      r := AddModFast(x, y, m);
    } else {
      var sum, carry := AddWords(x, y, false);
      var n := sum + [Bit(carry)];
      ghost var total := SumWithCarry(x, y, sum, carry, n);
      var q;
      q, r := UDivRem(n, m, stray);
      DivModUnique(total, Value(m), Value(q), Value(r));
    }
  }

  lemma SumWithCarry(x: U256, y: U256, sum: U256, carry: bool, n: Limbs) returns (total: int)
    requires Value(x) + Value(y) == Value(sum) + Bit(carry) * Pow(4) && n == sum + [Bit(carry)]
    ensures total == Value(x) + Value(y) == Value(n)
  {
    ValueConcat(sum, [Bit(carry)]);
    ValueOne(Bit(carry));
    total := Value(n);
  }

  lemma FastFacts(m: U256, sum: U256, diff: U256) returns (mv: int, sumv: int, diffv: int, p: int)
    ensures mv == Value(m) && sumv == Value(sum) && diffv == Value(diff) && p == Pow(4)
    ensures mv < p && 0 <= sumv < p && 0 <= diffv < p
  {
    ValueBound(m);
    ValueBound(diff);
    ValueBound(sum);
    mv, sumv, diffv, p := Value(m), Value(sum), Value(diff), Pow(4);
  }

  lemma FastSum(x: int, y: int, m: int, s: int, t: int, j: bool, k: bool, sum: int, carry: bool, diff: int,
                borrow: bool, r: int, p: int)
    requires 0 <= s < m < p && 0 <= t < m && x == s + (if j then m else 0) && y == t + (if k then m else 0)
    requires s + t == sum + Bit(carry) * p && sum - m == diff - Bit(borrow) * p
    requires 0 <= diff < p && 0 <= sum < p && r == if carry || !borrow then diff else sum
    ensures r == (x + y) % m
  {
    var n := (if j then 1 else 0) + (if k then 1 else 0) + (if r == s + t then 0 else 1);
    assert n * m == (if j then m else 0) + (if k then m else 0) + (if r == s + t then 0 else m);
    DivModUnique(x + y, m, n, r);
  }

  /** (x y) mod m through the 512-bit product. */
  method MulMod(x: U256, y: U256, m: U256, stray: Word) returns (r: U256)
    requires exists i :: 0 <= i < 4 && m[i] != 0
    ensures Value(m) > 0 && Value(r) == (Value(x) * Value(y)) % Value(m)
  {
    var p := UMulWords(x, y);
    var q;
    q, r := UDivRem(p, m, stray);
    DivModUnique(Value(x) * Value(y), Value(m), Value(q), Value(r));
  }
}
