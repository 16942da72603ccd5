/** Knuth's algorithm D: divisors of three or more words. */
module Knuth {
  import opened Words
  import opened Reciprocal
  import opened DivWords
  import opened Limbs
  import opened Division

  /** The digit at j is exact: the window at j gives up qhat d and keeps a remainder below d. */
  ghost predicate DigitDone(u0: Limbs, u: Limbs, j: nat, d: Limbs, qhat: Word) {
    && |u| == |u0| && j + |d| < |u0|
    && (forall t :: 0 <= t < |u| && !(j <= t <= j + |d|) ==> u[t] == u0[t])
    && Value(u0[j..j + |d| + 1]) == qhat * Value(d) + Value(u[j..j + |d|])
    && Value(u[j..j + |d|]) < Value(d)
  }

  /** The window before a digit is found: its top |d| words are a remainder below d. */
  ghost predicate Window(u: Limbs, j: nat, d: Limbs) {
    && |d| >= 3 && j + |d| < |u| && d[|d| - 1] >= P63
    && Value(u[j + 1..j + 1 + |d|]) < Value(d)
  }

  ghost function Top(d: Limbs): U128
    requires |d| >= 2
  {
    U128(d[|d| - 2], d[|d| - 1])
  }

  lemma SplitTop(d: Limbs, n: nat)
    requires |d| == n + 2
    ensures Value(d) == Value(d[..n]) + Scale(n, Val(Top(d))) && 0 <= Value(d[..n]) < Scale(n, 1)
  {
    SplitScaled(d, n);
    assert d[n..] == [d[n], d[n + 1]];
    TwoWords(d[n], d[n + 1]);
  }

  lemma WindowTop(u: Limbs, j: nat, d: Limbs, n: nat)
    requires Window(u, j, d) && |d| == n + 2
    ensures Val(U128(u[j + n + 1], u[j + n + 2])) <= Val(Top(d))
  {
    var r := u[j + 1..j + 1 + |d|];
    SplitTop(d, n);
    SplitTop(r, n);
    if Val(Top(r)) > Val(Top(d)) {
      ScaleAdd(n, Val(Top(d)), 1);
      ScaleMonotone(n, Val(Top(d)) + 1, Val(Top(r)));
    }
  }

  lemma WindowValue(u: Limbs, j: nat, n: nat)
    requires j + n < |u|
    ensures Value(u[j..j + n + 1]) == u[j] + BASE * Value(u[j + 1..j + 1 + n])
    ensures Value(u[j..j + n + 1]) == Value(u[j..j + n]) + Scale(n, u[j + n])
  {
    var w := u[j..j + n + 1];
    assert w[1..] == u[j + 1..j + 1 + n];
    SplitScaled(w, n);
    assert w[..n] == u[j..j + n] && w[n..] == [u[j + n]];
    ValueOne(u[j + n]);
  }

  lemma ValueBelow(s: Limbs)
    ensures 0 <= Value(s) < Scale(|s|, 1)
  {
    ValueBound(s);
    ScaleIsMul(|s|, 1);
  }

  //
  // Division overflow: the digit is 2^64 - 1
  //

  /** The window and the divisor share their top two words, so they differ by less than one of those. */
  lemma OverflowGap(u: Limbs, j: nat, d: Limbs, n: nat) returns (win: int, rest: int, dv: int, gap: int)
    requires Window(u, j, d) && |d| == n + 2 && U128(u[j + n + 1], u[j + n + 2]) == Top(d)
    ensures win == Value(u[j..j + |d| + 1]) == u[j] + BASE * rest && dv == Value(d)
    ensures 0 < gap == dv - rest && BASE * gap <= dv
  {
    var r := u[j + 1..j + 1 + |d|];
    SplitTop(d, n);
    SplitTop(r, n);
    assert Top(r) == Top(d);
    WindowValue(u, j, |d|);
    ScaleMonotone(n, BASE, Val(Top(d)));
    ScaleTimes(n, BASE, 1);
    win, rest, dv := Value(u[j..j + |d| + 1]), Value(r), Value(d);
    gap := dv - rest;
  }

  lemma OverflowWindow(u: Limbs, j: nat, d: Limbs, n: nat)
    requires Window(u, j, d) && |d| == n + 2 && U128(u[j + n + 1], u[j + n + 2]) == Top(d)
    ensures 0 <= Value(u[j..j + |d| + 1]) - (BASE - 1) * Value(d) < Value(d)
  {
    var win, rest, dv, gap := OverflowGap(u, j, d, n);
    OverflowArith(win, u[j], rest, dv, gap);
  }

  lemma OverflowArith(win: int, w: Word, rest: int, dv: int, gap: int)
    requires win == w + BASE * rest && gap == dv - rest && 0 < gap && BASE * gap <= dv
    ensures 0 <= win - (BASE - 1) * dv < dv
  {}

  lemma OverflowFacts(u0: Limbs, u: Limbs, j: nat, d: Limbs, borrow: Word)
    returns (win: int, low: int, low': int, dv: int)
    requires |d| >= 3 && j + |d| < |u0| && SubMulDone(u0, u, j, d, |d|, BASE - 1, borrow)
    ensures win == Value(u0[j..j + |d| + 1]) && low' == Value(u[j..j + |d|]) && dv == Value(d)
    ensures win == low + Scale(|d|, u0[j + |d|]) && low' - Scale(|d|, borrow) == low - dv * (BASE - 1)
    ensures dv < Scale(|d|, 1) && 0 <= low' < Scale(|d|, 1)
  {
    WindowValue(u0, j, |d|);
    assert d[..|d|] == d;
    ValueBelow(u[j..j + |d|]);
    ValueBelow(d);
    win, low, low', dv := Value(u0[j..j + |d| + 1]), Value(u0[j..j + |d|]), Value(u[j..j + |d|]), Value(d);
  }

  lemma OverflowResult(u0: Limbs, u: Limbs, j: nat, d: Limbs, n: nat, borrow: Word)
    requires Window(u0, j, d) && |d| == n + 2 && U128(u0[j + n + 1], u0[j + n + 2]) == Top(d)
    requires SubMulDone(u0, u, j, d, |d|, BASE - 1, borrow)
    ensures Value(u0[j..j + |d| + 1]) == (BASE - 1) * Value(d) + Value(u[j..j + |d|])
    ensures Value(u[j..j + |d|]) < Value(d)
  {
    OverflowWindow(u0, j, d, n);
    var win, low, low', dv := OverflowFacts(u0, u, j, d, borrow);
    OverflowInts(|d|, win, low, u0[j + |d|], dv, low', borrow);
  }

  lemma OverflowInts(m: nat, win: int, low: int, top: int, d: int, low': int, borrow: int)
    requires win == low + Scale(m, top) && low' - Scale(m, borrow) == low - d * (BASE - 1)
    requires 0 <= win - (BASE - 1) * d < d < Scale(m, 1) && 0 <= low' < Scale(m, 1)
    ensures win == (BASE - 1) * d + low' && low' < d
  {
    ScaleAdd(m, top - borrow, borrow);
    TopCancels(m, win - (BASE - 1) * d, low', top - borrow);
  }

  lemma TopCancels(n: nat, x: int, low: int, top: int)
    requires x == low + Scale(n, top) && 0 <= x < Scale(n, 1) && 0 <= low < Scale(n, 1)
    ensures x == low
  {
    ScaleMonotone(n, 0, 0);
    ScaleAdd(n, -1, 1);
    if top > 0 { ScaleMonotone(n, 1, top); }
    if top < 0 { ScaleMonotone(n, top, -1); }
  }

  method OverflowStep(u: array<Word>, j: nat, d: Limbs) returns (qhat: Word)
    requires Window(u[..], j, d) && U128(u[j + |d| - 1], u[j + |d|]) == Top(d)
    modifies u
    ensures DigitDone(old(u[..]), u[..], j, d, qhat)
  {
    ghost var u0 := u[..];
    qhat := BASE - 1;
    var u2 := u[j + |d|];
    var borrow := SubMul(u, j, d, qhat);
    ghost var w := u[..];
    OverflowResult(u0, w, j, d, |d| - 2, borrow);
    u[j + |d|] := Minus(u2, borrow);
    assert u[..][j..j + |d|] == w[j..j + |d|];
  }

  //
  // Estimated digit
  //

  lemma StoredTop(u1: Limbs, u2: Limbs, j: nat, n: nat, rr: U128)
    requires j + n + 2 <= |u1| && u2 == u1[j + n := rr.lo][j + n + 1 := rr.hi]
    ensures Value(u2[j..j + n + 2]) == Value(u1[j..j + n]) + Scale(n, Val(rr))
    ensures 0 <= Value(u1[j..j + n]) < Scale(n, 1)
  {
    var x := u2[j..j + n + 2];
    SplitTop(x, n);
    assert x[n] == rr.lo && x[n + 1] == rr.hi;
    assert x[..n] == u1[j..j + n] by { assert forall t :: 0 <= t < n ==> x[t] == u1[j + t]; }
  }

  lemma WindowHigh(u: Limbs, j: nat, n: nat) returns (high: int)
    requires j + n + 2 < |u|
    ensures high == u[j + n + 2] * P128 + u[j + n + 1] * BASE + u[j + n]
    ensures Value(u[j..j + n + 3]) == Value(u[j..j + n]) + Scale(n, high)
  {
    high := u[j + n + 2] * P128 + u[j + n + 1] * BASE + u[j + n];
    var w := u[j..j + n + 3];
    SplitScaled(w, n);
    assert w[..n] == u[j..j + n];
    assert w[n..] == [u[j + n], u[j + n + 1], u[j + n + 2]];
    ThreeWords(u[j + n], u[j + n + 1], u[j + n + 2]);
  }

  lemma ThreeWords(a: Word, b: Word, c: Word)
    ensures Value([a, b, c]) == c * P128 + b * BASE + a
  {
    assert [a, b, c][1..] == [b, c];
    TwoWords(b, c);
  }

  /** The words stored after the estimate: X = W - qhat d + carry 2^(64 (n + 2)). */
  lemma EstimateArith(n: nat, low: int, low': int, dl: int, t: int, qhat: int, rhat: int, overflow: int, rr: int,
                      c: int)
    requires low' - Scale(n, overflow) == low - dl * qhat && rhat - overflow == rr - c * P128
    ensures low + Scale(n, qhat * t + rhat) - qhat * (dl + Scale(n, t)) == low' + Scale(n, rr) - Scale(n + 2, c)
  {
    ScaleAdd(n, qhat * t, rhat);
    ScaleTimes(n, qhat, t);
    assert qhat * (dl + Scale(n, t)) == dl * qhat + qhat * Scale(n, t);
    ScaleAdd(n, rr - c * P128, overflow);
    ScaleAdd(n, rr, -c * P128);
    ScaleTimes(n, -P128, c);
    ScaleTimes(n, P128, c);
    assert Scale(n + 2, c) == BASE * Scale(n + 1, c) == BASE * (BASE * Scale(n, c));
  }

  /** Without a borrow the estimated digit is exact. */
  lemma NoBorrow(n: nat, x: int, d: int, dl: int, t: int, low: int, rr: int, rhat: int)
    requires d == dl + Scale(n, t) && 0 <= dl && x == low + Scale(n, rr) && 0 <= low < Scale(n, 1)
    requires 0 <= rr <= rhat < t
    ensures 0 <= x < d
  {
    ScaleAdd(n, rr, 1);
    ScaleMonotone(n, rr + 1, t);
    ScaleMonotone(n, 0, rr);
  }

  /** With a borrow the estimate is one too large: adding the divisor back once is enough. */
  lemma Borrowed(n: nat, win: int, x: int, d: int, dl: int, t: int, low: int, qhat: int, rhat: int, p: int)
    requires d == dl + Scale(n, t) && 0 <= dl < Scale(n, 1) && BASE <= t && 0 <= qhat < BASE
    requires win - qhat * d == x - p && x < p && win == low + Scale(n, qhat * t + rhat) && 0 <= low && 0 <= rhat
    ensures p <= x + d && qhat >= 1
  {
    ScaleAdd(n, qhat * t, rhat);
    ScaleMonotone(n, 0, rhat);
    ScaleTimes(n, qhat, t);
    assert qhat * d == qhat * dl + qhat * Scale(n, t);
    MulLe(qhat, BASE, dl);
    ScaleMonotone(n, BASE, t);
    ScaleTimes(n, BASE, 1);
  }

  /** Both outcomes of the final subtraction, on plain integers. */
  lemma EstimateInts(n: nat, win: int, x: int, d: int, dl: int, t: int, low: int, low': int, high: int, qhat: int,
                     rhat: int, overflow: int, rr: int, carry: bool, p: int)
    requires d == dl + Scale(n, t) && 0 <= dl < Scale(n, 1) && BASE <= t && 0 <= qhat < BASE && 0 <= low
    requires win == low + Scale(n, high) && high == qhat * t + rhat && 0 <= rhat < t && 0 <= overflow && 0 <= rr
    requires low' - Scale(n, overflow) == low - dl * qhat && rhat - overflow == rr - Bit(carry) * P128
    requires x == low' + Scale(n, rr) && 0 <= low' < Scale(n, 1) && x < p == Scale(n + 2, 1)
    ensures !carry ==> win == qhat * d + x && x < d
    ensures carry ==> qhat >= 1 && win == (qhat - 1) * d + (x + d - p) && x < p <= x + d
  {
    EstimateArith(n, low, low', dl, t, qhat, rhat, overflow, rr, Bit(carry));
    ScaleMonotone(n + 2, 0, 0);
    if carry {
      Borrowed(n, win, x, d, dl, t, low, qhat, rhat, p);
      assert (qhat - 1) * d == qhat * d - d;
    } else {
      NoBorrow(n, x, d, dl, t, low', rr, rhat);
    }
  }

  /** Adding the divisor back: low words with carry, the top word wrapping. */
  method AddBack(u: array<Word>, j: nat, d: Limbs)
    requires |d| >= 3 && j + |d| <= u.Length
    requires Scale(|d|, 1) <= Value(u[j..j + |d|]) + Value(d)
    modifies u
    ensures Value(u[j..j + |d|]) == Value(old(u[j..j + |d|])) + Value(d) - Scale(|d|, 1)
    ensures forall t :: 0 <= t < u.Length && !(j <= t < j + |d|) ==> u[t] == old(u[t])
  {
    ghost var u0 := u[..];
    var k := j + |d| - 1;
    var carry := AddInPlace(u, j, d[..|d| - 1]);
    ghost var w := u[..];
    assert w[k] == u0[k];
    u[k] := Plus(u[k], Plus(d[|d| - 1], Bit(carry)));
    AddBackValue(u0, w, u[..], j, d, |d| - 1, carry);
    assert u0[j..j + |d|] == old(u[j..j + |d|]) && u[..][j..j + |d|] == u[j..j + |d|];
  }

  /** The three windows by their top words. */
  lemma AddBackFacts(u0: Limbs, w: Limbs, u: Limbs, j: nat, d: Limbs, n: nat, carry: bool)
    returns (x0: int, x: int, dv: int, low: int, low': int, dl: int)
    requires |d| == n + 1 && j + n < |u0| && AddDone(u0, w, j, d[..n], n, carry)
    requires u == w[j + n := Plus(w[j + n], Plus(d[n], Bit(carry)))]
    ensures x0 == Value(u0[j..j + n + 1]) == low + Scale(n, w[j + n]) < Scale(n + 1, 1)
    ensures x == Value(u[j..j + n + 1]) == low' + Scale(n, u[j + n]) && 0 <= x < Scale(n + 1, 1)
    ensures dv == Value(d) == dl + Scale(n, d[n]) < Scale(n + 1, 1)
    ensures low' + Scale(n, Bit(carry)) == low + dl
  {
    WindowValue(u0, j, n);
    WindowValue(u, j, n);
    WindowValue(d, 0, n);
    assert u[j..j + n] == w[j..j + n] && d[0..n + 1] == d && d[0..0 + n] == d[..n] && d[..n][..n] == d[..n];
    ValueBelow(u[j..j + n + 1]);
    ValueBelow(u0[j..j + n + 1]);
    ValueBelow(d);
    x0, x, dv := Value(u0[j..j + n + 1]), Value(u[j..j + n + 1]), Value(d);
    low, low', dl := Value(u0[j..j + n]), Value(w[j..j + n]), Value(d[..n]);
  }

  lemma AddBackValue(u0: Limbs, w: Limbs, u: Limbs, j: nat, d: Limbs, n: nat, carry: bool)
    requires |d| == n + 1 && j + n < |u0| && AddDone(u0, w, j, d[..n], n, carry)
    requires u == w[j + n := Plus(w[j + n], Plus(d[n], Bit(carry)))]
    requires Scale(n + 1, 1) <= Value(u0[j..j + n + 1]) + Value(d)
    ensures Value(u[j..j + n + 1]) == Value(u0[j..j + n + 1]) + Value(d) - Scale(n + 1, 1)
  {
    var x0, x, dv, low, low', dl := AddBackFacts(u0, w, u, j, d, n, carry);
    AddBackArith(n, low, low', dl, w[j + n], d[n], carry, u[j + n]);
  }

  lemma AddBackArith(n: nat, low: int, low': int, dl: int, top: Word, dt: Word, carry: bool, top': Word)
    requires low' + Scale(n, Bit(carry)) == low + dl && top' == Plus(top, Plus(dt, Bit(carry)))
    requires Scale(n + 1, 1) <= (low + Scale(n, top)) + (dl + Scale(n, dt))
    requires (low + Scale(n, top)) < Scale(n + 1, 1) && (dl + Scale(n, dt)) < Scale(n + 1, 1)
    requires 0 <= low' + Scale(n, top') < Scale(n + 1, 1)
    ensures low' + Scale(n, top') == (low + Scale(n, top)) + (dl + Scale(n, dt)) - Scale(n + 1, 1)
  {
    ScaleAdd(n, top, dt);
    ScaleAdd(n, top + dt, Bit(carry));
    var k := top + dt + Bit(carry) - top';
    ScaleAdd(n, k, top');
    ScaleMonotone(n, 0, 0);
    ScaleTimes(n, BASE, 1);
    ScaleTimes(n, 2 * BASE, 1);
  }

  method EstimateStep(u: array<Word>, j: nat, d: Limbs, divisor: U128, reciprocal: Word) returns (qhat: Word)
    requires Window(u[..], j, d) && divisor == Top(d) && U128(u[j + |d| - 1], u[j + |d|]) != divisor
    requires IsReciprocal2(divisor, reciprocal)
    modifies u
    ensures DigitDone(old(u[..]), u[..], j, d, qhat)
  {
    ghost var u0 := u[..];
    var n := |d| - 2;
    WindowTop(u0, j, d, n);
    var rhat;
    qhat, rhat := UDivRem3By2(u[j + n + 2], u[j + n + 1], u[j + n], divisor, reciprocal);

    var overflow := SubMul(u, j, d[..n], qhat);
    ghost var u1: Limbs := u[..];
    var lo := SubWithCarry(rhat.lo, overflow, false);
    u[j + n] := lo.value;
    var hi := SubWithCarry(rhat.hi, 0, lo.carry);
    u[j + n + 1] := hi.value;
    assert u[..] == u1[j + n := lo.value][j + n + 1 := hi.value];
    EstimateWindow(u0, u1, u[..], j, d, n, qhat, rhat, overflow, U128(lo.value, hi.value), hi.carry);
    assert u[..][j..j + |d|] == u[j..j + |d|];
    if hi.carry {
      qhat := Minus(qhat, 1);
      AddBack(u, j, d);
      ValueBelow(u0[j..j + |d|]);
      assert u[..][j..j + |d|] == u[j..j + |d|];
    }
  }

  lemma EstimateFacts(u0: Limbs, u1: Limbs, u2: Limbs, j: nat, d: Limbs, n: nat, qhat: Word, overflow: Word, rr: U128)
    returns (win: int, x: int, dv: int, dl: int, low: int, low': int, high: int)
    requires |d| == n + 2 && j + n + 2 < |u0| && |u1| == |u0|
    requires SubMulDone(u0, u1, j, d[..n], n, qhat, overflow) && u2 == u1[j + n := rr.lo][j + n + 1 := rr.hi]
    ensures win == Value(u0[j..j + n + 3]) && x == Value(u2[j..j + n + 2]) && dv == Value(d)
    ensures high == u0[j + n + 2] * P128 + u0[j + n + 1] * BASE + u0[j + n]
    ensures win == low + Scale(n, high) && x == low' + Scale(n, Val(rr)) && dv == dl + Scale(n, Val(Top(d)))
    ensures low' - Scale(n, overflow) == low - dl * qhat
    ensures 0 <= low && 0 <= low' < Scale(n, 1) && 0 <= dl < Scale(n, 1) && x < Scale(n + 2, 1)
  {
    StoredTop(u1, u2, j, n, rr);
    high := WindowHigh(u0, j, n);
    SplitTop(d, n);
    assert d[..n][..n] == d[..n];
    ValueBelow(u2[j..j + n + 2]);
    win, x, dv, dl := Value(u0[j..j + n + 3]), Value(u2[j..j + n + 2]), Value(d), Value(d[..n]);
    low, low' := Value(u0[j..j + n]), Value(u1[j..j + n]);
  }

  /** What the stored words amount to, in both outcomes of the final subtraction. */
  lemma EstimateWindow(u0: Limbs, u1: Limbs, u2: Limbs, j: nat, d: Limbs, n: nat, qhat: Word, rhat: U128,
                       overflow: Word, rr: U128, carry: bool)
    requires |d| == n + 2 && j + n + 2 < |u0| && |u1| == |u0| && d[n + 1] >= P63
    requires u0[j + n + 2] * P128 + u0[j + n + 1] * BASE + u0[j + n] == qhat * Val(Top(d)) + Val(rhat)
    requires Val(rhat) < Val(Top(d)) && SubMulDone(u0, u1, j, d[..n], n, qhat, overflow)
    requires Val(rhat) - overflow == Val(rr) - Bit(carry) * P128
    requires u2 == u1[j + n := rr.lo][j + n + 1 := rr.hi]
    ensures var win, x := Value(u0[j..j + n + 3]), Value(u2[j..j + n + 2]);
      && (!carry ==> win == qhat * Value(d) + x && x < Value(d))
      && (carry ==> qhat >= 1 && win == (qhat - 1) * Value(d) + (x + Value(d) - Scale(n + 2, 1))
                    && x < Scale(n + 2, 1) <= x + Value(d))
  {
    var win, x, dv, dl, low, low', high := EstimateFacts(u0, u1, u2, j, d, n, qhat, overflow, rr);
    EstimateInts(n, win, x, dv, dl, Val(Top(d)), low, low', high, qhat, Val(rhat), overflow, Val(rr), carry,
                 Scale(n + 2, 1));
  }

  //
  // The digit loop
  //

  /** Digits k and above are found; the window at k holds the remainder of the words above. */
  ghost predicate KnuthState(u0: Limbs, u: Limbs, q: Limbs, ulen: nat, k: nat, d: Limbs) {
    && |u| == |u0| && |d| <= ulen <= |u| && k <= ulen - |d| <= |q|
    && (forall t :: 0 <= t < k ==> u[t] == u0[t])
    && Value(u[k..k + |d|]) < Value(d)
    && Value(u0[..ulen]) == Value(u0[..k]) + Scale(k, Value(q[k..ulen - |d|]) * Value(d) + Value(u[k..k + |d|]))
  }

  lemma KnuthStart(u0: Limbs, q: Limbs, ulen: nat, d: Limbs)
    requires |d| <= ulen <= |u0| && ulen - |d| <= |q| && Value(u0[ulen - |d|..ulen]) < Value(d)
    ensures KnuthState(u0, u0, q, ulen, ulen - |d|, d)
  {
    var k := ulen - |d|;
    var low, r, quot := StartFacts(u0, q, ulen, k);
    NoDigits(k, r, quot, Value(d));
  }

  lemma StartFacts(u0: Limbs, q: Limbs, ulen: nat, k: nat) returns (low: int, r: int, quot: int)
    requires k <= ulen <= |u0| && k <= |q|
    ensures low == Value(u0[..k]) && r == Value(u0[k..ulen]) && quot == Value(q[k..k]) == 0
    ensures Value(u0[..ulen]) == low + Scale(k, r)
  {
    SplitScaled(u0[..ulen], k);
    assert u0[..ulen][..k] == u0[..k] && u0[..ulen][k..] == u0[k..ulen];
    low, r, quot := Value(u0[..k]), Value(u0[k..ulen]), 0;
  }

  lemma NoDigits(k: nat, r: int, quot: int, dv: int)
    requires quot == 0
    ensures Scale(k, r) == Scale(k, quot * dv + r)
  {
    assert quot * dv == 0;
  }

  lemma KnuthFacts(u0: Limbs, u: Limbs, u': Limbs, q: Limbs, ulen: nat, k: nat, d: Limbs, qhat: Word)
    returns (v: int, low: int, quot: int, dv: int, rem: int, r: int)
    requires KnuthState(u0, u, q, ulen, k + 1, d) && DigitDone(u, u', k, d, qhat)
    ensures v == Value(u0[..ulen]) && low == Value(u0[..k]) && quot == Value(q[k + 1..ulen - |d|]) && dv == Value(d)
    ensures r == Value(u'[k..k + |d|]) && v == (low + Scale(k, u0[k])) + Scale(k + 1, quot * dv + rem)
    ensures rem * BASE + u0[k] == qhat * dv + r
  {
    WordAt(u0, 0, k);
    assert u0[0..0 + k + 1] == u0[..k + 1] && u0[0..0 + k] == u0[..k];
    WindowValue(u, k, |d|);
    v, low, quot := Value(u0[..ulen]), Value(u0[..k]), Value(q[k + 1..ulen - |d|]);
    dv, rem, r := Value(d), Value(u[k + 1..k + 1 + |d|]), Value(u'[k..k + |d|]);
  }

  lemma KnuthStep(u0: Limbs, u: Limbs, u': Limbs, q: Limbs, ulen: nat, k: nat, d: Limbs, qhat: Word)
    requires KnuthState(u0, u, q, ulen, k + 1, d) && DigitDone(u, u', k, d, qhat)
    ensures KnuthState(u0, u', q[k := qhat], ulen, k, d)
  {
    var v, low, quot, dv, rem, r := KnuthFacts(u0, u, u', q, ulen, k, d, qhat);
    BringDown(k, v, low, u0[k], quot, dv, rem, qhat, r);
    var tail := q[k + 1..ulen - |d|];
    assert q[k := qhat][k..ulen - |d|] == [qhat] + tail;
    assert ([qhat] + tail)[1..] == tail;
  }

  /** q receives the quotient digits; the low |d| words of u become the remainder. */
  method UDivRemKnuth(q: array<Word>, u: array<Word>, ulen: nat, d: Limbs)
    requires |d| >= 3 && |d| <= ulen <= u.Length && ulen - |d| <= q.Length && q != u
    requires d[|d| - 1] >= P63 && Value(u[ulen - |d|..ulen]) < Value(d)
    modifies q, u
    ensures Value(old(u[..ulen])) == Value(q[..ulen - |d|]) * Value(d) + Value(u[..|d|])
    ensures Value(u[..|d|]) < Value(d)
    ensures forall t :: ulen - |d| <= t < q.Length ==> q[t] == old(q[t])
  {
    var divisor := U128(d[|d| - 2], d[|d| - 1]);
    var reciprocal := Reciprocal3By2(divisor);
    ghost var u0 := u[..];
    assert u0[ulen - |d|..ulen] == u[ulen - |d|..ulen];
    KnuthStart(u0, q[..], ulen, d);
    for k := ulen - |d| downto 0
      invariant KnuthState(u0, u[..], q[..], ulen, k, d)
      invariant forall t :: ulen - |d| <= t < q.Length ==> q[t] == old(q[t])
    {
      ghost var w, q0 := u[..], q[..];
      var qhat;
      if U128(u[k + |d| - 1], u[k + |d|]) == divisor {
        qhat := OverflowStep(u, k, d);
      } else {
        qhat := EstimateStep(u, k, d, divisor, reciprocal);
      }
      KnuthStep(u0, w, u[..], q0, ulen, k, d, qhat);
      q[k] := qhat;
      assert q[..] == q0[k := qhat];
    }
    KnuthDone(u0, u[..], q[..], ulen, d);
    assert u[..][..|d|] == u[..|d|] && q[..][..ulen - |d|] == q[..ulen - |d|] && u0[..ulen] == old(u[..ulen]);
  }

  lemma KnuthDone(u0: Limbs, u: Limbs, q: Limbs, ulen: nat, d: Limbs)
    requires KnuthState(u0, u, q, ulen, 0, d)
    ensures Value(u0[..ulen]) == Value(q[..ulen - |d|]) * Value(d) + Value(u[..|d|]) && Value(u[..|d|]) < Value(d)
  {
    assert u0[..0] == [] && q[0..ulen - |d|] == q[..ulen - |d|] && u[0..0 + |d|] == u[..|d|];
  }
}
