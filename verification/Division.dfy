/**
 Long division of multi-word integers by one word and by two words, in place on the numerator's words.
 */
module Division {
  import opened Words
  import opened Reciprocal
  import opened DivWords
  import opened Limbs

  /** One digit of long division: bringing down word w turns (Q, rem) into (B Q + q, r). */
  lemma BringDown(k: nat, v: int, low: int, w: int, quot: int, d: int, rem: int, q: int, r: int)
    requires v == (low + Scale(k, w)) + Scale(k + 1, quot * d + rem) && rem * BASE + w == q * d + r
    ensures v == low + Scale(k, (q + BASE * quot) * d + r)
  {
    ScaleTimes(k, BASE, quot * d + rem);
    ScaleAdd(k, w, BASE * (quot * d + rem));
    assert (q + BASE * quot) * d == q * d + BASE * (quot * d);
  }

  /** Words it..len hold the quotient digits found so far; words below it are still numerator. */
  ghost predicate Dividing(u0: Limbs, u: Limbs, len: nat, it: nat, d: int, rem: int) {
    && |u| == |u0| && it < len <= |u|
    && (forall t :: 0 <= t < |u| && !(it <= t < len) ==> u[t] == u0[t])
    && u[len - 1] == 0
    && Value(u0[..len]) == Value(u0[..it]) + Scale(it, Value(u[it..len]) * d + rem)
  }

  lemma DivideStep(u0: Limbs, u: Limbs, len: nat, it: nat, d: int, rem: int, q: Word, r: int)
    requires Dividing(u0, u, len, it + 1, d, rem) && rem * BASE + u0[it] == q * d + r
    ensures Dividing(u0, u[it := q], len, it, d, r)
  {
    WordAt(u0, 0, it);
    assert u0[0..0 + it + 1] == u0[..it + 1] && u0[0..0 + it] == u0[..it];
    var tail := u[it + 1..len];
    BringDown(it, Value(u0[..len]), Value(u0[..it]), u0[it], Value(tail), d, rem, q, r);
    assert u[it := q][it..len] == [q] + tail;
    assert ([q] + tail)[1..] == tail;
  }

  lemma DivideDone(u0: Limbs, u: Limbs, len: nat, d: int, rem: int)
    requires Dividing(u0, u, len, 0, d, rem)
    ensures Value(u0[..len]) == Value(u[..len]) * d + rem
  {
    assert u0[..0] == [] && u[0..len] == u[..len];
  }

  //
  // One-word divisor
  //

  lemma DivideStart1(u0: Limbs, len: nat, d: int)
    requires 2 <= len <= |u0|
    ensures Dividing(u0, u0[len - 1 := 0], len, len - 1, d, u0[len - 1])
  {
    WordAt(u0, 0, len - 1);
    assert u0[0..0 + len - 1 + 1] == u0[..len] && u0[0..0 + len - 1] == u0[..len - 1];
    assert u0[len - 1 := 0][len - 1..len] == [0];
    ValueOne(0);
  }

  /** u becomes the quotient; the remainder is returned. */
  method UDivRemBy1(u: array<Word>, len: nat, d: Word) returns (rem: Word)
    requires 2 <= len <= u.Length && d >= P63 && u[len - 1] < d
    modifies u
    ensures rem < d && Value(old(u[..len])) == Value(u[..len]) * d + rem
    ensures u[len - 1] == 0 && forall t :: len <= t < u.Length ==> u[t] == old(u[t])
  {
    var reciprocal := Reciprocal2By1(d);
    ghost var u0 := u[..];
    rem := u[len - 1];
    u[len - 1] := 0;
    assert u[..] == u0[len - 1 := 0];
    DivideStart1(u0, len, d);
    var it := len - 1;
    while it > 0
      invariant rem < d && Dividing(u0, u[..], len, it, d, rem)
    {
      ghost var w := u[..];
      it := it - 1;
      var q, r := UDivRem2By1(U128(u[it], rem), d, reciprocal);
      DivideStep(u0, w, len, it, d, rem, q, r);
      u[it] := q;
      rem := r;
      assert u[..] == w[it := q];
    }
    DivideDone(u0, u[..], len, d, rem);
    assert u[..][..len] == u[..len] && u0[..len] == old(u[..len]);
  }

  //
  // Two-word divisor
  //

  lemma DivideStart2(u0: Limbs, len: nat, d: int)
    requires 3 <= len <= |u0|
    ensures Dividing(u0, u0[len - 1 := 0][len - 2 := 0], len, len - 2, d, Val(U128(u0[len - 2], u0[len - 1])))
  {
    SplitScaled(u0[..len], len - 2);
    assert u0[..len][..len - 2] == u0[..len - 2] && u0[..len][len - 2..] == [u0[len - 2], u0[len - 1]];
    TwoWords(u0[len - 2], u0[len - 1]);
    assert u0[len - 1 := 0][len - 2 := 0][len - 2..len] == [0, 0];
    ValueZeros([0, 0]);
  }

  /** u becomes the quotient; the two-word remainder is returned. */
  method UDivRemBy2(u: array<Word>, len: nat, d: U128) returns (rem: U128)
    requires 3 <= len <= u.Length && d.hi >= P63 && Val(U128(u[len - 2], u[len - 1])) < Val(d)
    modifies u
    ensures Val(rem) < Val(d) && Value(old(u[..len])) == Value(u[..len]) * Val(d) + Val(rem)
    ensures u[len - 1] == 0 && forall t :: len <= t < u.Length ==> u[t] == old(u[t])
  {
    var reciprocal := Reciprocal3By2(d);
    ghost var u0 := u[..];
    rem := U128(u[len - 2], u[len - 1]);
    u[len - 1] := 0;
    u[len - 2] := 0;
    assert u[..] == u0[len - 1 := 0][len - 2 := 0];
    DivideStart2(u0, len, Val(d));
    var it := len - 2;
    while it > 0
      invariant Val(rem) < Val(d) && Dividing(u0, u[..], len, it, Val(d), Val(rem))
    {
      ghost var w := u[..];
      it := it - 1;
      var q, r := UDivRem3By2(rem.hi, rem.lo, u[it], d, reciprocal);
      DivideStep(u0, w, len, it, Val(d), Val(rem), q, Val(r));
      u[it] := q;
      rem := r;
      assert u[..] == w[it := q];
    }
    DivideDone(u0, u[..], len, Val(d), Val(rem));
    assert u[..][..len] == u[..len] && u0[..len] == old(u[..len]);
  }

  lemma TwoWords(a: Word, b: Word)
    ensures Value([a, b]) == Val(U128(a, b))
  {
    assert [a, b][1..] == [b];
    ValueOne(b);
  }

  //
  // submul and add
  //

  /** One word of r = x - multiplier y: the borrow word never overflows. */
  method SubMulWord(x: Word, y: Word, multiplier: Word, borrow: Word) returns (r: Word, borrow': Word)
    ensures x - borrow - y * multiplier == r - borrow' * BASE
  {
    var s := SubWithCarry(x, borrow, false);
    var p := UMul(y, multiplier);
    MulLe(y, BASE - 1, multiplier);
    MulLe(multiplier, BASE - 1, BASE - 1);
    var t := SubWithCarry(s.value, p.lo, false);
    r := t.value;
    borrow' := Plus(Plus(p.hi, Bit(s.carry)), Bit(t.carry));
  }

  ghost predicate SubMulDone(u0: Limbs, u: Limbs, j: nat, y: Limbs, i: nat, multiplier: Word, borrow: Word)
    requires i <= |y| && j + |y| <= |u0|
  {
    && |u| == |u0|
    && (forall t :: 0 <= t < |u| && !(j <= t < j + i) ==> u[t] == u0[t])
    && Value(u[j..j + i]) - Scale(i, borrow) == Value(u0[j..j + i]) - Value(y[..i]) * multiplier
  }

  /** Subtracts multiplier y from the words of u at j, returning the word borrowed. */
  method SubMul(u: array<Word>, j: nat, y: Limbs, multiplier: Word) returns (borrow: Word)
    requires |y| >= 1 && j + |y| <= u.Length
    modifies u
    ensures SubMulDone(old(u[..]), u[..], j, y, |y|, multiplier, borrow)
  {
    borrow := 0;
    ghost var u0 := u[..];
    for i := 0 to |y|
      invariant SubMulDone(u0, u[..], j, y, i, multiplier, borrow)
    {
      ghost var w := u[..];
      var r, b := SubMulWord(u[j + i], y[i], multiplier, borrow);
      u[j + i] := r;
      SubMulStep(u0, w, j, y, i, multiplier, borrow, r, b);
      assert u[..] == w[j + i := r];
      borrow := b;
    }
  }

  lemma SubMulStep(u0: Limbs, u: Limbs, j: nat, y: Limbs, i: nat, multiplier: Word, borrow: Word, r: Word, b: Word)
    requires i < |y| && j + |y| <= |u0| && SubMulDone(u0, u, j, y, i, multiplier, borrow)
    requires u0[j + i] - borrow - y[i] * multiplier == r - b * BASE
    ensures SubMulDone(u0, u[j + i := r], j, y, i + 1, multiplier, b)
  {
    StoredWord(u, j, i, r);
    WordAt(u0, j, i);
    WordAt(y, 0, i);
    assert y[0..0 + i + 1] == y[..i + 1] && y[0..0 + i] == y[..i];
    SubMulArith(i, Value(u[j..j + i]), Value(u0[j..j + i]), Value(y[..i]), multiplier, u0[j + i], y[i], borrow, r, b);
  }

  lemma WordAt(u: Limbs, j: nat, i: nat)
    requires j + i < |u|
    ensures Value(u[j..j + i + 1]) == Value(u[j..j + i]) + Scale(i, u[j + i])
  {
    assert u[j..j + i + 1] == u[j..j + i] + [u[j + i]];
    ValueConcat(u[j..j + i], [u[j + i]]);
    ValueOne(u[j + i]);
    ScaleIsMul(i, u[j + i]);
  }

  lemma StoredWord(u: Limbs, j: nat, i: nat, r: Word)
    requires j + i < |u|
    ensures Value(u[j + i := r][j..j + i + 1]) == Value(u[j..j + i]) + Scale(i, r)
  {
    WordAt(u[j + i := r], j, i);
    assert u[j + i := r][j..j + i] == u[j..j + i];
  }

  lemma SubMulArith(i: nat, vu: int, v0: int, vy: int, m: int, x: int, y: int, borrow: int, r: int, b: int)
    requires x - borrow - y * m == r - b * BASE && vu - Scale(i, borrow) == v0 - vy * m
    ensures (vu + Scale(i, r)) - Scale(i + 1, b) == (v0 + Scale(i, x)) - (vy + Scale(i, y)) * m
  {
    ScaleTimes(i, m, y);
    ScaleTimes(i, BASE, b);
    assert (vy + Scale(i, y)) * m == vy * m + m * Scale(i, y);
    ScaleAdd(i, borrow, m * y);
    ScaleAdd(i, r, borrow + m * y);
    ScaleAdd(i, x, BASE * b);
    assert y * m == m * y;
  }

  ghost predicate AddDone(u0: Limbs, u: Limbs, j: nat, y: Limbs, i: nat, carry: bool)
    requires i <= |y| && j + |y| <= |u0|
  {
    && |u| == |u0|
    && (forall t :: 0 <= t < |u| && !(j <= t < j + i) ==> u[t] == u0[t])
    && Value(u[j..j + i]) + Scale(i, Bit(carry)) == Value(u0[j..j + i]) + Value(y[..i])
  }

  /** Adds y to the words of u at j, returning the carry out. */
  method AddInPlace(u: array<Word>, j: nat, y: Limbs) returns (carry: bool)
    requires |y| >= 2 && j + |y| <= u.Length
    modifies u
    ensures AddDone(old(u[..]), u[..], j, y, |y|, carry)
  {
    carry := false;
    ghost var u0 := u[..];
    for i := 0 to |y|
      invariant AddDone(u0, u[..], j, y, i, carry)
    {
      ghost var w := u[..];
      var s := AddWithCarry(u[j + i], y[i], carry);
      u[j + i] := s.value;
      AddInPlaceStep(u0, w, j, y, i, carry, s);
      assert u[..] == w[j + i := s.value];
      carry := s.carry;
    }
  }

  lemma AddInPlaceStep(u0: Limbs, u: Limbs, j: nat, y: Limbs, i: nat, carry: bool, s: WithCarry)
    requires i < |y| && j + |y| <= |u0| && AddDone(u0, u, j, y, i, carry)
    requires u0[j + i] + y[i] + Bit(carry) == s.value + Bit(s.carry) * BASE
    ensures AddDone(u0, u[j + i := s.value], j, y, i + 1, s.carry)
  {
    StoredWord(u, j, i, s.value);
    PrefixWord(u0, j, y, i);
    AddArith(i, u0[j + i], y[i], Bit(carry), s.value, Bit(s.carry));
  }

  lemma PrefixWord(u0: Limbs, j: nat, y: Limbs, i: nat)
    requires i < |y| && j + i < |u0|
    ensures Value(u0[j..j + i + 1]) + Value(y[..i + 1]) ==
            Value(u0[j..j + i]) + Value(y[..i]) + Scale(i, u0[j + i]) + Scale(i, y[i])
  {
    WordAt(u0, j, i);
    WordAt(y, 0, i);
    assert y[0..0 + i + 1] == y[..i + 1] && y[0..0 + i] == y[..i];
  }

  lemma AddArith(i: nat, x: int, y: int, c: int, r: int, c': int)
    requires x + y + c == r + c' * BASE
    ensures Scale(i, x) + Scale(i, y) + Scale(i, c) == Scale(i, r) + Scale(i + 1, c')
  {
    ScaleAdd(i, x, y);
    ScaleAdd(i, x + y, c);
    ScaleAdd(i, r, BASE * c');
    ScaleTimes(i, BASE, c');
  }
}
