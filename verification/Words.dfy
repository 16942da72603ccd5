/**
 64-bit machine words and the word-level operations every multi-word routine is built from.
 A word is a natural number below 2^64; C++ unsigned arithmetic on it is `Wrap` of the integer result.
 */
module Words {

  const BASE: int := 0x1_0000_0000_0000_0000
  const P63: int := 0x8000_0000_0000_0000

  type Word = x: int | 0 <= x < 0x1_0000_0000_0000_0000

  /** A 128-bit value as the source holds it: low word, high word. */
  datatype U128 = U128(lo: Word, hi: Word)

  function Val(u: U128): (v: int)
    ensures 0 <= v < BASE * BASE
  {
    u.hi * BASE + u.lo
  }

  /** Unsigned 64-bit wrap-around. */
  function Wrap(x: int): Word {
    x % BASE
  }

  /** 64-bit `x + y` and `x - y`; the case split is the wrap-around. */
  function Plus(x: Word, y: Word): Word {
    if x + y < BASE then x + y else x + y - BASE
  }

  function Minus(x: Word, y: Word): Word {
    if x >= y then x - y else x - y + BASE
  }

  lemma PlusMinusWrap(x: Word, y: Word)
    ensures Plus(x, y) == Wrap(x + y) && Minus(x, y) == Wrap(x - y)
  {
  }

  lemma WrapIs(x: int, k: int, r: int)
    requires x == k * BASE + r && 0 <= r < BASE
    ensures Wrap(x) == r
  {
  }

  //
  // Bit operations
  //

  function Pow2(k: nat): (p: nat)
    ensures p > 0
  {
    if k == 0 then 1 else 2 * Pow2(k - 1)
  }

  lemma {:induction false} Pow2Add(a: nat, b: nat)
    ensures Pow2(a + b) == Pow2(a) * Pow2(b)
  {
    if a == 0 {
    } else {
      Pow2Add(a - 1, b);
      assert Pow2(a + b) == 2 * Pow2(a + b - 1);
      assert 2 * (Pow2(a - 1) * Pow2(b)) == (2 * Pow2(a - 1)) * Pow2(b);
    }
  }

  lemma {:induction false} Pow2Monotone(a: nat, b: nat)
    requires a <= b
    ensures Pow2(a) <= Pow2(b)
  {
    if a < b {
      Pow2Monotone(a, b - 1);
    }
  }

  lemma Pow2Values()
    ensures Pow2(32) == 0x1_0000_0000 && Pow2(63) == 0x8000_0000_0000_0000 && Pow2(64) == BASE
  {
    assert Pow2(8) == 256;
    Pow2Add(8, 8);
    Pow2Add(16, 16);
    Pow2Add(32, 32);
    Pow2Add(1, 63);
  }

  function BitOr(x: nat, y: nat): (r: nat)
    decreases x + y
  {
    if x == 0 && y == 0 then 0
    else 2 * BitOr(x / 2, y / 2) + (if x % 2 == 1 || y % 2 == 1 then 1 else 0)
  }

  function BitAnd(x: nat, y: nat): (r: nat)
    decreases x + y
  {
    if x == 0 && y == 0 then 0
    else 2 * BitAnd(x / 2, y / 2) + (if x % 2 == 1 && y % 2 == 1 then 1 else 0)
  }

  function BitXor(x: nat, y: nat): (r: nat)
    decreases x + y
  {
    if x == 0 && y == 0 then 0
    else 2 * BitXor(x / 2, y / 2) + (if x % 2 != y % 2 then 1 else 0)
  }

  /** XOR with the same value twice is the identity. */
  lemma {:induction false} BitXorTwice(x: nat, y: nat)
    ensures BitXor(BitXor(x, y), y) == x
    decreases x + y
  {
    if x != 0 || y != 0 {
      BitXorTwice(x / 2, y / 2);
      var z := BitXor(x, y);
      assert z / 2 == BitXor(x / 2, y / 2);
    }
  }

  lemma {:induction false} BitXorCommutes(x: nat, y: nat)
    ensures BitXor(x, y) == BitXor(y, x)
    decreases x + y
  {
    if x != 0 || y != 0 { BitXorCommutes(x / 2, y / 2); }
  }

  /** Different masks give different results. */
  lemma BitXorCancels(a: nat, x: nat, y: nat)
    requires BitXor(a, x) == BitXor(a, y)
    ensures x == y
  {
    BitXorCommutes(a, x);
    BitXorCommutes(a, y);
    BitXorTwice(x, a);
    BitXorTwice(y, a);
  }

  lemma {:induction false} BitXorBound(x: nat, y: nat, k: nat)
    requires x < Pow2(k) && y < Pow2(k)
    ensures BitXor(x, y) < Pow2(k)
    decreases k
  {
    if k > 0 {
      BitXorBound(x / 2, y / 2, k - 1);
    }
  }

  /** OR of a multiple of 2^k with a value below 2^k is their sum. */
  lemma {:induction false} BitOrDisjoint(a: nat, b: nat, k: nat)
    requires a % Pow2(k) == 0 && b < Pow2(k)
    ensures BitOr(a, b) == a + b
    decreases k, a
  {
    if a == 0 && b == 0 {
    } else if k == 0 {
      assert a / 2 % Pow2(0) == 0;
      BitOrDisjoint(a / 2, 0, 0);
    } else {
      HalfMultiple(a, Pow2(k - 1));
      BitOrDisjoint(a / 2, b / 2, k - 1);
    }
  }

  lemma HalfMultiple(a: nat, p: nat)
    requires p > 0 && a % (2 * p) == 0
    ensures a % 2 == 0 && (a / 2) % p == 0
  {
    var q := a / (2 * p);
    assert a == 2 * p * q == 2 * (p * q);
    assert a / 2 == p * q;
    MultipleMod(q, p);
  }

  lemma MultipleMod(q: nat, p: nat)
    requires p > 0
    ensures (p * q) % p == 0
  {
    DivModUnique(p * q, p, q, 0);
  }

  /** Quotient and remainder are the only pair that fits. */
  lemma DivModUnique(x: int, d: int, q: int, r: int)
    requires d > 0 && x == q * d + r && 0 <= r < d
    ensures x / d == q && x % d == r
  {
    var q', r' := x / d, x % d;
    assert x == q' * d + r';
    assert (q - q') * d == r' - r;
    if q > q' {
      MulLe(1, q - q', d);
    } else if q < q' {
      MulLe(q - q', -1, d);
    }
  }

  lemma MulLe(a: int, b: int, c: int)
    requires a <= b && 0 <= c
    ensures a * c <= b * c
  {
  }

  /** AND with k ones keeps the low k bits. */
  lemma {:induction false} BitAndLowMask(x: nat, k: nat)
    ensures BitAnd(x, Pow2(k) - 1) == x % Pow2(k)
    decreases k, x
  {
    if k == 0 {
      BitAndZero(x);
    } else {
      var p := Pow2(k - 1);
      BitAndLowMask(x / 2, k - 1);
      LowMaskDoubles(x, p);
    }
  }

  lemma LowMaskDoubles(x: nat, p: nat)
    requires p > 0 && BitAnd(x / 2, p - 1) == (x / 2) % p
    ensures BitAnd(x, 2 * p - 1) == x % (2 * p)
  {
    BitAndOdd(x, p);
    DoubleMod(x, p);
  }

  lemma BitAndOdd(x: nat, p: nat)
    requires p > 0
    ensures BitAnd(x, 2 * p - 1) == 2 * BitAnd(x / 2, p - 1) + x % 2
  {
    var m := 2 * p - 1;
    assert m / 2 == p - 1 && m % 2 == 1;
  }

  lemma DoubleMod(x: nat, p: nat)
    requires p > 0
    ensures x % (2 * p) == 2 * ((x / 2) % p) + x % 2
  {
    var q, r := (x / 2) / p, (x / 2) % p;
    assert x / 2 == q * p + r;
    assert q * (2 * p) == 2 * (q * p);
    DivModUnique(x, 2 * p, q, 2 * r + x % 2);
  }

  lemma {:induction false} BitAndZero(x: nat)
    ensures BitAnd(x, 0) == 0
  {
    if x != 0 {
      BitAndZero(x / 2);
    }
  }

  /** AND with an all-ones or all-zeros word, as `x & (0 - b)` selects x or 0. */
  lemma MaskWord(x: Word, b: int)
    requires b == 0 || b == 1
    ensures BitAnd(x, Wrap(0 - b)) == if b == 1 then x else 0
  {
    if b == 0 {
      BitAndZero(x);
    } else {
      Pow2Values();
      BitAndLowMask(x, 64);
    }
  }

  lemma LowBit(x: Word)
    ensures BitAnd(x, 1) == x % 2
  {
    assert Pow2(1) == 2;
    BitAndLowMask(x, 1);
  }

  //
  // Addition and subtraction with carry
  //

  datatype WithCarry = WithCarry(value: Word, carry: bool)

  function Bit(b: bool): Word { if b then 1 else 0 }

  /** The carry out is exactly the overflow of x + y + carry. */
  method AddWithCarry(x: Word, y: Word, carry: bool) returns (r: WithCarry)
    ensures x + y + Bit(carry) == r.value + Bit(r.carry) * BASE
  {
    var s := Plus(x, y);
    var carry1 := s < x;
    var t := Plus(s, Bit(carry));
    var carry2 := t < s;
    r := WithCarry(t, carry1 || carry2);
  }

  /** The carry out is exactly the borrow of x - y - carry. */
  method SubWithCarry(x: Word, y: Word, carry: bool) returns (r: WithCarry)
    ensures x - y - Bit(carry) == r.value - Bit(r.carry) * BASE
  {
    var d := Minus(x, y);
    var carry1 := x < y;
    var e := Minus(d, Bit(carry));
    var carry2 := d < Bit(carry);
    r := WithCarry(e, carry1 || carry2);
  }

  /** 64-bit product; k counts the multiples of 2^64 that wrap away. */
  method MulLow(x: Word, y: Word) returns (w: Word, ghost k: int)
    ensures x * y == k * BASE + w && k >= 0
  {
    w, k := Wrap(x * y), (x * y) / BASE;
  }

  /** 32-bit product of two words below 2^32. */
  method Mul32(x: Word, y: Word) returns (w: Word, ghost k: int)
    ensures x * y == k * HALF + w && w < HALF && k >= 0
  {
    w, k := (x * y) % HALF, (x * y) / HALF;
  }

  method Add128(x: U128, y: U128) returns (s: U128, ghost carry: bool)
    ensures Val(x) + Val(y) == Val(s) + Bit(carry) * BASE * BASE
  {
    var lo := AddWithCarry(x.lo, y.lo, false);
    var hi := AddWithCarry(x.hi, y.hi, lo.carry);
    s, carry := U128(lo.value, hi.value), hi.carry;
  }

  method Sub128(x: U128, y: U128) returns (d: U128, ghost carry: bool)
    ensures Val(x) - Val(y) == Val(d) - Bit(carry) * BASE * BASE
  {
    var lo := SubWithCarry(x.lo, y.lo, false);
    var hi := SubWithCarry(x.hi, y.hi, lo.carry);
    d, carry := U128(lo.value, hi.value), hi.carry;
  }

  /** Wrap-around is congruence: adding multiples of 2^64 inside changes nothing. */
  lemma WrapCong(x: int, y: int, k: int)
    requires x == y + k * BASE
    ensures Wrap(x) == Wrap(y)
  {
  }

  //
  // Full multiplication 64 x 64 -> 128
  //

  const HALF: int := 0x1_0000_0000

  /** Portable multiplication through 32-bit halves: the exact product, no carry lost. */
  method UMul(x: Word, y: Word) returns (p: U128)
    ensures Val(p) == x * y
  {
    var xl := BitAnd(x, 0xffff_ffff);
    var xh := x / HALF;
    var yl := BitAnd(y, 0xffff_ffff);
    var yh := y / HALF;
    LowHalf(x);
    LowHalf(y);
    HalfProducts(xl, xh, yl, yh);
    var t0 := Wrap(xl * yl);
    var t1 := Wrap(xh * yl);
    var t2 := Wrap(xl * yh);
    var t3 := Wrap(xh * yh);
    HalvesJoin(x, y, xl, xh, yl, yh, t0, t1, t2, t3);
    p := UMulJoin(t0, t1, t2, t3);
  }

  /** The carry-propagating half of `UMul`: sums the four partial products. */
  method UMulJoin(t0: Word, t1: Word, t2: Word, t3: Word) returns (p: U128)
    requires t0 <= (HALF - 1) * (HALF - 1) && t1 <= (HALF - 1) * (HALF - 1)
    requires t2 <= (HALF - 1) * (HALF - 1) && t3 <= (HALF - 1) * (HALF - 1)
    ensures Val(p) == t3 * HALF * HALF + (t1 + t2) * HALF + t0
  {
    var u1 := Wrap(t1 + t0 / HALF);
    var u2 := Wrap(t2 + BitAnd(u1, 0xffff_ffff));
    var lo := BitOr(Wrap(u2 * HALF), BitAnd(t0, 0xffff_ffff));
    var hi := Wrap(t3 + u2 / HALF + u1 / HALF);
    JoinExact(t0, t1, t2, t3, u1, u2);
    p := U128(lo, hi);
  }

  lemma JoinExact(t0: Word, t1: Word, t2: Word, t3: Word, u1: Word, u2: Word)
    requires t0 <= (HALF - 1) * (HALF - 1) && t1 <= (HALF - 1) * (HALF - 1)
    requires t2 <= (HALF - 1) * (HALF - 1) && t3 <= (HALF - 1) * (HALF - 1)
    requires u1 == Wrap(t1 + t0 / HALF)
    requires u2 == Wrap(t2 + BitAnd(u1, 0xffff_ffff))
    ensures BitOr(Wrap(u2 * HALF), BitAnd(t0, 0xffff_ffff)) < BASE
    ensures Wrap(t3 + u2 / HALF + u1 / HALF) * BASE + BitOr(Wrap(u2 * HALF), BitAnd(t0, 0xffff_ffff))
         == t3 * HALF * HALF + (t1 + t2) * HALF + t0
  {
    assert BitOr(Wrap(u2 * HALF), BitAnd(t0, 0xffff_ffff)) == u2 % HALF * HALF + t0 % HALF by {
      LowHalf(t0);
      JoinHalves(u2, t0 % HALF);
    }
    assert u2 == Wrap(t2 + u1 % HALF) by { LowHalf(u1); }
    JoinCarries(t0, t1, t2, t3, u1, u2);
  }

  /** The two middle sums do not wrap, and neither does the high word. */
  lemma JoinCarries(t0: Word, t1: Word, t2: Word, t3: Word, u1: Word, u2: Word)
    requires t0 <= (HALF - 1) * (HALF - 1) && t1 <= (HALF - 1) * (HALF - 1)
    requires t2 <= (HALF - 1) * (HALF - 1) && t3 <= (HALF - 1) * (HALF - 1)
    requires u1 == Wrap(t1 + t0 / HALF) && u2 == Wrap(t2 + u1 % HALF)
    ensures u2 % HALF * HALF + t0 % HALF < BASE
    ensures Wrap(t3 + u2 / HALF + u1 / HALF) * BASE + (u2 % HALF * HALF + t0 % HALF)
         == t3 * HALF * HALF + (t1 + t2) * HALF + t0
  {
    var h0, l0 := t0 / HALF, t0 % HALF;
    var h1, l1 := u1 / HALF, u1 % HALF;
    var h2, l2 := u2 / HALF, u2 % HALF;
    NoWrap(t1 + h0);
    NoWrap(t2 + l1);
    CarryJoin(t0, t1, t2, t3, h0, l0, h1, l1, h2, l2);
    NoWrap(t3 + h2 + h1);
  }

  lemma CarryJoin(t0: int, t1: int, t2: int, t3: int, h0: int, l0: int, h1: int, l1: int, h2: int, l2: int)
    requires t0 == h0 * HALF + l0 && t1 + h0 == h1 * HALF + l1 && t2 + l1 == h2 * HALF + l2
    requires 0 <= l0 < HALF && 0 <= l1 < HALF && 0 <= l2 < HALF
    requires 0 <= t0 <= (HALF - 1) * (HALF - 1) && 0 <= t1 <= (HALF - 1) * (HALF - 1)
    requires 0 <= t2 <= (HALF - 1) * (HALF - 1) && 0 <= t3 <= (HALF - 1) * (HALF - 1)
    ensures 0 <= t3 + h2 + h1 < BASE && l2 * HALF + l0 < BASE
    ensures (t3 + h2 + h1) * BASE + (l2 * HALF + l0) == t3 * HALF * HALF + (t1 + t2) * HALF + t0
  {
  }

  lemma NoWrap(x: int)
    requires 0 <= x < BASE
    ensures Wrap(x) == x
  {
  }

  lemma LowHalf(x: Word)
    ensures BitAnd(x, 0xffff_ffff) == x % HALF
  {
    Pow2Values();
    BitAndLowMask(x, 32);
  }

  lemma JoinHalves(u: Word, low: nat)
    requires low < HALF
    ensures BitOr(Wrap(u * HALF), low) == u % HALF * HALF + low
  {
    Pow2Values();
    assert Wrap(u * HALF) == u % HALF * HALF;
    BitOrDisjoint(u % HALF * HALF, low, 32);
  }

  lemma HalfProducts(xl: int, xh: int, yl: int, yh: int)
    requires 0 <= xl < HALF && 0 <= xh < HALF && 0 <= yl < HALF && 0 <= yh < HALF
    ensures 0 <= xl * yl <= (HALF - 1) * (HALF - 1) && 0 <= xh * yl <= (HALF - 1) * (HALF - 1)
    ensures 0 <= xl * yh <= (HALF - 1) * (HALF - 1) && 0 <= xh * yh <= (HALF - 1) * (HALF - 1)
  {
    HalfProduct(xl, yl);
    HalfProduct(xh, yl);
    HalfProduct(xl, yh);
    HalfProduct(xh, yh);
  }

  lemma HalfProduct(a: int, b: int)
    requires 0 <= a < HALF && 0 <= b < HALF
    ensures 0 <= a * b <= (HALF - 1) * (HALF - 1)
  {
    MulLe(a, HALF - 1, b);
    MulLe(b, HALF - 1, HALF - 1);
    MulLe(0, a, b);
  }

  lemma HalvesJoin(x: int, y: int, xl: int, xh: int, yl: int, yh: int, t0: int, t1: int, t2: int, t3: int)
    requires x == xh * HALF + xl && y == yh * HALF + yl
    requires t0 == xl * yl && t1 == xh * yl && t2 == xl * yh && t3 == xh * yh
    ensures x * y == t3 * HALF * HALF + (t1 + t2) * HALF + t0
  {
    calc {
      x * y;
      (xh * HALF + xl) * (yh * HALF + yl);
      xh * yh * HALF * HALF + (xh * yl + xl * yh) * HALF + xl * yl;
    }
  }
}
