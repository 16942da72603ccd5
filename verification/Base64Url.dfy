/**
 The base64url decoder of ENR strings, and the encoding of section 5 of RFC 4648 it undoes.
 Characters are bytes.
 */
module Base64Url {
  import opened Words
  import opened Bytes

  type Sextet = x: int | 0 <= x < 64

  const PAD: Byte := 61       // '='
  const INVALID: Byte := 0xff
  const WIDTH: int := 0x1_0000_0000  // the accumulator is a 32-bit word

  /** The decode table: A-Z, a-z, 0-9, '-' and '_' in this order, everything else invalid. */
  function Table(ch: Byte): (v: Byte)
    ensures v < 64 || v == INVALID
    ensures ch == PAD ==> v == INVALID
  {
    if 65 <= ch < 65 + 26 then ch - 65
    else if 97 <= ch < 97 + 26 then 26 + (ch - 97)
    else if 48 <= ch < 48 + 10 then 52 + (ch - 48)
    else if ch == 45 then 62
    else if ch == 95 then 63
    else INVALID
  }

  /** The alphabet of RFC 4648, table 2. */
  function Alphabet(v: Sextet): (ch: Byte)
    ensures Table(ch) == v
  {
    if v < 26 then 65 + v
    else if v < 52 then 97 + (v - 26)
    else if v < 62 then 48 + (v - 52)
    else if v == 62 then 45
    else 95
  }

  /** The number written by sextets, most significant first. */
  ghost function Value64(g: seq<Sextet>): nat {
    if |g| == 0 then 0 else Value64(g[..|g| - 1]) * 64 + g[|g| - 1]
  }

  /** v without its low k bits. */
  ghost function Dropped(v: nat, k: nat): nat {
    var p := Pow2(k);
    assert v / p >= 0 by { if v / p < 0 { MulLe(v / p, -1, p); } }
    v / p
  }

  ghost predicate ValidChars(s: ByteSeq) {
    forall i :: 0 <= i < |s| ==> Table(s[i]) != INVALID
  }

  ghost function Sextets(s: ByteSeq): (g: seq<Sextet>)
    requires ValidChars(s)
    ensures |g| == |s| && forall i :: 0 <= i < |s| ==> g[i] == Table(s[i])
  {
    seq(|s|, i requires 0 <= i < |s| => Table(s[i]) as Sextet)
  }

  //
  // The decoder
  //

  /** Length without trailing '=' characters. */
  ghost function Unpadded(body: ByteSeq): (n: nat)
    ensures n <= |body|
  {
    if |body| > 0 && body[|body| - 1] == PAD then Unpadded(body[..|body| - 1]) else |body|
  }

  method EffectiveLength(body: ByteSeq) returns (n: nat)
    ensures n == Unpadded(body)
  {
    n := |body|;
    assert body[..n] == body;
    while n > 0 && body[n - 1] == PAD
      invariant n <= |body| && Unpadded(body) == Unpadded(body[..n])
    {
      assert body[..n][..n - 1] == body[..n - 1];
      n := n - 1;
    }
  }

  /**
   What decoding means: refused when a character before the padding is outside the alphabet; otherwise
   the floor(6 n / 8) bytes of the number the n characters write, less the bits left over.
   */
  ghost function Decoding(body: ByteSeq): Option<ByteSeq> {
    var n := Unpadded(body);
    if !ValidChars(body[..n]) then None
    else Some(BigEndian(Dropped(Value64(Sextets(body[..n])), 6 * n - 8 * (6 * n / 8)), 6 * n / 8))
  }

  /** The accumulator holds the low 32 bits of everything read. */
  method ShiftInSextet(acc: nat, v: Sextet, ghost total: nat) returns (acc': nat)
    requires acc == total % WIDTH
    ensures acc' == (total * 64 + v) % WIDTH
  {
    assert Pow2(6) == 64;
    SextetFits(acc, v, total);
    BitOrDisjoint((acc * 64) % WIDTH, v, 6);
    acc' := BitOr((acc * 64) % WIDTH, v);
  }

  lemma SextetFits(acc: nat, v: Sextet, total: nat)
    requires acc == total % WIDTH
    ensures ((acc * 64) % WIDTH) % 64 == 0 && (acc * 64) % WIDTH + v == (total * 64 + v) % WIDTH
  {
    var q := total / WIDTH;
    assert total == q * WIDTH + acc;
    var k, m := acc / (WIDTH / 64), acc % (WIDTH / 64);
    assert acc * 64 == k * WIDTH + m * 64;
    DivModUnique(acc * 64, WIDTH, k, m * 64);
    DivModUnique(total * 64 + v, WIDTH, q * 64 + k, m * 64 + v);
  }

  /** The byte taken from the accumulator is a byte of the whole number: wrap-around stays above it. */
  method EmitByte(acc: nat, bits: nat, ghost total: nat) returns (b: Byte)
    requires acc == total % WIDTH && bits in {0, 2, 4, 6}
    ensures b == (total / Pow2(bits)) % 256
  {
    SmallPowers();
    BitAndLowMask(acc / Pow2(bits), 8);
    LowBitsKept(total, bits);
    b := BitAnd(acc / Pow2(bits), 0xff);
  }

  lemma SmallPowers()
    ensures Pow2(0) == 1 && Pow2(2) == 4 && Pow2(4) == 16 && Pow2(6) == 64 && Pow2(8) == 256
  {
  }

  lemma LowBitsKept(total: nat, bits: nat)
    requires bits in {0, 2, 4, 6}
    ensures ((total % WIDTH) / Pow2(bits)) % 256 == (total / Pow2(bits)) % 256
  {
    SmallPowers();
    LowKept(total, WIDTH, Pow2(bits), WIDTH / 256 / Pow2(bits));
  }

  lemma LowKept(total: nat, w: nat, p: nat, k: nat)
    requires p > 0 && w == p * (256 * k) && w > 0
    ensures ((total % w) / p) % 256 == (total / p) % 256
  {
    var q, r := total / w, total % w;
    var s, t := r / p, r % p;
    assert r == s * p + t && total == q * w + r;
    assert q * w == (256 * (q * k)) * p;
    assert (256 * (q * k) + s) * p == (256 * (q * k)) * p + s * p;
    DivModUnique(total, p, 256 * (q * k) + s, t);
    DivModUnique(256 * (q * k) + s, 256, q * k + s / 256, s % 256);
  }

  /** After reading sextets g: `out` is the number they write, less the `bits` bits not yet emitted. */
  ghost predicate Decoded(g: seq<Sextet>, out: ByteSeq, bits: nat) {
    bits in {0, 2, 4, 6} && 8 * |out| + bits == 6 * |g| && FromBigEndian(out) == Dropped(Value64(g), bits)
  }

  method Decode(body: ByteSeq) returns (r: Option<ByteSeq>)
    ensures r == Decoding(body)
  {
    var n := EffectiveLength(body);
    var out: ByteSeq, accumulator: nat, bits: nat := [], 0, 0;
    SmallPowers();
    for i := 0 to n
      invariant Reading(body, i, out, bits, accumulator)
    {
      if Table(body[i]) == INVALID {
        assert body[..n][i] == body[i];
        return None;
      }
      out, bits, accumulator := ReadCharacter(body, i, out, bits, accumulator);
    }
    EncodeDecode(out);
    assert |out| == 6 * n / 8;
    r := Some(out);
  }

  ghost predicate Reading(body: ByteSeq, i: nat, out: ByteSeq, bits: nat, accumulator: nat) {
    && i <= |body| && ValidChars(body[..i])
    && Decoded(Sextets(body[..i]), out, bits)
    && accumulator == Value64(Sextets(body[..i])) % WIDTH
  }

  /** One turn of the loop. */
  method ReadCharacter(body: ByteSeq, i: nat, out: ByteSeq, bits: nat, accumulator: nat)
    returns (out': ByteSeq, bits': nat, accumulator': nat)
    requires Reading(body, i, out, bits, accumulator) && i < |body| && Table(body[i]) != INVALID
    ensures Reading(body, i + 1, out', bits', accumulator')
  {
    var val := Table(body[i]);
    ghost var g := Sextets(body[..i]);
    NextSextet(body, i);
    accumulator' := ShiftInSextet(accumulator, val, Value64(g));
    bits' := bits + 6;
    out' := out;
    if bits' >= 8 {
      bits' := bits' - 8;
      var b := EmitByte(accumulator', bits', Value64(g + [val]));
      EmitStep(g, val, out, bits', b);
      out' := out + [b];
    } else {
      HoldStep(g, val, out, bits');
    }
  }

  lemma NextSextet(body: ByteSeq, i: nat)
    requires i < |body| && ValidChars(body[..i]) && Table(body[i]) != INVALID
    ensures ValidChars(body[..i + 1]) && Sextets(body[..i + 1]) == Sextets(body[..i]) + [Table(body[i])]
    ensures Value64(Sextets(body[..i + 1])) == Value64(Sextets(body[..i])) * 64 + Table(body[i])
  {
    var g, v := Sextets(body[..i]), Table(body[i]) as Sextet;
    assert (g + [v])[..i] == g;
  }

  lemma HoldStep(g: seq<Sextet>, v: Sextet, out: ByteSeq, bits: nat)
    requires bits == 6 && Decoded(g, out, 0)
    ensures Decoded(g + [v], out, 6)
  {
    SmallPowers();
    assert (g + [v])[..|g|] == g;
  }

  lemma EmitStep(g: seq<Sextet>, v: Sextet, out: ByteSeq, bits: nat, b: Byte)
    requires bits in {0, 2, 4} && Decoded(g, out, bits + 2) && b == (Value64(g + [v]) / Pow2(bits)) % 256
    ensures Decoded(g + [v], out + [b], bits)
  {
    SmallPowers();
    assert (g + [v])[..|g|] == g;
    assert (out + [b])[..|out|] == out;
    var x := Value64(g);
    if bits == 0 {
      assert x / 4 == (x * 64 + v) / 256;
    } else if bits == 2 {
      assert x / 16 == ((x * 64 + v) / 4) / 256;
    } else {
      assert x / 64 == ((x * 64 + v) / 16) / 256;
    }
  }

  //
  // The encoding of RFC 4648
  //

  /** Three bytes make four characters; a last group of one or two bytes is filled up with zero bits. */
  function Encoding(b: ByteSeq): (g: seq<Sextet>)
    ensures 8 * |b| <= 6 * |g| < 8 * |b| + 6
  {
    if |b| == 0 then []
    else if |b| == 1 then [b[0] / 4, b[0] % 4 * 16]
    else if |b| == 2 then [b[0] / 4, b[0] % 4 * 16 + b[1] / 16, b[1] % 16 * 4]
    else [b[0] / 4, b[0] % 4 * 16 + b[1] / 16, b[1] % 16 * 4 + b[2] / 64, b[2] % 64] + Encoding(b[3..])
  }

  function EncodeText(b: ByteSeq): (s: ByteSeq)
    ensures |s| == |Encoding(b)| && forall i :: 0 <= i < |s| ==> s[i] == Alphabet(Encoding(b)[i])
  {
    var g := Encoding(b);
    seq(|g|, i requires 0 <= i < |g| => Alphabet(g[i]))
  }

  function Padding(k: nat): (p: ByteSeq)
    ensures |p| == k && forall i :: 0 <= i < k ==> p[i] == PAD
  {
    seq(k, i => PAD)
  }

  lemma {:induction false} Value64Concat(x: seq<Sextet>, y: seq<Sextet>)
    ensures Value64(x + y) == Value64(x) * Pow2(6 * |y|) + Value64(y)
  {
    if |y| == 0 {
      assert x + y == x;
      assert Pow2(0) == 1;
    } else {
      var y' := y[..|y| - 1];
      assert (x + y)[..|x + y| - 1] == x + y';
      Value64Concat(x, y');
      Pow2Add(6, 6 * |y'|);
      assert Pow2(6) == 64;
      ConcatArith(Value64(x), Pow2(6 * |y'|), 64, Value64(y'), y[|y| - 1]);
    }
  }

  lemma {:induction false} BigEndianConcat(x: ByteSeq, y: ByteSeq)
    ensures FromBigEndian(x + y) == FromBigEndian(x) * Pow2(8 * |y|) + FromBigEndian(y)
  {
    if |y| == 0 {
      assert x + y == x;
      assert Pow2(0) == 1;
    } else {
      var y' := y[..|y| - 1];
      assert (x + y)[..|x + y| - 1] == x + y';
      BigEndianConcat(x, y');
      Pow256(|y'|);
      ConcatArith(FromBigEndian(x), Pow2(8 * |y'|), 256, FromBigEndian(y'), y[|y| - 1]);
    }
  }

  lemma ConcatArith(x: int, p: int, b: int, y: int, d: int)
    ensures (x * p + y) * b + d == x * (b * p) + (y * b + d)
  {
  }

  lemma ThreeBytes(b: ByteSeq)
    requires 1 <= |b| <= 3
    ensures |b| == 1 ==> FromBigEndian(b) == b[0]
    ensures |b| == 2 ==> FromBigEndian(b) == (b[0] as int) * 256 + b[1]
    ensures |b| == 3 ==> FromBigEndian(b) == ((b[0] as int) * 256 + b[1]) * 256 + b[2]
  {
    if |b| > 1 {
      ThreeBytes(b[..|b| - 1]);
    }
  }

  lemma FourSextets(a: Sextet, b: Sextet, c: Sextet, d: Sextet)
    ensures Value64([a, b]) == (a as int) * 64 + b
    ensures Value64([a, b, c]) == ((a as int) * 64 + b) * 64 + c
    ensures Value64([a, b, c, d]) == (((a as int) * 64 + b) * 64 + c) * 64 + d
  {
    assert [a, b, c, d][..3] == [a, b, c];
    assert [a, b, c][..2] == [a, b];
    assert [a, b][..1] == [a];
    assert [a][..0] == [];
    assert Value64([a]) == a;
    assert Value64([a, b]) == (a as int) * 64 + b;
    assert Value64([a, b, c]) == ((a as int) * 64 + b) * 64 + c;
  }

  lemma OneByteLeft(b: ByteSeq) returns (v: int, g: int, p: int)
    requires |b| == 1
    ensures v == FromBigEndian(b) && g == Value64(Encoding(b)) && p == Pow2(6 * |Encoding(b)| - 8 * |b|)
    ensures p == 16 && g == 16 * v
  {
    FourSextets(b[0] / 4, b[0] % 4 * 16, 0, 0);
    ThreeBytes(b);
    SmallPowers();
    assert 6 * |Encoding(b)| - 8 * |b| == 4;
    v, g, p := b[0], 16 * (b[0] as int), 16;
  }

  lemma TwoBytesLeft(b: ByteSeq) returns (v: int, g: int, p: int)
    requires |b| == 2
    ensures v == FromBigEndian(b) && g == Value64(Encoding(b)) && p == Pow2(6 * |Encoding(b)| - 8 * |b|)
    ensures p == 4 && g == 4 * v
  {
    FourSextets(b[0] / 4, b[0] % 4 * 16 + b[1] / 16, b[1] % 16 * 4, 0);
    ThreeBytes(b);
    SmallPowers();
    assert 6 * |Encoding(b)| - 8 * |b| == 2;
    v, p := (b[0] as int) * 256 + b[1], 4;
    g := 4 * v;
  }

  lemma LastGroup(b: ByteSeq)
    requires |b| < 3
    ensures Value64(Encoding(b)) == FromBigEndian(b) * Pow2(6 * |Encoding(b)| - 8 * |b|)
  {
    if |b| == 0 {
      SmallPowers();
    } else if |b| == 1 {
      var v, g, p := OneByteLeft(b);
      assert v * p == 16 * v;
    } else {
      var v, g, p := TwoBytesLeft(b);
      assert v * p == 4 * v;
    }
  }

  /** The characters write the bytes' number, followed by the fill bits. */
  lemma {:induction false} EncodingValue(b: ByteSeq)
    ensures Value64(Encoding(b)) == FromBigEndian(b) * Pow2(6 * |Encoding(b)| - 8 * |b|)
  {
    if |b| < 3 {
      LastGroup(b);
    } else {
      var x, m := FirstGroup(b);
      EncodingValue(b[3..]);
      GroupArith(x, FromBigEndian(b[3..]), Pow2(8 * |b[3..]|), Pow2(m));
    }
  }

  lemma FirstGroup(b: ByteSeq) returns (x: int, m: nat)
    requires |b| >= 3
    ensures m == 6 * |Encoding(b)| - 8 * |b| == 6 * |Encoding(b[3..])| - 8 * |b[3..]|
    ensures Value64(Encoding(b)) == x * (Pow2(8 * |b[3..]|) * Pow2(m)) + Value64(Encoding(b[3..]))
    ensures FromBigEndian(b) == x * Pow2(8 * |b[3..]|) + FromBigEndian(b[3..])
  {
    var g: seq<Sextet> := [b[0] / 4, b[0] % 4 * 16 + b[1] / 16, b[1] % 16 * 4 + b[2] / 64, b[2] % 64];
    var rest := Encoding(b[3..]);
    m := 6 * |rest| - 8 * |b[3..]|;
    assert Encoding(b) == g + rest;
    Value64Concat(g, rest);
    x := GroupValue(b, g);
    Pow2Add(8 * |b[3..]|, m);
    assert FromBigEndian(b) == x * Pow2(8 * |b[3..]|) + FromBigEndian(b[3..]) by {
      assert b == b[..3] + b[3..];
      BigEndianConcat(b[..3], b[3..]);
    }
  }

  lemma GroupValue(b: ByteSeq, g: seq<Sextet>) returns (x: int)
    requires |b| >= 3 && g == [b[0] / 4, b[0] % 4 * 16 + b[1] / 16, b[1] % 16 * 4 + b[2] / 64, b[2] % 64]
    ensures x == Value64(g) == FromBigEndian(b[..3])
  {
    FourSextets(g[0], g[1], g[2], g[3]);
    ThreeBytes(b[..3]);
    x := Value64(g);
  }

  lemma GroupArith(x: int, y: int, p: int, q: int)
    ensures x * (p * q) + y * q == (x * p + y) * q
  {
  }

  lemma {:induction false} UnpaddedPadding(s: ByteSeq, k: nat)
    requires |s| > 0 ==> s[|s| - 1] != PAD
    ensures Unpadded(s + Padding(k)) == |s|
  {
    if k == 0 {
      assert s + Padding(0) == s;
    } else {
      assert (s + Padding(k))[..|s| + k - 1] == s + Padding(k - 1);
      UnpaddedPadding(s, k - 1);
    }
  }

  /** Decoding returns the original bytes for every encoding, with any amount of padding or none. */
  lemma RoundTrip(b: ByteSeq, k: nat)
    ensures Decoding(EncodeText(b) + Padding(k)) == Some(b)
  {
    var s, g := EncodeText(b), Encoding(b);
    assert ValidChars(s);
    UnpaddedPadding(s, k);
    assert (s + Padding(k))[..|s|] == s;
    assert Sextets(s) == g;
    Undo(b, |s|);
  }

  lemma Undo(b: ByteSeq, n: nat)
    requires n == |Encoding(b)|
    ensures 6 * n / 8 == |b|
    ensures BigEndian(Dropped(Value64(Encoding(b)), 6 * n - 8 * (6 * n / 8)), 6 * n / 8) == b
  {
    EncodingValue(b);
    var v, p := FromBigEndian(b), Pow2(6 * n - 8 * |b|);
    DivModUnique(v * p, p, v, 0);
    EncodeDecode(b);
  }
}
