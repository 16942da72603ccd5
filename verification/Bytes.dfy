/** Bytes, growing byte buffers and big-endian integers. */
module Bytes {
  import opened Words

  type Byte = x: int | 0 <= x < 256

  type ByteSeq = seq<Byte>

  datatype Option<+T> = None | Some(value: T) {
    predicate IsFailure() { None? }
    function PropagateFailure<U>(): Option<U> requires None? { None }
    function Extract(): T requires Some? { value }
  }

  /** The n low bytes of v, most significant first. */
  function BigEndian(v: nat, n: nat): (s: ByteSeq)
    ensures |s| == n
  {
    if n == 0 then [] else BigEndian(v / 256, n - 1) + [v % 256]
  }

  function FromBigEndian(s: ByteSeq): nat {
    if |s| == 0 then 0 else FromBigEndian(s[..|s| - 1]) * 256 + s[|s| - 1]
  }

  lemma Pow256(n: nat)
    ensures Pow2(8 * (n + 1)) == 256 * Pow2(8 * n)
  {
    Pow2Add(8, 8 * n);
    assert Pow2(8) == 256;
  }

  lemma {:induction false} FromBigEndianBound(s: ByteSeq)
    ensures FromBigEndian(s) < Pow2(8 * |s|)
  {
    if |s| > 0 {
      FromBigEndianBound(s[..|s| - 1]);
      Pow256(|s| - 1);
    }
  }

  lemma {:induction false} DecodeEncode(v: nat, n: nat)
    requires v < Pow2(8 * n)
    ensures FromBigEndian(BigEndian(v, n)) == v
  {
    if n > 0 {
      Pow256(n - 1);
      DecodeEncode(v / 256, n - 1);
      var s := BigEndian(v, n);
      assert s[..n - 1] == BigEndian(v / 256, n - 1);
    }
  }

  lemma {:induction false} EncodeDecode(s: ByteSeq)
    ensures BigEndian(FromBigEndian(s), |s|) == s
  {
    if |s| > 0 {
      var front, last := s[..|s| - 1], s[|s| - 1];
      EncodeDecode(front);
      var v := FromBigEndian(front) * 256 + last;
      assert v / 256 == FromBigEndian(front) && v % 256 == last;
      assert s == front + [last];
    }
  }

  //
  // The shift loops of the byte-encoding header
  //

  /** value >> 8 k, one byte at a time. */
  ghost function HighBytes(value: nat, k: nat): nat {
    if k == 0 then value else HighBytes(value, k - 1) / 256
  }

  lemma {:induction false} HighBytesIsDiv(value: nat, k: nat)
    ensures value / Pow2(8 * k) == HighBytes(value, k)
  {
    if k == 0 {
      assert Pow2(0) == 1;
    } else {
      HighBytesIsDiv(value, k - 1);
      Pow256(k - 1);
      DivTwice(value, Pow2(8 * (k - 1)));
    }
  }

  lemma DivTwice(value: nat, p: nat)
    requires p > 0
    ensures (value / p) / 256 == value / (256 * p)
  {
    var q, r := value / p, value % p;
    assert value == q * p + r;
    assert q >= 0 by { if q < 0 { MulLe(q, -1, p); } }
    var q', r' := q / 256, q % 256;
    assert q * p == q' * (256 * p) + r' * p;
    MulLe(r', 255, p);
    MulLe(0, r', p);
    DivModUnique(value, 256 * p, q', r' * p + r);
  }

  /** The byte the append loops take at a shift: (value >> 8 k) & 0xFF. */
  method ByteAt(value: nat, k: nat) returns (b: Byte)
    ensures b == HighBytes(value, k) % 256
  {
    HighBytesIsDiv(value, k);
    assert Pow2(8) == 256;
    BitAndLowMask(HighBytes(value, k), 8);
    b := BitAnd(value / Pow2(8 * k), 0xff);
  }

  class ByteBuffer {
    var bytes: ByteSeq

    constructor ()
      ensures bytes == []
    {
      bytes := [];
    }

    /** append_u32_be, append_u64_be and append_uint256_be, for 4, 8 and 32 bytes. */
    method AppendUint(value: nat, width: nat)
      modifies this
      ensures bytes == old(bytes) + BigEndian(value, width)
    {
      ghost var before := bytes;
      var k := width;
      while k > 0
        invariant 0 <= k <= width
        invariant bytes == before + BigEndian(HighBytes(value, k), width - k)
      {
        k := k - 1;
        var b := ByteAt(value, k);
        assert HighBytes(value, k + 1) == HighBytes(value, k) / 256;
        bytes := bytes + [b];
      }
    }

    method AppendArray(value: ByteSeq)
      modifies this
      ensures bytes == old(bytes) + value
    {
      bytes := bytes + value;
    }

    method AppendLengthPrefixedBytes(value: ByteSeq)
      modifies this
      ensures bytes == old(bytes) + BigEndian(|value|, 8) + value
    {
      AppendUint(|value|, 8);
      AppendArray(value);
    }

    method AppendLengthPrefixedArrays(values: seq<ByteSeq>)
      modifies this
      ensures bytes == old(bytes) + BigEndian(|values|, 8) + Flatten(values)
    {
      AppendUint(|values|, 8);
      ghost var before := bytes;
      for i := 0 to |values|
        invariant bytes == before + Flatten(values[..i])
      {
        AppendArray(values[i]);
        assert values[..i + 1][..i] == values[..i];
      }
      assert values[..|values|] == values;
    }
  }

  function Flatten(values: seq<ByteSeq>): ByteSeq {
    if |values| == 0 then [] else Flatten(values[..|values| - 1]) + values[|values| - 1]
  }

  lemma Assoc(a: ByteSeq, b: ByteSeq, c: ByteSeq)
    ensures (a + b) + c == a + (b + c)
  {
  }

  /** Four fields appended to z one by one. */
  lemma AppendFour(z: ByteSeq, a: ByteSeq, b: ByteSeq, c: ByteSeq, d: ByteSeq)
    ensures z + a + b + c + d == z + (a + (b + (c + d)))
  {
    Assoc(z, a, b);
    Assoc(z, a + b, c);
    Assoc(z, a + b + c, d);
    Assoc(a, b, c);
    Assoc(a, b + c, d);
    Assoc(b, c, d);
  }
}
