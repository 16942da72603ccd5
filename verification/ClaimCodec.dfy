/**
 Canonical bytes of bridge event claims.  The encoder appends fields to a buffer; the decoder reads
 them back with a cursor and refuses anything left over.
 */
module ClaimCodec {
  import opened Words
  import opened Bytes

  datatype ClaimFields = ClaimFields(
    srcChainId: nat, destChainId: nat, bridgeContract: ByteSeq,
    blockNumber: nat, blockHash: ByteSeq, txHash: ByteSeq, logIndex: nat,
    eventTopic0: ByteSeq, topics: seq<ByteSeq>, data: ByteSeq,
    sender: ByteSeq, tokenIdOrNonce: nat, amount: nat, recipient: ByteSeq,
    observedAt: nat, finalityDepth: nat)

  predicate Arrays(values: seq<ByteSeq>, n: nat) {
    forall i :: 0 <= i < |values| ==> |values[i]| == n
  }

  /** The widths the C++ field types impose. */
  predicate WellTyped(c: ClaimFields) {
    && c.srcChainId < Pow2(64) && c.destChainId < Pow2(64) && |c.bridgeContract| == 20
    && c.blockNumber < Pow2(64) && |c.blockHash| == 32 && |c.txHash| == 32 && c.logIndex < Pow2(32)
    && |c.eventTopic0| == 32 && Arrays(c.topics, 32) && |c.topics| < Pow2(64) && |c.data| < Pow2(64)
    && |c.sender| == 20 && c.tokenIdOrNonce < Pow2(256) && c.amount < Pow2(256) && |c.recipient| == 20
    && c.observedAt < Pow2(64) && c.finalityDepth < Pow2(64)
  }

  /** "GNUS_BRIDGE_EVENT_V1" */
  const DOMAIN: ByteSeq :=
    [71, 78, 85, 83, 95, 66, 82, 73, 68, 71, 69, 95, 69, 86, 69, 78, 84, 95, 86, 49]

  //
  // Encoding
  //

  function EncodeChains(c: ClaimFields): ByteSeq {
    DOMAIN + (BigEndian(c.srcChainId, 8) + (BigEndian(c.destChainId, 8) + c.bridgeContract))
  }

  function EncodeLocation(c: ClaimFields): ByteSeq {
    BigEndian(c.blockNumber, 8) + (c.blockHash + (c.txHash + BigEndian(c.logIndex, 4)))
  }

  function EncodeEvent(c: ClaimFields): ByteSeq {
    c.eventTopic0 + ((BigEndian(|c.topics|, 8) + Flatten(c.topics)) + (BigEndian(|c.data|, 8) + c.data))
  }

  function EncodeTransfer(c: ClaimFields): ByteSeq {
    c.sender + (BigEndian(c.tokenIdOrNonce, 32) + (BigEndian(c.amount, 32) + c.recipient))
  }

  function EncodeTimes(c: ClaimFields): ByteSeq {
    BigEndian(c.observedAt, 8) + BigEndian(c.finalityDepth, 8)
  }

  function Encode(c: ClaimFields): ByteSeq {
    EncodeChains(c) + (EncodeLocation(c) + (EncodeEvent(c) + (EncodeTransfer(c) + EncodeTimes(c))))
  }

  method ClaimPayload(c: ClaimFields) returns (payload: ByteSeq)
    requires WellTyped(c)
    ensures payload == Encode(c)
  {
    var out := new ByteBuffer();
    AppendChains(out, c);
    AppendLocation(out, c);
    AppendEvent(out, c);
    AppendTransfer(out, c);
    AppendTimes(out, c);
    EncodeJoin(c);
    payload := out.bytes;
  }

  lemma EncodeJoin(c: ClaimFields)
    ensures [] + EncodeChains(c) + EncodeLocation(c) + EncodeEvent(c) + EncodeTransfer(c) + EncodeTimes(c) == Encode(c)
  {
    AppendFour([] + EncodeChains(c), EncodeLocation(c), EncodeEvent(c), EncodeTransfer(c), EncodeTimes(c));
    assert [] + EncodeChains(c) == EncodeChains(c);
  }

  method AppendChains(out: ByteBuffer, c: ClaimFields)
    modifies out
    ensures out.bytes == old(out.bytes) + EncodeChains(c)
  {
    ghost var z := out.bytes;
    out.AppendArray(DOMAIN);
    out.AppendUint(c.srcChainId, 8);
    out.AppendUint(c.destChainId, 8);
    out.AppendArray(c.bridgeContract);
    AppendFour(z, DOMAIN, BigEndian(c.srcChainId, 8), BigEndian(c.destChainId, 8), c.bridgeContract);
  }

  method AppendLocation(out: ByteBuffer, c: ClaimFields)
    modifies out
    ensures out.bytes == old(out.bytes) + EncodeLocation(c)
  {
    ghost var z := out.bytes;
    out.AppendUint(c.blockNumber, 8);
    out.AppendArray(c.blockHash);
    out.AppendArray(c.txHash);
    out.AppendUint(c.logIndex, 4);
    AppendFour(z, BigEndian(c.blockNumber, 8), c.blockHash, c.txHash, BigEndian(c.logIndex, 4));
  }

  method AppendEvent(out: ByteBuffer, c: ClaimFields)
    modifies out
    ensures out.bytes == old(out.bytes) + EncodeEvent(c)
  {
    ghost var z := out.bytes;
    out.AppendArray(c.eventTopic0);
    out.AppendLengthPrefixedArrays(c.topics);
    out.AppendLengthPrefixedBytes(c.data);
    var topics, data := BigEndian(|c.topics|, 8) + Flatten(c.topics), BigEndian(|c.data|, 8) + c.data;
    Assoc(z + c.eventTopic0, BigEndian(|c.topics|, 8), Flatten(c.topics));
    Assoc(z + c.eventTopic0 + topics, BigEndian(|c.data|, 8), c.data);
    Assoc(z, c.eventTopic0, topics);
    Assoc(z, c.eventTopic0 + topics, data);
    Assoc(c.eventTopic0, topics, data);
  }

  method AppendTransfer(out: ByteBuffer, c: ClaimFields)
    modifies out
    ensures out.bytes == old(out.bytes) + EncodeTransfer(c)
  {
    ghost var z := out.bytes;
    out.AppendArray(c.sender);
    out.AppendUint(c.tokenIdOrNonce, 32);
    out.AppendUint(c.amount, 32);
    out.AppendArray(c.recipient);
    AppendFour(z, c.sender, BigEndian(c.tokenIdOrNonce, 32), BigEndian(c.amount, 32), c.recipient);
  }

  method AppendTimes(out: ByteBuffer, c: ClaimFields)
    modifies out
    ensures out.bytes == old(out.bytes) + EncodeTimes(c)
  {
    ghost var z := out.bytes;
    out.AppendUint(c.observedAt, 8);
    out.AppendUint(c.finalityDepth, 8);
    Assoc(z, BigEndian(c.observedAt, 8), BigEndian(c.finalityDepth, 8));
  }

  //
  // Where each field stands
  //

  /** `x` stands in `s` from byte `i` on. */
  predicate StandsAt(s: ByteSeq, i: nat, x: ByteSeq) { i + |x| <= |s| && s[i..i + |x|] == x }

  /** From byte `i` on, `s` is `rest`. */
  predicate GoesOn(s: ByteSeq, i: nat, rest: ByteSeq) { i <= |s| && s[i..] == rest }

  lemma FieldStands(s: ByteSeq, i: nat, x: ByteSeq, rest: ByteSeq)
    requires GoesOn(s, i, x + rest)
    ensures StandsAt(s, i, x) && GoesOn(s, i + |x|, rest)
  {
    assert s[i..][..|x|] == s[i..i + |x|] && s[i..][|x|..] == s[i + |x|..];
    assert (x + rest)[..|x|] == x && (x + rest)[|x|..] == rest;
  }

  lemma FourStand(s: ByteSeq, i: nat, a: ByteSeq, b: ByteSeq, c: ByteSeq, d: ByteSeq, rest: ByteSeq)
    requires GoesOn(s, i, (a + (b + (c + d))) + rest)
    ensures StandsAt(s, i, a) && StandsAt(s, i + |a|, b) && StandsAt(s, i + |a| + |b|, c)
    ensures StandsAt(s, i + |a| + |b| + |c|, d) && GoesOn(s, i + |a| + |b| + |c| + |d|, rest)
  {
    Assoc(a, b + (c + d), rest);
    Assoc(b, c + d, rest);
    Assoc(c, d, rest);
    FieldStands(s, i, a, b + (c + (d + rest)));
    FieldStands(s, i + |a|, b, c + (d + rest));
    FieldStands(s, i + |a| + |b|, c, d + rest);
    FieldStands(s, i + |a| + |b| + |c|, d, rest);
  }

  lemma ChainsStand(c: ClaimFields, s: ByteSeq, rest: ByteSeq)
    requires |c.bridgeContract| == 20 && GoesOn(s, 0, EncodeChains(c) + rest)
    ensures StandsAt(s, 0, DOMAIN) && StandsAt(s, 20, BigEndian(c.srcChainId, 8))
    ensures StandsAt(s, 28, BigEndian(c.destChainId, 8)) && StandsAt(s, 36, c.bridgeContract) && GoesOn(s, 56, rest)
  {
    FourStand(s, 0, DOMAIN, BigEndian(c.srcChainId, 8), BigEndian(c.destChainId, 8), c.bridgeContract, rest);
  }

  lemma LocationStands(c: ClaimFields, s: ByteSeq, rest: ByteSeq)
    requires |c.blockHash| == 32 && |c.txHash| == 32 && GoesOn(s, 56, EncodeLocation(c) + rest)
    ensures StandsAt(s, 56, BigEndian(c.blockNumber, 8)) && StandsAt(s, 64, c.blockHash) && StandsAt(s, 96, c.txHash)
    ensures StandsAt(s, 128, BigEndian(c.logIndex, 4)) && GoesOn(s, 132, rest)
  {
    FourStand(s, 56, BigEndian(c.blockNumber, 8), c.blockHash, c.txHash, BigEndian(c.logIndex, 4), rest);
  }

  lemma EventStands(c: ClaimFields, s: ByteSeq, m: nat, rest: ByteSeq)
    requires |c.eventTopic0| == 32 && |Flatten(c.topics)| == m && GoesOn(s, 132, EncodeEvent(c) + rest)
    ensures StandsAt(s, 132, c.eventTopic0) && StandsAt(s, 164, BigEndian(|c.topics|, 8))
    ensures StandsAt(s, 172, Flatten(c.topics)) && StandsAt(s, 172 + m, BigEndian(|c.data|, 8))
    ensures StandsAt(s, 180 + m, c.data) && GoesOn(s, 180 + m + |c.data|, rest)
  {
    var data := BigEndian(|c.data|, 8) + c.data;
    Assoc(BigEndian(|c.topics|, 8), Flatten(c.topics), data);
    Assoc(c.eventTopic0, BigEndian(|c.topics|, 8) + (Flatten(c.topics) + data), rest);
    Assoc(BigEndian(|c.topics|, 8), Flatten(c.topics) + data, rest);
    Assoc(Flatten(c.topics), data, rest);
    Assoc(BigEndian(|c.data|, 8), c.data, rest);
    FieldStands(s, 132, c.eventTopic0, BigEndian(|c.topics|, 8) + (Flatten(c.topics) + (data + rest)));
    FieldStands(s, 164, BigEndian(|c.topics|, 8), Flatten(c.topics) + (data + rest));
    FieldStands(s, 172, Flatten(c.topics), data + rest);
    FieldStands(s, 172 + m, BigEndian(|c.data|, 8), c.data + rest);
    FieldStands(s, 180 + m, c.data, rest);
  }

  lemma TransferStands(c: ClaimFields, s: ByteSeq, n: nat, rest: ByteSeq)
    requires |c.sender| == 20 && |c.recipient| == 20 && GoesOn(s, n, EncodeTransfer(c) + rest)
    ensures StandsAt(s, n, c.sender) && StandsAt(s, n + 20, BigEndian(c.tokenIdOrNonce, 32))
    ensures StandsAt(s, n + 52, BigEndian(c.amount, 32)) && StandsAt(s, n + 84, c.recipient)
    ensures GoesOn(s, n + 104, rest)
  {
    FourStand(s, n, c.sender, BigEndian(c.tokenIdOrNonce, 32), BigEndian(c.amount, 32), c.recipient, rest);
  }

  lemma TimesStand(c: ClaimFields, s: ByteSeq, n: nat)
    requires GoesOn(s, n, EncodeTimes(c))
    ensures StandsAt(s, n, BigEndian(c.observedAt, 8)) && StandsAt(s, n + 8, BigEndian(c.finalityDepth, 8))
    ensures |s| == n + 16
  {
    FieldStands(s, n, BigEndian(c.observedAt, 8), BigEndian(c.finalityDepth, 8));
    assert BigEndian(c.finalityDepth, 8) + [] == BigEndian(c.finalityDepth, 8);
    FieldStands(s, n + 8, BigEndian(c.finalityDepth, 8), []);
  }

  lemma BackStands(c: ClaimFields, s: ByteSeq, n: nat)
    requires |c.sender| == 20 && |c.recipient| == 20 && GoesOn(s, n, EncodeTransfer(c) + EncodeTimes(c))
    ensures StandsAt(s, n, c.sender) && StandsAt(s, n + 20, BigEndian(c.tokenIdOrNonce, 32))
    ensures StandsAt(s, n + 52, BigEndian(c.amount, 32)) && StandsAt(s, n + 84, c.recipient)
    ensures StandsAt(s, n + 104, BigEndian(c.observedAt, 8)) && StandsAt(s, n + 112, BigEndian(c.finalityDepth, 8))
    ensures |s| == n + 120
  {
    TransferStands(c, s, n, EncodeTimes(c));
    TimesStand(c, s, n + 104);
  }

  /** Up to the topics the fields stand at fixed places. */
  lemma HeadLayout(c: ClaimFields)
    requires WellTyped(c)
    ensures var s := Encode(c);
            && StandsAt(s, 0, DOMAIN) && StandsAt(s, 20, BigEndian(c.srcChainId, 8))
            && StandsAt(s, 28, BigEndian(c.destChainId, 8)) && StandsAt(s, 36, c.bridgeContract)
            && StandsAt(s, 56, BigEndian(c.blockNumber, 8)) && StandsAt(s, 64, c.blockHash)
            && StandsAt(s, 96, c.txHash) && StandsAt(s, 128, BigEndian(c.logIndex, 4))
            && GoesOn(s, 132, EncodeEvent(c) + (EncodeTransfer(c) + EncodeTimes(c)))
  {
    var s, rest := Encode(c), EncodeEvent(c) + (EncodeTransfer(c) + EncodeTimes(c));
    assert s[0..] == s;
    ChainsStand(c, s, EncodeLocation(c) + rest);
    LocationStands(c, s, rest);
  }

  /** The topics follow, then the data, and the rest stands at fixed places behind them. */
  lemma TailLayout(c: ClaimFields, m: nat, n: nat)
    requires WellTyped(c) && m == |c.topics| * 32 && n == 180 + m + |c.data|
    ensures var s := Encode(c);
            && StandsAt(s, 132, c.eventTopic0) && StandsAt(s, 164, BigEndian(|c.topics|, 8))
            && StandsAt(s, 172, Flatten(c.topics))
            && StandsAt(s, 172 + m, BigEndian(|c.data|, 8)) && StandsAt(s, 180 + m, c.data)
            && StandsAt(s, n, c.sender) && StandsAt(s, n + 20, BigEndian(c.tokenIdOrNonce, 32))
            && StandsAt(s, n + 52, BigEndian(c.amount, 32)) && StandsAt(s, n + 84, c.recipient)
            && StandsAt(s, n + 104, BigEndian(c.observedAt, 8)) && StandsAt(s, n + 112, BigEndian(c.finalityDepth, 8))
            && |s| == n + 120
  {
    var s := Encode(c);
    HeadLayout(c);
    FlattenSize(c.topics, 32);
    EventStands(c, s, m, EncodeTransfer(c) + EncodeTimes(c));
    BackStands(c, s, n);
  }

  //
  // Decoding, as functions from the unread bytes to a value and the bytes after it
  //

  function Take(s: ByteSeq, n: nat): (r: Option<(ByteSeq, ByteSeq)>)
    ensures r.Some? ==> s == r.value.0 + r.value.1 && |r.value.0| == n
  {
    if |s| < n then None else Some((s[..n], s[n..]))
  }

  function ReadDomain(s: ByteSeq): Option<ByteSeq> {
    var (d, rest) :- Take(s, |DOMAIN|);
    if d == DOMAIN then Some(rest) else None
  }

  function ReadUint(s: ByteSeq, width: nat): Option<(nat, ByteSeq)> {
    var (b, rest) :- Take(s, width);
    Some((FromBigEndian(b), rest))
  }

  /** Cuts `count` pieces of n bytes off the front, as long as there are bytes for them. */
  function SplitArrays(s: ByteSeq, count: nat, n: nat): (r: (seq<ByteSeq>, ByteSeq))
    decreases count
  {
    if count == 0 || |s| < n then ([], s)
    else
      var (rest, tail) := SplitArrays(s[n..], count - 1, n);
      ([s[..n]] + rest, tail)
  }

  function ReadArrays(s: ByteSeq, n: nat): Option<(seq<ByteSeq>, ByteSeq)>
    requires n > 0
  {
    var (count, rest) :- ReadUint(s, 8);
    if count > |rest| / n then None else Some(SplitArrays(rest, count, n))
  }

  lemma CountFits(count: nat, size: nat, n: nat)
    requires n > 0
    ensures count <= size / n <==> count * n <= size
  {
    var q := size / n;
    assert size == q * n + size % n;
    if count <= q { MulLe(count, q, n); }
    if count > q { MulLe(q + 1, count, n); }
  }

  function ReadBytes(s: ByteSeq): Option<(ByteSeq, ByteSeq)> {
    var (length, rest) :- ReadUint(s, 8);
    Take(rest, length)
  }

  //
  // Each reader undoes its appender, on every continuation
  //

  lemma TakeAppend(x: ByteSeq, t: ByteSeq)
    ensures Take(x + t, |x|) == Some((x, t))
  {
  }

  lemma UintAppend(v: nat, width: nat, t: ByteSeq)
    requires v < Pow2(8 * width)
    ensures ReadUint(BigEndian(v, width) + t, width) == Some((v, t))
  {
    TakeAppend(BigEndian(v, width), t);
    DecodeEncode(v, width);
  }

  lemma UintRead(s: ByteSeq, width: nat)
    ensures var r := ReadUint(s, width);
      r.Some? ==> s == BigEndian(r.value.0, width) + r.value.1 && r.value.0 < Pow2(8 * width)
  {
    if |s| >= width {
      EncodeDecode(s[..width]);
      FromBigEndianBound(s[..width]);
    }
  }

  lemma {:induction false} FlattenCons(x: ByteSeq, xs: seq<ByteSeq>)
    ensures Flatten([x] + xs) == x + Flatten(xs)
  {
    if |xs| == 0 {
      assert [x] + xs == [x] && [x][..0] == [];
    } else {
      var front, last := xs[..|xs| - 1], xs[|xs| - 1];
      assert ([x] + xs)[..|xs|] == [x] + front && ([x] + xs)[|xs|] == last;
      FlattenCons(x, front);
      Assoc(x, Flatten(front), last);
    }
  }

  lemma {:induction false} FlattenSize(xs: seq<ByteSeq>, n: nat)
    requires Arrays(xs, n)
    ensures |Flatten(xs)| == |xs| * n
  {
    if |xs| > 0 {
      FlattenSize(xs[..|xs| - 1], n);
    }
  }

  lemma {:induction false} SplitFlatten(xs: seq<ByteSeq>, n: nat, t: ByteSeq)
    requires Arrays(xs, n)
    ensures |xs| * n <= |Flatten(xs) + t| && SplitArrays(Flatten(xs) + t, |xs|, n) == (xs, t)
  {
    FlattenSize(xs, n);
    if |xs| > 0 {
      var x, rest := xs[0], xs[1..];
      assert xs == [x] + rest;
      FlattenCons(x, rest);
      SplitFlatten(rest, n, t);
      var s := Flatten(xs) + t;
      Assoc(x, Flatten(rest), t);
      assert s == x + (Flatten(rest) + t);
      assert s[..n] == x && s[n..] == Flatten(rest) + t;
    } else {
      assert Flatten(xs) + t == t;
    }
  }

  lemma {:induction false} FlattenSplit(s: ByteSeq, count: nat, n: nat)
    requires count * n <= |s|
    ensures var r := SplitArrays(s, count, n); s == Flatten(r.0) + r.1 && |r.0| == count && Arrays(r.0, n)
    decreases count
  {
    if count > 0 {
      assert count * n == (count - 1) * n + n;
      assert (count - 1) * n >= 0;
      FlattenSplit(s[n..], count - 1, n);
      var (rest, tail) := SplitArrays(s[n..], count - 1, n);
      FlattenCons(s[..n], rest);
      assert s == s[..n] + s[n..];
    }
  }

  lemma ArraysAppend(xs: seq<ByteSeq>, n: nat, t: ByteSeq)
    requires n > 0 && Arrays(xs, n) && |xs| < Pow2(64)
    ensures ReadArrays((BigEndian(|xs|, 8) + Flatten(xs)) + t, n) == Some((xs, t))
  {
    Assoc(BigEndian(|xs|, 8), Flatten(xs), t);
    UintAppend(|xs|, 8, Flatten(xs) + t);
    SplitFlatten(xs, n, t);
    CountFits(|xs|, |Flatten(xs) + t|, n);
  }

  lemma ArraysRead(s: ByteSeq, n: nat)
    requires n > 0
    ensures var r := ReadArrays(s, n);
      r.Some? ==> s == (BigEndian(|r.value.0|, 8) + Flatten(r.value.0)) + r.value.1
                  && Arrays(r.value.0, n) && |r.value.0| < Pow2(64)
  {
    UintRead(s, 8);
    var h := ReadUint(s, 8);
    if h.Some? {
      var (count, rest) := h.value;
      CountFits(count, |rest|, n);
      if count <= |rest| / n {
        FlattenSplit(rest, count, n);
      }
    }
  }

  lemma BytesAppend(x: ByteSeq, t: ByteSeq)
    requires |x| < Pow2(64)
    ensures ReadBytes((BigEndian(|x|, 8) + x) + t) == Some((x, t))
  {
    Assoc(BigEndian(|x|, 8), x, t);
    UintAppend(|x|, 8, x + t);
    TakeAppend(x, t);
  }

  lemma BytesRead(s: ByteSeq)
    ensures var r := ReadBytes(s);
      r.Some? ==> s == (BigEndian(|r.value.0|, 8) + r.value.0) + r.value.1 && |r.value.0| < Pow2(64)
  {
    UintRead(s, 8);
  }

  //
  // Whole claims
  //

  function DecodeChains(s: ByteSeq): Option<((nat, nat, ByteSeq), ByteSeq)> {
    var s0 :- ReadDomain(s);
    var (src, s1) :- ReadUint(s0, 8);
    var (dest, s2) :- ReadUint(s1, 8);
    var (contract, s3) :- Take(s2, 20);
    Some(((src, dest, contract), s3))
  }

  function DecodeLocation(s: ByteSeq): Option<((nat, ByteSeq, ByteSeq, nat), ByteSeq)> {
    var (number, s1) :- ReadUint(s, 8);
    var (blockHash, s2) :- Take(s1, 32);
    var (txHash, s3) :- Take(s2, 32);
    var (logIndex, s4) :- ReadUint(s3, 4);
    Some(((number, blockHash, txHash, logIndex), s4))
  }

  function DecodeEvent(s: ByteSeq): Option<((ByteSeq, seq<ByteSeq>, ByteSeq), ByteSeq)> {
    var (topic0, s1) :- Take(s, 32);
    var (topics, s2) :- ReadArrays(s1, 32);
    var (data, s3) :- ReadBytes(s2);
    Some(((topic0, topics, data), s3))
  }

  function DecodeTransfer(s: ByteSeq): Option<((ByteSeq, nat, nat, ByteSeq), ByteSeq)> {
    var (sender, s1) :- Take(s, 20);
    var (token, s2) :- ReadUint(s1, 32);
    var (amount, s3) :- ReadUint(s2, 32);
    var (recipient, s4) :- Take(s3, 20);
    Some(((sender, token, amount, recipient), s4))
  }

  function DecodeTimes(s: ByteSeq): Option<((nat, nat), ByteSeq)> {
    var (observedAt, s1) :- ReadUint(s, 8);
    var (finality, s2) :- ReadUint(s1, 8);
    Some(((observedAt, finality), s2))
  }

  function Decode(s: ByteSeq): Option<ClaimFields> {
    var (a, s1) :- DecodeChains(s);
    var (b, s2) :- DecodeLocation(s1);
    var (e, s3) :- DecodeEvent(s2);
    var (t, s4) :- DecodeTransfer(s3);
    var (o, s5) :- DecodeTimes(s4);
    if s5 != [] then None
    else Some(ClaimFields(a.0, a.1, a.2, b.0, b.1, b.2, b.3, e.0, e.1, e.2, t.0, t.1, t.2, t.3, o.0, o.1))
  }

  lemma ChainsAppend(c: ClaimFields, t: ByteSeq)
    requires WellTyped(c)
    ensures DecodeChains(EncodeChains(c) + t) == Some(((c.srcChainId, c.destChainId, c.bridgeContract), t))
  {
    var a, b := BigEndian(c.srcChainId, 8), BigEndian(c.destChainId, 8);
    Assoc(DOMAIN, a + (b + c.bridgeContract), t);
    Assoc(a, b + c.bridgeContract, t);
    Assoc(b, c.bridgeContract, t);
    TakeAppend(DOMAIN, a + (b + (c.bridgeContract + t)));
    UintAppend(c.srcChainId, 8, b + (c.bridgeContract + t));
    UintAppend(c.destChainId, 8, c.bridgeContract + t);
    TakeAppend(c.bridgeContract, t);
  }

  lemma LocationAppend(c: ClaimFields, t: ByteSeq)
    requires WellTyped(c)
    ensures DecodeLocation(EncodeLocation(c) + t) == Some(((c.blockNumber, c.blockHash, c.txHash, c.logIndex), t))
  {
    var a, d := BigEndian(c.blockNumber, 8), BigEndian(c.logIndex, 4);
    Assoc(a, c.blockHash + (c.txHash + d), t);
    Assoc(c.blockHash, c.txHash + d, t);
    Assoc(c.txHash, d, t);
    UintAppend(c.blockNumber, 8, c.blockHash + (c.txHash + (d + t)));
    TakeAppend(c.blockHash, c.txHash + (d + t));
    TakeAppend(c.txHash, d + t);
    UintAppend(c.logIndex, 4, t);
  }

  lemma EventAppend(c: ClaimFields, t: ByteSeq)
    requires WellTyped(c)
    ensures DecodeEvent(EncodeEvent(c) + t) == Some(((c.eventTopic0, c.topics, c.data), t))
  {
    var a, b := BigEndian(|c.topics|, 8) + Flatten(c.topics), BigEndian(|c.data|, 8) + c.data;
    Assoc(c.eventTopic0, a + b, t);
    Assoc(a, b, t);
    TakeAppend(c.eventTopic0, a + (b + t));
    ArraysAppend(c.topics, 32, b + t);
    BytesAppend(c.data, t);
  }

  lemma TransferAppend(c: ClaimFields, t: ByteSeq)
    requires WellTyped(c)
    ensures DecodeTransfer(EncodeTransfer(c) + t) == Some(((c.sender, c.tokenIdOrNonce, c.amount, c.recipient), t))
  {
    var a, b := BigEndian(c.tokenIdOrNonce, 32), BigEndian(c.amount, 32);
    Assoc(c.sender, a + (b + c.recipient), t);
    Assoc(a, b + c.recipient, t);
    Assoc(b, c.recipient, t);
    TakeAppend(c.sender, a + (b + (c.recipient + t)));
    UintAppend(c.tokenIdOrNonce, 32, b + (c.recipient + t));
    UintAppend(c.amount, 32, c.recipient + t);
    TakeAppend(c.recipient, t);
  }

  lemma TimesAppend(c: ClaimFields, t: ByteSeq)
    requires WellTyped(c)
    ensures DecodeTimes(EncodeTimes(c) + t) == Some(((c.observedAt, c.finalityDepth), t))
  {
    Assoc(BigEndian(c.observedAt, 8), BigEndian(c.finalityDepth, 8), t);
    UintAppend(c.observedAt, 8, BigEndian(c.finalityDepth, 8) + t);
    UintAppend(c.finalityDepth, 8, t);
  }

  /** Decoding an encoded claim gives that claim. */
  lemma DecodeInverse(c: ClaimFields)
    requires WellTyped(c)
    ensures Decode(Encode(c)) == Some(c)
  {
    var l, e, t, o := EncodeLocation(c), EncodeEvent(c), EncodeTransfer(c), EncodeTimes(c);
    assert DecodeChains(Encode(c)) == Some(((c.srcChainId, c.destChainId, c.bridgeContract), l + (e + (t + o)))) by {
      ChainsAppend(c, l + (e + (t + o)));
    }
    LocationAppend(c, e + (t + o));
    EventAppend(c, t + o);
    TransferAppend(c, o);
    assert DecodeTimes(o) == Some(((c.observedAt, c.finalityDepth), [])) by {
      TimesAppend(c, []);
      assert o + [] == o;
    }
  }

  lemma ChainsRead(s: ByteSeq, c: ClaimFields, t: ByteSeq)
    requires DecodeChains(s) == Some(((c.srcChainId, c.destChainId, c.bridgeContract), t))
    ensures s == EncodeChains(c) + t && c.srcChainId < Pow2(64) && c.destChainId < Pow2(64) && |c.bridgeContract| == 20
  {
    var s0 := ReadDomain(s).value;
    UintRead(s0, 8);
    var s1 := ReadUint(s0, 8).value.1;
    UintRead(s1, 8);
    var a, b := BigEndian(c.srcChainId, 8), BigEndian(c.destChainId, 8);
    Assoc(b, c.bridgeContract, t);
    Assoc(a, b + c.bridgeContract, t);
    Assoc(DOMAIN, a + (b + c.bridgeContract), t);
  }

  lemma LocationRead(s: ByteSeq, c: ClaimFields, t: ByteSeq)
    requires DecodeLocation(s) == Some(((c.blockNumber, c.blockHash, c.txHash, c.logIndex), t))
    ensures s == EncodeLocation(c) + t
    ensures c.blockNumber < Pow2(64) && |c.blockHash| == 32 && |c.txHash| == 32 && c.logIndex < Pow2(32)
  {
    UintRead(s, 8);
    var s3 := Take(Take(ReadUint(s, 8).value.1, 32).value.1, 32).value.1;
    UintRead(s3, 4);
    var a, d := BigEndian(c.blockNumber, 8), BigEndian(c.logIndex, 4);
    Assoc(c.txHash, d, t);
    Assoc(c.blockHash, c.txHash + d, t);
    Assoc(a, c.blockHash + (c.txHash + d), t);
  }

  lemma EventRead(s: ByteSeq, c: ClaimFields, t: ByteSeq)
    requires DecodeEvent(s) == Some(((c.eventTopic0, c.topics, c.data), t))
    ensures s == EncodeEvent(c) + t
    ensures |c.eventTopic0| == 32 && Arrays(c.topics, 32) && |c.topics| < Pow2(64) && |c.data| < Pow2(64)
  {
    var s1 := Take(s, 32).value.1;
    ArraysRead(s1, 32);
    BytesRead(ReadArrays(s1, 32).value.1);
    var a, b := BigEndian(|c.topics|, 8) + Flatten(c.topics), BigEndian(|c.data|, 8) + c.data;
    Assoc(a, b, t);
    Assoc(c.eventTopic0, a + b, t);
  }

  lemma TransferRead(s: ByteSeq, c: ClaimFields, t: ByteSeq)
    requires DecodeTransfer(s) == Some(((c.sender, c.tokenIdOrNonce, c.amount, c.recipient), t))
    ensures s == EncodeTransfer(c) + t
    ensures |c.sender| == 20 && c.tokenIdOrNonce < Pow2(256) && c.amount < Pow2(256) && |c.recipient| == 20
  {
    var s1 := Take(s, 20).value.1;
    UintRead(s1, 32);
    UintRead(ReadUint(s1, 32).value.1, 32);
    var a, b := BigEndian(c.tokenIdOrNonce, 32), BigEndian(c.amount, 32);
    Assoc(b, c.recipient, t);
    Assoc(a, b + c.recipient, t);
    Assoc(c.sender, a + (b + c.recipient), t);
  }

  lemma TimesRead(s: ByteSeq, c: ClaimFields, t: ByteSeq)
    requires DecodeTimes(s) == Some(((c.observedAt, c.finalityDepth), t))
    ensures s == EncodeTimes(c) + t && c.observedAt < Pow2(64) && c.finalityDepth < Pow2(64)
  {
    UintRead(s, 8);
    UintRead(ReadUint(s, 8).value.1, 8);
    Assoc(BigEndian(c.observedAt, 8), BigEndian(c.finalityDepth, 8), t);
  }

  /** Re-encoding an accepted payload gives the same bytes: accepted payloads are canonical. */
  lemma EncodeInverse(s: ByteSeq)
    requires Decode(s).Some?
    ensures WellTyped(Decode(s).value) && Encode(Decode(s).value) == s
  {
    var c := Decode(s).value;
    var s1 := DecodeChains(s).value.1;
    var s2 := DecodeLocation(s1).value.1;
    var s3 := DecodeEvent(s2).value.1;
    var s4 := DecodeTransfer(s3).value.1;
    ChainsRead(s, c, s1);
    LocationRead(s1, c, s2);
    EventRead(s2, c, s3);
    TransferRead(s3, c, s4);
    TimesRead(s4, c, []);
    assert EncodeTimes(c) + [] == EncodeTimes(c);
  }

  /** A payload is accepted exactly when it is the encoding of some claim, and then of one claim only. */
  lemma AcceptedIffEncoded(s: ByteSeq)
    ensures Decode(s).Some? <==> exists c :: WellTyped(c) && Encode(c) == s
    ensures forall c, c' :: WellTyped(c) && WellTyped(c') && Encode(c) == Encode(c') ==> c == c'
  {
    if Decode(s).Some? { EncodeInverse(s); }
    forall c | WellTyped(c) && Encode(c) == s ensures Decode(s) == Some(c) { DecodeInverse(c); }
    forall c, c' | WellTyped(c) && WellTyped(c') && Encode(c) == Encode(c') ensures c == c' {
      DecodeInverse(c);
      DecodeInverse(c');
    }
  }

  //
  // The payload reader
  //

  class PayloadReader {
    const data: ByteSeq
    var offset: nat

    ghost predicate Valid() reads this { offset <= |data| }

    ghost function Rest(): ByteSeq reads this requires Valid() { data[offset..] }

    constructor (payload: ByteSeq)
      ensures Valid() && Rest() == payload
    {
      data := payload;
      offset := 0;
    }

    function Remaining(): nat reads this requires Valid() { |data| - offset }

    method ReadDomainBytes() returns (ok: bool)
      requires Valid()
      modifies this
      ensures Valid() && ReadDomain(old(Rest())) == if ok then Some(Rest()) else None
    {
      if Remaining() < |DOMAIN| { return false; }
      var actual := data[offset..offset + |DOMAIN|];
      assert actual == old(Rest())[..|DOMAIN|];
      if actual != DOMAIN { return false; }
      offset := offset + |DOMAIN|;
      assert Rest() == old(Rest())[|DOMAIN|..];
      return true;
    }

    /** read_u32, read_u64 and read_uint256: the shifted accumulator never loses a bit. */
    method ReadUintBytes(width: nat) returns (ok: bool, value: nat)
      requires Valid()
      modifies this
      ensures Valid() && ReadUint(old(Rest()), width) == if ok then Some((value, Rest())) else None
    {
      value := 0;
      if Remaining() < width { return false, 0; }
      ghost var rest := Rest();
      for i := 0 to width
        invariant Valid() && offset == old(offset) + i && |rest| >= width
        invariant value == FromBigEndian(rest[..i])
      {
        assert rest[..i + 1][..i] == rest[..i];
        value := ShiftIn(value, data[offset], i, width, rest[..i]);
        offset := offset + 1;
      }
      assert Rest() == rest[width..];
      return true, value;
    }

    method ReadArrayBytes(n: nat) returns (ok: bool, value: ByteSeq)
      requires Valid()
      modifies this
      ensures Valid() && Take(old(Rest()), n) == if ok then Some((value, Rest())) else None
    {
      if Remaining() < n { return false, []; }
      value := data[offset..offset + n];
      offset := offset + n;
      assert value == old(Rest())[..n] && Rest() == old(Rest())[n..];
      return true, value;
    }

    method ReadArraysBytes(n: nat) returns (ok: bool, values: seq<ByteSeq>)
      requires Valid() && n > 0
      modifies this
      ensures Valid()
      ensures ReadArrays(old(Rest()), n) == if ok then Some((values, Rest())) else None
    {
      values := [];
      var read, count := ReadUintBytes(8);
      if !read || count > Remaining() / n { return false, []; }
      CountFits(count, |Rest()|, n);
      values := ReadArrayLoop(count, n);
      return true, values;
    }

    /** The copying loop: with enough bytes left for all of them, no read fails. */
    method ReadArrayLoop(count: nat, n: nat) returns (values: seq<ByteSeq>)
      requires Valid() && count * n <= |Rest()|
      modifies this
      ensures Valid() && SplitArrays(old(Rest()), count, n) == (values, Rest())
    {
      values := [];
      ghost var whole := SplitArrays(Rest(), count, n);
      for i := 0 to count
        invariant Valid() && Fits(count - i, n, |Rest()|)
        invariant whole.0 == values + SplitArrays(Rest(), count - i, n).0
        invariant whole.1 == SplitArrays(Rest(), count - i, n).1
      {
        ghost var before, left := Rest(), count - i;
        FitsNext(left, n, |before|);
        var got, value := ReadArrayBytes(n);
        SplitNext(before, left, n, values, whole);
        values := values + [value];
      }
      assert whole.0 == values;
    }

    method ReadLengthPrefixedBytes() returns (ok: bool, value: ByteSeq)
      requires Valid()
      modifies this
      ensures Valid() && ReadBytes(old(Rest())) == if ok then Some((value, Rest())) else None
    {
      var read, length := ReadUintBytes(8);
      if !read || length > Remaining() { return false, []; }
      ok, value := ReadArrayBytes(length);
    }

    predicate Finished() reads this { offset == |data| }
  }

  lemma SplitNext(s: ByteSeq, left: nat, n: nat, values: seq<ByteSeq>, whole: (seq<ByteSeq>, ByteSeq))
    requires left > 0 && n <= |s|
    requires whole.0 == values + SplitArrays(s, left, n).0 && whole.1 == SplitArrays(s, left, n).1
    ensures whole.0 == (values + [s[..n]]) + SplitArrays(s[n..], left - 1, n).0
    ensures whole.1 == SplitArrays(s[n..], left - 1, n).1
  {
  }

  ghost predicate Fits(count: int, n: nat, size: nat) {
    0 <= count && count * n <= size
  }

  lemma FitsNext(count: int, n: nat, size: nat)
    requires Fits(count, n, size) && count > 0
    ensures n <= size && Fits(count - 1, n, size - n)
  {
    assert count * n == (count - 1) * n + n;
    assert (count - 1) * n >= 0;
  }

  /** value = (value << 8) | byte in `width` bytes. */
  method ShiftIn(value: nat, b: Byte, i: nat, width: nat, ghost read: ByteSeq) returns (v: nat)
    requires i < width && |read| == i && value == FromBigEndian(read)
    ensures v == value * 256 + b
  {
    FromBigEndianBound(read);
    Pow256(i);
    Pow2Monotone(8 * (i + 1), 8 * width);
    NoLoss(value * 256, Pow2(8 * width));
    assert Pow2(8) == 256;
    BitOrDisjoint(value * 256, b, 8);
    v := BitOr((value * 256) % Pow2(8 * width), b);
  }

  lemma NoLoss(x: nat, m: nat)
    requires x < m
    ensures x % m == x
  {
    DivModUnique(x, m, 0, x);
  }

  /** The decoder accepts what `Decode` accepts and returns the same claim. */
  method DecodeClaimPayload(payload: ByteSeq) returns (r: Option<ClaimFields>)
    ensures r == Decode(payload)
  {
    var reader := new PayloadReader(payload);
    var ok, src, dest, contract := DecodeChainsWith(reader);
    if !ok { return None; }
    var number, blockHash, txHash, logIndex;
    ok, number, blockHash, txHash, logIndex := DecodeLocationWith(reader);
    if !ok { return None; }
    var topic0, topics, data;
    ok, topic0, topics, data := DecodeEventWith(reader);
    if !ok { return None; }
    var sender, token, amount, recipient;
    ok, sender, token, amount, recipient := DecodeTransferWith(reader);
    if !ok { return None; }
    var observedAt, finality;
    ok, observedAt := reader.ReadUintBytes(8);
    if !ok { return None; }
    ok, finality := reader.ReadUintBytes(8);
    if !ok { return None; }
    if !reader.Finished() { return None; }
    return Some(ClaimFields(src, dest, contract, number, blockHash, txHash, logIndex, topic0, topics, data,
                            sender, token, amount, recipient, observedAt, finality));
  }

  method DecodeChainsWith(reader: PayloadReader) returns (ok: bool, src: nat, dest: nat, contract: ByteSeq)
    requires reader.Valid()
    modifies reader
    ensures reader.Valid()
    ensures DecodeChains(old(reader.Rest())) == if ok then Some(((src, dest, contract), reader.Rest())) else None
  {
    src, dest, contract := 0, 0, [];
    ok := reader.ReadDomainBytes();
    if !ok { return; }
    ok, src := reader.ReadUintBytes(8);
    if !ok { return; }
    ok, dest := reader.ReadUintBytes(8);
    if !ok { return; }
    ok, contract := reader.ReadArrayBytes(20);
  }

  method DecodeLocationWith(reader: PayloadReader)
    returns (ok: bool, number: nat, blockHash: ByteSeq, txHash: ByteSeq, logIndex: nat)
    requires reader.Valid()
    modifies reader
    ensures reader.Valid()
    ensures DecodeLocation(old(reader.Rest()))
         == if ok then Some(((number, blockHash, txHash, logIndex), reader.Rest())) else None
  {
    number, blockHash, txHash, logIndex := 0, [], [], 0;
    ok, number := reader.ReadUintBytes(8);
    if !ok { return; }
    ok, blockHash := reader.ReadArrayBytes(32);
    if !ok { return; }
    ok, txHash := reader.ReadArrayBytes(32);
    if !ok { return; }
    ok, logIndex := reader.ReadUintBytes(4);
  }

  method DecodeEventWith(reader: PayloadReader) returns (ok: bool, topic0: ByteSeq, topics: seq<ByteSeq>, data: ByteSeq)
    requires reader.Valid()
    modifies reader
    ensures reader.Valid()
    ensures DecodeEvent(old(reader.Rest())) == if ok then Some(((topic0, topics, data), reader.Rest())) else None
  {
    topic0, topics, data := [], [], [];
    ok, topic0 := reader.ReadArrayBytes(32);
    if !ok { return; }
    ok, topics := reader.ReadArraysBytes(32);
    if !ok { return; }
    ok, data := reader.ReadLengthPrefixedBytes();
  }

  method DecodeTransferWith(reader: PayloadReader)
    returns (ok: bool, sender: ByteSeq, token: nat, amount: nat, recipient: ByteSeq)
    requires reader.Valid()
    modifies reader
    ensures reader.Valid()
    ensures DecodeTransfer(old(reader.Rest()))
         == if ok then Some(((sender, token, amount, recipient), reader.Rest())) else None
  {
    sender, token, amount, recipient := [], 0, 0, [];
    ok, sender := reader.ReadArrayBytes(20);
    if !ok { return; }
    ok, token := reader.ReadUintBytes(32);
    if !ok { return; }
    ok, amount := reader.ReadUintBytes(32);
    if !ok { return; }
    ok, recipient := reader.ReadArrayBytes(20);
  }
}
