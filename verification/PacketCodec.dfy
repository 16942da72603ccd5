/**
 discv5 packets (section "Packet Encoding" of the Node Discovery Protocol v5 Wire Protocol):
 masking IV, masked header, encrypted message.  The AES-128-CTR keystream is a function of key, IV and
 position, given from outside.
 */
module PacketCodec {
  import opened Words
  import opened Bytes

  type Keystream = (ByteSeq, ByteSeq, nat) -> Byte

  const IV_BYTES := 16
  const NONCE_BYTES := 12
  const PROTOCOL_ID: ByteSeq := [100, 105, 115, 99, 118, 53]  // "discv5"
  const PROTOCOL_VERSION := 1
  const STATIC_HEADER_BYTES := 23
  const STATIC_PACKET_BYTES := 39
  const NODE_ADDRESS_BYTES := 32
  const KEY_BYTES := 16

  datatype PacketView = PacketView(
    flag: Byte, nonce: ByteSeq, authSize: nat, headerData: ByteSeq, authData: ByteSeq, msgData: ByteSeq)

  function Xor(x: Byte, y: Byte): Byte {
    assert Pow2(8) == 256;
    BitXorBound(x, y, 8);
    BitXor(x, y)
  }

  /** CTR mode from stream position `pos` on; masking and unmasking are the same operation. */
  function Ctr(ks: Keystream, key: ByteSeq, iv: ByteSeq, pos: nat, data: ByteSeq): (r: ByteSeq)
    ensures |r| == |data|
  {
    seq(|data|, i requires 0 <= i < |data| => Xor(data[i], ks(key, iv, pos + i)))
  }

  lemma CtrTwice(ks: Keystream, key: ByteSeq, iv: ByteSeq, pos: nat, data: ByteSeq)
    ensures Ctr(ks, key, iv, pos, Ctr(ks, key, iv, pos, data)) == data
  {
    forall i | 0 <= i < |data| ensures Ctr(ks, key, iv, pos, Ctr(ks, key, iv, pos, data))[i] == data[i] {
      BitXorTwice(data[i], ks(key, iv, pos + i));
    }
  }

  /** One pass over two parts is two passes, the second continuing at the stream position of the first. */
  lemma CtrConcat(ks: Keystream, key: ByteSeq, iv: ByteSeq, pos: nat, a: ByteSeq, b: ByteSeq)
    ensures Ctr(ks, key, iv, pos, a + b) == Ctr(ks, key, iv, pos, a) + Ctr(ks, key, iv, pos + |a|, b)
  {
  }

  //
  // encode_packet
  //

  /** IV, protocol id, version, flag, nonce, 16-bit auth size and auth data, before masking. */
  function StaticHeader(version: nat, flag: Byte, nonce: ByteSeq, authSize: nat): (h: ByteSeq)
    requires |nonce| == NONCE_BYTES
    ensures |h| == STATIC_HEADER_BYTES
  {
    PROTOCOL_ID + BigEndian(version, 2) + [flag] + nonce + BigEndian(authSize % 0x1_0000, 2)
  }

  function UnmaskedHeader(iv: ByteSeq, flag: Byte, nonce: ByteSeq, auth: ByteSeq): (h: ByteSeq)
    requires |nonce| == NONCE_BYTES
  {
    iv + StaticHeader(PROTOCOL_VERSION, flag, nonce, |auth|) + auth
  }

  /** The packet for a destination, with the IV drawn at random by the source as a parameter. */
  function EncodePacket(ks: Keystream, iv: ByteSeq, flag: Byte, nonce: ByteSeq, auth: ByteSeq, msg: ByteSeq,
                        dest: ByteSeq): ByteSeq
    requires |iv| == IV_BYTES && |nonce| == NONCE_BYTES && |dest| == NODE_ADDRESS_BYTES
  {
    var header := UnmaskedHeader(iv, flag, nonce, auth);
    header[..IV_BYTES] + Ctr(ks, dest[..KEY_BYTES], iv, 0, header[IV_BYTES..]) + msg
  }

  //
  // decode_packet
  //

  function DecodePacket(ks: Keystream, data: ByteSeq, dest: ByteSeq): (r: Option<PacketView>)
    requires |dest| == NODE_ADDRESS_BYTES
    ensures r.Some? ==> |r.value.nonce| == NONCE_BYTES && |r.value.authData| == r.value.authSize
  {
    if |data| < STATIC_PACKET_BYTES then None
    else
      var key, iv := dest[..KEY_BYTES], data[..IV_BYTES];
      var header := Ctr(ks, key, iv, 0, data[IV_BYTES..STATIC_PACKET_BYTES]);
      if header[..6] != PROTOCOL_ID then None
      else if FromBigEndian(header[6..8]) < PROTOCOL_VERSION then None
      else
        var authSize := FromBigEndian(header[21..23]);
        var authEnd := STATIC_PACKET_BYTES + authSize;
        if authEnd > |data| then None
        else
          var auth := Ctr(ks, key, iv, STATIC_HEADER_BYTES, data[STATIC_PACKET_BYTES..authEnd]);
          Some(PacketView(header[8], header[9..21], authSize, iv + header + auth, auth, data[authEnd..]))
  }

  lemma StaticHeaderFields(version: nat, flag: Byte, nonce: ByteSeq, authSize: nat)
    requires |nonce| == NONCE_BYTES && version < 0x1_0000
    ensures var h := StaticHeader(version, flag, nonce, authSize);
      && h[..6] == PROTOCOL_ID && FromBigEndian(h[6..8]) == version && h[8] == flag && h[9..21] == nonce
      && FromBigEndian(h[21..23]) == authSize % 0x1_0000
  {
    var h := StaticHeader(version, flag, nonce, authSize);
    assert h[6..8] == BigEndian(version, 2) && h[21..23] == BigEndian(authSize % 0x1_0000, 2);
    Pow16();
    DecodeEncode(version, 2);
    DecodeEncode(authSize % 0x1_0000, 2);
  }

  lemma Pow16()
    ensures Pow2(8 * 2) == 0x1_0000
  {
    assert Pow2(8) == 256;
    Pow2Add(8, 8);
  }

  /** The layout of an encoded packet: two masked parts, the second masked from position 23 on. */
  lemma EncodedLayout(ks: Keystream, iv: ByteSeq, flag: Byte, nonce: ByteSeq, auth: ByteSeq, msg: ByteSeq,
                      dest: ByteSeq)
    requires |iv| == IV_BYTES && |nonce| == NONCE_BYTES && |dest| == NODE_ADDRESS_BYTES
    ensures var p := EncodePacket(ks, iv, flag, nonce, auth, msg, dest);
      var key := dest[..KEY_BYTES];
      && |p| == STATIC_PACKET_BYTES + |auth| + |msg| && p[..IV_BYTES] == iv
      && p[IV_BYTES..STATIC_PACKET_BYTES] == Ctr(ks, key, iv, 0, StaticHeader(PROTOCOL_VERSION, flag, nonce, |auth|))
      && p[STATIC_PACKET_BYTES..] == Ctr(ks, key, iv, STATIC_HEADER_BYTES, auth) + msg
  {
    var h := StaticHeader(PROTOCOL_VERSION, flag, nonce, |auth|);
    HeaderParts(iv, h, auth);
    CtrConcat(ks, dest[..KEY_BYTES], iv, 0, h, auth);
    LayoutParts(iv, Ctr(ks, dest[..KEY_BYTES], iv, 0, h), Ctr(ks, dest[..KEY_BYTES], iv, STATIC_HEADER_BYTES, auth),
                msg);
  }

  lemma HeaderParts(iv: ByteSeq, h: ByteSeq, auth: ByteSeq)
    requires |iv| == IV_BYTES
    ensures (iv + h + auth)[..IV_BYTES] == iv && (iv + h + auth)[IV_BYTES..] == h + auth
  {}

  lemma LayoutParts(iv: ByteSeq, h: ByteSeq, auth: ByteSeq, msg: ByteSeq)
    requires |iv| == IV_BYTES && |h| == STATIC_HEADER_BYTES
    ensures var s := iv + (h + auth) + msg;
            && |s| == STATIC_PACKET_BYTES + |auth| + |msg| && s[..IV_BYTES] == iv
            && s[IV_BYTES..STATIC_PACKET_BYTES] == h && s[STATIC_PACKET_BYTES..] == auth + msg
  {}

  /**
   Decoding an encoded packet gives back flag, nonce, auth data and message, and the very header bytes the
   sender authenticated, exactly when the auth data fits the 16-bit size field.
   */
  lemma DecodeInverse(ks: Keystream, iv: ByteSeq, flag: Byte, nonce: ByteSeq, auth: ByteSeq, msg: ByteSeq,
                      dest: ByteSeq)
    requires |iv| == IV_BYTES && |nonce| == NONCE_BYTES && |dest| == NODE_ADDRESS_BYTES
    ensures DecodePacket(ks, EncodePacket(ks, iv, flag, nonce, auth, msg, dest), dest)
         == Some(PacketView(flag, nonce, |auth|, UnmaskedHeader(iv, flag, nonce, auth), auth, msg))
       <==> |auth| < 0x1_0000
  {
    if |auth| < 0x1_0000 {
      DecodeFits(ks, iv, flag, nonce, auth, msg, dest);
    } else {
      var p := EncodePacket(ks, iv, flag, nonce, auth, msg, dest);
      if DecodePacket(ks, p, dest).Some? { AuthSizeFits(ks, p, dest); }
    }
  }

  lemma AuthSizeFits(ks: Keystream, data: ByteSeq, dest: ByteSeq)
    requires |dest| == NODE_ADDRESS_BYTES && DecodePacket(ks, data, dest).Some?
    ensures DecodePacket(ks, data, dest).value.authSize < 0x1_0000
  {
    TwoBytes(Ctr(ks, dest[..KEY_BYTES], data[..IV_BYTES], 0, data[IV_BYTES..STATIC_PACKET_BYTES])[21..23]);
  }

  lemma DecodeFits(ks: Keystream, iv: ByteSeq, flag: Byte, nonce: ByteSeq, auth: ByteSeq, msg: ByteSeq, dest: ByteSeq)
    requires |iv| == IV_BYTES && |nonce| == NONCE_BYTES && |dest| == NODE_ADDRESS_BYTES && |auth| < 0x1_0000
    ensures DecodePacket(ks, EncodePacket(ks, iv, flag, nonce, auth, msg, dest), dest)
         == Some(PacketView(flag, nonce, |auth|, UnmaskedHeader(iv, flag, nonce, auth), auth, msg))
  {
    EncodedLayout(ks, iv, flag, nonce, auth, msg, dest);
    StaticHeaderFields(PROTOCOL_VERSION, flag, nonce, |auth|);
    DecodeLaidOut(ks, EncodePacket(ks, iv, flag, nonce, auth, msg, dest), dest, iv,
                  StaticHeader(PROTOCOL_VERSION, flag, nonce, |auth|), auth, msg);
  }

  /** Data laid out like a packet, with a good header. */
  lemma DecodeLaidOut(ks: Keystream, p: ByteSeq, dest: ByteSeq, iv: ByteSeq, h: ByteSeq, auth: ByteSeq, msg: ByteSeq)
    requires |dest| == NODE_ADDRESS_BYTES && |h| == STATIC_HEADER_BYTES && |p| >= STATIC_PACKET_BYTES
    requires p[..IV_BYTES] == iv && p[IV_BYTES..STATIC_PACKET_BYTES] == Ctr(ks, dest[..KEY_BYTES], iv, 0, h)
    requires p[STATIC_PACKET_BYTES..] == Ctr(ks, dest[..KEY_BYTES], iv, STATIC_HEADER_BYTES, auth) + msg
    requires h[..6] == PROTOCOL_ID && FromBigEndian(h[6..8]) >= PROTOCOL_VERSION && FromBigEndian(h[21..23]) == |auth|
    ensures DecodePacket(ks, p, dest) == Some(PacketView(h[8], h[9..21], |auth|, iv + h + auth, auth, msg))
  {
    var key := dest[..KEY_BYTES];
    CtrTwice(ks, key, iv, 0, h);
    TailParts(p, Ctr(ks, key, iv, STATIC_HEADER_BYTES, auth), msg);
    CtrTwice(ks, key, iv, STATIC_HEADER_BYTES, auth);
    DecodedFrom(ks, p, dest, iv, h, auth, msg);
  }

  /** What the decoder makes of data with a good header. */
  lemma DecodedFrom(ks: Keystream, data: ByteSeq, dest: ByteSeq, iv: ByteSeq, h: ByteSeq, auth: ByteSeq, msg: ByteSeq)
    requires |dest| == NODE_ADDRESS_BYTES && |h| == STATIC_HEADER_BYTES
    requires STATIC_PACKET_BYTES + |auth| <= |data| && data[..IV_BYTES] == iv
    requires Ctr(ks, dest[..KEY_BYTES], iv, 0, data[IV_BYTES..STATIC_PACKET_BYTES]) == h
    requires h[..6] == PROTOCOL_ID && FromBigEndian(h[6..8]) >= PROTOCOL_VERSION && FromBigEndian(h[21..23]) == |auth|
    requires Ctr(ks, dest[..KEY_BYTES], iv, STATIC_HEADER_BYTES,
                 data[STATIC_PACKET_BYTES..STATIC_PACKET_BYTES + |auth|]) == auth
    requires data[STATIC_PACKET_BYTES + |auth|..] == msg
    ensures DecodePacket(ks, data, dest) == Some(PacketView(h[8], h[9..21], |auth|, iv + h + auth, auth, msg))
  {}

  /** What stands behind the fixed part. */
  lemma TailParts(p: ByteSeq, auth: ByteSeq, msg: ByteSeq)
    requires |p| >= STATIC_PACKET_BYTES && p[STATIC_PACKET_BYTES..] == auth + msg
    ensures var authEnd := STATIC_PACKET_BYTES + |auth|;
            authEnd <= |p| && p[STATIC_PACKET_BYTES..authEnd] == auth && p[authEnd..] == msg
  {
    var tail := p[STATIC_PACKET_BYTES..];
    assert p[STATIC_PACKET_BYTES..STATIC_PACKET_BYTES + |auth|] == tail[..|auth|];
    assert p[STATIC_PACKET_BYTES + |auth|..] == tail[|auth|..];
  }

  /** A packet masked for one node is no packet for another whose keystream starts differently. */
  lemma WrongDestination(ks: Keystream, iv: ByteSeq, flag: Byte, nonce: ByteSeq, auth: ByteSeq, msg: ByteSeq,
                         dest: ByteSeq, other: ByteSeq, i: nat)
    requires |iv| == IV_BYTES && |nonce| == NONCE_BYTES && |dest| == NODE_ADDRESS_BYTES && |other| == NODE_ADDRESS_BYTES
    requires i < |PROTOCOL_ID| && ks(dest[..KEY_BYTES], iv, i) != ks(other[..KEY_BYTES], iv, i)
    ensures DecodePacket(ks, EncodePacket(ks, iv, flag, nonce, auth, msg, dest), other) == None
  {
    var p := EncodePacket(ks, iv, flag, nonce, auth, msg, dest);
    var h := StaticHeader(PROTOCOL_VERSION, flag, nonce, |auth|);
    EncodedLayout(ks, iv, flag, nonce, auth, msg, dest);
    StaticHeaderFields(PROTOCOL_VERSION, flag, nonce, |auth|);
    var masked := Ctr(ks, dest[..KEY_BYTES], iv, 0, h);
    var header := Ctr(ks, other[..KEY_BYTES], iv, 0, masked);
    assert h[i] == PROTOCOL_ID[i] by { assert h[i] == h[..6][i]; }
    if header[i] == h[i] {
      BitXorTwice(masked[i], ks(other[..KEY_BYTES], iv, i));
      BitXorCancels(h[i], ks(dest[..KEY_BYTES], iv, i), ks(other[..KEY_BYTES], iv, i));
    }
    assert header[..6][i] == header[i];
  }

  /** Appending a ciphertext to a packet encoded without one is encoding with it. */
  lemma EncodeThenAppend(ks: Keystream, iv: ByteSeq, flag: Byte, nonce: ByteSeq, auth: ByteSeq, msg: ByteSeq,
                         dest: ByteSeq)
    requires |iv| == IV_BYTES && |nonce| == NONCE_BYTES && |dest| == NODE_ADDRESS_BYTES
    ensures EncodePacket(ks, iv, flag, nonce, auth, [], dest) + msg ==
            EncodePacket(ks, iv, flag, nonce, auth, msg, dest)
  {
    var header := UnmaskedHeader(iv, flag, nonce, auth);
    Assoc(header[..IV_BYTES] + Ctr(ks, dest[..KEY_BYTES], iv, 0, header[IV_BYTES..]), [], msg);
    assert [] + msg == msg;
  }

  lemma TwoBytes(x: ByteSeq)
    requires |x| == 2
    ensures FromBigEndian(x) < 0x1_0000 && FromBigEndian(x) % 0x1_0000 == FromBigEndian(x)
    ensures BigEndian(FromBigEndian(x), 2) == x
  {
    Pow16();
    FromBigEndianBound(x);
    EncodeDecode(x);
  }

  /** A decoded header is a static header with some version of at least one. */
  lemma HeaderShape(h: ByteSeq)
    requires |h| == STATIC_HEADER_BYTES && h[..6] == PROTOCOL_ID
    ensures FromBigEndian(h[21..23]) < 0x1_0000 && FromBigEndian(h[6..8]) < 0x1_0000
    ensures h == StaticHeader(FromBigEndian(h[6..8]), h[8], h[9..21], FromBigEndian(h[21..23]))
  {
    TwoBytes(h[6..8]);
    TwoBytes(h[21..23]);
    HeaderPieces(h);
  }

  lemma HeaderPieces(h: ByteSeq)
    requires |h| == STATIC_HEADER_BYTES
    ensures h == h[..6] + h[6..8] + [h[8]] + h[9..21] + h[21..23]
  {}

  /** The version field of a decoded packet, behind the IV and the protocol id. */
  ghost function Version(v: PacketView): nat
    requires |v.headerData| >= STATIC_PACKET_BYTES
  {
    FromBigEndian(v.headerData[22..24])
  }

  /**
   Re-encoding an accepted packet with its own IV gives the same bytes exactly when its version is the
   current one: the decoder also accepts later versions, which the encoder never writes.
   */
  lemma EncodeInverse(ks: Keystream, data: ByteSeq, dest: ByteSeq)
    requires |dest| == NODE_ADDRESS_BYTES && DecodePacket(ks, data, dest).Some?
    ensures var v := DecodePacket(ks, data, dest).value;
      && |v.headerData| >= STATIC_PACKET_BYTES && |v.nonce| == NONCE_BYTES
      && (EncodePacket(ks, data[..IV_BYTES], v.flag, v.nonce, v.authData, v.msgData, dest) == data
          <==> Version(v) == PROTOCOL_VERSION)
  {
    var v, key, iv := DecodePacket(ks, data, dest).value, dest[..KEY_BYTES], data[..IV_BYTES];
    var masked := data[IV_BYTES..STATIC_PACKET_BYTES];
    var h := Ctr(ks, key, iv, 0, masked);
    HeaderShape(h);
    assert v.headerData[22..24] == h[6..8];
    var h1 := StaticHeader(PROTOCOL_VERSION, v.flag, v.nonce, |v.authData|);
    var p := EncodePacket(ks, iv, v.flag, v.nonce, v.authData, v.msgData, dest);
    EncodedLayout(ks, iv, v.flag, v.nonce, v.authData, v.msgData, dest);
    CtrTwice(ks, key, iv, 0, masked);
    CtrTwice(ks, key, iv, 0, h1);
    var authEnd := STATIC_PACKET_BYTES + v.authSize;
    CtrTwice(ks, key, iv, STATIC_HEADER_BYTES, data[STATIC_PACKET_BYTES..authEnd]);
    assert data[STATIC_PACKET_BYTES..] == data[STATIC_PACKET_BYTES..authEnd] + data[authEnd..];
    Pieces(p, data, iv);
    if Version(v) != PROTOCOL_VERSION {
      StaticHeaderFields(PROTOCOL_VERSION, v.flag, v.nonce, |v.authData|);
      assert h1 != h;
    }
  }

  lemma Pieces(p: ByteSeq, q: ByteSeq, iv: ByteSeq)
    requires |p| >= STATIC_PACKET_BYTES && |q| >= STATIC_PACKET_BYTES && p[..IV_BYTES] == q[..IV_BYTES]
    requires p[STATIC_PACKET_BYTES..] == q[STATIC_PACKET_BYTES..]
    ensures p == q <==> p[IV_BYTES..STATIC_PACKET_BYTES] == q[IV_BYTES..STATIC_PACKET_BYTES]
  {
    assert p == p[..IV_BYTES] + p[IV_BYTES..STATIC_PACKET_BYTES] + p[STATIC_PACKET_BYTES..];
    assert q == q[..IV_BYTES] + q[IV_BYTES..STATIC_PACKET_BYTES] + q[STATIC_PACKET_BYTES..];
  }

  //
  // Handshake auth data
  //

  const HANDSHAKE_FIXED_BYTES := 34

  datatype HandshakeAuth = HandshakeAuth(srcId: ByteSeq, signature: ByteSeq, pubkey: ByteSeq, record: ByteSeq)

  function MakeHandshakeAuth(a: HandshakeAuth): ByteSeq {
    a.srcId + [|a.signature| % 256] + [|a.pubkey| % 256] + a.signature + a.pubkey + a.record
  }

  function ParseHandshakeAuth(s: ByteSeq): Option<HandshakeAuth> {
    if |s| < HANDSHAKE_FIXED_BYTES then None
    else
      var pubkeyOffset := HANDSHAKE_FIXED_BYTES + s[32];
      var recordOffset := pubkeyOffset + s[33];
      if recordOffset > |s| then None
      else Some(HandshakeAuth(s[..32], s[HANDSHAKE_FIXED_BYTES..pubkeyOffset], s[pubkeyOffset..recordOffset],
                              s[recordOffset..]))
  }

  /** The fields of handshake auth data stand in this order, after the two sizes. */
  lemma HandshakeAuthLayout(a: HandshakeAuth)
    requires |a.srcId| == 32 && |a.signature| < 256 && |a.pubkey| < 256
    ensures var s, m := MakeHandshakeAuth(a), 34 + |a.signature|;
            && |s| == m + |a.pubkey| + |a.record|
            && s[..32] == a.srcId && s[32] == |a.signature| && s[33] == |a.pubkey|
            && s[34..m] == a.signature && s[m..m + |a.pubkey|] == a.pubkey && s[m + |a.pubkey|..] == a.record
  {}

  /** Parsing recovers the four fields exactly when both sizes fit their one-byte fields. */
  lemma ParseInverse(a: HandshakeAuth)
    requires |a.srcId| == NODE_ADDRESS_BYTES
    ensures ParseHandshakeAuth(MakeHandshakeAuth(a)) == Some(a) <==> |a.signature| < 256 && |a.pubkey| < 256
  {
    var s := MakeHandshakeAuth(a);
    assert s[32] == |a.signature| % 256 && s[33] == |a.pubkey| % 256 && s[..32] == a.srcId;
    if |a.signature| < 256 && |a.pubkey| < 256 {
      var m := HANDSHAKE_FIXED_BYTES + |a.signature|;
      assert s[HANDSHAKE_FIXED_BYTES..m] == a.signature;
      assert s[m..m + |a.pubkey|] == a.pubkey;
      assert s[m + |a.pubkey|..] == a.record;
    }
  }

  /** Rebuilding accepted auth data gives the same bytes. */
  lemma MakeInverse(s: ByteSeq)
    requires ParseHandshakeAuth(s).Some?
    ensures MakeHandshakeAuth(ParseHandshakeAuth(s).value) == s
  {
    var a := ParseHandshakeAuth(s).value;
    assert s == s[..32] + [s[32]] + [s[33]] + a.signature + a.pubkey + a.record;
  }
}
