/**
 The foreign functions of the discv5 client and what is taken for granted of them.
 Byte arrays of fixed size are types; everything else is a byte string.
 */
module Discv5Crypto {
  import opened Bytes
  import opened PacketCodec

  const PRIVATE_KEY_BYTES := 32
  const NODE_ID_BYTES := 64
  const COMPRESSED_KEY_BYTES := 33
  const ID_NONCE_BYTES := 16
  const ENR_MAX_BYTES := 300
  const SIGNATURE_BYTES := 64
  const SECRET_BYTES := 33
  const TAG_BYTES := 16

  function Repeat(b: Byte, n: nat): (s: ByteSeq)
    ensures |s| == n
  { seq(n, _ => b) }

  type PrivateKey = s: ByteSeq | |s| == PRIVATE_KEY_BYTES witness Repeat(0, PRIVATE_KEY_BYTES)
  type NodeId = s: ByteSeq | |s| == NODE_ID_BYTES witness Repeat(0, NODE_ID_BYTES)
  type NodeAddress = s: ByteSeq | |s| == NODE_ADDRESS_BYTES witness Repeat(0, NODE_ADDRESS_BYTES)
  type CompressedKey = s: ByteSeq | |s| == COMPRESSED_KEY_BYTES witness Repeat(0, COMPRESSED_KEY_BYTES)
  type Signature = s: ByteSeq | |s| == SIGNATURE_BYTES witness Repeat(0, SIGNATURE_BYTES)
  type Nonce = s: ByteSeq | |s| == NONCE_BYTES witness Repeat(0, NONCE_BYTES)
  type Iv = s: ByteSeq | |s| == IV_BYTES witness Repeat(0, IV_BYTES)
  type IdNonce = s: ByteSeq | |s| == ID_NONCE_BYTES witness Repeat(0, ID_NONCE_BYTES)

  /**
   `ecdh` takes a node id, `ecdhShort` a compressed key, which it may refuse; `kdf` gives the two keys of a session.
   `seal` and `open_` are the authenticated cipher.  `record` is a node's own record,
   `recordId` the node id of a record whose signature verifies.  `findnodeText`, `findnodeId`, `nodesText` and
   `nodesOf` write and read the RLP bodies of messages.
   */
  datatype Crypto = Crypto(
    pub: PrivateKey -> NodeId,
    compress: NodeId -> CompressedKey,
    address: NodeId -> NodeAddress,
    ecdh: (PrivateKey, NodeId) -> ByteSeq,
    ecdhShort: (PrivateKey, CompressedKey) -> Option<ByteSeq>,
    sign: (PrivateKey, ByteSeq) -> Signature,
    verify: (NodeId, Signature, ByteSeq) -> bool,
    kdf: (ByteSeq, ByteSeq, ByteSeq) -> (ByteSeq, ByteSeq),
    seal: (ByteSeq, ByteSeq, ByteSeq, ByteSeq) -> ByteSeq,
    open_: (ByteSeq, ByteSeq, ByteSeq, ByteSeq) -> Option<ByteSeq>,
    ks: Keystream,
    record: PrivateKey -> ByteSeq,
    recordId: ByteSeq -> Option<NodeId>,
    findnodeText: ByteSeq -> ByteSeq,
    findnodeId: ByteSeq -> Option<ByteSeq>,
    nodesText: (ByteSeq, ByteSeq) -> ByteSeq,
    nodesOf: ByteSeq -> Option<(ByteSeq, seq<ByteSeq>)>)

  //
  // The identity proof
  //

  /** "discovery v5 identity proof" */
  const IDENTITY_TEXT: ByteSeq :=
    [100, 105, 115, 99, 111, 118, 101, 114, 121, 32, 118, 53, 32, 105, 100, 101, 110, 116, 105, 116, 121, 32,
     112, 114, 111, 111, 102]

  /** What an identity signature is made over: the parts one after the other, with no lengths between them. */
  function IdMessage(challengeData: ByteSeq, ephPub: ByteSeq, dest: ByteSeq): ByteSeq {
    IDENTITY_TEXT + challengeData + ephPub + dest
  }

  /** A signature of another size is refused before it is looked at. */
  predicate Verifies(c: Crypto, nodeId: NodeId, signature: ByteSeq, m: ByteSeq) {
    |signature| == SIGNATURE_BYTES && c.verify(nodeId, signature, m)
  }

  /** So is a compressed key of another size. */
  function SharedSecret(c: Crypto, priv: PrivateKey, ephPub: ByteSeq): Option<ByteSeq> {
    if |ephPub| != COMPRESSED_KEY_BYTES then None else c.ecdhShort(priv, ephPub)
  }

  /** And a ciphertext too short for its tag. */
  function Decrypt(c: Crypto, key: ByteSeq, nonce: ByteSeq, body: ByteSeq, header: ByteSeq): Option<ByteSeq> {
    if |body| < TAG_BYTES then None else c.open_(key, nonce, body, header)
  }

  /** "discovery v5 key agreement" */
  const KEY_TEXT: ByteSeq :=
    [100, 105, 115, 99, 111, 118, 101, 114, 121, 32, 118, 53, 32, 107, 101, 121, 32, 97, 103, 114, 101, 101, 109,
     101, 110, 116]

  function SessionKeys(c: Crypto, shared: ByteSeq, challengeData: ByteSeq, first: ByteSeq, second: ByteSeq)
    : (ByteSeq, ByteSeq)
  {
    c.kdf(shared, challengeData, KEY_TEXT + first + second)
  }

  //
  // What is taken for granted
  //

  /** Both sides of a key agreement get the same secret. */
  ghost predicate Agrees(c: Crypto) {
    forall a: PrivateKey, b: PrivateKey :: c.ecdhShort(a, c.compress(c.pub(b))) == Some(c.ecdh(b, c.pub(a)))
  }

  /** A ciphertext ends in its tag, and decryption undoes encryption. */
  ghost predicate Opens(c: Crypto) {
    forall k, n, p, h :: |c.seal(k, n, p, h)| == |p| + TAG_BYTES && c.open_(k, n, c.seal(k, n, p, h), h) == Some(p)
  }

  /** A node's record is small and names the node. */
  ghost predicate Names(c: Crypto) {
    forall k: PrivateKey :: 0 < |c.record(k)| <= ENR_MAX_BYTES && c.recordId(c.record(k)) == Some(c.pub(k))
  }

  ghost predicate Lawful(c: Crypto) { Agrees(c) && Opens(c) && Names(c) }

  /** Among the messages `proofs`, a signature of `k` verifies for exactly the one it was made over. */
  ghost predicate Unforged(c: Crypto, k: PrivateKey, proofs: set<ByteSeq>) {
    forall m <- proofs, m' <- proofs :: c.verify(c.pub(k), c.sign(k, m), m') <==> m == m'
  }

  /** The keystreams under two addresses differ within the protocol id. */
  ghost predicate Differ(c: Crypto, d: NodeAddress, e: NodeAddress, iv: Iv) {
    exists i :: 0 <= i < |PROTOCOL_ID| && c.ks(d[..KEY_BYTES], iv, i) != c.ks(e[..KEY_BYTES], iv, i)
  }

  /** What a packet is masked with. */
  datatype Mask = Mask(dest: NodeAddress, iv: Iv)

  /** Among `nodes` no other has this node's address, and a packet with another address's mask is garbled for it. */
  ghost predicate Distinguished(c: Crypto, nodeId: NodeId, nodes: set<NodeId>, masks: set<Mask>) {
    && (forall x <- nodes :: c.address(x) == c.address(nodeId) ==> x == nodeId)
    && (forall k <- masks :: k.dest != c.address(nodeId) ==> Differ(c, k.dest, c.address(nodeId), k.iv))
  }

  //
  // What follows for the identity proof
  //

  lemma SplitEnd(a: ByteSeq, b: ByteSeq, a': ByteSeq, b': ByteSeq)
    requires a + b == a' + b' && |b| == |b'|
    ensures a == a' && b == b'
  {
    assert a == (a + b)[..|a|] && a' == (a' + b')[..|a|];
    assert b == (a + b)[|a|..] && b' == (a' + b')[|a|..];
  }

  /** Where the parts have the same sizes, the bytes determine them. */
  lemma IdMessageInjective(ch: ByteSeq, eph: ByteSeq, dest: ByteSeq, ch': ByteSeq, eph': ByteSeq, dest': ByteSeq)
    requires |eph| == |eph'| && |dest| == |dest'| && IdMessage(ch, eph, dest) == IdMessage(ch', eph', dest')
    ensures ch == ch' && eph == eph' && dest == dest'
  {
    SplitEnd(IDENTITY_TEXT + ch + eph, dest, IDENTITY_TEXT + ch' + eph', dest');
    SplitEnd(IDENTITY_TEXT + ch, eph, IDENTITY_TEXT + ch', eph');
    SplitEnd(IDENTITY_TEXT, ch, IDENTITY_TEXT, ch');
  }

  /** Where they have not, they do not: a byte may belong to the challenge or to the key. */
  lemma IdMessageAmbiguous(ch: ByteSeq, x: Byte, eph: ByteSeq, dest: ByteSeq)
    ensures IdMessage(ch + [x], eph, dest) == IdMessage(ch, [x] + eph, dest)
  {
    Assoc(IDENTITY_TEXT, ch, [x]);
    Assoc(IDENTITY_TEXT + ch, [x], eph);
  }

  /** An identity proof verifies for exactly the challenge, ephemeral key and destination it was made for. */
  lemma SignatureBinds(c: Crypto, k: PrivateKey, proofs: set<ByteSeq>, ch: ByteSeq, eph: CompressedKey,
                       dest: NodeAddress, ch': ByteSeq, eph': CompressedKey, dest': NodeAddress)
    requires Unforged(c, k, proofs) && IdMessage(ch, eph, dest) in proofs && IdMessage(ch', eph', dest') in proofs
    ensures Verifies(c, c.pub(k), c.sign(k, IdMessage(ch, eph, dest)), IdMessage(ch', eph', dest')) <==>
            ch == ch' && eph == eph' && dest == dest'
  {
    if IdMessage(ch, eph, dest) == IdMessage(ch', eph', dest') { IdMessageInjective(ch, eph, dest, ch', eph', dest'); }
  }

  //
  // The laws are consistent
  //

  function ToyPub(k: PrivateKey): NodeId { k + Repeat(0, NODE_ID_BYTES - PRIVATE_KEY_BYTES) }

  function ToyKey(b: Byte): PrivateKey { Repeat(b, PRIVATE_KEY_BYTES) }

  function ToyAddress(x: NodeId): NodeAddress {
    if x == ToyPub(ToyKey(1)) then Repeat(1, NODE_ADDRESS_BYTES)
    else if x == ToyPub(ToyKey(2)) then Repeat(2, NODE_ADDRESS_BYTES)
    else Repeat(0, NODE_ADDRESS_BYTES)
  }

  function ToyStream(key: ByteSeq, iv: ByteSeq, i: nat): Byte { if key == [] then 0 else key[0] }

  /** The 64 bytes behind the identity text. */
  function ToyDigest(m: ByteSeq): Signature { if |m| < 91 then Repeat(0, SIGNATURE_BYTES) else m[27..91] }

  function ToyOpen(x: ByteSeq): Option<ByteSeq> { if |x| < TAG_BYTES then None else Some(x[..|x| - TAG_BYTES]) }

  /** Every size is that of the program: 64-byte signatures, 33-byte secrets, 16-byte keys and tags. */
  function ToyCrypto(): Crypto {
    Crypto(
      ToyPub, _ => Repeat(0, COMPRESSED_KEY_BYTES), ToyAddress, (_, _) => Repeat(0, SECRET_BYTES),
      (_, _) => Some(Repeat(0, SECRET_BYTES)), (_, m) => ToyDigest(m), (_, signature, m) => signature == ToyDigest(m),
      (_, _, _) => (Repeat(0, KEY_BYTES), Repeat(0, KEY_BYTES)), (_, _, p, _) => p + Repeat(0, TAG_BYTES),
      (_, _, x, _) => ToyOpen(x), ToyStream,
      k => k, r => if |r| == PRIVATE_KEY_BYTES then Some(ToyPub(r)) else None,
      x => x, x => Some(x), (_, x) => x, _ => None)
  }

  lemma ToyLawful()
    ensures Lawful(ToyCrypto())
  {
    var tag := Repeat(0, TAG_BYTES);
    forall p: ByteSeq ensures |p + tag| == |p| + TAG_BYTES && ToyOpen(p + tag) == Some(p) {
      assert (p + tag)[..|p|] == p;
    }
  }

  /** No two of the messages have the same digest. */
  ghost predicate ToldApart(proofs: set<ByteSeq>) {
    forall m <- proofs, m' <- proofs :: ToyDigest(m) == ToyDigest(m') ==> m == m'
  }

  /** The masks are for addresses of the toy. */
  ghost predicate ToyMasks(masks: set<Mask>) { forall k <- masks :: exists x: NodeId :: ToyAddress(x) == k.dest }

  lemma ToyAddressHead(x: NodeId)
    ensures ToyAddress(x)[..KEY_BYTES][0] == ToyAddress(x)[0]
    ensures ToyAddress(x)[0] == if x == ToyPub(ToyKey(1)) then 1 else if x == ToyPub(ToyKey(2)) then 2 else 0
  {
    assert ToyPub(ToyKey(1))[0] == 1 && ToyPub(ToyKey(2))[0] == 2;
  }

  lemma ToyDistinguished(b: Byte, nodes: set<NodeId>, masks: set<Mask>)
    requires (b == 1 || b == 2) && ToyMasks(masks)
    ensures Distinguished(ToyCrypto(), ToyPub(ToyKey(b)), nodes, masks)
  {
    var c, id := ToyCrypto(), ToyPub(ToyKey(b));
    assert ToyPub(ToyKey(1))[0] == 1 && ToyPub(ToyKey(2))[0] == 2;
    ToyAddressHead(id);
    forall x | x in nodes && c.address(x) == c.address(id) ensures x == id { ToyAddressHead(x); }
    forall k | k in masks && k.dest != c.address(id) ensures Differ(c, k.dest, c.address(id), k.iv) {
      var x: NodeId :| ToyAddress(x) == k.dest;
      ToyAddressHead(x);
      assert c.ks(k.dest[..KEY_BYTES], k.iv, 0) != c.ks(c.address(id)[..KEY_BYTES], k.iv, 0);
    }
  }

  /**
   The program's sizes and the laws go together, for two nodes and any messages, nodes and masks the toy tells apart.
   */
  lemma LawsConsistent(proofs: set<ByteSeq>, nodes: set<NodeId>, masks: set<Mask>)
    requires ToldApart(proofs) && ToyMasks(masks)
    ensures var c := ToyCrypto();
            && Lawful(c) && c.pub(ToyKey(1)) != c.pub(ToyKey(2))
            && forall b: Byte :: b == 1 || b == 2 ==>
                 Unforged(c, ToyKey(b), proofs) && Distinguished(c, c.pub(ToyKey(b)), nodes, masks)
  {
    ToyLawful();
    ToyDistinguished(1, nodes, masks);
    ToyDistinguished(2, nodes, masks);
    assert ToyPub(ToyKey(1))[0] == 1 && ToyPub(ToyKey(2))[0] == 2;
  }
}
