/**
 The discv5 client's session state: what each datagram and each send does to the session, pending-request
 and challenge maps (section "Sessions" of Node Discovery Protocol v5 Theory).
 Random values are arguments of the step that draws them.
 */
module Handshake {
  import opened Bytes
  import opened PacketCodec
  import opened Discv5Crypto
  import Words

  type Endpoint = ByteSeq

  //
  // Client state
  //

  datatype Identity = Identity(priv: PrivateKey, endpoint: Endpoint)

  function Address(c: Crypto, id: Identity): NodeAddress { c.address(c.pub(id.priv)) }

  datatype Peer = Peer(nodeId: NodeId, endpoint: Endpoint, reqId: ByteSeq)

  datatype Session = Session(
    writeKey: ByteSeq, readKey: ByteSeq, remoteAddr: NodeAddress, remoteId: NodeId, lastReqId: ByteSeq)

  datatype Pending = Pending(
    peer: Peer, reqId: ByteSeq, requestNonce: Nonce, challengeData: ByteSeq, recordSeq: nat, haveChallenge: bool)

  datatype Challenge = Challenge(remoteAddr: NodeAddress, challengeData: ByteSeq, requestNonce: Nonce, recordSeq: nat)

  /** Coroutines spawned by packet handling that have not run yet. */
  datatype Task =
    | ChallengeTask(to: Endpoint, remoteAddr: NodeAddress, nonce: Nonce)
    | FindnodeTask(peer: Peer)
    | RespondTask(to: Endpoint, reqId: ByteSeq)

  /** The records a NODES answer handed to the crawler, and the node it came from. */
  datatype Found = Found(remoteId: NodeId, records: seq<ByteSeq>)

  datatype Client = Client(
    sessions: map<Endpoint, Session>, pending: map<Endpoint, Pending>, challenges: map<Endpoint, Challenge>,
    tasks: set<Task>, found: seq<Found>)

  const NEW_CLIENT: Client := Client(map[], map[], map[], {}, [])

  //
  // Packets
  //

  const FLAG_MESSAGE: Byte := 0
  const FLAG_WHOAREYOU: Byte := 1
  const FLAG_HANDSHAKE: Byte := 2
  const WHOAREYOU_AUTH_BYTES := 24
  const MIN_PACKET_BYTES := 63
  const INITIAL_ENR_SEQ: nat := 1
  const FINDNODE: Byte := 3
  const NODES: Byte := 4

  datatype Content =
    | MessageAuth(src: NodeAddress)
    | WhoareyouAuth(idNonce: IdNonce, recordSeq: nat)
    | HandshakeAuthOf(auth: HandshakeAuth)

  /** A packet as its sender put it together. */
  datatype Packet = Packet(
    from: Endpoint, to: Endpoint, dest: NodeAddress, iv: Iv, nonce: Nonce, content: Content, body: ByteSeq)

  function Flag(a: Content): Byte {
    match a
    case MessageAuth(_) => FLAG_MESSAGE
    case WhoareyouAuth(_, _) => FLAG_WHOAREYOU
    case HandshakeAuthOf(_) => FLAG_HANDSHAKE
  }

  function AuthBytes(a: Content): ByteSeq {
    match a
    case MessageAuth(src) => src
    case WhoareyouAuth(idNonce, recordSeq) => idNonce + BigEndian(recordSeq, 8)
    case HandshakeAuthOf(auth) => MakeHandshakeAuth(auth)
  }

  /** The bytes a packet's message is authenticated with; for a WHOAREYOU packet they are the challenge. */
  function HeaderOf(iv: Iv, nonce: Nonce, a: Content): ByteSeq { UnmaskedHeader(iv, Flag(a), nonce, AuthBytes(a)) }

  function Header(p: Packet): ByteSeq { HeaderOf(p.iv, p.nonce, p.content) }

  /** The datagram. */
  function Wire(c: Crypto, p: Packet): ByteSeq {
    EncodePacket(c.ks, p.iv, Flag(p.content), p.nonce, AuthBytes(p.content), p.body, p.dest)
  }

  //
  // handle_packet
  //

  function HandleWhoareyou(n: Client, from: Endpoint, nonce: Nonce, recordSeq: nat, header: ByteSeq): Client {
    if from !in n.pending || n.pending[from].requestNonce != nonce then n
    else
      var pend := n.pending[from].(challengeData := header, recordSeq := recordSeq, haveChallenge := true);
      n.(pending := n.pending[from := pend], tasks := n.tasks + {FindnodeTask(pend.peer)})
  }

  /** A NODES answer counts when it names the last request, or when there is none to name. */
  function HandleNodes(c: Crypto, n: Client, s: Session, body: ByteSeq): Client {
    match c.nodesOf(body)
    case None => n
    case Some(r) =>
      if s.lastReqId != [] && r.0 != s.lastReqId then n else n.(found := n.found + [Found(s.remoteId, r.1)])
  }

  function HandlePlaintext(c: Crypto, n: Client, from: Endpoint, s: Session, plaintext: ByteSeq): Client {
    if plaintext == [] then n
    else if plaintext[0] == NODES then HandleNodes(c, n, s, plaintext[1..])
    else if plaintext[0] == FINDNODE then
      match c.findnodeId(plaintext[1..])
      case None => n
      case Some(reqId) => n.(tasks := n.tasks + {RespondTask(from, reqId)})
    else n
  }

  function HandleMessage(c: Crypto, n: Client, from: Endpoint, src: NodeAddress, nonce: Nonce, body: ByteSeq,
                         header: ByteSeq): Client
  {
    var challenge := n.(tasks := n.tasks + {ChallengeTask(from, src, nonce)});
    if from !in n.sessions || n.sessions[from].remoteAddr != src then challenge
    else
      match Decrypt(c, n.sessions[from].readKey, nonce, body, header)
      case None => challenge
      case Some(plaintext) => HandlePlaintext(c, n, from, n.sessions[from], plaintext)
  }

  /** Every reason to refuse a handshake before its message is opened. */
  predicate HandshakeChecks(c: Crypto, self: Identity, n: Client, from: Endpoint, a: HandshakeAuth) {
    && from in n.challenges && a.srcId == n.challenges[from].remoteAddr
    && a.record != [] && c.recordId(a.record).Some? && c.address(c.recordId(a.record).value) == a.srcId
    && Verifies(c, c.recordId(a.record).value, a.signature,
                IdMessage(n.challenges[from].challengeData, a.pubkey, Address(c, self)))
    && SharedSecret(c, self.priv, a.pubkey).Some?
  }

  /** The session a checked handshake leads to: read and write keys the other way round. */
  function CheckedSession(c: Crypto, self: Identity, n: Client, from: Endpoint, a: HandshakeAuth): Session
    requires HandshakeChecks(c, self, n, from, a)
  {
    var keys := SessionKeys(c, SharedSecret(c, self.priv, a.pubkey).value, n.challenges[from].challengeData, a.srcId,
                            Address(c, self));
    Session(keys.1, keys.0, a.srcId, c.recordId(a.record).value, [])
  }

  predicate Accepts(c: Crypto, self: Identity, n: Client, from: Endpoint, a: HandshakeAuth, nonce: Nonce,
                    body: ByteSeq, header: ByteSeq)
  {
    && HandshakeChecks(c, self, n, from, a)
    && Decrypt(c, CheckedSession(c, self, n, from, a).readKey, nonce, body, header).Some?
  }

  function HandleHandshake(c: Crypto, self: Identity, n: Client, from: Endpoint, a: HandshakeAuth, nonce: Nonce,
                           body: ByteSeq, header: ByteSeq): Client
  {
    if !HandshakeChecks(c, self, n, from, a) then n
    else
      var session := CheckedSession(c, self, n, from, a);
      match Decrypt(c, session.readKey, nonce, body, header)
      case None => n.(sessions := n.sessions - {from})
      case Some(plaintext) =>
        var consumed := n.(challenges := n.challenges - {from}, sessions := n.sessions[from := session]);
        if plaintext == [] || plaintext[0] != FINDNODE then consumed
        else match c.findnodeId(plaintext[1..])
          case None => consumed
          case Some(reqId) =>
            consumed.(sessions := n.sessions[from := session.(lastReqId := reqId)],
                      tasks := n.tasks + {RespondTask(from, reqId)})
  }

  /** What an unmasked packet does. */
  function HandleView(c: Crypto, self: Identity, n: Client, from: Endpoint, v: PacketView): Client
    requires |v.nonce| == NONCE_BYTES && |v.authData| == v.authSize
  {
    if v.flag == FLAG_WHOAREYOU then
      if v.authSize != WHOAREYOU_AUTH_BYTES then n
      else HandleWhoareyou(n, from, v.nonce, FromBigEndian(v.authData[ID_NONCE_BYTES..]), v.headerData)
    else if v.flag == FLAG_MESSAGE then
      if v.authSize != NODE_ADDRESS_BYTES then n
      else HandleMessage(c, n, from, v.authData, v.nonce, v.msgData, v.headerData)
    else if v.flag == FLAG_HANDSHAKE then
      match ParseHandshakeAuth(v.authData)
      case None => n
      case Some(a) => HandleHandshake(c, self, n, from, a, v.nonce, v.msgData, v.headerData)
    else n
  }

  /** What a datagram does. */
  function HandleDatagram(c: Crypto, self: Identity, n: Client, from: Endpoint, data: ByteSeq): Client {
    if |data| < MIN_PACKET_BYTES then n
    else match DecodePacket(c.ks, data, Address(c, self))
      case None => n
      case Some(v) => HandleView(c, self, n, from, v)
  }

  /** The datagram unmasks to a handshake that is accepted. */
  predicate AcceptsDatagram(c: Crypto, self: Identity, n: Client, from: Endpoint, data: ByteSeq) {
    && |data| >= MIN_PACKET_BYTES && DecodePacket(c.ks, data, Address(c, self)).Some?
    && var v := DecodePacket(c.ks, data, Address(c, self)).value;
    && v.flag == FLAG_HANDSHAKE && ParseHandshakeAuth(v.authData).Some?
    && Accepts(c, self, n, from, ParseHandshakeAuth(v.authData).value, v.nonce, v.msgData, v.headerData)
  }

  //
  // The same, told of the packet its sender put together
  //

  /** The sizes that the wire format can carry. */
  predicate Fits(a: Content) {
    match a
    case MessageAuth(_) => true
    case WhoareyouAuth(_, recordSeq) => recordSeq < 0x1_0000_0000_0000_0000
    case HandshakeAuthOf(auth) =>
      && |auth.srcId| == NODE_ADDRESS_BYTES && |auth.signature| < 256 && |auth.pubkey| < 256
      && |auth.record| <= ENR_MAX_BYTES
  }

  function HandlePacket(c: Crypto, self: Identity, n: Client, p: Packet): Client {
    if p.dest != Address(c, self) then n
    else match p.content
      case MessageAuth(src) => HandleMessage(c, n, p.from, src, p.nonce, p.body, Header(p))
      case WhoareyouAuth(_, recordSeq) => HandleWhoareyou(n, p.from, p.nonce, recordSeq, Header(p))
      case HandshakeAuthOf(a) => HandleHandshake(c, self, n, p.from, a, p.nonce, p.body, Header(p))
  }

  predicate AcceptsPacket(c: Crypto, self: Identity, n: Client, p: Packet) {
    && p.dest == Address(c, self) && p.content.HandshakeAuthOf?
    && Accepts(c, self, n, p.from, p.content.auth, p.nonce, p.body, Header(p))
  }

  lemma AuthFits(a: Content)
    requires Fits(a)
    ensures |AuthBytes(a)| < 0x1_0000 && |AuthBytes(a)| >= WHOAREYOU_AUTH_BYTES
  {}

  /** Unmasking at the destination gives back what was sent. */
  lemma WireReadBack(c: Crypto, p: Packet)
    requires Fits(p.content)
    ensures |Wire(c, p)| >= MIN_PACKET_BYTES
    ensures DecodePacket(c.ks, Wire(c, p), p.dest) ==
            Some(PacketView(Flag(p.content), p.nonce, |AuthBytes(p.content)|, Header(p), AuthBytes(p.content), p.body))
  {
    AuthFits(p.content);
    EncodedLayout(c.ks, p.iv, Flag(p.content), p.nonce, AuthBytes(p.content), p.body, p.dest);
    DecodeInverse(c.ks, p.iv, Flag(p.content), p.nonce, AuthBytes(p.content), p.body, p.dest);
  }

  lemma RecordSeqReadBack(idNonce: IdNonce, recordSeq: nat)
    requires recordSeq < 0x1_0000_0000_0000_0000
    ensures FromBigEndian(AuthBytes(WhoareyouAuth(idNonce, recordSeq))[ID_NONCE_BYTES..]) == recordSeq
  {
    assert AuthBytes(WhoareyouAuth(idNonce, recordSeq))[ID_NONCE_BYTES..] == BigEndian(recordSeq, 8);
    Words.Pow2Values();
    DecodeEncode(recordSeq, 8);
  }

  /** At its destination a datagram does what its packet says. */
  lemma DeliveredToDestination(c: Crypto, self: Identity, n: Client, p: Packet)
    requires Fits(p.content) && p.dest == Address(c, self)
    ensures HandleDatagram(c, self, n, p.from, Wire(c, p)) == HandlePacket(c, self, n, p)
    ensures AcceptsDatagram(c, self, n, p.from, Wire(c, p)) <==> AcceptsPacket(c, self, n, p)
  {
    WireReadBack(c, p);
    match p.content
    case MessageAuth(_) =>
    case WhoareyouAuth(idNonce, recordSeq) => RecordSeqReadBack(idNonce, recordSeq);
    case HandshakeAuthOf(a) => ParseInverse(a);
  }

  /** Anywhere else it does nothing. */
  lemma DeliveredElsewhere(c: Crypto, self: Identity, n: Client, p: Packet)
    requires Differ(c, p.dest, Address(c, self), p.iv)
    ensures HandleDatagram(c, self, n, p.from, Wire(c, p)) == n
    ensures !AcceptsDatagram(c, self, n, p.from, Wire(c, p))
  {
    var i :| 0 <= i < |PROTOCOL_ID| &&
             c.ks(p.dest[..KEY_BYTES], p.iv, i) != c.ks(Address(c, self)[..KEY_BYTES], p.iv, i);
    WrongDestination(c.ks, p.iv, Flag(p.content), p.nonce, AuthBytes(p.content), p.body, p.dest, Address(c, self), i);
  }

  //
  // send_findnode, send_whoareyou and handle_findnode_request
  //

  /** Where a send stops early: drawing the nonce, drawing the filler, or anything else before the packet is done. */
  datatype Fault = NoFault | NonceFault | FillerFault | OtherFault

  /** The random values a send may draw. */
  datatype Draw = Draw(iv: Iv, nonce: Nonce, filler: ByteSeq, ephPriv: PrivateKey, fault: Fault)

  function FindnodePlaintext(c: Crypto, reqId: ByteSeq): ByteSeq { [FINDNODE] + c.findnodeText(reqId) }

  /** With a session: an encrypted FINDNODE. */
  function SendInSession(c: Crypto, self: Identity, n: Client, peer: Peer, d: Draw): (Client, Option<Packet>)
    requires peer.endpoint in n.sessions
  {
    var s, content := n.sessions[peer.endpoint], MessageAuth(Address(c, self));
    if d.fault != NoFault then (n, None)
    else
      (n.(sessions := n.sessions[peer.endpoint := s.(lastReqId := peer.reqId)]),
       Some(Packet(self.endpoint, peer.endpoint, c.address(peer.nodeId), d.iv, d.nonce, content,
                   c.seal(s.writeKey, d.nonce, FindnodePlaintext(c, peer.reqId), HeaderOf(d.iv, d.nonce, content)))))
  }

  /**
   Without session or challenge: a random message, to be challenged.  An unanswered request is dropped first; the
   new one stays even when no packet comes of it for want of random filler.
   */
  function SendRandom(c: Crypto, self: Identity, n: Client, peer: Peer, d: Draw): (Client, Option<Packet>) {
    var dropped := n.(pending := n.pending - {peer.endpoint});
    var stored := n.(pending := n.pending[peer.endpoint := Pending(peer, peer.reqId, d.nonce, [], 0, false)]);
    match d.fault
    case NonceFault => (dropped, None)
    case FillerFault => (stored, None)
    case OtherFault => (dropped, None)
    case NoFault =>
      (stored, Some(Packet(self.endpoint, peer.endpoint, c.address(peer.nodeId), d.iv, d.nonce,
                           MessageAuth(Address(c, self)), d.filler)))
  }

  /** The session an initiator stores for its handshake, for the destination it sends to. */
  function BuiltSession(c: Crypto, self: Identity, pend: Pending, remoteAddr: NodeAddress, ephPriv: PrivateKey): Session
  {
    var keys := SessionKeys(c, c.ecdh(ephPriv, pend.peer.nodeId), pend.challengeData, Address(c, self), remoteAddr);
    Session(keys.0, keys.1, remoteAddr, pend.peer.nodeId, pend.reqId)
  }

  function BuiltAuth(c: Crypto, self: Identity, pend: Pending, remoteAddr: NodeAddress, ephPriv: PrivateKey)
    : HandshakeAuth
  {
    var ephPub := c.compress(c.pub(ephPriv));
    HandshakeAuth(Address(c, self), c.sign(self.priv, IdMessage(pend.challengeData, ephPub, remoteAddr)), ephPub,
                  if pend.recordSeq < INITIAL_ENR_SEQ then c.record(self.priv) else [])
  }

  /** With a challenge: the handshake packet, and the session stored for it. */
  function SendHandshake(c: Crypto, self: Identity, n: Client, peer: Peer, d: Draw): (Client, Option<Packet>)
    requires peer.endpoint in n.pending
  {
    var pend, remoteAddr := n.pending[peer.endpoint], c.address(peer.nodeId);
    var session := BuiltSession(c, self, pend, remoteAddr, d.ephPriv);
    var content := HandshakeAuthOf(BuiltAuth(c, self, pend, remoteAddr, d.ephPriv));
    if d.fault != NoFault then (n, None)
    else
      (n.(sessions := n.sessions[peer.endpoint := session], pending := n.pending - {peer.endpoint}),
       Some(Packet(self.endpoint, peer.endpoint, remoteAddr, d.iv, d.nonce, content,
                   c.seal(session.writeKey, d.nonce, FindnodePlaintext(c, pend.reqId),
                          HeaderOf(d.iv, d.nonce, content)))))
  }

  function SendFindnode(c: Crypto, self: Identity, n: Client, peer: Peer, d: Draw): (Client, Option<Packet>) {
    if peer.endpoint in n.sessions then SendInSession(c, self, n, peer, d)
    else if peer.endpoint !in n.pending || !n.pending[peer.endpoint].haveChallenge then SendRandom(c, self, n, peer, d)
    else SendHandshake(c, self, n, peer, d)
  }

  /** The challenge is the packet's own unmasked header. */
  function SendWhoareyou(self: Identity, n: Client, t: Task, iv: Iv, idNonce: IdNonce): (Client, Packet)
    requires t.ChallengeTask?
  {
    var p := Packet(self.endpoint, t.to, t.remoteAddr, iv, t.nonce, WhoareyouAuth(idNonce, 0), []);
    (n.(challenges := n.challenges[t.to := Challenge(t.remoteAddr, Header(p), t.nonce, 0)]), p)
  }

  /** NODES response with the own record; nothing is sent when the session is gone. */
  function Respond(c: Crypto, self: Identity, n: Client, t: Task, d: Draw): Option<Packet>
    requires t.RespondTask?
  {
    if t.to !in n.sessions || d.fault != NoFault then None
    else
      var s, content := n.sessions[t.to], MessageAuth(Address(c, self));
      var plaintext := [NODES] + c.nodesText(t.reqId, c.record(self.priv));
      Some(Packet(self.endpoint, t.to, s.remoteAddr, d.iv, d.nonce, content,
                  c.seal(s.writeKey, d.nonce, plaintext, HeaderOf(d.iv, d.nonce, content))))
  }

  //
  // The client object, step by step as the source updates its maps
  //

  class Discv5Client {
    const c: Crypto
    const self: Identity
    var sessions: map<Endpoint, Session>
    var pendingRequests: map<Endpoint, Pending>
    var sentChallenges: map<Endpoint, Challenge>
    var spawned: set<Task>
    var found: seq<Found>

    constructor (c: Crypto, self: Identity)
      ensures this.c == c && this.self == self && State() == NEW_CLIENT
    {
      this.c, this.self := c, self;
      sessions, pendingRequests, sentChallenges, spawned, found := map[], map[], map[], {}, [];
    }

    function State(): Client
      reads this
    { Client(sessions, pendingRequests, sentChallenges, spawned, found) }

    method ReceiveWhoareyou(from: Endpoint, nonce: Nonce, recordSeq: nat, header: ByteSeq)
      modifies this
      ensures State() == HandleWhoareyou(old(State()), from, nonce, recordSeq, header)
    {
      if from !in pendingRequests { return; }
      var pend := pendingRequests[from];
      if pend.requestNonce != nonce { return; }
      pend := pend.(recordSeq := recordSeq);
      pend := pend.(challengeData := header);
      pend := pend.(haveChallenge := true);
      pendingRequests := pendingRequests[from := pend];
      spawned := spawned + {FindnodeTask(pend.peer)};
    }

    method ReceivePlaintext(from: Endpoint, plaintext: ByteSeq)
      requires from in sessions
      modifies this
      ensures State() == HandlePlaintext(c, old(State()), from, old(sessions[from]), plaintext)
    {
      if plaintext == [] { return; }
      var body := plaintext[1..];
      if plaintext[0] == NODES {
        var nodes := c.nodesOf(body);
        if nodes.None? { return; }
        if sessions[from].lastReqId != [] && nodes.value.0 != sessions[from].lastReqId { return; }
        found := found + [Found(sessions[from].remoteId, nodes.value.1)];
        return;
      }
      if plaintext[0] == FINDNODE {
        var reqId := c.findnodeId(body);
        if reqId.None? { return; }
        spawned := spawned + {RespondTask(from, reqId.value)};
      }
    }

    method ReceiveMessage(from: Endpoint, src: NodeAddress, nonce: Nonce, body: ByteSeq, header: ByteSeq)
      modifies this
      ensures State() == HandleMessage(c, old(State()), from, src, nonce, body, header)
    {
      if from !in sessions || sessions[from].remoteAddr != src {
        spawned := spawned + {ChallengeTask(from, src, nonce)};
        return;
      }
      var plaintext := Decrypt(c, sessions[from].readKey, nonce, body, header);
      if plaintext.None? {
        spawned := spawned + {ChallengeTask(from, src, nonce)};
        return;
      }
      ReceivePlaintext(from, plaintext.value);
    }

    /** The session is stored before the message is opened, and dropped again when it does not open. */
    method ReceiveHandshake(from: Endpoint, a: HandshakeAuth, nonce: Nonce, body: ByteSeq, header: ByteSeq)
      modifies this
      ensures State() == HandleHandshake(c, self, old(State()), from, a, nonce, body, header)
    {
      if from !in sentChallenges || a.srcId != sentChallenges[from].remoteAddr { return; }
      var challenge := sentChallenges[from];
      if a.record == [] { return; }
      var nodeId := c.recordId(a.record);
      if nodeId.None? || c.address(nodeId.value) != a.srcId { return; }
      var localId := Address(c, self);
      if !Verifies(c, nodeId.value, a.signature, IdMessage(challenge.challengeData, a.pubkey, localId)) { return; }
      var shared := SharedSecret(c, self.priv, a.pubkey);
      if shared.None? { return; }
      var keys := SessionKeys(c, shared.value, challenge.challengeData, a.srcId, localId);
      sessions := sessions[from := Session(keys.1, keys.0, a.srcId, nodeId.value, [])];
      var plaintext := Decrypt(c, sessions[from].readKey, nonce, body, header);
      if plaintext.None? {
        sessions := sessions - {from};
        return;
      }
      sentChallenges := sentChallenges - {from};
      if plaintext.value == [] || plaintext.value[0] != FINDNODE { return; }
      var reqId := c.findnodeId(plaintext.value[1..]);
      if reqId.None? { return; }
      sessions := sessions[from := sessions[from].(lastReqId := reqId.value)];
      spawned := spawned + {RespondTask(from, reqId.value)};
    }

    method Receive(from: Endpoint, data: ByteSeq)
      modifies this
      ensures State() == HandleDatagram(c, self, old(State()), from, data)
    {
      if |data| < MIN_PACKET_BYTES { return; }
      var decoded := DecodePacket(c.ks, data, Address(c, self));
      if decoded.None? { return; }
      var v := decoded.value;
      if v.flag == FLAG_WHOAREYOU {
        if v.authSize != WHOAREYOU_AUTH_BYTES { return; }
        ReceiveWhoareyou(from, v.nonce, FromBigEndian(v.authData[ID_NONCE_BYTES..]), v.headerData);
      } else if v.flag == FLAG_MESSAGE {
        if v.authSize != NODE_ADDRESS_BYTES { return; }
        ReceiveMessage(from, v.authData, v.nonce, v.msgData, v.headerData);
      } else if v.flag == FLAG_HANDSHAKE {
        var a := ParseHandshakeAuth(v.authData);
        if a.None? { return; }
        ReceiveHandshake(from, a.value, v.nonce, v.msgData, v.headerData);
      }
    }

    method Findnode(peer: Peer, d: Draw) returns (p: Option<Packet>)
      modifies this
      ensures (State(), p) == SendFindnode(c, self, old(State()), peer, d)
    {
      var key, localAddr, remoteAddr := peer.endpoint, Address(c, self), c.address(peer.nodeId);
      if key in sessions {
        if d.fault != NoFault { return None; }
        var content := MessageAuth(localAddr);
        var body := c.seal(sessions[key].writeKey, d.nonce, FindnodePlaintext(c, peer.reqId),
                           HeaderOf(d.iv, d.nonce, content));
        sessions := sessions[key := sessions[key].(lastReqId := peer.reqId)];
        return Some(Packet(self.endpoint, key, remoteAddr, d.iv, d.nonce, content, body));
      }
      if key in pendingRequests && pendingRequests[key].haveChallenge {
        p := AnswerChallenge(peer, d);
      } else {
        p := AskRandomly(peer, d);
      }
    }

    /** The request is stored before the filler is drawn, and dropped again when the packet cannot be encoded. */
    method AskRandomly(peer: Peer, d: Draw) returns (p: Option<Packet>)
      modifies this
      ensures (State(), p) == SendRandom(c, self, old(State()), peer, d)
    {
      var key := peer.endpoint;
      ghost var before := pendingRequests;
      pendingRequests := pendingRequests - {key};
      if d.fault == NonceFault { return None; }
      pendingRequests := pendingRequests[key := Pending(peer, peer.reqId, d.nonce, [], 0, false)];
      assert pendingRequests == before[key := Pending(peer, peer.reqId, d.nonce, [], 0, false)];
      if d.fault == FillerFault { return None; }
      if d.fault == OtherFault {
        pendingRequests := pendingRequests - {key};
        assert pendingRequests == before - {key};
        return None;
      }
      p := Some(Packet(self.endpoint, key, c.address(peer.nodeId), d.iv, d.nonce, MessageAuth(Address(c, self)),
                       d.filler));
    }

    method AnswerChallenge(peer: Peer, d: Draw) returns (p: Option<Packet>)
      requires peer.endpoint in pendingRequests
      modifies this
      ensures (State(), p) == SendHandshake(c, self, old(State()), peer, d)
    {
      var key, localAddr, remoteAddr := peer.endpoint, Address(c, self), c.address(peer.nodeId);
      if d.fault != NoFault { return None; }
      var pend, ephPub := pendingRequests[key], c.compress(c.pub(d.ephPriv));
      var signature := c.sign(self.priv, IdMessage(pend.challengeData, ephPub, remoteAddr));
      var record := [];
      if pend.recordSeq < INITIAL_ENR_SEQ { record := c.record(self.priv); }
      var keys := SessionKeys(c, c.ecdh(d.ephPriv, pend.peer.nodeId), pend.challengeData, localAddr, remoteAddr);
      var content := HandshakeAuthOf(HandshakeAuth(localAddr, signature, ephPub, record));
      var body := c.seal(keys.0, d.nonce, FindnodePlaintext(c, pend.reqId), HeaderOf(d.iv, d.nonce, content));
      sessions := sessions[key := Session(keys.0, keys.1, remoteAddr, pend.peer.nodeId, pend.reqId)];
      pendingRequests := pendingRequests - {key};
      p := Some(Packet(self.endpoint, key, remoteAddr, d.iv, d.nonce, content, body));
    }

    method Whoareyou(to: Endpoint, remoteAddr: NodeAddress, nonce: Nonce, iv: Iv, idNonce: IdNonce) returns (p: Packet)
      modifies this
      ensures (State(), p) == SendWhoareyou(self, old(State()), ChallengeTask(to, remoteAddr, nonce), iv, idNonce)
    {
      p := Packet(self.endpoint, to, remoteAddr, iv, nonce, WhoareyouAuth(idNonce, 0), []);
      sentChallenges := sentChallenges[to := Challenge(remoteAddr, Header(p), nonce, 0)];
    }
  }
}
