/**
 What two discv5 clients say to each other once their sessions mirror each other: requests are read and answered, and
 answers reach the one who asked.
 */
module HandshakeTalk {
  import opened Bytes
  import opened PacketCodec
  import opened Discv5Crypto
  import opened Handshake
  import opened HandshakeRuns

  /** The sessions the clients at `e` and `f` hold for each other have the same keys the other way round. */
  predicate Talking(u: Setup, e: Endpoint, n: Client, f: Endpoint, m: Client) {
    f in n.sessions && e in m.sessions && Mirrors(u, e, n.sessions[f], f, m.sessions[e])
  }

  lemma TalkingBothWays(u: Setup, e: Endpoint, n: Client, f: Endpoint, m: Client)
    requires Talking(u, e, n, f, m)
    ensures Talking(u, f, m, e, n)
  {}

  function OwnRecord(u: Setup, f: Endpoint): ByteSeq
    requires f in u.keys
  { u.c.record(u.keys[f]) }

  //
  // A request
  //

  /** A FINDNODE sent in session is for the other client, which opens it with the key it reads with. */
  lemma FindnodeOpens(u: Setup, e: Endpoint, n: Client, f: Endpoint, m: Client, peer: Peer, d: Draw)
    requires Opens(u.c) && Talking(u, e, n, f, m) && peer.endpoint == f && peer.nodeId == u.Id(f) && d.fault == NoFault
    ensures var (n', p) := SendFindnode(u.c, u.Self(e), n, peer, d);
            && p.Some? && p.value.from == e && p.value.to == f && p.value.dest == u.Addr(f)
            && p.value.content == MessageAuth(u.Addr(e)) && p.value.nonce == d.nonce && p.value.iv == d.iv
            && Decrypt(u.c, m.sessions[e].readKey, p.value.nonce, p.value.body, Header(p.value)) ==
               Some([FINDNODE] + u.c.findnodeText(peer.reqId))
            && n' == n.(sessions := n.sessions[f := n.sessions[f].(lastReqId := peer.reqId)])
  {}

  function Asks(u: Setup, e: Endpoint, reqId: ByteSeq): set<Task> {
    match u.c.findnodeId(u.c.findnodeText(reqId))
    case None => {}
    case Some(r) => {RespondTask(e, r)}
  }

  /** So the other client does not challenge it, and sets out to answer it. */
  lemma FindnodeHeard(u: Setup, e: Endpoint, n: Client, f: Endpoint, m: Client, peer: Peer, d: Draw)
    requires Opens(u.c) && Talking(u, e, n, f, m) && peer.endpoint == f && peer.nodeId == u.Id(f) && d.fault == NoFault
    ensures var p := SendFindnode(u.c, u.Self(e), n, peer, d).1;
            && p.Some?
            && HandlePacket(u.c, u.Self(f), m, p.value) == m.(tasks := m.tasks + Asks(u, e, peer.reqId))
            && HandleDatagram(u.c, u.Self(f), m, e, Wire(u.c, p.value)) ==
               m.(tasks := m.tasks + Asks(u, e, peer.reqId))
  {
    FindnodeOpens(u, e, n, f, m, peer, d);
    var p := SendFindnode(u.c, u.Self(e), n, peer, d).1.value;
    var text := [FINDNODE] + u.c.findnodeText(peer.reqId);
    assert text[0] == FINDNODE && text[1..] == u.c.findnodeText(peer.reqId);
    assert HandlePacket(u.c, u.Self(f), m, p) == HandlePlaintext(u.c, m, e, m.sessions[e], text);
    assert m.tasks + {} == m.tasks;
    DeliveredToDestination(u.c, u.Self(f), m, p);
  }

  //
  // An answer
  //

  /** A NODES answer is for the client that asked, which opens it with the key it reads with. */
  lemma NodesOpen(u: Setup, e: Endpoint, n: Client, f: Endpoint, m: Client, reqId: ByteSeq, d: Draw)
    requires Opens(u.c) && Talking(u, e, n, f, m) && d.fault == NoFault
    ensures var p := Respond(u.c, u.Self(f), m, RespondTask(e, reqId), d);
            && p.Some? && p.value.from == f && p.value.to == e && p.value.dest == u.Addr(e)
            && p.value.content == MessageAuth(u.Addr(f)) && p.value.nonce == d.nonce && p.value.iv == d.iv
            && Decrypt(u.c, n.sessions[f].readKey, p.value.nonce, p.value.body, Header(p.value)) ==
               Some([NODES] + u.c.nodesText(reqId, OwnRecord(u, f)))
  {}

  /** What the client that asked `lastReqId` last makes of an answer with these records. */
  function Learned(u: Setup, f: Endpoint, lastReqId: ByteSeq, reqId: ByteSeq): seq<Found>
    requires f in u.keys
  {
    match u.c.nodesOf(u.c.nodesText(reqId, OwnRecord(u, f)))
    case None => []
    case Some((id, records)) => if lastReqId == [] || id == lastReqId then [Found(u.Id(f), records)] else []
  }

  /** Its records are taken from the other node exactly when it answers the last request, or there was none. */
  lemma NodesHeard(u: Setup, e: Endpoint, n: Client, f: Endpoint, m: Client, reqId: ByteSeq, d: Draw)
    requires Opens(u.c) && Talking(u, e, n, f, m) && d.fault == NoFault
    ensures var p := Respond(u.c, u.Self(f), m, RespondTask(e, reqId), d);
            && p.Some?
            && HandlePacket(u.c, u.Self(e), n, p.value) ==
               n.(found := n.found + Learned(u, f, n.sessions[f].lastReqId, reqId))
            && HandleDatagram(u.c, u.Self(e), n, f, Wire(u.c, p.value)) ==
               n.(found := n.found + Learned(u, f, n.sessions[f].lastReqId, reqId))
  {
    NodesOpen(u, e, n, f, m, reqId, d);
    var p := Respond(u.c, u.Self(f), m, RespondTask(e, reqId), d).value;
    var text := [NODES] + u.c.nodesText(reqId, OwnRecord(u, f));
    assert text[0] == NODES && text[1..] == u.c.nodesText(reqId, OwnRecord(u, f));
    assert HandlePacket(u.c, u.Self(e), n, p) == HandlePlaintext(u.c, n, f, n.sessions[f], text);
    assert n.found + [] == n.found;
    DeliveredToDestination(u.c, u.Self(e), n, p);
  }

  //
  // A request and its answer, over the network of a run
  //

  /** The bodies of request and answer are read as they were written. */
  predicate ReadBack(u: Setup, f: Endpoint, reqId: ByteSeq, records: seq<ByteSeq>)
    requires f in u.keys
  {
    && u.c.findnodeId(u.c.findnodeText(reqId)) == Some(reqId)
    && u.c.nodesOf(u.c.nodesText(reqId, OwnRecord(u, f))) == Some((reqId, records))
  }

  /** `e` may ask `f` with this draw. */
  predicate MayAsk(u: Setup, g: Scope, w: World, e: Endpoint, f: Endpoint, peer: Peer, d: Draw) {
    && e in w.clients && f in w.clients && e != f && Talking(u, e, w.clients[e], f, w.clients[f])
    && peer.endpoint == f && peer.nodeId == u.Id(f)
    && d.fault == NoFault && d.nonce !in w.h.drawn && u.Id(f) in g.nodes && Mask(u.Addr(f), d.iv) in g.masks
    && SignedProof(u, w, e, peer, d) <= g.proofs
  }

  function AskedBy(n: Client, f: Endpoint, reqId: ByteSeq): Client
    requires f in n.sessions
  { n.(sessions := n.sessions[f := n.sessions[f].(lastReqId := reqId)]) }

  function Heard(u: Setup, m: Client, e: Endpoint, reqId: ByteSeq): Client {
    m.(tasks := m.tasks + Asks(u, e, reqId))
  }

  lemma AskStep(u: Setup, g: Scope, w: World, e: Endpoint, f: Endpoint, peer: Peer, d: Draw) returns (p: Packet)
    requires Opens(u.c) && MayAsk(u, g, w, e, f, peer, d)
    ensures UsedWithin(u, g, w, Findnode(e, peer, d))
    ensures var w1 := Apply(u, w, Findnode(e, peer, d));
            && w1.clients == w.clients[e := AskedBy(w.clients[e], f, peer.reqId)]
            && w1.h.drawn.Keys == w.h.drawn.Keys + {d.nonce} && Enabled(u, w1, Deliver(f, p))
    ensures !p.content.HandshakeAuthOf? && Mask(p.dest, p.iv) in g.masks
    ensures HandlePacket(u.c, u.Self(f), w.clients[f], p) == Heard(u, w.clients[f], e, peer.reqId)
  {
    FindnodeOpens(u, e, w.clients[e], f, w.clients[f], peer, d);
    FindnodeHeard(u, e, w.clients[e], f, w.clients[f], peer, d);
    p := SendFindnode(u.c, u.Self(e), w.clients[e], peer, d).1.value;
  }

  lemma ReachAsked(u: Setup, g: Scope, w: World, e: Endpoint, f: Endpoint, peer: Peer, d: Draw) returns (w': World)
    requires Sound(u, g) && Reached(u, g, w) && MayAsk(u, g, w, e, f, peer, d)
    ensures Reached(u, g, w') && w'.h.drawn.Keys == w.h.drawn.Keys + {d.nonce}
    ensures w'.clients == w.clients[e := AskedBy(w.clients[e], f, peer.reqId)]
                                   [f := Heard(u, w.clients[f], e, peer.reqId)]
  {
    var p := AskStep(u, g, w, e, f, peer, d);
    ReachStep(u, g, w, Findnode(e, peer, d));
    var w1 := Apply(u, w, Findnode(e, peer, d));
    ReachHandled(u, g, w1, f, p);
    w' := w1.(clients := w1.clients[f := HandlePacket(u.c, u.Self(f), w1.clients[f], p)]);
  }

  /** `f` may answer `e` with this draw. */
  predicate MayAnswer(u: Setup, g: Scope, w: World, e: Endpoint, f: Endpoint, reqId: ByteSeq, d: Draw) {
    && e in w.clients && f in w.clients && e != f && Talking(u, e, w.clients[e], f, w.clients[f])
    && RespondTask(e, reqId) in w.clients[f].tasks
    && d.fault == NoFault && d.nonce !in w.h.drawn && Mask(u.Addr(e), d.iv) in g.masks
  }

  function Told(u: Setup, n: Client, f: Endpoint, reqId: ByteSeq): Client
    requires f in u.keys && f in n.sessions
  { n.(found := n.found + Learned(u, f, n.sessions[f].lastReqId, reqId)) }

  lemma AnswerStep(u: Setup, g: Scope, w: World, e: Endpoint, f: Endpoint, reqId: ByteSeq, d: Draw)
    returns (p: Packet)
    requires Opens(u.c) && MayAnswer(u, g, w, e, f, reqId, d)
    ensures UsedWithin(u, g, w, RunRespond(f, RespondTask(e, reqId), d))
    ensures var w1 := Apply(u, w, RunRespond(f, RespondTask(e, reqId), d));
            w1.clients == w.clients && Enabled(u, w1, Deliver(e, p))
    ensures !p.content.HandshakeAuthOf? && Mask(p.dest, p.iv) in g.masks
    ensures HandlePacket(u.c, u.Self(e), w.clients[e], p) == Told(u, w.clients[e], f, reqId)
  {
    NodesOpen(u, e, w.clients[e], f, w.clients[f], reqId, d);
    NodesHeard(u, e, w.clients[e], f, w.clients[f], reqId, d);
    p := Respond(u.c, u.Self(f), w.clients[f], RespondTask(e, reqId), d).value;
  }

  lemma ReachAnswered(u: Setup, g: Scope, w: World, e: Endpoint, f: Endpoint, reqId: ByteSeq, d: Draw)
    returns (w': World)
    requires Sound(u, g) && Reached(u, g, w) && MayAnswer(u, g, w, e, f, reqId, d)
    ensures Reached(u, g, w') && w'.clients == w.clients[e := Told(u, w.clients[e], f, reqId)]
  {
    var p := AnswerStep(u, g, w, e, f, reqId, d);
    var s := RunRespond(f, RespondTask(e, reqId), d);
    ReachStep(u, g, w, s);
    var w1 := Apply(u, w, s);
    ReachHandled(u, g, w1, e, p);
    w' := w1.(clients := w1.clients[e := HandlePacket(u.c, u.Self(e), w1.clients[e], p)]);
  }

  /** What the two clients hold after a request and its answer. */
  lemma Exchanged(u: Setup, e: Endpoint, n: Client, f: Endpoint, m: Client, reqId: ByteSeq, records: seq<ByteSeq>)
    requires Talking(u, e, n, f, m) && ReadBack(u, f, reqId, records)
    ensures var n1, m1 := AskedBy(n, f, reqId), Heard(u, m, e, reqId);
            && Talking(u, e, n1, f, m1) && RespondTask(e, reqId) in m1.tasks
            && m1 == m.(tasks := m.tasks + {RespondTask(e, reqId)})
            && Talking(u, e, Told(u, n1, f, reqId), f, m1)
            && Told(u, n1, f, reqId) == n1.(found := n.found + [Found(u.Id(f), records)])
  {}

  /** After the request `f` may answer. */
  lemma AskedMayAnswer(u: Setup, g: Scope, w: World, w1: World, e: Endpoint, f: Endpoint, peer: Peer, ask: Draw,
                       answer: Draw, records: seq<ByteSeq>)
    requires MayAsk(u, g, w, e, f, peer, ask) && ReadBack(u, f, peer.reqId, records)
    requires answer.fault == NoFault && answer.nonce !in w.h.drawn && answer.nonce != ask.nonce
    requires Mask(u.Addr(e), answer.iv) in g.masks && w1.h.drawn.Keys == w.h.drawn.Keys + {ask.nonce}
    requires w1.clients == w.clients[e := AskedBy(w.clients[e], f, peer.reqId)]
                                    [f := Heard(u, w.clients[f], e, peer.reqId)]
    ensures MayAnswer(u, g, w1, e, f, peer.reqId, answer)
    ensures w1.clients[e] == AskedBy(w.clients[e], f, peer.reqId)
    ensures w1.clients[f] == Heard(u, w.clients[f], e, peer.reqId)
  {
    Exchanged(u, e, w.clients[e], f, w.clients[f], peer.reqId, records);
  }

  /**
   From every state of every run in which two clients' sessions mirror each other, either can ask the other in session
   and get the other's record, with no challenge in between and with the sessions still mirroring each other.
   */
  lemma RequestAnswered(u: Setup, g: Scope, w: World, e: Endpoint, f: Endpoint, peer: Peer, ask: Draw, answer: Draw,
                        records: seq<ByteSeq>)
    returns (w': World)
    requires Sound(u, g) && Reached(u, g, w) && MayAsk(u, g, w, e, f, peer, ask)
    requires answer.fault == NoFault && answer.nonce !in w.h.drawn && answer.nonce != ask.nonce
    requires Mask(u.Addr(e), answer.iv) in g.masks && ReadBack(u, f, peer.reqId, records)
    ensures Reached(u, g, w') && e in w'.clients && f in w'.clients
    ensures w'.clients[e] == AskedBy(w.clients[e], f, peer.reqId).(
                               found := w.clients[e].found + [Found(u.Id(f), records)])
    ensures w'.clients[f] == w.clients[f].(tasks := w.clients[f].tasks + {RespondTask(e, peer.reqId)})
    ensures Talking(u, e, w'.clients[e], f, w'.clients[f])
  {
    var w1 := ReachAsked(u, g, w, e, f, peer, ask);
    AskedMayAnswer(u, g, w, w1, e, f, peer, ask, answer, records);
    Exchanged(u, e, w.clients[e], f, w.clients[f], peer.reqId, records);
    w' := ReachAnswered(u, g, w1, e, f, peer.reqId, answer);
  }

  /** While both sides hold the sessions of an accepted handshake, these mirror each other, whatever they ask. */
  lemma AcceptedTalk(u: Setup, g: Scope, trace: seq<World>, steps: seq<Step>, a: Accepted)
    requires Sound(u, g) && Run(u, trace, steps) && Within(u, g, trace, steps) && a in trace[|steps|].accepted
    requires var w := trace[|steps|];
             && a.packet in w.h.built && a.packet.from in w.clients && a.responder in w.clients
             && Holds(w.clients[a.packet.from], a.responder, w.h.built[a.packet].session)
             && Holds(w.clients[a.responder], a.packet.from, a.session)
    ensures var w := trace[|steps|];
            Talking(u, a.packet.from, w.clients[a.packet.from], a.responder, w.clients[a.responder])
  {
    SessionsMirror(u, g, trace, steps, a);
  }

  /** The client's session with `f` is `s`, but for the request it last sent in it. */
  predicate Holds(n: Client, f: Endpoint, s: Session) {
    f in n.sessions && n.sessions[f] == s.(lastReqId := n.sessions[f].lastReqId)
  }

  //
  // The request in a handshake
  //

  function Remembered(u: Setup, reqId: ByteSeq): ByteSeq {
    match u.c.findnodeId(u.c.findnodeText(reqId))
    case None => []
    case Some(r) => r
  }

  lemma OpenedHandshake(u: Setup, e: Endpoint, n: Client, p: Packet, reqId: ByteSeq)
    requires e in u.keys && AcceptsPacket(u.c, u.Self(e), n, p)
    requires Decrypt(u.c, CheckedSession(u.c, u.Self(e), n, p.from, p.content.auth).readKey, p.nonce, p.body,
                     Header(p)) == Some([FINDNODE] + u.c.findnodeText(reqId))
    ensures var n' := HandlePacket(u.c, u.Self(e), n, p);
            && n'.tasks == n.tasks + Asks(u, p.from, reqId)
            && p.from in n'.sessions && n'.sessions[p.from].lastReqId == Remembered(u, reqId)
  {
    var text := [FINDNODE] + u.c.findnodeText(reqId);
    assert text[0] == FINDNODE && text[1..] == u.c.findnodeText(reqId);
    assert n.tasks + {} == n.tasks;
  }

  /** An accepted handshake carries the request its sender's session remembers, and is answered like any other. */
  lemma HandshakeHeard(u: Setup, g: Scope, h: History, e: Endpoint, n: Client, p: Packet, b: Built)
    requires Sound(u, g) && ClientOk(u, g, h, e, n) && e in u.keys && BuiltOk(u, g, h, p, b) && ProofIn(u, g, e, n, p)
    requires AcceptsPacket(u.c, u.Self(e), n, p)
    ensures var n' := HandlePacket(u.c, u.Self(e), n, p);
            && n'.tasks == n.tasks + Asks(u, p.from, b.session.lastReqId)
            && p.from in n'.sessions && n'.sessions[p.from].lastReqId == Remembered(u, b.session.lastReqId)
  {
    KeysAgree(u, g, h, e, n, p, b);
    assert Decrypt(u.c, b.session.writeKey, p.nonce, p.body, Header(p)) ==
           Some(FindnodePlaintext(u.c, b.session.lastReqId));
    OpenedHandshake(u, e, n, p, b.session.lastReqId);
  }

  //
  // Challenges
  //

  /** A message is challenged exactly when no session with its sender's address opens it. */
  lemma ChallengedIff(u: Setup, e: Endpoint, n: Client, p: Packet)
    requires e in u.keys && p.content.MessageAuth? && p.dest == u.Addr(e)
    requires ChallengeTask(p.from, p.content.src, p.nonce) !in n.tasks
    ensures var n' := HandleDatagram(u.c, u.Self(e), n, p.from, Wire(u.c, p));
            ChallengeTask(p.from, p.content.src, p.nonce) in n'.tasks <==>
            !(&& p.from in n.sessions && n.sessions[p.from].remoteAddr == p.content.src
              && Decrypt(u.c, n.sessions[p.from].readKey, p.nonce, p.body, Header(p)).Some?)
  {
    DeliveredToDestination(u.c, u.Self(e), n, p);
  }

  /**
   A challenge to the request that is out leads to a handshake that signs it, with the own record exactly when the
   challenger knows none, and to keys derived from it, the initiator named first; a challenge to any other request
   changes nothing.
   */
  lemma ChallengeAnswered(c: Crypto, self: Identity, n: Client, from: Endpoint, nonce: Nonce, recordSeq: nat,
                          header: ByteSeq, peer: Peer, d: Draw)
    requires from in n.pending && from !in n.sessions && peer.endpoint == from && d.fault == NoFault
    ensures var n' := HandleWhoareyou(n, from, nonce, recordSeq, header);
            if n.pending[from].requestNonce != nonce then n' == n
            else
              && n'.tasks == n.tasks + {FindnodeTask(n.pending[from].peer)}
              && var (n'', p) := SendFindnode(c, self, n', peer, d);
              && p.Some? && p.value.content.HandshakeAuthOf? && p.value.dest == c.address(peer.nodeId)
              && n''.pending == n.pending - {from} && from in n''.sessions
              && n''.sessions[from].lastReqId == n.pending[from].reqId
              && (n''.sessions[from].writeKey, n''.sessions[from].readKey) ==
                 c.kdf(c.ecdh(d.ephPriv, n.pending[from].peer.nodeId), header,
                       KEY_TEXT + Address(c, self) + c.address(peer.nodeId))
              && var a := p.value.content.auth;
              && a.pubkey == c.compress(c.pub(d.ephPriv))
              && a.record == (if recordSeq == 0 then c.record(self.priv) else [])
              && a.signature == c.sign(self.priv, IDENTITY_TEXT + header + a.pubkey + c.address(peer.nodeId))
  {}

  /** A request sent at random can be answered exactly if its nonce was drawn and nothing but the filler failed. */
  lemma RandomRequestLives(c: Crypto, self: Identity, n: Client, peer: Peer, d: Draw, recordSeq: nat, header: ByteSeq)
    requires peer.endpoint !in n.sessions && FindnodeTask(peer) !in n.tasks
    requires peer.endpoint in n.pending ==> !n.pending[peer.endpoint].haveChallenge
    ensures var n' := SendFindnode(c, self, n, peer, d).0;
            FindnodeTask(peer) in HandleWhoareyou(n', peer.endpoint, d.nonce, recordSeq, header).tasks <==>
            d.fault == NoFault || d.fault == FillerFault
  {}

  /** A handshake that passes every check but does not open costs the session there was, and keeps the challenge. */
  lemma UnreadableHandshake(u: Setup, e: Endpoint, n: Client, p: Packet)
    requires e in u.keys && p.content.HandshakeAuthOf? && p.dest == u.Addr(e)
    requires HandshakeChecks(u.c, u.Self(e), n, p.from, p.content.auth)
    requires !AcceptsPacket(u.c, u.Self(e), n, p)
    ensures var n' := HandlePacket(u.c, u.Self(e), n, p);
            && p.from !in n'.sessions && p.from in n'.challenges
            && (forall f <- n.sessions :: f != p.from ==> f in n'.sessions && n'.sessions[f] == n.sessions[f])
  {}
}
