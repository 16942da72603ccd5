/**
 Runs of any number of honest discv5 clients over a network that may lose, repeat and reorder packets.
 A client is known by the endpoint it lives at.  The network is the set of all packets ever sent; delivering
 one leaves it there.  Random nonces and challenges never repeat.
 */
module HandshakeRuns {
  import opened Bytes
  import opened PacketCodec
  import opened Discv5Crypto
  import opened Handshake

  /** A handshake as its initiator built it: the session stored for it and what it was made from. */
  datatype Built = Built(session: Session, challengeData: ByteSeq, ephPriv: PrivateKey)

  /** A handshake its responder accepted: the challenge it consumed and the session it stored. */
  datatype Accepted = Accepted(responder: Endpoint, packet: Packet, challengeData: ByteSeq, session: Session)

  /**
   `drawn` remembers the address each nonce was sent to, `issued` the client that sent each challenge and the
   endpoint it was sent to, `built` every handshake packet.
   */
  datatype History = History(
    drawn: map<Nonce, NodeAddress>, issued: map<ByteSeq, (Endpoint, Endpoint)>, built: map<Packet, Built>)

  datatype World = World(clients: map<Endpoint, Client>, net: set<Packet>, h: History, accepted: seq<Accepted>)

  /** Tasks are never used up: a repeated packet spawns its task again. */
  datatype Step =
    | Deliver(e: Endpoint, p: Packet)
    | Findnode(e: Endpoint, peer: Peer, d: Draw)
    | RunChallenge(e: Endpoint, t: Task, iv: Iv, idNonce: IdNonce)
    | RunRespond(e: Endpoint, t: Task, d: Draw)

  /** The fixed part of a run: the foreign functions and the private key of the client at each endpoint. */
  datatype Setup = Setup(c: Crypto, keys: map<Endpoint, PrivateKey>) {
    function Self(e: Endpoint): Identity
      requires e in keys
    { Identity(keys[e], e) }

    function Id(e: Endpoint): NodeId
      requires e in keys
    { c.pub(keys[e]) }

    function Addr(e: Endpoint): NodeAddress
      requires e in keys
    { c.address(Id(e)) }
  }

  function ChallengeFor(self: Identity, n: Client, t: Task, iv: Iv, idNonce: IdNonce): ByteSeq
    requires t.ChallengeTask?
  { Header(SendWhoareyou(self, n, t, iv, idNonce).1) }

  predicate Enabled(u: Setup, w: World, s: Step) {
    && s.e in u.keys && s.e in w.clients
    && match s
       case Deliver(e, p) => p in w.net && p.to == e
       case Findnode(_, _, d) => d.nonce !in w.h.drawn
       case RunChallenge(e, t, iv, idNonce) =>
         && t.ChallengeTask? && t in w.clients[e].tasks
         && ChallengeFor(u.Self(e), w.clients[e], t, iv, idNonce) !in w.h.issued
       case RunRespond(e, t, d) => t.RespondTask? && t in w.clients[e].tasks && d.nonce !in w.h.drawn
  }

  /** The client gets the datagram and the endpoint it came from, and nothing else. */
  function DeliverStep(u: Setup, w: World, e: Endpoint, p: Packet): World
    requires e in u.keys && e in w.clients
  {
    var self, n := u.Self(e), w.clients[e];
    var n' := HandleDatagram(u.c, self, n, p.from, Wire(u.c, p));
    var w' := w.(clients := w.clients[e := n']);
    if AcceptsDatagram(u.c, self, n, p.from, Wire(u.c, p)) && p.from in n'.sessions
    then w'.(accepted := w.accepted + [Accepted(e, p, n.challenges[p.from].challengeData, n'.sessions[p.from])])
    else w'
  }

  function BuiltFrom(n: Client, n': Client, peer: Peer, d: Draw): Built
    requires peer.endpoint in n'.sessions && peer.endpoint in n.pending
  { Built(n'.sessions[peer.endpoint], n.pending[peer.endpoint].challengeData, d.ephPriv) }

  function Noted(h: History, n: Client, n': Client, p: Option<Packet>, peer: Peer, d: Draw): History {
    if p.Some? && p.value.content.HandshakeAuthOf? && peer.endpoint in n'.sessions && peer.endpoint in n.pending
    then h.(built := h.built[p.value := BuiltFrom(n, n', peer, d)])
    else h
  }

  function FindnodeStep(u: Setup, w: World, e: Endpoint, peer: Peer, d: Draw): World
    requires e in u.keys && e in w.clients
  {
    var n := w.clients[e];
    var (n', p) := SendFindnode(u.c, u.Self(e), n, peer, d);
    var h := w.h.(drawn := w.h.drawn[d.nonce := u.c.address(peer.nodeId)]);
    World(w.clients[e := n'], if p.Some? then w.net + {p.value} else w.net, Noted(h, n, n', p, peer, d), w.accepted)
  }

  function ChallengeStep(u: Setup, w: World, e: Endpoint, t: Task, iv: Iv, idNonce: IdNonce): World
    requires e in u.keys && e in w.clients && t.ChallengeTask?
  {
    var (n', p) := SendWhoareyou(u.Self(e), w.clients[e], t, iv, idNonce);
    w.(clients := w.clients[e := n'], net := w.net + {p}, h := w.h.(issued := w.h.issued[Header(p) := (e, t.to)]))
  }

  function RespondStep(u: Setup, w: World, e: Endpoint, t: Task, d: Draw): World
    requires e in u.keys && e in w.clients && t.RespondTask?
  {
    match Respond(u.c, u.Self(e), w.clients[e], t, d)
    case None => w
    case Some(p) => w.(net := w.net + {p}, h := w.h.(drawn := w.h.drawn[p.nonce := p.dest]))
  }

  function Apply(u: Setup, w: World, s: Step): World
    requires Enabled(u, w, s)
  {
    match s
    case Deliver(e, p) => DeliverStep(u, w, e, p)
    case Findnode(e, peer, d) => FindnodeStep(u, w, e, peer, d)
    case RunChallenge(e, t, iv, idNonce) => ChallengeStep(u, w, e, t, iv, idNonce)
    case RunRespond(e, t, d) => RespondStep(u, w, e, t, d)
  }

  function Start(u: Setup): World {
    World(map e <- u.keys :: NEW_CLIENT, {}, History(map[], map[], map[]), [])
  }

  /** The worlds a run passes through. */
  ghost predicate Run(u: Setup, trace: seq<World>, steps: seq<Step>) {
    && |trace| == |steps| + 1 && trace[0] == Start(u)
    && forall k :: 0 <= k < |steps| ==> Follows(u, trace[k], steps[k], trace[k + 1])
  }

  predicate Follows(u: Setup, w: World, s: Step, w': World) { Enabled(u, w, s) && w' == Apply(u, w, s) }

  //
  // What a run uses of the foreign functions
  //

  /** Identity proofs signed and checked, nodes asked, and masks of packets delivered. */
  datatype Scope = Scope(proofs: set<ByteSeq>, nodes: set<NodeId>, masks: set<Mask>)

  const NO_SCOPE: Scope := Scope({}, {}, {})

  predicate Includes(g: Scope, g': Scope) {
    g.proofs <= g'.proofs && g.nodes <= g'.nodes && g.masks <= g'.masks
  }

  /** The proof a client checks when a handshake comes from an endpoint it has challenged. */
  function CheckedProof(u: Setup, w: World, e: Endpoint, p: Packet): set<ByteSeq>
    requires e in u.keys && e in w.clients
  {
    if p.content.HandshakeAuthOf? && p.from in w.clients[e].challenges
    then {IdMessage(w.clients[e].challenges[p.from].challengeData, p.content.auth.pubkey, u.Addr(e))}
    else {}
  }

  /** The proof a client signs when it answers a challenge. */
  function SignedProof(u: Setup, w: World, e: Endpoint, peer: Peer, d: Draw): set<ByteSeq>
    requires e in w.clients
  {
    if peer.endpoint in w.clients[e].pending
    then {IdMessage(w.clients[e].pending[peer.endpoint].challengeData, u.c.compress(u.c.pub(d.ephPriv)),
                    u.c.address(peer.nodeId))}
    else {}
  }

  /** What one step uses. */
  function Uses(u: Setup, w: World, s: Step): Scope
    requires Enabled(u, w, s)
  {
    match s
    case Deliver(e, p) => Scope(CheckedProof(u, w, e, p), {}, {Mask(p.dest, p.iv)})
    case Findnode(e, peer, d) => Scope(SignedProof(u, w, e, peer, d), {peer.nodeId}, {})
    case _ => NO_SCOPE
  }

  ghost predicate Within(u: Setup, g: Scope, trace: seq<World>, steps: seq<Step>)
    requires Run(u, trace, steps)
  {
    forall k :: 0 <= k < |steps| ==> UsedWithin(u, g, trace[k], steps[k])
  }

  predicate UsedWithin(u: Setup, g: Scope, w: World, s: Step) { Enabled(u, w, s) && Includes(Uses(u, w, s), g) }

  function Joined(g: Scope, g': Scope): Scope { Scope(g.proofs + g'.proofs, g.nodes + g'.nodes, g.masks + g'.masks) }

  lemma UsedWithinMore(u: Setup, g: Scope, g': Scope, w: World, s: Step)
    requires UsedWithin(u, g, w, s) && Includes(g, g')
    ensures UsedWithin(u, g', w, s)
  {}

  /** Every run has a finite scope: its steps' uses together. */
  lemma {:induction false} RunHasScope(u: Setup, trace: seq<World>, steps: seq<Step>) returns (g: Scope)
    requires Run(u, trace, steps)
    ensures Within(u, g, trace, steps)
    decreases |steps|
  {
    g := NO_SCOPE;
    if |steps| > 0 {
      var k := |steps| - 1;
      assert Run(u, trace[..|steps|], steps[..k]);
      var g0 := RunHasScope(u, trace[..|steps|], steps[..k]);
      assert Follows(u, trace[k], steps[k], trace[k + 1]);
      g := Joined(g0, Uses(u, trace[k], steps[k]));
      forall j | 0 <= j < |steps| ensures UsedWithin(u, g, trace[j], steps[j]) {
        if j < k {
          assert UsedWithin(u, g0, trace[..|steps|][j], steps[..k][j]);
          UsedWithinMore(u, g0, g, trace[j], steps[j]);
        }
      }
    }
  }

  /**
   The foreign functions obey their laws; in the scope, the clients' signatures are not mistaken for one another and
   the clients are told from every other node.
   */
  ghost predicate Sound(u: Setup, g: Scope) {
    && Lawful(u.c)
    && (forall e <- u.keys :: Unforged(u.c, u.keys[e], g.proofs))
    && (forall e <- u.keys :: Distinguished(u.c, u.Id(e), g.nodes, g.masks))
  }

  /** Two clients with the program's sizes. */
  function ToySetup(e: Endpoint, f: Endpoint): Setup { Setup(ToyCrypto(), map[e := ToyKey(1), f := ToyKey(2)]) }

  /** They are sound in every scope whose proofs and masks the toy tells apart. */
  lemma SoundExists(e: Endpoint, f: Endpoint, g: Scope)
    requires e != f && ToldApart(g.proofs) && ToyMasks(g.masks)
    ensures Sound(ToySetup(e, f), g) && ToySetup(e, f).Id(e) != ToySetup(e, f).Id(f)
  {
    LawsConsistent(g.proofs, g.nodes, g.masks);
  }

  //
  // The invariant
  //

  predicate Asked(h: History, nonce: Nonce, dest: NodeAddress) { nonce in h.drawn && h.drawn[nonce] == dest }

  predicate SenderOk(u: Setup, e: Endpoint, addr: ByteSeq) { e in u.keys && addr == u.Addr(e) }

  /** The challenge was sent by the client with this node id. */
  predicate IssuedBy(u: Setup, h: History, data: ByteSeq, nodeId: NodeId) {
    data in h.issued && h.issued[data].0 in u.keys && nodeId == u.Id(h.issued[data].0)
  }

  predicate AuthOk(u: Setup, g: Scope, a: HandshakeAuth, from: Endpoint, dest: NodeAddress, b: Built) {
    && SenderOk(u, from, a.srcId) && a.record == u.c.record(u.keys[from])
    && a.pubkey == u.c.compress(u.c.pub(b.ephPriv))
    && IdMessage(b.challengeData, a.pubkey, dest) in g.proofs
    && a.signature == u.c.sign(u.keys[from], IdMessage(b.challengeData, a.pubkey, dest))
  }

  /** The record says how its packet and session came about. */
  predicate BuiltOk(u: Setup, g: Scope, h: History, p: Packet, b: Built) {
    && p.content.HandshakeAuthOf? && p.nonce in h.drawn && AuthOk(u, g, p.content.auth, p.from, p.dest, b)
    && IssuedBy(u, h, b.challengeData, b.session.remoteId) && b.session.remoteAddr == p.dest
    && (b.session.writeKey, b.session.readKey) ==
       SessionKeys(u.c, u.c.ecdh(b.ephPriv, b.session.remoteId), b.challengeData, p.content.auth.srcId, p.dest)
    && p.body == u.c.seal(b.session.writeKey, p.nonce, FindnodePlaintext(u.c, b.session.lastReqId), Header(p))
  }

  predicate PacketOk(u: Setup, h: History, p: Packet) {
    match p.content
    case MessageAuth(src) => SenderOk(u, p.from, src) && Asked(h, p.nonce, p.dest)
    case WhoareyouAuth(_, recordSeq) =>
      && recordSeq == 0 && p.from in u.keys && Asked(h, p.nonce, u.Addr(p.from))
      && IssuedBy(u, h, Header(p), u.Id(p.from))
    case HandshakeAuthOf(_) => p in h.built
  }

  predicate TaskOk(u: Setup, h: History, e: Endpoint, t: Task) {
    t.ChallengeTask? ==> SenderOk(u, t.to, t.remoteAddr) && e in u.keys && Asked(h, t.nonce, u.Addr(e))
  }

  predicate PendingOk(u: Setup, g: Scope, h: History, pend: Pending) {
    && pend.peer.nodeId in g.nodes && Asked(h, pend.requestNonce, u.c.address(pend.peer.nodeId))
    && (pend.haveChallenge ==> pend.recordSeq == 0 && IssuedBy(u, h, pend.challengeData, pend.peer.nodeId))
  }

  predicate ChallengeOk(u: Setup, h: History, e: Endpoint, from: Endpoint, ch: Challenge) {
    && SenderOk(u, from, ch.remoteAddr)
    && ch.challengeData in h.issued && h.issued[ch.challengeData] == (e, from)
  }

  ghost predicate TasksOk(u: Setup, h: History, e: Endpoint, tasks: set<Task>) {
    forall t <- tasks :: TaskOk(u, h, e, t)
  }

  ghost predicate PendingsOk(u: Setup, g: Scope, h: History, pending: map<Endpoint, Pending>) {
    forall f <- pending :: PendingOk(u, g, h, pending[f])
  }

  ghost predicate ChallengesOk(u: Setup, h: History, e: Endpoint, challenges: map<Endpoint, Challenge>) {
    forall f <- challenges :: ChallengeOk(u, h, e, f, challenges[f])
  }

  ghost predicate ClientOk(u: Setup, g: Scope, h: History, e: Endpoint, n: Client) {
    TasksOk(u, h, e, n.tasks) && PendingsOk(u, g, h, n.pending) && ChallengesOk(u, h, e, n.challenges)
  }

  /** Two sessions with the same keys the other way round, each naming the other's owner. */
  predicate Mirrors(u: Setup, initiator: Endpoint, s: Session, responder: Endpoint, t: Session) {
    && initiator in u.keys && responder in u.keys
    && t.readKey == s.writeKey && t.writeKey == s.readKey
    && t.remoteId == u.Id(initiator) && t.remoteAddr == u.Addr(initiator)
    && s.remoteId == u.Id(responder) && s.remoteAddr == u.Addr(responder)
  }

  /** The challenge is not waiting for a handshake at the client that sent it. */
  predicate Gone(h: History, clients: map<Endpoint, Client>, data: ByteSeq) {
    data in h.issued &&
    var (e, f) := h.issued[data];
    !(e in clients && f in clients[e].challenges && clients[e].challenges[f].challengeData == data)
  }

  predicate AcceptedOk(u: Setup, h: History, clients: map<Endpoint, Client>, a: Accepted) {
    && Gone(h, clients, a.challengeData)
    && a.packet in h.built && h.built[a.packet].challengeData == a.challengeData
    && Mirrors(u, a.packet.from, h.built[a.packet].session, a.responder, a.session)
  }

  ghost predicate NetOk(u: Setup, h: History, net: set<Packet>) { forall p <- net :: PacketOk(u, h, p) }

  ghost predicate ClientsOk(u: Setup, g: Scope, h: History, clients: map<Endpoint, Client>) {
    clients.Keys == u.keys.Keys && forall e <- clients :: ClientOk(u, g, h, e, clients[e])
  }

  ghost predicate AllBuiltOk(u: Setup, g: Scope, h: History) { forall p <- h.built :: BuiltOk(u, g, h, p, h.built[p]) }

  ghost predicate AllAcceptedOk(u: Setup, h: History, clients: map<Endpoint, Client>, accepted: seq<Accepted>) {
    forall a <- accepted :: AcceptedOk(u, h, clients, a)
  }

  ghost predicate OnceEach(accepted: seq<Accepted>) {
    forall j, k :: 0 <= j < k < |accepted| ==> accepted[j].challengeData != accepted[k].challengeData
  }

  ghost predicate Inv(u: Setup, g: Scope, w: World) {
    && NetOk(u, w.h, w.net) && ClientsOk(u, g, w.h, w.clients) && AllBuiltOk(u, g, w.h)
    && AllAcceptedOk(u, w.h, w.clients, w.accepted) && OnceEach(w.accepted)
  }

  //
  // What was drawn, issued and built stays so
  //

  ghost predicate Grows(h: History, h': History) {
    && (forall x <- h.drawn :: x in h'.drawn && h'.drawn[x] == h.drawn[x])
    && (forall x <- h.issued :: x in h'.issued && h'.issued[x] == h.issued[x])
    && (forall x <- h.built :: x in h'.built && h'.built[x] == h.built[x])
  }

  lemma GrowClient(u: Setup, g: Scope, h: History, h': History, e: Endpoint, n: Client)
    requires Grows(h, h') && ClientOk(u, g, h, e, n)
    ensures ClientOk(u, g, h', e, n)
  {
    forall t | t in n.tasks ensures TaskOk(u, h', e, t) { assert TaskOk(u, h, e, t); }
    forall f | f in n.pending ensures PendingOk(u, g, h', n.pending[f]) { assert PendingOk(u, g, h, n.pending[f]); }
    forall f | f in n.challenges ensures ChallengeOk(u, h', e, f, n.challenges[f]) {
      assert ChallengeOk(u, h, e, f, n.challenges[f]);
    }
  }

  lemma GrowClients(u: Setup, g: Scope, h: History, h': History, clients: map<Endpoint, Client>, e: Endpoint, n: Client)
    requires Grows(h, h') && ClientsOk(u, g, h, clients) && e in clients && ClientOk(u, g, h', e, n)
    ensures ClientsOk(u, g, h', clients[e := n])
  {
    var clients' := clients[e := n];
    forall f | f in clients' ensures ClientOk(u, g, h', f, clients'[f]) {
      if f != e { GrowClient(u, g, h, h', f, clients[f]); }
    }
  }

  lemma GrowNet(u: Setup, h: History, h': History, net: set<Packet>)
    requires Grows(h, h') && NetOk(u, h, net)
    ensures NetOk(u, h', net)
  {
    forall p | p in net ensures PacketOk(u, h', p) { assert PacketOk(u, h, p); }
  }

  lemma GrowBuilt(u: Setup, g: Scope, h: History, h': History)
    requires Grows(h, h') && AllBuiltOk(u, g, h)
    requires forall p <- h'.built :: p in h.built || BuiltOk(u, g, h', p, h'.built[p])
    ensures AllBuiltOk(u, g, h')
  {
    forall p | p in h'.built ensures BuiltOk(u, g, h', p, h'.built[p]) {
      if p in h.built { assert BuiltOk(u, g, h, p, h.built[p]); }
    }
  }

  /** No challenge that was gone is back. */
  ghost predicate StaysGone(h: History, h': History, clients: map<Endpoint, Client>, clients': map<Endpoint, Client>) {
    forall data <- h.issued :: Gone(h, clients, data) ==> Gone(h', clients', data)
  }

  lemma GrowAccepted(u: Setup, h: History, h': History, clients: map<Endpoint, Client>, clients': map<Endpoint, Client>,
                     accepted: seq<Accepted>)
    requires Grows(h, h') && AllAcceptedOk(u, h, clients, accepted) && StaysGone(h, h', clients, clients')
    ensures AllAcceptedOk(u, h', clients', accepted)
  {
    forall a | a in accepted ensures AcceptedOk(u, h', clients', a) { assert AcceptedOk(u, h, clients, a); }
  }

  /** A client that holds no challenge it did not hold before brings none back. */
  ghost predicate FewerChallenges(n: Client, n': Client) {
    forall f <- n'.challenges :: f in n.challenges && n'.challenges[f] == n.challenges[f]
  }

  lemma FewerStaysGone(h: History, h': History, clients: map<Endpoint, Client>, e: Endpoint, n: Client)
    requires Grows(h, h') && e in clients && FewerChallenges(clients[e], n)
    ensures StaysGone(h, h', clients, clients[e := n])
  {}

  /** One client takes a step, one packet may be sent, and nothing is accepted. */
  lemma KeepWorld(u: Setup, g: Scope, w: World, w': World, e: Endpoint, n: Client, sent: set<Packet>)
    requires Inv(u, g, w) && Grows(w.h, w'.h) && e in w.clients && StaysGone(w.h, w'.h, w.clients, w'.clients)
    requires w'.clients == w.clients[e := n] && w'.accepted == w.accepted && w'.net == w.net + sent
    requires ClientOk(u, g, w'.h, e, n) && NetOk(u, w'.h, sent) && AllBuiltOk(u, g, w'.h)
    ensures Inv(u, g, w')
  {
    GrowClients(u, g, w.h, w'.h, w.clients, e, n);
    GrowNet(u, w.h, w'.h, w.net);
    GrowAccepted(u, w.h, w'.h, w.clients, w'.clients, w.accepted);
  }

  //
  // Receiving
  //

  /** A challenge that echoes the pending nonce comes from the node the request was for. */
  lemma WhoareyouPending(u: Setup, g: Scope, h: History, pend: Pending, p: Packet)
    requires Sound(u, g) && PendingOk(u, g, h, pend) && p.content.WhoareyouAuth? && PacketOk(u, h, p)
    requires pend.requestNonce == p.nonce
    ensures pend.peer.nodeId == u.Id(p.from)
    ensures PendingOk(u, g, h, pend.(challengeData := Header(p), recordSeq := p.content.recordSeq,
                                     haveChallenge := true))
  {
    assert Distinguished(u.c, u.Id(p.from), g.nodes, g.masks);
  }

  lemma WhoareyouClient(u: Setup, g: Scope, h: History, e: Endpoint, n: Client, p: Packet)
    requires Sound(u, g) && ClientOk(u, g, h, e, n) && p.content.WhoareyouAuth? && PacketOk(u, h, p)
    ensures ClientOk(u, g, h, e, HandleWhoareyou(n, p.from, p.nonce, p.content.recordSeq, Header(p)))
  {
    if p.from in n.pending && n.pending[p.from].requestNonce == p.nonce {
      WhoareyouPending(u, g, h, n.pending[p.from], p);
      assert TaskOk(u, h, e, FindnodeTask(n.pending[p.from].peer));
    }
  }

  /** A message adds at most one task: to challenge its sender, or to respond. */
  lemma MessageEffect(c: Crypto, n: Client, from: Endpoint, src: NodeAddress, nonce: Nonce, body: ByteSeq,
                      header: ByteSeq)
    ensures var n' := HandleMessage(c, n, from, src, nonce, body, header);
            && n'.pending == n.pending && n'.challenges == n.challenges
            && forall t <- n'.tasks :: t in n.tasks || t == ChallengeTask(from, src, nonce) || t.RespondTask?
  {}

  lemma MessageClient(u: Setup, g: Scope, h: History, e: Endpoint, n: Client, p: Packet)
    requires ClientOk(u, g, h, e, n) && p.content.MessageAuth? && PacketOk(u, h, p) && e in u.keys
    requires p.dest == u.Addr(e)
    ensures ClientOk(u, g, h, e, HandleMessage(u.c, n, p.from, p.content.src, p.nonce, p.body, Header(p)))
  {
    MessageEffect(u.c, n, p.from, p.content.src, p.nonce, p.body, Header(p));
    assert TaskOk(u, h, e, ChallengeTask(p.from, p.content.src, p.nonce));
  }

  /** A handshake adds at most a task to respond, and no challenge. */
  lemma HandshakeEffect(c: Crypto, self: Identity, n: Client, from: Endpoint, a: HandshakeAuth, nonce: Nonce,
                        body: ByteSeq, header: ByteSeq)
    ensures var n' := HandleHandshake(c, self, n, from, a, nonce, body, header);
            && n'.pending == n.pending && FewerChallenges(n, n')
            && forall t <- n'.tasks :: t in n.tasks || t.RespondTask?
  {}

  lemma HandshakeClient(u: Setup, g: Scope, h: History, e: Endpoint, n: Client, p: Packet)
    requires ClientOk(u, g, h, e, n) && p.content.HandshakeAuthOf? && e in u.keys
    ensures ClientOk(u, g, h, e, HandleHandshake(u.c, u.Self(e), n, p.from, p.content.auth, p.nonce, p.body, Header(p)))
  {
    HandshakeEffect(u.c, u.Self(e), n, p.from, p.content.auth, p.nonce, p.body, Header(p));
  }

  lemma PacketClient(u: Setup, g: Scope, h: History, e: Endpoint, n: Client, p: Packet)
    requires Sound(u, g) && ClientOk(u, g, h, e, n) && PacketOk(u, h, p) && e in u.keys
    ensures ClientOk(u, g, h, e, HandlePacket(u.c, u.Self(e), n, p))
  {
    if p.dest == u.Addr(e) {
      match p.content
      case WhoareyouAuth(_, _) => WhoareyouClient(u, g, h, e, n, p);
      case MessageAuth(_) => MessageClient(u, g, h, e, n, p);
      case HandshakeAuthOf(_) => HandshakeClient(u, g, h, e, n, p);
    }
  }

  /** The proof the client would check is in the scope. */
  predicate ProofIn(u: Setup, g: Scope, e: Endpoint, n: Client, p: Packet)
    requires e in u.keys && p.content.HandshakeAuthOf?
  {
    p.from in n.challenges ==>
      IdMessage(n.challenges[p.from].challengeData, p.content.auth.pubkey, u.Addr(e)) in g.proofs
  }

  /** The two sides of a built handshake agree on its secret. */
  lemma SecretsAgree(u: Setup, a: HandshakeAuth, e: Endpoint, ephPriv: PrivateKey)
    requires Lawful(u.c) && e in u.keys && a.pubkey == u.c.compress(u.c.pub(ephPriv))
    ensures SharedSecret(u.c, u.keys[e], a.pubkey) == Some(u.c.ecdh(ephPriv, u.Id(e)))
  {}

  /**
   A checked handshake answers the held challenge, was meant for this client, and both derive the same keys from it.
   */
  lemma KeysAgree(u: Setup, g: Scope, h: History, e: Endpoint, n: Client, p: Packet, b: Built)
    requires Sound(u, g) && ClientOk(u, g, h, e, n) && e in u.keys && BuiltOk(u, g, h, p, b) && ProofIn(u, g, e, n, p)
    requires HandshakeChecks(u.c, u.Self(e), n, p.from, p.content.auth)
    ensures n.challenges[p.from].challengeData == b.challengeData && p.dest == u.Addr(e)
    ensures Mirrors(u, p.from, b.session, e, CheckedSession(u.c, u.Self(e), n, p.from, p.content.auth))
  {
    var ch, a := n.challenges[p.from], p.content.auth;
    assert ChallengeOk(u, h, e, p.from, ch);
    SignatureBinds(u.c, u.keys[p.from], g.proofs, b.challengeData, a.pubkey, p.dest,
                   ch.challengeData, a.pubkey, u.Addr(e));
    SecretsAgree(u, a, e, b.ephPriv);
  }

  /** A handshake that answers a held challenge passes every check. */
  lemma AnswerChecks(u: Setup, g: Scope, h: History, e: Endpoint, n: Client, p: Packet, b: Built)
    requires Sound(u, g) && ClientOk(u, g, h, e, n) && e in u.keys && BuiltOk(u, g, h, p, b) && p.dest == u.Addr(e)
    requires p.from in n.challenges && n.challenges[p.from].challengeData == b.challengeData
    ensures HandshakeChecks(u.c, u.Self(e), n, p.from, p.content.auth)
  {
    var a := p.content.auth;
    assert ChallengeOk(u, h, e, p.from, n.challenges[p.from]);
    SignatureBinds(u.c, u.keys[p.from], g.proofs, b.challengeData, a.pubkey, p.dest,
                   b.challengeData, a.pubkey, u.Addr(e));
    SecretsAgree(u, a, e, b.ephPriv);
  }

  /** A handshake is accepted exactly when the client holds the challenge it answers and it was meant for the client. */
  lemma AcceptedIff(u: Setup, g: Scope, h: History, e: Endpoint, n: Client, p: Packet, b: Built)
    requires Sound(u, g) && ClientOk(u, g, h, e, n) && e in u.keys && BuiltOk(u, g, h, p, b) && ProofIn(u, g, e, n, p)
    ensures Accepts(u.c, u.Self(e), n, p.from, p.content.auth, p.nonce, p.body, Header(p)) <==>
            p.dest == u.Addr(e) && p.from in n.challenges && n.challenges[p.from].challengeData == b.challengeData
  {
    if HandshakeChecks(u.c, u.Self(e), n, p.from, p.content.auth) { KeysAgree(u, g, h, e, n, p, b); }
    if p.dest == u.Addr(e) && p.from in n.challenges && n.challenges[p.from].challengeData == b.challengeData {
      AnswerChecks(u, g, h, e, n, p, b);
      KeysAgree(u, g, h, e, n, p, b);
      var plaintext := FindnodePlaintext(u.c, b.session.lastReqId);
      assert p.body == u.c.seal(b.session.writeKey, p.nonce, plaintext, Header(p));
      assert Decrypt(u.c, b.session.writeKey, p.nonce, p.body, Header(p)) == Some(plaintext);
    }
  }

  /** Nothing sent by a client is too big for the wire. */
  lemma SentFits(u: Setup, g: Scope, h: History, p: Packet)
    requires Sound(u, g) && PacketOk(u, h, p) && (p in h.built ==> BuiltOk(u, g, h, p, h.built[p]))
    ensures Fits(p.content)
  {}

  /** A datagram does what its packet says, and nothing where it was not meant for. */
  lemma DatagramIsPacket(u: Setup, g: Scope, h: History, e: Endpoint, n: Client, p: Packet)
    requires Sound(u, g) && e in u.keys && PacketOk(u, h, p) && (p in h.built ==> BuiltOk(u, g, h, p, h.built[p]))
    requires Mask(p.dest, p.iv) in g.masks
    ensures HandleDatagram(u.c, u.Self(e), n, p.from, Wire(u.c, p)) == HandlePacket(u.c, u.Self(e), n, p)
    ensures AcceptsDatagram(u.c, u.Self(e), n, p.from, Wire(u.c, p)) <==> AcceptsPacket(u.c, u.Self(e), n, p)
  {
    SentFits(u, g, h, p);
    if p.dest == u.Addr(e) {
      DeliveredToDestination(u.c, u.Self(e), n, p);
    } else {
      assert Distinguished(u.c, u.Id(e), g.nodes, g.masks);
      DeliveredElsewhere(u.c, u.Self(e), n, p);
    }
  }

  /** The session a responder stores is the checked one, but for the request id. */
  lemma StoredSession(c: Crypto, self: Identity, n: Client, p: Packet)
    requires AcceptsPacket(c, self, n, p)
    ensures var n', s := HandlePacket(c, self, n, p), CheckedSession(c, self, n, p.from, p.content.auth);
            && p.from in n'.sessions && p.from !in n'.challenges
            && n'.sessions[p.from] == s.(lastReqId := n'.sessions[p.from].lastReqId)
  {}

  /** An acceptance uses up its challenge and is backed by what was built. */
  lemma AcceptanceOk(u: Setup, g: Scope, h: History, clients: map<Endpoint, Client>, e: Endpoint, p: Packet)
    requires Sound(u, g) && e in clients && e in u.keys && ClientOk(u, g, h, e, clients[e])
    requires p in h.built && BuiltOk(u, g, h, p, h.built[p]) && ProofIn(u, g, e, clients[e], p)
    requires AcceptsPacket(u.c, u.Self(e), clients[e], p)
    ensures var n, n' := clients[e], HandlePacket(u.c, u.Self(e), clients[e], p);
            && p.from in n'.sessions
            && var data := n.challenges[p.from].challengeData;
            && h.built[p].challengeData == data && !Gone(h, clients, data)
            && AcceptedOk(u, h, clients[e := n'], Accepted(e, p, data, n'.sessions[p.from]))
  {
    KeysAgree(u, g, h, e, clients[e], p, h.built[p]);
    StoredSession(u.c, u.Self(e), clients[e], p);
    assert ChallengeOk(u, h, e, p.from, clients[e].challenges[p.from]);
  }

  lemma PacketFewer(c: Crypto, self: Identity, n: Client, p: Packet)
    ensures FewerChallenges(n, HandlePacket(c, self, n, p))
  {}

  /** The client after the packet, before any acceptance is noted. */
  lemma KeepReceived(u: Setup, g: Scope, w: World, e: Endpoint, n: Client)
    requires Inv(u, g, w) && e in w.clients && ClientOk(u, g, w.h, e, n) && FewerChallenges(w.clients[e], n)
    ensures Inv(u, g, w.(clients := w.clients[e := n]))
  {
    FewerStaysGone(w.h, w.h, w.clients, e, n);
    GrowClients(u, g, w.h, w.h, w.clients, e, n);
    GrowAccepted(u, w.h, w.h, w.clients, w.clients[e := n], w.accepted);
  }

  lemma AddAccepted(u: Setup, h: History, clients: map<Endpoint, Client>, accepted: seq<Accepted>, a: Accepted)
    requires AllAcceptedOk(u, h, clients, accepted) && OnceEach(accepted) && AcceptedOk(u, h, clients, a)
    requires forall x <- accepted :: x.challengeData != a.challengeData
    ensures AllAcceptedOk(u, h, clients, accepted + [a]) && OnceEach(accepted + [a])
  {
    assert forall x <- accepted + [a] :: x in accepted || x == a;
  }

  lemma NotYetAccepted(u: Setup, h: History, clients: map<Endpoint, Client>, accepted: seq<Accepted>, data: ByteSeq)
    requires !Gone(h, clients, data) && AllAcceptedOk(u, h, clients, accepted)
    ensures forall x <- accepted :: x.challengeData != data
  {}

  lemma KeepDeliver(u: Setup, g: Scope, w: World, e: Endpoint, p: Packet)
    requires Sound(u, g) && Inv(u, g, w) && UsedWithin(u, g, w, Deliver(e, p))
    ensures Inv(u, g, DeliverStep(u, w, e, p))
  {
    var n := w.clients[e];
    assert PacketOk(u, w.h, p);
    assert Mask(p.dest, p.iv) in g.masks;
    DatagramIsPacket(u, g, w.h, e, n, p);
    PacketClient(u, g, w.h, e, n, p);
    PacketFewer(u.c, u.Self(e), n, p);
    var n' := HandlePacket(u.c, u.Self(e), n, p);
    KeepReceived(u, g, w, e, n');
    if AcceptsPacket(u.c, u.Self(e), n, p) {
      var data := n.challenges[p.from].challengeData;
      AcceptanceOk(u, g, w.h, w.clients, e, p);
      NotYetAccepted(u, w.h, w.clients, w.accepted, data);
      AddAccepted(u, w.h, w.clients[e := n'], w.accepted, Accepted(e, p, data, n'.sessions[p.from]));
    }
  }

  //
  // Sending
  //

  /** What a request changes of its client. */
  lemma SendEffect(c: Crypto, self: Identity, n: Client, peer: Peer, d: Draw)
    ensures var n' := SendFindnode(c, self, n, peer, d).0;
            && n'.tasks == n.tasks && n'.challenges == n.challenges
            && forall f <- n'.pending :: (f in n.pending && n'.pending[f] == n.pending[f]) ||
                 n'.pending[f] == Pending(peer, peer.reqId, d.nonce, [], 0, false)
  {}

  lemma SentClient(u: Setup, g: Scope, h: History, e: Endpoint, n: Client, peer: Peer, d: Draw)
    requires e in u.keys && ClientOk(u, g, h, e, n) && Asked(h, d.nonce, u.c.address(peer.nodeId))
    requires peer.nodeId in g.nodes
    ensures ClientOk(u, g, h, e, SendFindnode(u.c, u.Self(e), n, peer, d).0)
  {
    var n' := SendFindnode(u.c, u.Self(e), n, peer, d).0;
    SendEffect(u.c, u.Self(e), n, peer, d);
    forall f | f in n'.pending ensures PendingOk(u, g, h, n'.pending[f]) {
      if f in n.pending { assert PendingOk(u, g, h, n.pending[f]); }
    }
  }

  /** A handshake is sent only in answer to a challenge, and then it is the one built from the pending request. */
  lemma SentHandshake(c: Crypto, self: Identity, n: Client, peer: Peer, d: Draw)
    ensures var (n', p) := SendFindnode(c, self, n, peer, d);
            p.Some? ==>
              && p.value.nonce == d.nonce && p.value.from == self.endpoint && p.value.dest == c.address(peer.nodeId)
              && (|| p.value.content == MessageAuth(Address(c, self))
                  || (&& peer.endpoint in n.pending && n.pending[peer.endpoint].haveChallenge
                      && (n', p) == SendHandshake(c, self, n, peer, d)))
  {}

  /** What a handshake's sender notes of it is so. */
  lemma HandshakeNoted(u: Setup, g: Scope, h: History, e: Endpoint, n: Client, peer: Peer, d: Draw)
    requires e in u.keys && peer.endpoint in n.pending && n.pending[peer.endpoint].haveChallenge && d.fault == NoFault
    requires PendingOk(u, g, h, n.pending[peer.endpoint]) && d.nonce in h.drawn
    requires IdMessage(n.pending[peer.endpoint].challengeData, u.c.compress(u.c.pub(d.ephPriv)),
                       u.c.address(peer.nodeId))
             in g.proofs
    ensures var (n', p) := SendHandshake(u.c, u.Self(e), n, peer, d);
            p.value.content.HandshakeAuthOf? && peer.endpoint in n'.sessions &&
            BuiltOk(u, g, h, p.value, BuiltFrom(n, n', peer, d))
  {}

  lemma SentNet(u: Setup, g: Scope, w: World, e: Endpoint, peer: Peer, d: Draw)
    requires UsedWithin(u, g, w, Findnode(e, peer, d)) && ClientOk(u, g, w.h, e, w.clients[e])
    requires forall p <- w.h.built :: p.nonce in w.h.drawn
    ensures var h', p := FindnodeStep(u, w, e, peer, d).h, SendFindnode(u.c, u.Self(e), w.clients[e], peer, d).1;
            p.Some? ==>
              && PacketOk(u, h', p.value)
              && (p.value in h'.built ==> BuiltOk(u, g, h', p.value, h'.built[p.value]))
  {
    var n, h := w.clients[e], w.h.(drawn := w.h.drawn[d.nonce := u.c.address(peer.nodeId)]);
    var h' := FindnodeStep(u, w, e, peer, d).h;
    var p := SendFindnode(u.c, u.Self(e), n, peer, d).1;
    SentHandshake(u.c, u.Self(e), n, peer, d);
    if p.Some? && p.value.content.HandshakeAuthOf? {
      assert PendingOk(u, g, w.h, n.pending[peer.endpoint]);
      assert PendingOk(u, g, h', n.pending[peer.endpoint]);
      assert SignedProof(u, w, e, peer, d) <= g.proofs;
      HandshakeNoted(u, g, h', e, n, peer, d);
    }
  }

  /** What a request changes beside its client: a nonce is drawn, and a packet may be sent and noted. */
  lemma FindnodeAdds(u: Setup, w: World, e: Endpoint, peer: Peer, d: Draw)
    requires e in u.keys && e in w.clients && d.nonce !in w.h.drawn
    requires forall p <- w.h.built :: p.nonce in w.h.drawn
    ensures var h', sent := FindnodeStep(u, w, e, peer, d).h, SendFindnode(u.c, u.Self(e), w.clients[e], peer, d);
            && Grows(w.h, h') && Asked(h', d.nonce, u.c.address(peer.nodeId))
            && forall p <- h'.built :: p in w.h.built || sent.1 == Some(p)
  {
    SentHandshake(u.c, u.Self(e), w.clients[e], peer, d);
  }

  lemma KeepFindnode(u: Setup, g: Scope, w: World, e: Endpoint, peer: Peer, d: Draw)
    requires Inv(u, g, w) && UsedWithin(u, g, w, Findnode(e, peer, d))
    ensures Inv(u, g, FindnodeStep(u, w, e, peer, d))
  {
    forall p | p in w.h.built ensures p.nonce in w.h.drawn { assert BuiltOk(u, g, w.h, p, w.h.built[p]); }
    var w' := FindnodeStep(u, w, e, peer, d);
    var (n', p) := SendFindnode(u.c, u.Self(e), w.clients[e], peer, d);
    FindnodeAdds(u, w, e, peer, d);
    SentNet(u, g, w, e, peer, d);
    GrowBuilt(u, g, w.h, w'.h);
    GrowClient(u, g, w.h, w'.h, e, w.clients[e]);
    SentClient(u, g, w'.h, e, w.clients[e], peer, d);
    SendEffect(u.c, u.Self(e), w.clients[e], peer, d);
    FewerStaysGone(w.h, w'.h, w.clients, e, n');
    KeepWorld(u, g, w, w', e, n', if p.Some? then {p.value} else {});
  }

  lemma ChallengeClient(u: Setup, g: Scope, h: History, e: Endpoint, n: Client, t: Task, iv: Iv, idNonce: IdNonce)
    requires e in u.keys && ClientOk(u, g, h, e, n) && t.ChallengeTask? && t in n.tasks
    requires var data := ChallengeFor(u.Self(e), n, t, iv, idNonce); data in h.issued && h.issued[data] == (e, t.to)
    ensures var (n', p) := SendWhoareyou(u.Self(e), n, t, iv, idNonce);
            ClientOk(u, g, h, e, n') && PacketOk(u, h, p)
  {
    assert TaskOk(u, h, e, t);
  }

  /** A new challenge is none of those already consumed. */
  lemma FreshStaysGone(h: History, h': History, clients: map<Endpoint, Client>, e: Endpoint, n: Client, f: Endpoint,
                       ch: Challenge)
    requires Grows(h, h') && ch.challengeData !in h.issued && e in clients
    requires n.challenges == clients[e].challenges[f := ch]
    ensures StaysGone(h, h', clients, clients[e := n])
  {}

  lemma KeepChallenge(u: Setup, g: Scope, w: World, e: Endpoint, t: Task, iv: Iv, idNonce: IdNonce)
    requires Inv(u, g, w) && Enabled(u, w, RunChallenge(e, t, iv, idNonce))
    ensures Inv(u, g, ChallengeStep(u, w, e, t, iv, idNonce))
  {
    var w' := ChallengeStep(u, w, e, t, iv, idNonce);
    var (n', p) := SendWhoareyou(u.Self(e), w.clients[e], t, iv, idNonce);
    assert Grows(w.h, w'.h);
    GrowClient(u, g, w.h, w'.h, e, w.clients[e]);
    ChallengeClient(u, g, w'.h, e, w.clients[e], t, iv, idNonce);
    FreshStaysGone(w.h, w'.h, w.clients, e, n', t.to, Challenge(t.remoteAddr, Header(p), t.nonce, 0));
    GrowBuilt(u, g, w.h, w'.h);
    KeepWorld(u, g, w, w', e, n', {p});
  }

  lemma KeepRespond(u: Setup, g: Scope, w: World, e: Endpoint, t: Task, d: Draw)
    requires Inv(u, g, w) && Enabled(u, w, RunRespond(e, t, d))
    ensures Inv(u, g, RespondStep(u, w, e, t, d))
  {
    var w', p := RespondStep(u, w, e, t, d), Respond(u.c, u.Self(e), w.clients[e], t, d);
    if p.Some? {
      assert p.value.nonce == d.nonce && p.value.content == MessageAuth(u.Addr(e)) && p.value.from == e;
      assert Grows(w.h, w'.h);
      GrowClient(u, g, w.h, w'.h, e, w.clients[e]);
      FewerStaysGone(w.h, w'.h, w.clients, e, w.clients[e]);
      GrowBuilt(u, g, w.h, w'.h);
      assert w.clients == w.clients[e := w.clients[e]];
      KeepWorld(u, g, w, w', e, w.clients[e], {p.value});
    }
  }

  lemma KeepStep(u: Setup, g: Scope, w: World, s: Step)
    requires Sound(u, g) && Inv(u, g, w) && UsedWithin(u, g, w, s)
    ensures Inv(u, g, Apply(u, w, s))
  {
    match s
    case Deliver(e, p) => KeepDeliver(u, g, w, e, p);
    case Findnode(e, peer, d) => KeepFindnode(u, g, w, e, peer, d);
    case RunChallenge(e, t, iv, idNonce) => KeepChallenge(u, g, w, e, t, iv, idNonce);
    case RunRespond(e, t, d) => KeepRespond(u, g, w, e, t, d);
  }

  lemma StartInv(u: Setup, g: Scope)
    ensures Inv(u, g, Start(u))
  {
    var w := Start(u);
    forall e | e in w.clients ensures ClientOk(u, g, w.h, e, w.clients[e]) { assert w.clients[e] == NEW_CLIENT; }
  }

  /** A run is a shorter one and a last step. */
  lemma RunFront(u: Setup, g: Scope, trace: seq<World>, steps: seq<Step>)
    returns (before: seq<World>, front: seq<Step>, w: World, s: Step)
    requires Run(u, trace, steps) && Within(u, g, trace, steps) && |steps| > 0
    ensures Run(u, before, front) && Within(u, g, before, front) && |front| < |steps| && before[|front|] == w
    ensures UsedWithin(u, g, w, s) && trace[|steps|] == Apply(u, w, s)
  {
    var k := |steps| - 1;
    before, front, w, s := trace[..|steps|], steps[..k], trace[k], steps[k];
    assert Follows(u, trace[k], steps[k], trace[k + 1]);
    forall j | 0 <= j < k ensures Follows(u, before[j], front[j], before[j + 1]) {
      assert Follows(u, trace[j], steps[j], trace[j + 1]);
    }
    forall j | 0 <= j < k ensures UsedWithin(u, g, before[j], front[j]) {
      assert UsedWithin(u, g, trace[j], steps[j]);
    }
  }

  lemma {:induction false} RunKeepsInv(u: Setup, g: Scope, trace: seq<World>, steps: seq<Step>)
    requires Sound(u, g) && Run(u, trace, steps) && Within(u, g, trace, steps)
    ensures Inv(u, g, trace[|steps|])
    decreases |steps|
  {
    if |steps| == 0 {
      StartInv(u, g);
    } else {
      var before, front, w, s := RunFront(u, g, trace, steps);
      RunKeepsInv(u, g, before, front);
      KeepStep(u, g, w, s);
    }
  }

  //
  // The theorems
  //

  /**
   In every run, each handshake a responder accepted was built by the client it came from, whose session for
   it has the same two keys the other way round; each session names the other side.
   */
  lemma SessionsMirror(u: Setup, g: Scope, trace: seq<World>, steps: seq<Step>, a: Accepted)
    requires Sound(u, g) && Run(u, trace, steps) && Within(u, g, trace, steps) && a in trace[|steps|].accepted
    ensures var w := trace[|steps|];
            a.packet in w.h.built && Mirrors(u, a.packet.from, w.h.built[a.packet].session, a.responder, a.session)
  {
    RunKeepsInv(u, g, trace, steps);
    assert AcceptedOk(u, trace[|steps|].h, trace[|steps|].clients, a);
  }

  /** In every run, no challenge is consumed by two accepted handshakes. */
  lemma ChallengeConsumedOnce(u: Setup, g: Scope, trace: seq<World>, steps: seq<Step>, j: nat, k: nat)
    requires Sound(u, g) && Run(u, trace, steps) && Within(u, g, trace, steps) && j < k < |trace[|steps|].accepted|
    ensures trace[|steps|].accepted[j].challengeData != trace[|steps|].accepted[k].challengeData
  {
    RunKeepsInv(u, g, trace, steps);
  }

  /**
   In every run, delivering a handshake's datagram adds an acceptance exactly when the handshake is masked for the
   client and the client still holds the challenge it answers.
   */
  lemma DeliveryAccepts(u: Setup, g: Scope, trace: seq<World>, steps: seq<Step>, e: Endpoint, p: Packet)
    requires Sound(u, g) && Run(u, trace, steps) && Within(u, g, trace, steps)
    requires UsedWithin(u, g, trace[|steps|], Deliver(e, p)) && p.content.HandshakeAuthOf?
    ensures var w := trace[|steps|];
            && p in w.h.built
            && (|DeliverStep(u, w, e, p).accepted| == |w.accepted| + 1 <==>
                p.dest == u.Addr(e) && p.from in w.clients[e].challenges &&
                w.clients[e].challenges[p.from].challengeData == w.h.built[p].challengeData)
  {
    RunKeepsInv(u, g, trace, steps);
    StepAccepts(u, g, trace[|steps|], e, p);
  }

  lemma StepAccepts(u: Setup, g: Scope, w: World, e: Endpoint, p: Packet)
    requires Sound(u, g) && Inv(u, g, w) && UsedWithin(u, g, w, Deliver(e, p)) && p.content.HandshakeAuthOf?
    ensures p in w.h.built
    ensures |DeliverStep(u, w, e, p).accepted| == |w.accepted| + 1 <==>
            p.dest == u.Addr(e) && p.from in w.clients[e].challenges &&
            w.clients[e].challenges[p.from].challengeData == w.h.built[p].challengeData
  {
    assert PacketOk(u, w.h, p);
    assert Mask(p.dest, p.iv) in g.masks;
    DatagramIsPacket(u, g, w.h, e, w.clients[e], p);
    AcceptedIff(u, g, w.h, e, w.clients[e], p, w.h.built[p]);
    if AcceptsPacket(u.c, u.Self(e), w.clients[e], p) { StoredSession(u.c, u.Self(e), w.clients[e], p); }
  }

  //
  // Handshakes do complete
  //

  ghost predicate Reached(u: Setup, g: Scope, w: World) {
    exists trace, steps :: Run(u, trace, steps) && Within(u, g, trace, steps) && trace[|steps|] == w
  }

  lemma Extend(u: Setup, g: Scope, trace: seq<World>, steps: seq<Step>, s: Step)
    returns (trace': seq<World>, steps': seq<Step>)
    requires Run(u, trace, steps) && Within(u, g, trace, steps) && UsedWithin(u, g, trace[|steps|], s)
    ensures Run(u, trace', steps') && Within(u, g, trace', steps') && trace'[|steps'|] == Apply(u, trace[|steps|], s)
  {
    var w := Apply(u, trace[|steps|], s);
    trace', steps' := trace + [w], steps + [s];
    ExtendRun(u, trace, steps, s, w);
    forall k | 0 <= k < |steps'| ensures UsedWithin(u, g, trace'[k], steps'[k]) {
      if k < |steps| { assert UsedWithin(u, g, trace[k], steps[k]); }
    }
  }

  lemma ExtendRun(u: Setup, trace: seq<World>, steps: seq<Step>, s: Step, w: World)
    requires Run(u, trace, steps) && Follows(u, trace[|steps|], s, w)
    ensures Run(u, trace + [w], steps + [s])
  {
    var trace', steps' := trace + [w], steps + [s];
    forall k | 0 <= k < |steps'| ensures Follows(u, trace'[k], steps'[k], trace'[k + 1]) {
      if k < |steps| { assert Follows(u, trace[k], steps[k], trace[k + 1]); }
    }
  }

  lemma ReachStep(u: Setup, g: Scope, w: World, s: Step)
    requires Reached(u, g, w) && UsedWithin(u, g, w, s)
    ensures Reached(u, g, Apply(u, w, s))
  {
    var trace, steps :| Run(u, trace, steps) && Within(u, g, trace, steps) && trace[|steps|] == w;
    var trace', steps' := Extend(u, g, trace, steps, s);
  }

  lemma ReachedInv(u: Setup, g: Scope, w: World)
    requires Sound(u, g) && Reached(u, g, w)
    ensures Inv(u, g, w)
  {
    var trace, steps :| Run(u, trace, steps) && Within(u, g, trace, steps) && trace[|steps|] == w;
    RunKeepsInv(u, g, trace, steps);
  }

  lemma DeliverUses(u: Setup, g: Scope, w: World, e: Endpoint, p: Packet)
    requires Enabled(u, w, Deliver(e, p)) && !p.content.HandshakeAuthOf? && Mask(p.dest, p.iv) in g.masks
    ensures UsedWithin(u, g, w, Deliver(e, p))
  {
    assert Uses(u, w, Deliver(e, p)) == Scope({}, {}, {Mask(p.dest, p.iv)});
  }

  lemma HandledStep(u: Setup, g: Scope, w: World, e: Endpoint, p: Packet)
    requires Sound(u, g) && Inv(u, g, w) && Enabled(u, w, Deliver(e, p)) && !p.content.HandshakeAuthOf?
    requires Mask(p.dest, p.iv) in g.masks
    ensures Apply(u, w, Deliver(e, p)) == w.(clients := w.clients[e := HandlePacket(u.c, u.Self(e), w.clients[e], p)])
  {
    assert PacketOk(u, w.h, p);
    DatagramIsPacket(u, g, w.h, e, w.clients[e], p);
    assert !AcceptsPacket(u.c, u.Self(e), w.clients[e], p);
    assert DeliverStep(u, w, e, p) == w.(clients := w.clients[e := HandlePacket(u.c, u.Self(e), w.clients[e], p)]);
  }

  /** Delivering a packet of a run to the client it is masked for is handling that packet. */
  lemma ReachHandled(u: Setup, g: Scope, w: World, e: Endpoint, p: Packet)
    requires Sound(u, g) && Reached(u, g, w) && Enabled(u, w, Deliver(e, p)) && !p.content.HandshakeAuthOf?
    requires Mask(p.dest, p.iv) in g.masks
    ensures Reached(u, g, w.(clients := w.clients[e := HandlePacket(u.c, u.Self(e), w.clients[e], p)]))
  {
    ReachedInv(u, g, w);
    HandledStep(u, g, w, e, p);
    DeliverUses(u, g, w, e, p);
    ReachStep(u, g, w, Deliver(e, p));
  }

  /** The first request of a run. */
  function Asking(u: Setup, e: Endpoint, f: Endpoint, first: Draw): Packet
    requires e in u.keys && f in u.keys
  { Packet(e, f, u.Addr(f), first.iv, first.nonce, MessageAuth(u.Addr(e)), first.filler) }

  /** The challenge to it. */
  function WhoareyouPacket(u: Setup, e: Endpoint, f: Endpoint, nonce: Nonce, iv: Iv, idNonce: IdNonce): Packet
    requires e in u.keys
  { Packet(f, e, u.Addr(e), iv, nonce, WhoareyouAuth(idNonce, 0), []) }

  /** What a run with one handshake from `e` to `f` uses. */
  function OneHandshake(u: Setup, e: Endpoint, f: Endpoint, first: Draw, second: Draw, iv: Iv, idNonce: IdNonce): Scope
    requires e in u.keys && f in u.keys
  {
    var ask := WhoareyouPacket(u, e, f, first.nonce, iv, idNonce);
    Scope({IdMessage(Header(ask), u.c.compress(u.c.pub(second.ephPriv)), u.Addr(f))}, {u.Id(f)},
          {Mask(u.Addr(f), first.iv), Mask(u.Addr(e), iv), Mask(u.Addr(f), second.iv)})
  }

  function Requested(u: Setup, e: Endpoint, f: Endpoint, peer: Peer, first: Draw): World
    requires e in u.keys && f in u.keys
  {
    World(Start(u).clients[e := NEW_CLIENT.(pending := map[f := Pending(peer, peer.reqId, first.nonce, [], 0, false)])],
          {Asking(u, e, f, first)}, History(map[first.nonce := u.Addr(f)], map[], map[]), [])
  }

  lemma ReachRequested(u: Setup, g: Scope, e: Endpoint, f: Endpoint, peer: Peer, first: Draw)
    requires e in u.keys && f in u.keys && peer.endpoint == f && peer.nodeId == u.Id(f) && first.fault == NoFault
    requires u.Id(f) in g.nodes
    ensures Reached(u, g, Requested(u, e, f, peer, first))
  {
    assert Run(u, [Start(u)], []) && Within(u, g, [Start(u)], []);
    assert UsedWithin(u, g, Start(u), Findnode(e, peer, first));
    ReachStep(u, g, Start(u), Findnode(e, peer, first));
    assert FindnodeStep(u, Start(u), e, peer, first) == Requested(u, e, f, peer, first);
  }

  lemma AskedNewClient(u: Setup, e: Endpoint, f: Endpoint, first: Draw)
    requires e in u.keys && f in u.keys
    ensures HandlePacket(u.c, u.Self(f), NEW_CLIENT, Asking(u, e, f, first)) ==
            NEW_CLIENT.(tasks := {ChallengeTask(e, u.Addr(e), first.nonce)})
  {}

  /** The request has arrived and the challenge is to be sent. */
  function Arrived(u: Setup, e: Endpoint, f: Endpoint, peer: Peer, first: Draw): World
    requires e in u.keys && f in u.keys
  {
    var w := Requested(u, e, f, peer, first);
    w.(clients := w.clients[f := NEW_CLIENT.(tasks := {ChallengeTask(e, u.Addr(e), first.nonce)})])
  }

  lemma RequestArrives(u: Setup, e: Endpoint, f: Endpoint, peer: Peer, first: Draw)
    requires e in u.keys && f in u.keys && e != f
    ensures var w, p := Requested(u, e, f, peer, first), Asking(u, e, f, first);
            && Enabled(u, w, Deliver(f, p)) && p.dest == u.Addr(f) && p.iv == first.iv && p.content.MessageAuth?
            && w.(clients := w.clients[f := HandlePacket(u.c, u.Self(f), w.clients[f], p)]) ==
               Arrived(u, e, f, peer, first)
  {
    AskedNewClient(u, e, f, first);
    assert Requested(u, e, f, peer, first).clients[f] == NEW_CLIENT;
  }

  lemma ReachArrived(u: Setup, g: Scope, e: Endpoint, f: Endpoint, peer: Peer, first: Draw)
    requires Sound(u, g) && e in u.keys && f in u.keys && e != f && peer.endpoint == f && peer.nodeId == u.Id(f)
    requires first.fault == NoFault && u.Id(f) in g.nodes && Mask(u.Addr(f), first.iv) in g.masks
    ensures Reached(u, g, Arrived(u, e, f, peer, first))
  {
    RequestArrives(u, e, f, peer, first);
    ReachRequested(u, g, e, f, peer, first);
    ReachHandled(u, g, Requested(u, e, f, peer, first), f, Asking(u, e, f, first));
  }

  /** The request is out and has been challenged: the responder holds the challenge, its packet is in the network. */
  ghost predicate Challenged(u: Setup, w: World, e: Endpoint, f: Endpoint, peer: Peer, ask: Packet) {
    && e in u.keys && f in u.keys && w.clients.Keys == u.keys.Keys && w.accepted == []
    && f !in w.clients[e].sessions
    && f in w.clients[e].pending && w.clients[e].pending[f] == Pending(peer, peer.reqId, ask.nonce, [], 0, false)
    && e in w.clients[f].challenges && w.clients[f].challenges[e].challengeData == Header(ask)
    && ask in w.net && w.h.drawn.Keys == {ask.nonce}
  }

  lemma ArrivedThenChallenged(u: Setup, e: Endpoint, f: Endpoint, peer: Peer, first: Draw, iv: Iv, idNonce: IdNonce)
    requires e in u.keys && f in u.keys && e != f
    ensures var w, t := Arrived(u, e, f, peer, first), ChallengeTask(e, u.Addr(e), first.nonce);
            && Enabled(u, w, RunChallenge(f, t, iv, idNonce))
            && Challenged(u, ChallengeStep(u, w, f, t, iv, idNonce), e, f, peer,
                          WhoareyouPacket(u, e, f, first.nonce, iv, idNonce))
  {
    var w, t := Arrived(u, e, f, peer, first), ChallengeTask(e, u.Addr(e), first.nonce);
    assert SendWhoareyou(u.Self(f), w.clients[f], t, iv, idNonce).1 ==
           WhoareyouPacket(u, e, f, first.nonce, iv, idNonce);
  }

  lemma ReachChallenged(u: Setup, g: Scope, e: Endpoint, f: Endpoint, peer: Peer, first: Draw, iv: Iv, idNonce: IdNonce)
    returns (w: World)
    requires Sound(u, g) && e in u.keys && f in u.keys && e != f && peer.endpoint == f && peer.nodeId == u.Id(f)
    requires first.fault == NoFault && u.Id(f) in g.nodes && Mask(u.Addr(f), first.iv) in g.masks
    ensures Reached(u, g, w) && Challenged(u, w, e, f, peer, WhoareyouPacket(u, e, f, first.nonce, iv, idNonce))
  {
    var s := RunChallenge(f, ChallengeTask(e, u.Addr(e), first.nonce), iv, idNonce);
    ArrivedThenChallenged(u, e, f, peer, first, iv, idNonce);
    ReachArrived(u, g, e, f, peer, first);
    w := Arrived(u, e, f, peer, first);
    assert UsedWithin(u, g, w, s);
    ReachStep(u, g, w, s);
    w := Apply(u, w, s);
  }

  /** The initiator knows the challenge; its next request is a handshake. */
  ghost predicate Knows(u: Setup, w: World, e: Endpoint, f: Endpoint, peer: Peer, ask: Packet) {
    && e in u.keys && f in u.keys && w.clients.Keys == u.keys.Keys && w.accepted == []
    && f !in w.clients[e].sessions
    && f in w.clients[e].pending
    && w.clients[e].pending[f] == Pending(peer, peer.reqId, ask.nonce, Header(ask), 0, true)
    && e in w.clients[f].challenges && w.clients[f].challenges[e].challengeData == Header(ask)
    && w.h.drawn.Keys == {ask.nonce}
  }

  lemma ChallengedThenKnows(u: Setup, w: World, e: Endpoint, f: Endpoint, peer: Peer, ask: Packet)
    requires e != f && peer.endpoint == f && Challenged(u, w, e, f, peer, ask)
    requires ask.from == f && ask.dest == u.Addr(e) && ask.content.WhoareyouAuth? && ask.content.recordSeq == 0
    ensures Knows(u, w.(clients := w.clients[e := HandlePacket(u.c, u.Self(e), w.clients[e], ask)]), e, f, peer, ask)
  {
    var n := w.clients[e];
    assert HandlePacket(u.c, u.Self(e), n, ask) ==
           n.(pending := n.pending[f := Pending(peer, peer.reqId, ask.nonce, Header(ask), 0, true)],
              tasks := n.tasks + {FindnodeTask(peer)});
  }

  /** The handshake is out, and the challenge it answers is held. */
  ghost predicate Answered(u: Setup, w: World, f: Endpoint, p: Packet) {
    && Enabled(u, w, Deliver(f, p)) && p.content.HandshakeAuthOf? && w.accepted == []
    && p in w.h.built && p.dest == u.Addr(f) && p.from in w.clients[f].challenges
    && w.clients[f].challenges[p.from].challengeData == w.h.built[p].challengeData
  }

  lemma KnowsThenAnswered(u: Setup, w: World, e: Endpoint, f: Endpoint, peer: Peer, ask: Packet, second: Draw)
    returns (p: Packet)
    requires Knows(u, w, e, f, peer, ask) && e != f && peer.endpoint == f && peer.nodeId == u.Id(f)
    requires second.fault == NoFault && ask.nonce != second.nonce
    ensures Enabled(u, w, Findnode(e, peer, second))
    ensures Answered(u, FindnodeStep(u, w, e, peer, second), f, p)
    ensures p.from == e && p.iv == second.iv && p.content.auth.pubkey == u.c.compress(u.c.pub(second.ephPriv))
    ensures FindnodeStep(u, w, e, peer, second).clients[f] == w.clients[f]
  {
    p := SendHandshake(u.c, u.Self(e), w.clients[e], peer, second).1.value;
    assert FindnodeStep(u, w, e, peer, second).clients[f] == w.clients[f];
  }

  lemma AcceptanceNoted(u: Setup, g: Scope, w: World, f: Endpoint, p: Packet)
    requires Sound(u, g) && Inv(u, g, w) && Answered(u, w, f, p) && UsedWithin(u, g, w, Deliver(f, p))
    ensures var accepted := Apply(u, w, Deliver(f, p)).accepted;
            |accepted| == 1 && accepted[0].responder == f && accepted[0].packet == p
  {
    StepAccepts(u, g, w, f, p);
  }

  /** A handshake that answers a held challenge is accepted when it arrives. */
  lemma ReachAccepted(u: Setup, g: Scope, w: World, f: Endpoint, p: Packet)
    returns (trace: seq<World>, steps: seq<Step>)
    requires Sound(u, g) && Reached(u, g, w) && Answered(u, w, f, p) && UsedWithin(u, g, w, Deliver(f, p))
    ensures Run(u, trace, steps) && Within(u, g, trace, steps) && |trace[|steps|].accepted| == 1
    ensures trace[|steps|].accepted[0].responder == f && trace[|steps|].accepted[0].packet == p
  {
    ReachedInv(u, g, w);
    AcceptanceNoted(u, g, w, f, p);
    trace, steps :| Run(u, trace, steps) && Within(u, g, trace, steps) && trace[|steps|] == w;
    trace, steps := Extend(u, g, trace, steps, Deliver(f, p));
  }

  /** What the last two steps use. */
  lemma AnswerUses(u: Setup, g: Scope, w: World, e: Endpoint, f: Endpoint, peer: Peer, ask: Packet, second: Draw)
    returns (p: Packet, w': World)
    requires Knows(u, w, e, f, peer, ask) && e != f && peer.endpoint == f && peer.nodeId == u.Id(f)
    requires second.fault == NoFault && ask.nonce != second.nonce
    requires IdMessage(Header(ask), u.c.compress(u.c.pub(second.ephPriv)), u.Addr(f)) in g.proofs
    requires u.Id(f) in g.nodes && Mask(u.Addr(f), second.iv) in g.masks
    ensures UsedWithin(u, g, w, Findnode(e, peer, second)) && w' == Apply(u, w, Findnode(e, peer, second))
    ensures Answered(u, w', f, p) && UsedWithin(u, g, w', Deliver(f, p)) && p.from == e
  {
    p := KnowsThenAnswered(u, w, e, f, peer, ask, second);
    w' := FindnodeStep(u, w, e, peer, second);
  }

  lemma KnownCompletes(u: Setup, g: Scope, w: World, e: Endpoint, f: Endpoint, peer: Peer, ask: Packet, second: Draw)
    returns (trace: seq<World>, steps: seq<Step>)
    requires Sound(u, g) && Reached(u, g, w) && Knows(u, w, e, f, peer, ask) && e != f && ask.nonce != second.nonce
    requires peer.endpoint == f && peer.nodeId == u.Id(f) && second.fault == NoFault
    requires IdMessage(Header(ask), u.c.compress(u.c.pub(second.ephPriv)), u.Addr(f)) in g.proofs
    requires u.Id(f) in g.nodes && Mask(u.Addr(f), second.iv) in g.masks
    ensures Run(u, trace, steps) && Within(u, g, trace, steps) && |trace[|steps|].accepted| == 1
    ensures trace[|steps|].accepted[0].responder == f && trace[|steps|].accepted[0].packet.from == e
  {
    var p, w' := AnswerUses(u, g, w, e, f, peer, ask, second);
    ReachStep(u, g, w, Findnode(e, peer, second));
    trace, steps := ReachAccepted(u, g, w', f, p);
  }

  /** The challenge reaches the initiator. */
  lemma ReachKnows(u: Setup, g: Scope, w: World, e: Endpoint, f: Endpoint, peer: Peer, ask: Packet) returns (w': World)
    requires Sound(u, g) && Reached(u, g, w) && e != f && peer.endpoint == f && Challenged(u, w, e, f, peer, ask)
    requires ask.from == f && ask.to == e && ask.dest == u.Addr(e) && ask.content.WhoareyouAuth?
    requires ask.content.recordSeq == 0 && Mask(ask.dest, ask.iv) in g.masks
    ensures Reached(u, g, w') && Knows(u, w', e, f, peer, ask)
  {
    ReachHandled(u, g, w, e, ask);
    ChallengedThenKnows(u, w, e, f, peer, ask);
    w' := w.(clients := w.clients[e := HandlePacket(u.c, u.Self(e), w.clients[e], ask)]);
  }

  /** Any two clients can complete a handshake, whatever is drawn: a run with an accepted one exists. */
  lemma HandshakeCompletes(u: Setup, e: Endpoint, f: Endpoint, reqId: ByteSeq, first: Draw, second: Draw, iv: Iv,
                           idNonce: IdNonce)
    returns (trace: seq<World>, steps: seq<Step>)
    requires e in u.keys && f in u.keys && e != f && first.nonce != second.nonce
    requires first.fault == NoFault && second.fault == NoFault
    requires Sound(u, OneHandshake(u, e, f, first, second, iv, idNonce))
    ensures Run(u, trace, steps) && |trace[|steps|].accepted| == 1
    ensures Within(u, OneHandshake(u, e, f, first, second, iv, idNonce), trace, steps)
    ensures trace[|steps|].accepted[0].responder == f && trace[|steps|].accepted[0].packet.from == e
  {
    var peer, ask := Peer(u.Id(f), f, reqId), WhoareyouPacket(u, e, f, first.nonce, iv, idNonce);
    var g := OneHandshake(u, e, f, first, second, iv, idNonce);
    var w := ReachChallenged(u, g, e, f, peer, first, iv, idNonce);
    w := ReachKnows(u, g, w, e, f, peer, ask);
    trace, steps := KnownCompletes(u, g, w, e, f, peer, ask, second);
  }

  lemma ToyHandshakeSound(e: Endpoint, f: Endpoint, first: Draw, second: Draw, iv: Iv, idNonce: IdNonce)
    requires e != f
    ensures Sound(ToySetup(e, f), OneHandshake(ToySetup(e, f), e, f, first, second, iv, idNonce))
  {
    var u := ToySetup(e, f);
    assert ToyAddress(u.Id(e)) == u.Addr(e) && ToyAddress(u.Id(f)) == u.Addr(f);
    SoundExists(e, f, OneHandshake(u, e, f, first, second, iv, idNonce));
  }

  /** With the program's sizes and the laws met, some run ends in an accepted handshake. */
  lemma SoundRunExists(e: Endpoint, f: Endpoint, reqId: ByteSeq, first: Draw, second: Draw, iv: Iv, idNonce: IdNonce)
    returns (u: Setup, g: Scope, trace: seq<World>, steps: seq<Step>)
    requires e != f && first.nonce != second.nonce && first.fault == NoFault && second.fault == NoFault
    ensures u == ToySetup(e, f) && Sound(u, g) && Run(u, trace, steps) && Within(u, g, trace, steps)
    ensures |trace[|steps|].accepted| == 1
  {
    u := ToySetup(e, f);
    g := OneHandshake(u, e, f, first, second, iv, idNonce);
    ToyHandshakeSound(e, f, first, second, iv, idNonce);
    trace, steps := HandshakeCompletes(u, e, f, reqId, first, second, iv, idNonce);
  }
}
