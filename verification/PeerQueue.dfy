/**
 The bounded producer in front of a dial scheduler: which candidates it lets through, and what a disconnect does.
 */
module PeerQueue {
  import opened Bytes
  import opened Scheduler
  import opened SchedulerObjects
  import CachedPeers

  datatype Reason = TooManyPeers | TcpError | Timeout | SubprotocolError | OtherReason

  datatype QueueConfig = QueueConfig(maxPending: nat, maxRequeues: nat, tooManyPeersBackoff: int, startOffset: nat)

  /** Disconnect feedback by whether the peer had connected and by reason. */
  datatype Tally = Tally(
    feedbacks: nat, before: nat, after: nat, tooManyBefore: nat, tooManyAfter: nat, tcp: nat, timeouts: nat,
    subprotocol: nat)

  /** Maps are keyed by the hexadecimal text of the node id. */
  datatype Producer = Producer(
    seen: set<string>, disconnects: map<string, nat>, backoff: map<string, int>,
    cached: nat, discovered: nat, requeued: nat,
    duplicateDrops: nat, capacityDrops: nat, flakyDrops: nat, backoffs: nat, backoffDrops: nat, tally: Tally)

  const EMPTY: Producer := Producer({}, map[], map[], 0, 0, 0, 0, 0, 0, 0, 0, Tally(0, 0, 0, 0, 0, 0, 0, 0))

  function HexDigit(d: nat): char
    requires d < 16
  { "0123456789abcdef"[d] }

  function NodeKey(node: ByteSeq): string {
    if node == [] then "" else [HexDigit(node[0] as nat / 16), HexDigit(node[0] as nat % 16)] + NodeKey(node[1..])
  }

  lemma HexDigitInjective(c: nat, d: nat)
    requires c < 16 && d < 16 && HexDigit(c) == HexDigit(d)
    ensures c == d
  {}

  /** Different nodes have different keys. */
  lemma {:induction false} NodeKeyInjective(a: ByteSeq, b: ByteSeq)
    requires NodeKey(a) == NodeKey(b)
    ensures a == b
  {
    if a != [] && b != [] {
      var x, y := NodeKey(a), NodeKey(b);
      assert x[0] == HexDigit(a[0] as nat / 16) && y[0] == HexDigit(b[0] as nat / 16);
      assert x[1] == HexDigit(a[0] as nat % 16) && y[1] == HexDigit(b[0] as nat % 16);
      HexDigitInjective(a[0] as nat / 16, b[0] as nat / 16);
      HexDigitInjective(a[0] as nat % 16, b[0] as nat % 16);
      assert NodeKey(a[1..]) == x[2..] && NodeKey(b[1..]) == y[2..];
      NodeKeyInjective(a[1..], b[1..]);
    }
  }

  //
  // enqueue_candidate and report_peer_disconnected
  //

  /** A scheduler with its settings and the pool total. */
  datatype Chain = Chain(cfg: Config, s: Sched, total: int)

  /** The queue, its scheduler if it has one, and the next clock reading. */
  datatype Standing = Standing(q: Producer, chain: Option<Chain>, at: nat)

  /** `handed` says whether the peer was passed to the scheduler. */
  datatype Outcome = Outcome(to: Standing, accepted: bool, handed: bool)

  /** Whether the scheduler may take one more: a free slot, or room in the backlog. */
  predicate HasRoom(qc: QueueConfig, chain: Option<Chain>) {
    match chain
    case None => true
    case Some(c) => SlotFree(c.cfg, c.s, c.total) || |c.s.queue| < qc.maxPending
  }

  /** The producer's own part of enqueue_candidate. */
  function Admit(q: Producer, key: string, allowKnown: bool, room: bool, now: int): (Producer, bool) {
    if key in q.backoff && now < q.backoff[key] then (q.(backoffDrops := q.backoffDrops + 1), false)
    else
      var q1 := q.(backoff := q.backoff - {key});
      if key in q.seen && !allowKnown then (q1.(duplicateDrops := q.duplicateDrops + 1), false)
      else if !room then (q1.(capacityDrops := q.capacityDrops + 1), false)
      else (q1.(seen := q.seen + {key}), true)
  }

  function HandOver(q: Producer, chain: Option<Chain>, peer: Peer, clock: Clock, at: nat): Outcome {
    match chain
    case None => Outcome(Standing(q, chain, at), true, false)
    case Some(c) =>
      var r := Enqueue(c.cfg, c.s, c.total, peer, clock, at);
      Outcome(Standing(q, Some(Chain(c.cfg, r.s, r.total)), r.at), true, true)
  }

  function Candidate(qc: QueueConfig, st: Standing, peer: Peer, allowKnown: bool, clock: Clock): Outcome {
    var (q', ok) := Admit(st.q, NodeKey(peer.node), allowKnown, HasRoom(qc, st.chain), clock(st.at));
    if ok then HandOver(q', st.chain, peer, clock, st.at + 1)
    else Outcome(Standing(q', st.chain, st.at + 1), false, false)
  }

  function Cached(qc: QueueConfig, st: Standing, peer: Peer, clock: Clock): Outcome {
    var r := Candidate(qc, st, peer, false, clock);
    if r.accepted then r.(to := r.to.(q := r.to.q.(cached := r.to.q.cached + 1))) else r
  }

  function Discovered(qc: QueueConfig, st: Standing, peer: Peer, clock: Clock): Outcome {
    var r := Candidate(qc, st, peer, false, clock);
    if r.accepted then r.(to := r.to.(q := r.to.q.(discovered := r.to.q.discovered + 1))) else r
  }

  /** The first `n` peers offered one after the other. */
  function Preload(qc: QueueConfig, st: Standing, peers: seq<Peer>, n: nat, clock: Clock): Standing
    requires n <= |peers|
  { if n == 0 then st else Cached(qc, Preload(qc, st, peers, n - 1, clock), peers[n - 1], clock).to }

  function Tallied(t: Tally, reason: Reason, wasConnected: bool): Tally {
    var t1 := if wasConnected then t.(feedbacks := t.feedbacks + 1, after := t.after + 1)
              else t.(feedbacks := t.feedbacks + 1, before := t.before + 1);
    match reason
    case TooManyPeers =>
      if wasConnected then t1.(tooManyAfter := t.tooManyAfter + 1) else t1.(tooManyBefore := t.tooManyBefore + 1)
    case TcpError => t1.(tcp := t.tcp + 1)
    case Timeout => t1.(timeouts := t.timeouts + 1)
    case SubprotocolError => t1.(subprotocol := t.subprotocol + 1)
    case OtherReason => t1
  }

  predicate Requeueable(reason: Reason, wasConnected: bool) {
    (reason == TcpError || reason == Timeout) && wasConnected
  }

  function Disconnects(q: Producer, key: string): nat { if key in q.disconnects then q.disconnects[key] else 0 }

  /** Whether a disconnect leads to another try. */
  function Judge(qc: QueueConfig, q: Producer, key: string, reason: Reason, wasConnected: bool, now: int)
    : (Producer, bool)
  {
    var n := Disconnects(q, key);
    if reason == TooManyPeers then
      (q.(backoff := q.backoff[key := now + qc.tooManyPeersBackoff], backoffs := q.backoffs + 1), false)
    else if !Requeueable(reason, wasConnected) then (q, false)
    else if n >= qc.maxRequeues then (q.(disconnects := q.disconnects[key := n], flakyDrops := q.flakyDrops + 1), false)
    else (q.(disconnects := q.disconnects[key := n + 1]), true)
  }

  function Report(qc: QueueConfig, st: Standing, peer: Peer, reason: Reason, wasConnected: bool, clock: Clock): Outcome
  {
    var q0 := st.q.(tally := Tallied(st.q.tally, reason, wasConnected));
    var (q1, retry) := Judge(qc, q0, NodeKey(peer.node), reason, wasConnected, clock(st.at));
    if !retry then Outcome(Standing(q1, st.chain, if reason == TooManyPeers then st.at + 1 else st.at), false, false)
    else
      var r := Candidate(qc, st.(q := q1), peer, true, clock);
      if r.accepted then r.(to := r.to.(q := r.to.q.(requeued := r.to.q.requeued + 1))) else r
  }

  //
  // What the scheduler does with its backlog
  //

  /** Queue and dials come from before, or are the new peer. */
  ghost predicate FlowsFrom(s: Sched, s': Sched, extra: set<Peer>) {
    && (forall p <- s'.queue :: p in s.queue || p in extra)
    && (forall d <- s'.dialed :: d in s.dialed || d.peer in s.queue || d.peer in extra)
  }

  lemma EnqueueFlow(cfg: Config, s: Sched, total: int, peer: Peer, clock: Clock, at: nat)
    ensures FlowsFrom(s, Enqueue(cfg, s, total, peer, clock, at).s, {peer})
    ensures |Enqueue(cfg, s, total, peer, clock, at).s.queue| <= |s.queue| + if SlotFree(cfg, s, total) then 0 else 1
  {}

  lemma {:induction false} DrainFlow(cfg: Config, s: Sched, total: int, clock: Clock, at: nat)
    ensures FlowsFrom(s, Drain(cfg, s, total, clock, at).s, {})
    ensures |Drain(cfg, s, total, clock, at).s.queue| <= |s.queue|
    decreases |s.queue|
  {
    if SlotFree(cfg, s, total) && s.queue != [] {
      var r := Front(cfg, s, total, clock, at);
      DrainFlow(cfg, r.s, r.total, clock, r.at);
    }
  }

  lemma ReleaseFlow(cfg: Config, s: Sched, total: int, k: nat, clock: Clock, at: nat)
    ensures FlowsFrom(s, Release(cfg, s, total, k, clock, at).s, {})
    ensures |Release(cfg, s, total, k, clock, at).s.queue| <= |s.queue|
  {
    var s1 := Freed(s, k);
    DrainFlow(cfg, s1.(history := Expired(s1.history, clock(at))), total - 1, clock, at + 1);
  }

  //
  // Runs with this producer as the only one
  //

  /**
   `handed` counts how often each node was passed to the scheduler, `strangers` the nodes first seen in feedback,
   which the program's own feedback is never about.
   */
  datatype World = World(q: Producer, chain: Option<Chain>, handed: multiset<string>, strangers: nat)

  /** The pool total and the clock readings are whatever the other chains and time make them. */
  datatype Step =
    | AddCached(peer: Peer, total: int, clock: Clock)
    | AddDiscovered(peer: Peer, total: int, clock: Clock)
    | Feedback(peer: Peer, reason: Reason, wasConnected: bool, total: int, clock: Clock)
    | DoRelease(k: nat, total: int, clock: Clock)
    | DoConnect(k: nat)
    | DoStop(live: set<nat>)

  /** Feedback may be about any peer and come more than once and after the dial has finished. */
  predicate Enabled(w: World, step: Step) {
    match step
    case DoRelease(k, _, _) => w.chain.Some? && k in w.chain.value.s.open
    case DoConnect(k) => w.chain.Some? && k in w.chain.value.s.open
    case DoStop(_) => w.chain.Some?
    case _ => true
  }

  /** Where an operation starts: the pool total is what the other chains left. */
  function Before(w: World, total: int): Standing {
    Standing(w.q, match w.chain { case None => None case Some(c) => Some(c.(total := total)) }, 0)
  }

  function After(w: World, key: string, r: Outcome): World {
    World(r.to.q, r.to.chain, if r.handed then w.handed + multiset{key} else w.handed, w.strangers)
  }

  function OnChain(w: World, s: Sched): World
    requires w.chain.Some?
  { w.(chain := Some(w.chain.value.(s := s))) }

  function Apply(qc: QueueConfig, w: World, step: Step): World
    requires Enabled(w, step)
  {
    match step
    case AddCached(peer, total, clock) => After(w, NodeKey(peer.node), Cached(qc, Before(w, total), peer, clock))
    case AddDiscovered(peer, total, clock) =>
      After(w, NodeKey(peer.node), Discovered(qc, Before(w, total), peer, clock))
    case Feedback(peer, reason, wasConnected, total, clock) =>
      var key, r := NodeKey(peer.node), Report(qc, Before(w, total), peer, reason, wasConnected, clock);
      After(w, key, r).(strangers := w.strangers + if r.accepted && key !in w.q.seen then 1 else 0)
    case DoRelease(k, total, clock) => OnChain(w, Release(w.chain.value.cfg, w.chain.value.s, total, k, clock, 0).s)
    case DoConnect(k) => OnChain(w, Connect(w.chain.value.s, k))
    case DoStop(live) => OnChain(w, Stop(w.chain.value.s, live))
  }

  /** A queue with a fresh scheduler, or with none. */
  predicate Starts(w: World) {
    w.q == EMPTY && (w.chain.Some? ==> w.chain.value.s == FRESH) && w.handed == multiset{} && w.strangers == 0
  }

  ghost predicate Run(qc: QueueConfig, trace: seq<World>, steps: seq<Step>) {
    && |trace| == |steps| + 1 && Starts(trace[0])
    && forall j :: 0 <= j < |steps| ==> Enabled(trace[j], steps[j]) && trace[j + 1] == Apply(qc, trace[j], steps[j])
  }

  /** The backlog is within bounds, and everything queued or dialed was seen. */
  ghost predicate ChainOk(qc: QueueConfig, q: Producer, chain: Option<Chain>) {
    chain.Some? ==> |chain.value.s.queue| <= qc.maxPending && SeenAll(q, chain.value.s)
  }

  ghost predicate SeenAll(q: Producer, s: Sched) {
    && (forall p <- s.queue :: NodeKey(p.node) in q.seen)
    && (forall d <- s.dialed :: NodeKey(d.peer.node) in q.seen)
  }

  ghost predicate HandedOk(qc: QueueConfig, q: Producer, handed: multiset<string>) {
    forall key: string ::
      && handed[key] <= 1 + Disconnects(q, key) <= 1 + qc.maxRequeues
      && (key !in q.seen ==> handed[key] == 0)
  }

  /** Every feedback is counted once by connection and at most once by reason, and once by what came of it. */
  predicate TallyOk(q: Producer) {
    var t := q.tally;
    && t.feedbacks == t.before + t.after
    && t.tooManyBefore + t.tooManyAfter == q.backoffs && t.tooManyBefore <= t.before
    && q.backoffs + t.tcp + t.timeouts + t.subprotocol <= t.feedbacks
    && q.requeued + q.flakyDrops <= t.tcp + t.timeouts && q.requeued + q.flakyDrops + t.tooManyAfter <= t.after
  }

  ghost predicate Inv(qc: QueueConfig, w: World) {
    && ChainOk(qc, w.q, w.chain)
    && w.q.cached + w.q.discovered + w.strangers == |w.q.seen|
    && HandedOk(qc, w.q, w.handed)
    && TallyOk(w.q)
  }

  lemma FlowSeen(q: Producer, s: Sched, q': Producer, s': Sched, extra: set<Peer>)
    requires SeenAll(q, s) && FlowsFrom(s, s', extra) && q.seen <= q'.seen
    requires forall p <- extra :: NodeKey(p.node) in q'.seen
    ensures SeenAll(q', s')
  {}

  /** An admitted unknown node is new; a refused one leaves what was seen alone. */
  lemma AdmitEffect(q: Producer, key: string, allowKnown: bool, room: bool, now: int)
    ensures var (q', ok) := Admit(q, key, allowKnown, room, now);
            && q'.disconnects == q.disconnects && q'.cached == q.cached && q'.discovered == q.discovered
            && q'.seen == (if ok then q.seen + {key} else q.seen)
            && (ok ==> room && (allowKnown || key !in q.seen))
  {}

  /** What one candidate does to the backlog and to what was seen. */
  lemma CandidateKeeps(qc: QueueConfig, st: Standing, peer: Peer, allowKnown: bool, clock: Clock)
    requires ChainOk(qc, st.q, st.chain)
    ensures var r := Candidate(qc, st, peer, allowKnown, clock); ChainOk(qc, r.to.q, r.to.chain)
  {
    var r := Candidate(qc, st, peer, allowKnown, clock);
    AdmitEffect(st.q, NodeKey(peer.node), allowKnown, HasRoom(qc, st.chain), clock(st.at));
    if r.handed {
      var c := st.chain.value;
      EnqueueFlow(c.cfg, c.s, c.total, peer, clock, st.at + 1);
      FlowSeen(st.q, c.s, r.to.q, r.to.chain.value.s, {peer});
    }
  }

  /** What one candidate does to the queue's own state. */
  lemma CandidateEffect(qc: QueueConfig, st: Standing, peer: Peer, allowKnown: bool, clock: Clock)
    ensures var key, r := NodeKey(peer.node), Candidate(qc, st, peer, allowKnown, clock);
            && r.to.q.disconnects == st.q.disconnects && r.to.q.cached == st.q.cached
            && r.to.q.discovered == st.q.discovered && r.to.q.requeued == st.q.requeued
            && r.to.q.flakyDrops == st.q.flakyDrops && r.to.q.backoffs == st.q.backoffs && r.to.q.tally == st.q.tally
            && r.to.q.seen == (if r.accepted then st.q.seen + {key} else st.q.seen)
            && (r.accepted && !allowKnown ==> key !in st.q.seen)
            && (r.handed <==> r.accepted && st.chain.Some?)
  {}

  lemma KeepCandidate(qc: QueueConfig, w: World, step: Step)
    requires Inv(qc, w) && (step.AddCached? || step.AddDiscovered?)
    ensures Inv(qc, Apply(qc, w, step))
  {
    var st, w' := Before(w, step.total), Apply(qc, w, step);
    CandidateKeeps(qc, st, step.peer, false, step.clock);
    CandidateEffect(qc, st, step.peer, false, step.clock);
    HandedOnce(qc, w.q, w.handed, w'.q, w'.handed, NodeKey(step.peer.node));
  }

  /** A node seen for the first time was never handed over. */
  lemma HandedOnce(qc: QueueConfig, q: Producer, handed: multiset<string>, q': Producer, handed': multiset<string>,
                   key: string)
    requires HandedOk(qc, q, handed) && q'.disconnects == q.disconnects
    requires || (q.seen <= q'.seen && handed' == handed)
             || (key !in q.seen && q'.seen == q.seen + {key} && handed' == handed + multiset{key})
    ensures HandedOk(qc, q', handed')
  {
    forall x: string
      ensures handed'[x] <= 1 + Disconnects(q', x) <= 1 + qc.maxRequeues && (x !in q'.seen ==> handed'[x] == 0)
    {
      assert handed[x] <= 1 + Disconnects(q, x) <= 1 + qc.maxRequeues;
    }
  }

  /** A disconnect raises the node's count, and only then may it be handed over again. */
  lemma ReportEffect(qc: QueueConfig, st: Standing, peer: Peer, reason: Reason, wasConnected: bool, clock: Clock,
                     x: string)
    ensures var key, r := NodeKey(peer.node), Report(qc, st, peer, reason, wasConnected, clock);
            && r.to.q.seen == (if r.accepted then st.q.seen + {key} else st.q.seen)
            && r.to.q.cached == st.q.cached && r.to.q.discovered == st.q.discovered
            && Disconnects(st.q, x) <= Disconnects(r.to.q, x)
            && (Disconnects(st.q, x) <= qc.maxRequeues ==> Disconnects(r.to.q, x) <= qc.maxRequeues)
            && (r.handed ==> r.accepted && Disconnects(r.to.q, key) == Disconnects(st.q, key) + 1)
  {
    var q0 := st.q.(tally := Tallied(st.q.tally, reason, wasConnected));
    var (q1, retry) := Judge(qc, q0, NodeKey(peer.node), reason, wasConnected, clock(st.at));
    if retry { CandidateEffect(qc, st.(q := q1), peer, true, clock); }
  }

  /** The counts after the switch on the reason: one requeue or drop may still follow. */
  lemma JudgeTallies(qc: QueueConfig, q: Producer, key: string, reason: Reason, wasConnected: bool, now: int)
    requires TallyOk(q)
    ensures var (q1, retry) := Judge(qc, q.(tally := Tallied(q.tally, reason, wasConnected)), key, reason, wasConnected,
                                     now);
            TallyOk(if retry then q1.(requeued := q1.requeued + 1) else q1)
  {
    match reason
    case TooManyPeers =>
    case TcpError =>
    case Timeout =>
    case _ =>
  }

  lemma ReportTallies(qc: QueueConfig, st: Standing, peer: Peer, reason: Reason, wasConnected: bool, clock: Clock)
    requires TallyOk(st.q)
    ensures TallyOk(Report(qc, st, peer, reason, wasConnected, clock).to.q)
  {
    JudgeTallies(qc, st.q, NodeKey(peer.node), reason, wasConnected, clock(st.at));
    var q0 := st.q.(tally := Tallied(st.q.tally, reason, wasConnected));
    var (q1, retry) := Judge(qc, q0, NodeKey(peer.node), reason, wasConnected, clock(st.at));
    if retry { CandidateEffect(qc, st.(q := q1), peer, true, clock); }
  }

  lemma ReportKeeps(qc: QueueConfig, st: Standing, peer: Peer, reason: Reason, wasConnected: bool, clock: Clock)
    requires ChainOk(qc, st.q, st.chain)
    ensures var r := Report(qc, st, peer, reason, wasConnected, clock); ChainOk(qc, r.to.q, r.to.chain)
  {
    var q0 := st.q.(tally := Tallied(st.q.tally, reason, wasConnected));
    var (q1, retry) := Judge(qc, q0, NodeKey(peer.node), reason, wasConnected, clock(st.at));
    assert q1.seen == st.q.seen;
    CandidateKeeps(qc, st.(q := q1), peer, true, clock);
  }

  lemma KeepFeedback(qc: QueueConfig, w: World, step: Step)
    requires Inv(qc, w) && step.Feedback?
    ensures Inv(qc, Apply(qc, w, step))
  {
    var st, w' := Before(w, step.total), Apply(qc, w, step);
    ReportKeeps(qc, st, step.peer, step.reason, step.wasConnected, step.clock);
    ReportTallies(qc, st, step.peer, step.reason, step.wasConnected, step.clock);
    ReportEffect(qc, st, step.peer, step.reason, step.wasConnected, step.clock, "");
    if NodeKey(step.peer.node) in w.q.seen { assert w.q.seen + {NodeKey(step.peer.node)} == w.q.seen; }
    forall x: string
      ensures w'.handed[x] <= 1 + Disconnects(w'.q, x) <= 1 + qc.maxRequeues && (x !in w'.q.seen ==> w'.handed[x] == 0)
    {
      ReportEffect(qc, st, step.peer, step.reason, step.wasConnected, step.clock, x);
      assert w.handed[x] <= 1 + Disconnects(w.q, x) <= 1 + qc.maxRequeues;
    }
  }

  lemma KeepStep(qc: QueueConfig, w: World, step: Step)
    requires Inv(qc, w) && Enabled(w, step)
    ensures Inv(qc, Apply(qc, w, step))
  {
    if step.AddCached? || step.AddDiscovered? { KeepCandidate(qc, w, step); }
    else if step.Feedback? { KeepFeedback(qc, w, step); }
    else if step.DoRelease? {
      var c := w.chain.value;
      ReleaseFlow(c.cfg, c.s, step.total, step.k, step.clock, 0);
      FlowSeen(w.q, c.s, w.q, Release(c.cfg, c.s, step.total, step.k, step.clock, 0).s, {});
    }
  }

  lemma {:induction false} RunKeepsInv(qc: QueueConfig, trace: seq<World>, steps: seq<Step>)
    requires Run(qc, trace, steps)
    ensures Inv(qc, trace[|steps|])
    decreases |steps|
  {
    if |steps| > 0 {
      var k := |steps| - 1;
      assert Run(qc, trace[..|steps|], steps[..k]);
      RunKeepsInv(qc, trace[..|steps|], steps[..k]);
      KeepStep(qc, trace[k], steps[k]);
    }
  }

  /** In every run the scheduler's backlog stays within the configured bound. */
  lemma BacklogBounded(qc: QueueConfig, trace: seq<World>, steps: seq<Step>)
    requires Run(qc, trace, steps) && trace[|steps|].chain.Some?
    ensures |trace[|steps|].chain.value.s.queue| <= qc.maxPending
  {
    RunKeepsInv(qc, trace, steps);
  }

  /** In every run a node is handed to the scheduler at most once, plus once for each allowed requeue. */
  lemma HandedOverBounded(qc: QueueConfig, trace: seq<World>, steps: seq<Step>, node: ByteSeq)
    requires Run(qc, trace, steps)
    ensures trace[|steps|].handed[NodeKey(node)] <= 1 + qc.maxRequeues
  {
    RunKeepsInv(qc, trace, steps);
  }

  /**
   In every run each feedback is counted by connection and reason, and every back-off, requeue and drop is one of them.
   */
  lemma FeedbackAccountedFor(qc: QueueConfig, trace: seq<World>, steps: seq<Step>)
    requires Run(qc, trace, steps)
    ensures TallyOk(trace[|steps|].q)
  {
    RunKeepsInv(qc, trace, steps);
  }

  /** The feedback of a run is about peers the scheduler dialed. */
  ghost predicate FromDials(trace: seq<World>, steps: seq<Step>) {
    forall j :: 0 <= j < |steps| && j < |trace| && steps[j].Feedback? ==> Dialed(trace[j].chain, steps[j].peer)
  }

  ghost predicate Dialed(chain: Option<Chain>, peer: Peer) {
    chain.Some? && exists k :: 0 <= k < |chain.value.s.dialed| && chain.value.s.dialed[k].peer == peer
  }

  lemma {:induction false} DialFeedbackIsKnown(qc: QueueConfig, trace: seq<World>, steps: seq<Step>)
    requires Run(qc, trace, steps) && FromDials(trace, steps)
    ensures trace[|steps|].strangers == 0
    decreases |steps|
  {
    if |steps| > 0 {
      var j := |steps| - 1;
      assert Run(qc, trace[..|steps|], steps[..j]);
      DialFeedbackIsKnown(qc, trace[..|steps|], steps[..j]);
      RunKeepsInv(qc, trace[..|steps|], steps[..j]);
      if steps[j].Feedback? {
        assert Dialed(trace[j].chain, steps[j].peer);
        var s := trace[j].chain.value.s;
        var k :| 0 <= k < |s.dialed| && s.dialed[k].peer == steps[j].peer;
        assert s.dialed[k] in s.dialed;
      }
    }
  }

  /**
   In every run with the scheduler's own feedback, cached and discovered counts together are the number of nodes seen.
   */
  lemma CountsMatchSeen(qc: QueueConfig, trace: seq<World>, steps: seq<Step>)
    requires Run(qc, trace, steps) && FromDials(trace, steps)
    ensures trace[|steps|].q.cached + trace[|steps|].q.discovered == |trace[|steps|].q.seen|
  {
    RunKeepsInv(qc, trace, steps);
    DialFeedbackIsKnown(qc, trace, steps);
  }

  //
  // What preloading does
  //

  /** How many candidates were taken from the cache or dropped. */
  function Offered(q: Producer): nat { q.cached + q.duplicateDrops + q.capacityDrops + q.backoffDrops }

  lemma CachedEffect(qc: QueueConfig, st: Standing, peer: Peer, clock: Clock)
    requires ChainOk(qc, st.q, st.chain)
    ensures var to := Cached(qc, st, peer, clock).to;
            && ChainOk(qc, to.q, to.chain) && Offered(to.q) == Offered(st.q) + 1
            && st.q.seen <= to.q.seen && to.q.cached - st.q.cached == |to.q.seen| - |st.q.seen|
            && to.q.discovered == st.q.discovered
  {
    CandidateKeeps(qc, st, peer, false, clock);
    CandidateEffect(qc, st, peer, false, clock);
  }

  /** Each of the peers is taken or dropped, those taken are the ones newly seen, and the backlog bound holds. */
  lemma {:induction false} PreloadEffect(qc: QueueConfig, st: Standing, peers: seq<Peer>, n: nat, clock: Clock)
    requires ChainOk(qc, st.q, st.chain) && n <= |peers|
    ensures var to := Preload(qc, st, peers, n, clock);
            && ChainOk(qc, to.q, to.chain) && Offered(to.q) == Offered(st.q) + n
            && st.q.seen <= to.q.seen && to.q.cached - st.q.cached == |to.q.seen| - |st.q.seen|
            && to.q.discovered == st.q.discovered
  {
    if n > 0 {
      PreloadEffect(qc, st, peers, n - 1, clock);
      CachedEffect(qc, Preload(qc, st, peers, n - 1, clock), peers[n - 1], clock);
    }
  }

  //
  // The queue object
  //

  class EthPeerQueue {
    const scheduler: DialScheduler?
    const clock: SteadyClock
    const config: QueueConfig
    var seenNodeIds: set<string>
    var disconnectCounts: map<string, nat>
    var backoffUntil: map<string, int>
    var cachedCount: nat
    var discoveredCount: nat
    var requeuedCount: nat
    var duplicateDrops: nat
    var capacityDrops: nat
    var flakyDrops: nat
    var backoffs: nat
    var backoffDrops: nat
    var tally: Tally

    constructor (scheduler: DialScheduler?, clock: SteadyClock, config: QueueConfig)
      ensures this.scheduler == scheduler && this.clock == clock && this.config == config && Now() == EMPTY
    {
      this.scheduler, this.clock, this.config := scheduler, clock, config;
      seenNodeIds, disconnectCounts, backoffUntil := {}, map[], map[];
      cachedCount, discoveredCount, requeuedCount, duplicateDrops, capacityDrops := 0, 0, 0, 0, 0;
      flakyDrops, backoffs, backoffDrops, tally := 0, 0, 0, Tally(0, 0, 0, 0, 0, 0, 0, 0);
    }

    /** There is one steady clock. */
    ghost predicate OneClock() { scheduler != null ==> scheduler.history.clock == clock }

    ghost function Dialing(): set<object?> {
      if scheduler == null then {} else {scheduler, scheduler.pool, scheduler.history}
    }

    function Now(): Producer
      reads this
    {
      Producer(seenNodeIds, disconnectCounts, backoffUntil, cachedCount, discoveredCount, requeuedCount,
               duplicateDrops, capacityDrops, flakyDrops, backoffs, backoffDrops, tally)
    }

    ghost function All(): Standing
      reads this, clock, Dialing()
    {
      Standing(Now(),
               if scheduler == null then None
               else Some(Chain(scheduler.Cfg(), scheduler.Now(), scheduler.pool.activeTotal)),
               clock.at)
    }

    /** The node is entered as seen first and taken out again when there is no room. */
    method AdmitKey(key: string, allowKnown: bool, room: bool, now: int) returns (ok: bool)
      modifies this
      ensures (Now(), ok) == Admit(old(Now()), key, allowKnown, room, now)
    {
      if key in backoffUntil {
        if now < backoffUntil[key] {
          backoffDrops := backoffDrops + 1;
          return false;
        }
      }
      backoffUntil := backoffUntil - {key};
      ghost var before := seenNodeIds;
      var inserted := key !in seenNodeIds;
      seenNodeIds := seenNodeIds + {key};
      if !inserted && !allowKnown {
        assert seenNodeIds == before;
        duplicateDrops := duplicateDrops + 1;
        return false;
      }
      if !room {
        if inserted { seenNodeIds := seenNodeIds - {key}; }
        assert seenNodeIds == before;
        capacityDrops := capacityDrops + 1;
        return false;
      }
      ok := true;
    }

    /** Without a scheduler there is always room. */
    method RoomLeft() returns (room: bool)
      ensures room == HasRoom(config, All().chain)
    {
      if scheduler == null { return true; }
      var pool := scheduler.pool;
      var canStart := scheduler.active < pool.maxPerChain && pool.activeTotal < pool.maxTotal;
      room := canStart || |scheduler.queue| < config.maxPending;
    }

    method HandOn(peer: Peer)
      requires OneClock()
      modifies clock, Dialing()
      ensures All() == old(HandOver(Now(), All().chain, peer, clock.readings, clock.at)).to
    {
      if scheduler != null { scheduler.Enqueue(peer); }
    }

    method AdmitPeer(peer: Peer, allowKnown: bool) returns (ok: bool)
      modifies this, clock
      ensures (Now(), ok) ==
              Admit(old(Now()), NodeKey(peer.node), allowKnown, HasRoom(config, old(All()).chain),
                    clock.readings(old(clock.at)))
      ensures All() == Standing(Now(), old(All()).chain, old(clock.at) + 1)
    {
      var now := clock.Now();
      var room := RoomLeft();
      ok := AdmitKey(NodeKey(peer.node), allowKnown, room, now);
    }

    method EnqueueCandidate(peer: Peer, allowKnown: bool) returns (ok: bool)
      requires OneClock()
      modifies this, clock, Dialing()
      ensures var r := old(Candidate(config, All(), peer, allowKnown, clock.readings));
              ok == r.accepted && All() == r.to
    {
      ok := AdmitPeer(peer, allowKnown);
      if ok { HandOn(peer); }
    }

    method EnqueueDiscoveredPeer(peer: Peer) returns (ok: bool)
      requires OneClock()
      modifies this, clock, Dialing()
      ensures var r := old(Discovered(config, All(), peer, clock.readings)); ok == r.accepted && All() == r.to
    {
      ok := EnqueueCandidate(peer, false);
      if ok { discoveredCount := discoveredCount + 1; }
    }

    method OfferCached(peer: Peer)
      requires OneClock()
      modifies this, clock, Dialing()
      ensures All() == old(Cached(config, All(), peer, clock.readings)).to
    {
      var ok := EnqueueCandidate(peer, false);
      if ok { cachedCount := cachedCount + 1; }
    }

    /** The peers are offered one by one, rotated and spread over the dial slots. */
    method PreloadCachedPeers(peers: seq<Peer>)
      requires OneClock()
      modifies this, clock, Dialing()
      ensures var order := CachedPeers.Spread(CachedPeers.Rotated(peers, config.startOffset),
                                              if scheduler == null then 1 else scheduler.pool.maxPerChain);
              && multiset(order) == multiset(peers)
              && All() == Preload(config, old(All()), order, |order|, clock.readings)
    {
      var rotated := CachedPeers.Rotate(peers, config.startOffset);
      var slots := 1;
      if scheduler != null { slots := scheduler.pool.maxPerChain; }
      var order := CachedPeers.SpreadForDialSlots(rotated, slots);
      CachedPeers.PreloadOrderIsPermutation(peers, config.startOffset, slots);
      for i := 0 to |order|
        invariant All() == Preload(config, old(All()), order, i, clock.readings)
      {
        OfferCached(order[i]);
      }
    }

    method CountFeedback(reason: Reason, wasConnected: bool)
      modifies this
      ensures Now() == old(Now()).(tally := Tallied(old(tally), reason, wasConnected))
    {
      tally := tally.(feedbacks := tally.feedbacks + 1);
      if wasConnected {
        tally := tally.(after := tally.after + 1);
      } else {
        tally := tally.(before := tally.before + 1);
      }
      match reason {
        case TooManyPeers =>
          if wasConnected {
            tally := tally.(tooManyAfter := tally.tooManyAfter + 1);
          } else {
            tally := tally.(tooManyBefore := tally.tooManyBefore + 1);
          }
        case TcpError => tally := tally.(tcp := tally.tcp + 1);
        case Timeout => tally := tally.(timeouts := tally.timeouts + 1);
        case SubprotocolError => tally := tally.(subprotocol := tally.subprotocol + 1);
        case OtherReason =>
      }
    }

    method JudgeDisconnect(key: string, reason: Reason, wasConnected: bool, now: int) returns (retry: bool)
      modifies this
      ensures (Now(), retry) == Judge(config, old(Now()), key, reason, wasConnected, now)
    {
      if reason == TooManyPeers {
        backoffUntil := backoffUntil[key := now + config.tooManyPeersBackoff];
        backoffs := backoffs + 1;
        return false;
      }
      if !Requeueable(reason, wasConnected) { return false; }
      var count := if key in disconnectCounts then disconnectCounts[key] else 0;
      if count >= config.maxRequeues {
        disconnectCounts := disconnectCounts[key := count];
        flakyDrops := flakyDrops + 1;
        return false;
      }
      disconnectCounts := disconnectCounts[key := count + 1];
      retry := true;
    }

    /** The clock is read only for the end of a back-off. */
    method WantsRetry(peer: Peer, reason: Reason, wasConnected: bool) returns (retry: bool)
      modifies this, clock
      ensures (Now(), retry) ==
              Judge(config, old(Now()).(tally := Tallied(old(tally), reason, wasConnected)), NodeKey(peer.node), reason,
                    wasConnected, clock.readings(old(clock.at)))
      ensures All() ==
              Standing(Now(), old(All()).chain, if reason == TooManyPeers then old(clock.at) + 1 else old(clock.at))
      ensures retry ==> reason != TooManyPeers
    {
      CountFeedback(reason, wasConnected);
      var now := 0;
      if reason == TooManyPeers { now := clock.Now(); }
      retry := JudgeDisconnect(NodeKey(peer.node), reason, wasConnected, now);
    }

    method ReportPeerDisconnected(peer: Peer, reason: Reason, wasConnected: bool) returns (ok: bool)
      requires OneClock()
      modifies this, clock, Dialing()
      ensures var r := old(Report(config, All(), peer, reason, wasConnected, clock.readings));
              ok == r.accepted && All() == r.to
    {
      var retry := WantsRetry(peer, reason, wasConnected);
      if !retry { return false; }
      ok := EnqueueCandidate(peer, true);
      if ok { requeuedCount := requeuedCount + 1; }
    }
  }
}
