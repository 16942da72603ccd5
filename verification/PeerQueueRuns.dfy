/**
 What the producer in front of a dial scheduler does with each candidate and each disconnect, told from the earlier
 steps of the run alone: the back-off after a TooManyPeers disconnect, duplicates, room, and the retries.
 */
module PeerQueueRuns {
  import opened Bytes
  import opened Scheduler
  import opened PeerQueue

  //
  // The story of a node so far
  //

  predicate HasPeer(s: Step) { s.AddCached? || s.AddDiscovered? || s.Feedback? }

  predicate About(s: Step, node: ByteSeq) { HasPeer(s) && s.peer.node == node }

  /** The first clock reading of a step about a peer, the only one the producer itself takes. */
  function Reading(s: Step): int
    requires HasPeer(s)
  { s.clock(0) }

  /** The clock never goes back from one step to a later one. */
  ghost predicate InOrder(steps: seq<Step>) {
    forall j, k :: 0 <= j < k < |steps| && HasPeer(steps[j]) && HasPeer(steps[k]) ==>
      Reading(steps[j]) <= Reading(steps[k])
  }

  ghost predicate NotBefore(steps: seq<Step>, n: nat, now: int)
    requires n <= |steps|
  { forall j :: 0 <= j < n && HasPeer(steps[j]) ==> Reading(steps[j]) <= now }

  /** The node has too many peers already. */
  predicate Refuses(s: Step, node: ByteSeq) { s.Feedback? && s.reason == TooManyPeers && s.peer.node == node }

  /** The reading of the node's last TooManyPeers feedback. */
  function LastRefusal(steps: seq<Step>, n: nat, node: ByteSeq): Option<int>
    requires n <= |steps|
  {
    if n == 0 then None
    else if Refuses(steps[n - 1], node) then Some(Reading(steps[n - 1]))
    else LastRefusal(steps, n - 1, node)
  }

  /** At `now` the last refusal is less than the back-off old. */
  predicate BackingOff(qc: QueueConfig, steps: seq<Step>, n: nat, node: ByteSeq, now: int)
    requires n <= |steps|
  {
    var last := LastRefusal(steps, n, node);
    last.Some? && now < last.value + qc.tooManyPeersBackoff
  }

  /** The connection was lost after it had been made, by a TCP error or a timeout. */
  predicate Lost(s: Step, node: ByteSeq) {
    s.Feedback? && s.peer.node == node && s.wasConnected && (s.reason == TcpError || s.reason == Timeout)
  }

  function Losses(steps: seq<Step>, n: nat, node: ByteSeq): nat
    requires n <= |steps|
  { if n == 0 then 0 else Losses(steps, n - 1, node) + if Lost(steps[n - 1], node) then 1 else 0 }

  /** How many candidates the producer has accepted. */
  function Accepted(q: Producer): nat { q.cached + q.discovered + q.requeued }

  predicate Took(w: World, w': World) { Accepted(w'.q) == Accepted(w.q) + 1 }

  predicate TakenBefore(trace: seq<World>, steps: seq<Step>, n: nat, node: ByteSeq)
    requires n <= |steps| < |trace|
  { exists j :: 0 <= j < n && About(steps[j], node) && Took(trace[j], trace[j + 1]) }

  predicate Room(qc: QueueConfig, chain: Option<Chain>, total: int) {
    || chain.None?
    || (chain.value.s.active < chain.value.cfg.maxPerChain && total < chain.value.cfg.maxTotal)
    || |chain.value.s.queue| < qc.maxPending
  }

  //
  // One step
  //

  predicate Held(q: Producer, node: ByteSeq, now: int) {
    NodeKey(node) in q.backoff && now < q.backoff[NodeKey(node)]
  }

  /** What the producer holds about one node. */
  datatype Record = Record(until: Option<int>, disconnects: nat, seen: bool)

  function RecordOf(q: Producer, key: string): Record {
    Record(if key in q.backoff then Some(q.backoff[key]) else None, Disconnects(q, key), key in q.seen)
  }

  /** Keys other than the candidate's are left alone. */
  lemma CandidateElsewhere(qc: QueueConfig, st: Standing, peer: Peer, allowKnown: bool, clock: Clock, key: string)
    requires key != NodeKey(peer.node)
    ensures RecordOf(Candidate(qc, st, peer, allowKnown, clock).to.q, key) == RecordOf(st.q, key)
  {}

  lemma ReportElsewhere(qc: QueueConfig, st: Standing, peer: Peer, reason: Reason, wasConnected: bool, clock: Clock,
                        key: string)
    requires key != NodeKey(peer.node)
    ensures RecordOf(Report(qc, st, peer, reason, wasConnected, clock).to.q, key) == RecordOf(st.q, key)
  {
    var q0 := st.q.(tally := Tallied(st.q.tally, reason, wasConnected));
    var (q1, _) := Judge(qc, q0, NodeKey(peer.node), reason, wasConnected, clock(st.at));
    CandidateElsewhere(qc, st.(q := q1), peer, true, clock, key);
  }

  lemma StepElsewhere(qc: QueueConfig, w: World, s: Step, node: ByteSeq)
    requires Enabled(w, s) && !About(s, node)
    ensures RecordOf(Apply(qc, w, s).q, NodeKey(node)) == RecordOf(w.q, NodeKey(node))
  {
    if HasPeer(s) {
      var key := NodeKey(node);
      if NodeKey(s.peer.node) == key { NodeKeyInjective(s.peer.node, node); }
      if s.Feedback? {
        ReportElsewhere(qc, Before(w, s.total), s.peer, s.reason, s.wasConnected, s.clock, key);
      } else {
        CandidateElsewhere(qc, Before(w, s.total), s.peer, false, s.clock, key);
      }
    }
  }

  /** A candidate ends a back-off that is over, and is seen once accepted. */
  predicate OfferKeeps(r: Record, r': Record, now: int, taken: bool) {
    && (r'.until == r.until || (r'.until.None? && r.until.Some? && r.until.value <= now))
    && r'.disconnects == r.disconnects && r'.seen == (r.seen || taken)
  }

  lemma CandidateOwn(qc: QueueConfig, st: Standing, peer: Peer, allowKnown: bool, clock: Clock)
    ensures var r, key := Candidate(qc, st, peer, allowKnown, clock), NodeKey(peer.node);
            && OfferKeeps(RecordOf(st.q, key), RecordOf(r.to.q, key), clock(st.at), r.accepted)
            && Accepted(r.to.q) == Accepted(st.q)
  {}

  function Capped(n: nat, cap: nat): nat { if n < cap then n else cap }

  lemma ReportOwn(qc: QueueConfig, st: Standing, peer: Peer, reason: Reason, wasConnected: bool, clock: Clock)
    ensures var r, key := Report(qc, st, peer, reason, wasConnected, clock), NodeKey(peer.node);
            var a, b := RecordOf(st.q, key), RecordOf(r.to.q, key);
            && Accepted(r.to.q) == Accepted(st.q) + (if r.accepted then 1 else 0)
            && b.disconnects == (if Requeueable(reason, wasConnected) && a.disconnects < qc.maxRequeues
                                 then a.disconnects + 1 else a.disconnects)
            && OfferKeeps(
                 if reason == TooManyPeers then a.(until := Some(clock(st.at) + qc.tooManyPeersBackoff)) else a,
                 b.(disconnects := a.disconnects), clock(st.at), r.accepted)
            && (reason == TooManyPeers ==> b.until.Some?)
  {
    var key, q0 := NodeKey(peer.node), st.q.(tally := Tallied(st.q.tally, reason, wasConnected));
    var (q1, retry) := Judge(qc, q0, key, reason, wasConnected, clock(st.at));
    if retry { CandidateOwn(qc, st.(q := q1), peer, true, clock); }
  }

  /** A back-off starts with a refusal, ends when a later candidate finds it over, and stays otherwise. */
  predicate BacksOff(qc: QueueConfig, s: Step, node: ByteSeq, a: Record, b: Record) {
    if Refuses(s, node) then b.until == Some(Reading(s) + qc.tooManyPeersBackoff)
    else || b.until == a.until
         || (About(s, node) && a.until.Some? && b.until.None? && a.until.value <= Reading(s))
  }

  /** What one step does to what is held about a node. */
  lemma RecordStep(qc: QueueConfig, w: World, s: Step, node: ByteSeq)
    requires Enabled(w, s)
    ensures var w', key := Apply(qc, w, s), NodeKey(node);
            var a, b := RecordOf(w.q, key), RecordOf(w'.q, key);
            && BacksOff(qc, s, node, a, b)
            && b.disconnects == (if Lost(s, node) && a.disconnects < qc.maxRequeues then a.disconnects + 1
                                 else a.disconnects)
            && b.seen == (a.seen || (About(s, node) && Took(w, w')))
  {
    if !About(s, node) {
      StepElsewhere(qc, w, s, node);
    } else if s.Feedback? {
      ReportOwn(qc, Before(w, s.total), s.peer, s.reason, s.wasConnected, s.clock);
    } else {
      CandidateOwn(qc, Before(w, s.total), s.peer, false, s.clock);
    }
  }

  //
  // The state is what the earlier steps say
  //

  lemma {:induction false} HeldTold(qc: QueueConfig, trace: seq<World>, steps: seq<Step>, n: nat, node: ByteSeq,
                                    now: int)
    requires Run(qc, trace, steps) && InOrder(steps) && n <= |steps| && NotBefore(steps, n, now)
    ensures Held(trace[n].q, node, now) <==> BackingOff(qc, steps, n, node, now)
  {
    if n > 0 {
      var m := n - 1;
      assert Enabled(trace[m], steps[m]) && trace[m + 1] == Apply(qc, trace[m], steps[m]);
      HeldTold(qc, trace, steps, m, node, now);
      RecordStep(qc, trace[m], steps[m], node);
      if About(steps[m], node) { HeldTold(qc, trace, steps, m, node, Reading(steps[m])); }
    }
  }

  lemma {:induction false} DisconnectsTold(qc: QueueConfig, trace: seq<World>, steps: seq<Step>, n: nat, node: ByteSeq)
    requires Run(qc, trace, steps) && n <= |steps|
    ensures Disconnects(trace[n].q, NodeKey(node)) == Capped(Losses(steps, n, node), qc.maxRequeues)
  {
    if n > 0 {
      var m := n - 1;
      assert Enabled(trace[m], steps[m]) && trace[m + 1] == Apply(qc, trace[m], steps[m]);
      DisconnectsTold(qc, trace, steps, m, node);
      RecordStep(qc, trace[m], steps[m], node);
    }
  }

  lemma TakenNext(trace: seq<World>, steps: seq<Step>, n: nat, node: ByteSeq)
    requires n < |steps| < |trace|
    ensures TakenBefore(trace, steps, n + 1, node) <==>
            TakenBefore(trace, steps, n, node) || (About(steps[n], node) && Took(trace[n], trace[n + 1]))
  {}

  lemma {:induction false} SeenTold(qc: QueueConfig, trace: seq<World>, steps: seq<Step>, n: nat, node: ByteSeq)
    requires Run(qc, trace, steps) && n <= |steps|
    ensures NodeKey(node) in trace[n].q.seen <==> TakenBefore(trace, steps, n, node)
  {
    if n > 0 {
      var m := n - 1;
      assert Enabled(trace[m], steps[m]) && trace[m + 1] == Apply(qc, trace[m], steps[m]);
      SeenTold(qc, trace, steps, m, node);
      RecordStep(qc, trace[m], steps[m], node);
      TakenNext(trace, steps, m, node);
    }
  }

  //
  // What each step does
  //

  /** What a step adds to each count. */
  datatype Added = Added(cached: int, discovered: int, requeued: int, duplicate: int, capacity: int, flaky: int,
                         backoffs: int, backoffDrops: int)

  function AddedBy(q: Producer, q': Producer): Added {
    Added(q'.cached - q.cached, q'.discovered - q.discovered, q'.requeued - q.requeued,
          q'.duplicateDrops - q.duplicateDrops, q'.capacityDrops - q.capacityDrops, q'.flakyDrops - q.flakyDrops,
          q'.backoffs - q.backoffs, q'.backoffDrops - q.backoffDrops)
  }

  const NOTHING: Added := Added(0, 0, 0, 0, 0, 0, 0, 0)

  /** A candidate is dropped in its back-off, then as a duplicate, then for want of room, and is accepted otherwise. */
  function Offer(backingOff: bool, known: bool, room: bool, accepted: Added): Added {
    if backingOff then NOTHING.(backoffDrops := 1)
    else if known then NOTHING.(duplicate := 1)
    else if !room then NOTHING.(capacity := 1)
    else accepted
  }

  /** Feedback backs the node off, or offers it again while it was lost less often than it may be. */
  function Judged(qc: QueueConfig, s: Step, losses: nat, backingOff: bool, room: bool): Added
    requires s.Feedback?
  {
    if s.reason == TooManyPeers then NOTHING.(backoffs := 1)
    else if !Lost(s, s.peer.node) then NOTHING
    else if losses >= qc.maxRequeues then NOTHING.(flaky := 1)
    else Offer(backingOff, false, room, NOTHING.(requeued := 1))
  }

  predicate Accepts(a: Added) { a.cached + a.discovered + a.requeued > 0 }

  /** An accepted candidate is handed to the scheduler, if there is one. */
  function HandedOn(handed: multiset<string>, chain: Option<Chain>, a: Added, key: string): multiset<string> {
    if chain.Some? && Accepts(a) then handed + multiset{key} else handed
  }

  /** Everything step `n` does, from the steps before it. */
  function Expected(qc: QueueConfig, trace: seq<World>, steps: seq<Step>, n: nat): Added
    requires n < |steps| < |trace|
  {
    var s := steps[n];
    if !HasPeer(s) then NOTHING
    else
      var backingOff := BackingOff(qc, steps, n, s.peer.node, Reading(s));
      var room, known := Room(qc, trace[n].chain, s.total), TakenBefore(trace, steps, n, s.peer.node);
      if s.AddCached? then Offer(backingOff, known, room, NOTHING.(cached := 1))
      else if s.AddDiscovered? then Offer(backingOff, known, room, NOTHING.(discovered := 1))
      else Judged(qc, s, Losses(steps, n, s.peer.node), backingOff, room)
  }

  lemma OfferStep(qc: QueueConfig, w: World, s: Step)
    requires s.AddCached? || s.AddDiscovered?
    ensures var w', key := Apply(qc, w, s), NodeKey(s.peer.node);
            var a := Offer(Held(w.q, s.peer.node, Reading(s)), key in w.q.seen, Room(qc, w.chain, s.total),
                           if s.AddCached? then NOTHING.(cached := 1) else NOTHING.(discovered := 1));
            AddedBy(w.q, w'.q) == a && w'.handed == HandedOn(w.handed, w.chain, a, key)
  {}

  lemma JudgedStep(qc: QueueConfig, w: World, s: Step, losses: nat)
    requires s.Feedback? && Disconnects(w.q, NodeKey(s.peer.node)) == Capped(losses, qc.maxRequeues)
    ensures var w', key := Apply(qc, w, s), NodeKey(s.peer.node);
            var a := Judged(qc, s, losses, Held(w.q, s.peer.node, Reading(s)), Room(qc, w.chain, s.total));
            AddedBy(w.q, w'.q) == a && w'.handed == HandedOn(w.handed, w.chain, a, key)
  {}

  /**
   In every run whose clock never goes back, each step does exactly what the earlier steps call for: a candidate is
   accepted if and only if its last TooManyPeers feedback is at least the back-off old, its node was not accepted
   before, and there is room; a lost peer is offered again if and only if it was lost less often than it may be; and
   exactly the accepted ones are handed to the scheduler.
   */
  lemma StepsTold(qc: QueueConfig, trace: seq<World>, steps: seq<Step>, n: nat)
    requires Run(qc, trace, steps) && InOrder(steps) && n < |steps|
    ensures AddedBy(trace[n].q, trace[n + 1].q) == Expected(qc, trace, steps, n)
    ensures trace[n + 1].handed == if !HasPeer(steps[n]) then trace[n].handed
                                   else HandedOn(trace[n].handed, trace[n].chain, Expected(qc, trace, steps, n),
                                                 NodeKey(steps[n].peer.node))
  {
    var s := steps[n];
    assert Enabled(trace[n], s) && trace[n + 1] == Apply(qc, trace[n], s);
    if HasPeer(s) {
      HeldTold(qc, trace, steps, n, s.peer.node, Reading(s));
      SeenTold(qc, trace, steps, n, s.peer.node);
      DisconnectsTold(qc, trace, steps, n, s.peer.node);
      if s.Feedback? { JudgedStep(qc, trace[n], s, Losses(steps, n, s.peer.node)); }
      else { OfferStep(qc, trace[n], s); }
    }
  }

  lemma {:induction false} RefusalKept(steps: seq<Step>, j: nat, n: nat, node: ByteSeq)
    requires InOrder(steps) && j < n <= |steps| && Refuses(steps[j], node)
    ensures var last := LastRefusal(steps, n, node); last.Some? && Reading(steps[j]) <= last.value
  {
    if j < n - 1 { RefusalKept(steps, j, n - 1, node); }
  }

  /** After a TooManyPeers disconnect, no step within the back-off hands the node over or accepts it. */
  lemma BackoffRespected(qc: QueueConfig, trace: seq<World>, steps: seq<Step>, node: ByteSeq, j: nat, k: nat)
    requires Run(qc, trace, steps) && InOrder(steps) && j < k < |steps| && Refuses(steps[j], node)
    requires About(steps[k], node) ==> Reading(steps[k]) < Reading(steps[j]) + qc.tooManyPeersBackoff
    ensures trace[k + 1].handed[NodeKey(node)] == trace[k].handed[NodeKey(node)]
    ensures About(steps[k], node) ==> !Took(trace[k], trace[k + 1])
  {
    StepsTold(qc, trace, steps, k);
    if About(steps[k], node) {
      RefusalKept(steps, j, k, node);
    } else if HasPeer(steps[k]) && NodeKey(steps[k].peer.node) == NodeKey(node) {
      NodeKeyInjective(steps[k].peer.node, node);
    }
  }

  //
  // The tally of the feedback
  //

  /** How many of the first `n` steps are feedback with one of the reasons, by whether the peer had connected. */
  function Feedbacks(steps: seq<Step>, n: nat, reasons: set<Reason>, connected: set<bool>): nat
    requires n <= |steps|
  {
    if n == 0 then 0
    else
      var s := steps[n - 1];
      Feedbacks(steps, n - 1, reasons, connected)
      + if s.Feedback? && s.reason in reasons && s.wasConnected in connected then 1 else 0
  }

  const ANY: set<Reason> := {TooManyPeers, TcpError, Timeout, SubprotocolError, OtherReason}

  const EITHER: set<bool> := {true, false}

  function CountedFrom(steps: seq<Step>, n: nat): Tally
    requires n <= |steps|
  {
    Tally(Feedbacks(steps, n, ANY, EITHER), Feedbacks(steps, n, ANY, {false}), Feedbacks(steps, n, ANY, {true}),
          Feedbacks(steps, n, {TooManyPeers}, {false}), Feedbacks(steps, n, {TooManyPeers}, {true}),
          Feedbacks(steps, n, {TcpError}, EITHER), Feedbacks(steps, n, {Timeout}, EITHER),
          Feedbacks(steps, n, {SubprotocolError}, EITHER))
  }

  lemma TallyStep(qc: QueueConfig, w: World, s: Step)
    requires Enabled(w, s)
    ensures Apply(qc, w, s).q.tally == if s.Feedback? then Tallied(w.q.tally, s.reason, s.wasConnected) else w.q.tally
  {
    if s.Feedback? {
      var st, q0 := Before(w, s.total), w.q.(tally := Tallied(w.q.tally, s.reason, s.wasConnected));
      var (q1, _) := Judge(qc, q0, NodeKey(s.peer.node), s.reason, s.wasConnected, s.clock(0));
      CandidateEffect(qc, st.(q := q1), s.peer, true, s.clock);
    } else if HasPeer(s) {
      CandidateEffect(qc, Before(w, s.total), s.peer, false, s.clock);
    }
  }

  /** In every run each count of the tally is the number of the feedbacks it stands for. */
  lemma {:induction false} TallyTold(qc: QueueConfig, trace: seq<World>, steps: seq<Step>, n: nat)
    requires Run(qc, trace, steps) && n <= |steps|
    ensures trace[n].q.tally == CountedFrom(steps, n)
  {
    if n > 0 {
      var m := n - 1;
      assert Enabled(trace[m], steps[m]) && trace[m + 1] == Apply(qc, trace[m], steps[m]);
      TallyTold(qc, trace, steps, m);
      TallyStep(qc, trace[m], steps[m]);
    }
  }
}
