/**
 What becomes of the peers offered to a dial scheduler, told from the dials made so far: the filter, the cooldown of
 a dialed node, the two caps, and the stop.
 */
module SchedulerOffers {
  import opened Bytes
  import opened Scheduler
  import opened SchedulerPool

  //
  // The history is the record of the dials, and only filtered peers get in
  //

  ghost predicate OnlyPassed(cfg: Config, s: Sched) {
    (forall p <- s.queue :: cfg.filter(p)) && (forall d <- s.dialed :: cfg.filter(d.peer))
  }

  /** Every entry was made by a dial of its node. */
  ghost predicate FromDials(cfg: Config, history: map<ByteSeq, int>, dialed: seq<Dial>) {
    forall x <- history :: exists d <- dialed :: d.peer.node == x && history[x] == d.time + cfg.expiry
  }

  ghost predicate Told(cfg: Config, s: Sched) { OnlyPassed(cfg, s) && FromDials(cfg, s.history, s.dialed) }

  lemma SpawnTold(cfg: Config, s: Sched, peer: Peer, now: int)
    requires Told(cfg, s) && cfg.filter(peer)
    ensures Told(cfg, Spawn(cfg, s, peer, now))
  {
    var s' := Spawn(cfg, s, peer, now);
    assert Dial(peer, now) in s'.dialed;
    forall x | x in s'.history
      ensures exists d <- s'.dialed :: d.peer.node == x && s'.history[x] == d.time + cfg.expiry
    {
      if x != peer.node {
        var d :| d in s.dialed && d.peer.node == x && s.history[x] == d.time + cfg.expiry;
        assert d in s'.dialed;
      }
    }
  }

  lemma EnqueueTold(cfg: Config, s: Sched, total: int, peer: Peer, clock: Clock, at: nat)
    requires Told(cfg, s)
    ensures Told(cfg, Enqueue(cfg, s, total, peer, clock, at).s)
  {
    var s1 := s.(history := Expired(s.history, clock(at)));
    assert Told(cfg, s1);
    if cfg.filter(peer) { SpawnTold(cfg, s1, peer, clock(at + 1 + Reads(s1.history, peer.node))); }
  }

  lemma {:induction false} DrainTold(cfg: Config, s: Sched, total: int, clock: Clock, at: nat)
    requires Told(cfg, s)
    ensures Told(cfg, Drain(cfg, s, total, clock, at).s)
    decreases |s.queue|
  {
    if SlotFree(cfg, s, total) && s.queue != [] {
      var peer, r := s.queue[0], Front(cfg, s, total, clock, at);
      assert peer in s.queue;
      SpawnTold(cfg, s.(queue := s.queue[1..]), peer, clock(at + Reads(s.history, peer.node)));
      DrainTold(cfg, r.s, r.total, clock, r.at);
    }
  }

  lemma ReleaseTold(cfg: Config, s: Sched, total: int, k: nat, clock: Clock, at: nat)
    requires Told(cfg, s)
    ensures Told(cfg, Release(cfg, s, total, k, clock, at).s)
  {
    var s1 := Freed(s, k);
    DrainTold(cfg, s1.(history := Expired(s1.history, clock(at))), total - 1, clock, at + 1);
  }

  lemma StepTold(cfgs: seq<Config>, w: World, s: Step, i: nat)
    requires Enabled(cfgs, w, s) && i < |cfgs| && Told(cfgs[i], w.scheds[i])
    ensures Told(cfgs[i], Apply(cfgs, w, s).scheds[i])
  {
    if s.i == i {
      match s
      case DoEnqueue(_, peer, clock, _) => EnqueueTold(cfgs[i], w.scheds[i], w.total, peer, clock, 0);
      case DoRelease(_, k, clock, _) => ReleaseTold(cfgs[i], w.scheds[i], w.total, k, clock, 0);
      case DoConnect(_, _) =>
      case DoStop(_, _) =>
    }
  }

  lemma {:induction false} RunTold(cfgs: seq<Config>, trace: seq<World>, steps: seq<Step>, i: nat, n: nat)
    requires Run(cfgs, trace, steps) && i < |cfgs| && n <= |steps|
    ensures |trace[n].scheds| == |cfgs| && Told(cfgs[i], trace[n].scheds[i])
  {
    if n > 0 {
      var m := n - 1;
      RunTold(cfgs, trace, steps, i, m);
      assert Enabled(cfgs, trace[m], steps[m]) && trace[m + 1] == Apply(cfgs, trace[m], steps[m]);
      StepTold(cfgs, trace[m], steps[m], i);
    }
  }

  /** In every run, no chain ever queues or dials a peer its filter refuses. */
  lemma FilterRespected(cfgs: seq<Config>, trace: seq<World>, steps: seq<Step>, i: nat, n: nat, peer: Peer)
    requires Run(cfgs, trace, steps) && i < |cfgs| && n <= |steps| && |trace[n].scheds| == |cfgs|
    requires peer in trace[n].scheds[i].queue || exists d <- trace[n].scheds[i].dialed :: d.peer == peer
    ensures cfgs[i].filter(peer)
  {
    RunTold(cfgs, trace, steps, i, n);
  }

  //
  // A stopped chain
  //

  lemma StoppedStep(cfgs: seq<Config>, w: World, s: Step, i: nat)
    requires Enabled(cfgs, w, s) && i < |cfgs| && w.scheds[i].stopping && w.scheds[i].queue == []
    ensures var a, b := w.scheds[i], Apply(cfgs, w, s).scheds[i];
            b.stopping && b.queue == [] && b.dialed == a.dialed
  {}

  /** Once a chain has stopped it queues nothing and never dials again. */
  lemma {:induction false} StoppedForGood(cfgs: seq<Config>, trace: seq<World>, steps: seq<Step>, i: nat, m: nat,
                                          n: nat)
    requires Run(cfgs, trace, steps) && i < |cfgs| && m < n <= |steps| && Stops(steps[m], i)
    ensures |trace[m].scheds| == |trace[n].scheds| == |cfgs|
    ensures var a, b := trace[m].scheds[i], trace[n].scheds[i];
            b.stopping && b.queue == [] && b.dialed == a.dialed
  {
    var k := n - 1;
    assert Enabled(cfgs, trace[k], steps[k]) && trace[k + 1] == Apply(cfgs, trace[k], steps[k]);
    if k > m {
      StoppedForGood(cfgs, trace, steps, i, m, k);
      StoppedStep(cfgs, trace[k], steps[k], i);
    }
  }

  //
  // One offer
  //

  /** Some dial of the node is less than the expiry old. */
  predicate RecentlyDialed(cfg: Config, dialed: seq<Dial>, node: ByteSeq, now: int) {
    exists d <- dialed :: d.peer.node == node && now < d.time + cfg.expiry
  }

  /** For the history of a run, the code's two lookups ask whether the node was recently dialed. */
  lemma HistoryTellsDials(cfg: Config, history: map<ByteSeq, int>, dialed: seq<Dial>, node: ByteSeq, was: int, now: int,
                          later: int)
    requires HistoryOk(cfg, history, dialed, was) && FromDials(cfg, history, dialed) && was <= now <= later
    ensures Contains(Expired(history, now), node, later) <==> RecentlyDialed(cfg, dialed, node, later)
  {
    if RecentlyDialed(cfg, dialed, node, later) {
      var d :| d in dialed && d.peer.node == node && later < d.time + cfg.expiry;
      assert Suppressed(cfg, history, d, was);
    }
  }

  /** The peer is dropped: nothing queued, dialed or taken. */
  predicate Dropped(a: Sched, b: Sched, total: int, total': int) {
    b.queue == a.queue && b.dialed == a.dialed && b.active == a.active && b.open == a.open && total' == total
  }

  /** The peer is the newest dial and holds a slot. */
  predicate DialedNow(a: Sched, b: Sched, total: int, total': int, peer: Peer, from: int, to: int) {
    && b.queue == a.queue && |b.dialed| == |a.dialed| + 1 && b.dialed[..|a.dialed|] == a.dialed
    && b.dialed[|a.dialed|].peer == peer && from <= b.dialed[|a.dialed|].time <= to
    && b.active == a.active + 1 && b.open == a.open + {|a.dialed|} && total' == total + 1
  }

  /** The peer waits at the end of the queue. */
  predicate Queued(a: Sched, b: Sched, total: int, total': int, peer: Peer) {
    b.queue == a.queue + [peer] && b.dialed == a.dialed && b.active == a.active && b.open == a.open && total' == total
  }

  /** A peer offered at `now` to a running chain: dropped when refused or recently dialed, else dialed or queued. */
  predicate Settled(cfg: Config, a: Sched, b: Sched, total: int, total': int, peer: Peer, now: int, end: int) {
    if !cfg.filter(peer) || RecentlyDialed(cfg, a.dialed, peer.node, now) then Dropped(a, b, total, total')
    else if a.active < cfg.maxPerChain && total < cfg.maxTotal then DialedNow(a, b, total, total', peer, now, end)
    else Queued(a, b, total, total', peer)
  }

  lemma EnqueueSettles(cfg: Config, s: Sched, total: int, peer: Peer, clock: Clock, now: int, end: int)
    requires SchedOk(cfg, s, now) && Told(cfg, s) && Readings(clock, 0, now, end) && !s.stopping
    ensures var r := Enqueue(cfg, s, total, peer, clock, 0);
            Settled(cfg, s, r.s, total, r.total, peer, clock(1), end)
  {
    assert clock(0) <= clock(1) <= clock(2) <= end;
    HistoryTellsDials(cfg, s.history, s.dialed, peer.node, now, clock(0), clock(1));
  }

  /**
   In every run, a peer offered to a running chain is dropped exactly when the filter refuses it or its node was
   recently dialed.  Any other peer is dialed at once if both caps leave room, and otherwise waits last in the queue.
   */
  lemma OfferFate(cfgs: seq<Config>, trace: seq<World>, steps: seq<Step>, n: nat)
    requires OnePool(cfgs) && Run(cfgs, trace, steps) && n < |steps| && steps[n].DoEnqueue?
    ensures steps[n].i < |cfgs| == |trace[n].scheds| == |trace[n + 1].scheds|
    ensures var s, w, w' := steps[n], trace[n], trace[n + 1];
            var a, b := w.scheds[s.i], w'.scheds[s.i];
            if a.stopping then b == a && w'.total == w.total
            else Settled(cfgs[s.i], a, b, w.total, w'.total, s.peer, s.clock(1), s.end)
  {
    var DoEnqueue(i, peer, clock, end) := steps[n];
    var w := trace[n];
    assert Enabled(cfgs, w, steps[n]) && trace[n + 1] == Apply(cfgs, w, steps[n]);
    RunPrefixInv(cfgs, trace, steps, n);
    RunTold(cfgs, trace, steps, i, n);
    if !w.scheds[i].stopping { EnqueueSettles(cfgs[i], w.scheds[i], w.total, peer, clock, w.time, end); }
  }
}
