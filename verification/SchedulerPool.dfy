/**
 Any number of dial schedulers on one pool, in any order of enqueues (from discovery or from the feedback that
 on_done calls before it releases its slot), releases, connections and stops.
 */
module SchedulerPool {
  import opened Bytes
  import opened Scheduler

  /** `time` is the latest clock reading. */
  datatype World = World(scheds: seq<Sched>, total: int, time: int)

  /** An operation of scheduler `i`; `clock` are the readings it takes, all at most `end`. */
  datatype Step =
    | DoEnqueue(i: nat, peer: Peer, clock: Clock, end: int)
    | DoRelease(i: nat, k: nat, clock: Clock, end: int)
    | DoConnect(i: nat, k: nat)
    | DoStop(i: nat, live: set<nat>)

  /** One pool: all chains see the same caps. */
  ghost predicate OnePool(cfgs: seq<Config>) {
    forall i, j :: 0 <= i < |cfgs| && 0 <= j < |cfgs| ==>
      cfgs[i].maxTotal == cfgs[j].maxTotal && cfgs[i].maxPerChain == cfgs[j].maxPerChain
  }

  /** A dial releases its slot at most once: only while it is open. */
  ghost predicate Enabled(cfgs: seq<Config>, w: World, s: Step) {
    && s.i < |w.scheds| == |cfgs|
    && match s
       case DoEnqueue(_, _, clock, end) => Readings(clock, 0, w.time, end)
       case DoRelease(i, k, clock, end) => k in w.scheds[i].open && Readings(clock, 0, w.time, end)
       case DoConnect(i, k) => k in w.scheds[i].open && k !in w.scheds[i].validated
       case DoStop(_, _) => true
  }

  function Put(w: World, i: nat, s: Sched, total: int, end: int): World
    requires i < |w.scheds|
  { World(w.scheds[i := s], total, end) }

  ghost function Apply(cfgs: seq<Config>, w: World, s: Step): World
    requires Enabled(cfgs, w, s)
  {
    match s
    case DoEnqueue(i, peer, clock, end) =>
      var r := Enqueue(cfgs[i], w.scheds[i], w.total, peer, clock, 0);
      Put(w, i, r.s, r.total, end)
    case DoRelease(i, k, clock, end) =>
      var r := Release(cfgs[i], w.scheds[i], w.total, k, clock, 0);
      Put(w, i, r.s, r.total, end)
    case DoConnect(i, k) => Put(w, i, Connect(w.scheds[i], k), w.total, w.time)
    case DoStop(i, live) => Put(w, i, Stop(w.scheds[i], live), w.total, w.time)
  }

  function Start(n: nat, time: int): World { World(seq(n, _ => FRESH), 0, time) }

  ghost predicate Run(cfgs: seq<Config>, trace: seq<World>, steps: seq<Step>) {
    && |trace| == |steps| + 1 && trace[0] == Start(|cfgs|, trace[0].time)
    && forall j :: 0 <= j < |steps| ==>
         Enabled(cfgs, trace[j], steps[j]) && trace[j + 1] == Apply(cfgs, trace[j], steps[j])
  }

  //
  // Sums over the schedulers
  //

  function SumActive(scheds: seq<Sched>): int {
    if scheds == [] then 0 else scheds[0].active + SumActive(scheds[1..])
  }

  lemma {:induction false} SumUpdate(scheds: seq<Sched>, i: nat, s: Sched)
    requires i < |scheds|
    ensures SumActive(scheds[i := s]) == SumActive(scheds) - scheds[i].active + s.active
  {
    if i == 0 {
      assert scheds[i := s][1..] == scheds[1..];
    } else {
      assert scheds[i := s][1..] == scheds[1..][i - 1 := s];
      SumUpdate(scheds[1..], i - 1, s);
    }
  }

  lemma {:induction false} SumFresh(n: nat, time: int)
    ensures SumActive(Start(n, time).scheds) == 0
  {
    if n > 0 {
      assert Start(n, time).scheds[1..] == Start(n - 1, time).scheds;
      SumFresh(n - 1, time);
    }
  }

  /** With every chain within its cap, the total is at most the caps together. */
  lemma {:induction false} SumBound(scheds: seq<Sched>, cap: int)
    requires forall i :: 0 <= i < |scheds| ==> scheds[i].active <= cap
    ensures SumActive(scheds) <= |scheds| * cap
  {
    if scheds != [] {
      SumBound(scheds[1..], cap);
      OneMore(|scheds| - 1, cap);
    }
  }

  lemma OneMore(n: nat, cap: int)
    ensures (n + 1) * cap == cap + n * cap
  {}

  //
  // The invariant
  //

  ghost predicate Inv(cfgs: seq<Config>, w: World) {
    && |w.scheds| == |cfgs| && w.total == SumActive(w.scheds)
    && (forall i :: 0 <= i < |cfgs| ==> SchedOk(cfgs[i], w.scheds[i], w.time) && w.total <= NonNeg(cfgs[i].maxTotal))
  }

  lemma KeepPut(cfgs: seq<Config>, w: World, i: nat, s: Sched, total: int, end: int)
    requires Inv(cfgs, w) && OnePool(cfgs) && i < |cfgs| && w.time <= end
    requires SchedOk(cfgs[i], s, end) && total - w.total == s.active - w.scheds[i].active
    requires total <= NonNeg(cfgs[i].maxTotal)
    ensures Inv(cfgs, Put(w, i, s, total, end))
  {
    SumUpdate(w.scheds, i, s);
    var w' := Put(w, i, s, total, end);
    forall j | 0 <= j < |cfgs| ensures SchedOk(cfgs[j], w'.scheds[j], end) {
      if j != i { LaterKeeps(cfgs[j], w.scheds[j].history, w.scheds[j].dialed, w.time, end); }
    }
  }

  lemma KeepStep(cfgs: seq<Config>, w: World, s: Step)
    requires Inv(cfgs, w) && OnePool(cfgs) && Enabled(cfgs, w, s)
    ensures Inv(cfgs, Apply(cfgs, w, s))
  {
    match s
    case DoEnqueue(i, peer, clock, end) =>
      EnqueueKeeps(cfgs[i], w.scheds[i], w.total, peer, clock, 0, w.time, end);
      var r := Enqueue(cfgs[i], w.scheds[i], w.total, peer, clock, 0);
      KeepPut(cfgs, w, i, r.s, r.total, end);
    case DoRelease(i, k, clock, end) =>
      ReleaseKeeps(cfgs[i], w.scheds[i], w.total, k, clock, 0, w.time, end);
      var r := Release(cfgs[i], w.scheds[i], w.total, k, clock, 0);
      KeepPut(cfgs, w, i, r.s, r.total, end);
    case DoConnect(i, k) =>
      ConnectKeeps(cfgs[i], w.scheds[i], k, w.time);
      KeepPut(cfgs, w, i, Connect(w.scheds[i], k), w.total, w.time);
    case DoStop(i, live) =>
      StopCounts(cfgs[i], w.scheds[i], live);
      KeepPut(cfgs, w, i, Stop(w.scheds[i], live), w.total, w.time);
  }

  lemma {:induction false} RunKeepsInv(cfgs: seq<Config>, trace: seq<World>, steps: seq<Step>)
    requires OnePool(cfgs) && Run(cfgs, trace, steps)
    ensures Inv(cfgs, trace[|steps|])
    decreases |steps|
  {
    if |steps| == 0 {
      SumFresh(|cfgs|, trace[0].time);
    } else {
      var k := |steps| - 1;
      assert Run(cfgs, trace[..|steps|], steps[..k]);
      RunKeepsInv(cfgs, trace[..|steps|], steps[..k]);
      KeepStep(cfgs, trace[k], steps[k]);
    }
  }

  /** In every run the counts are exact and neither cap is exceeded. */
  lemma CountsExact(cfgs: seq<Config>, trace: seq<World>, steps: seq<Step>, i: nat)
    requires OnePool(cfgs) && Run(cfgs, trace, steps) && i < |cfgs|
    ensures var w := trace[|steps|];
            && |w.scheds| == |cfgs| && w.total == SumActive(w.scheds) && w.total <= NonNeg(cfgs[i].maxTotal)
            && w.scheds[i].active == |w.scheds[i].open| <= NonNeg(cfgs[i].maxPerChain)
            && w.scheds[i].validatedCount == |w.scheds[i].validated| <= w.scheds[i].active
            && (!w.scheds[i].stopping ==> w.scheds[i].totalValidated == |w.scheds[i].sessions|)
  {
    RunKeepsInv(cfgs, trace, steps);
    SubsetSize(trace[|steps|].scheds[i].validated, trace[|steps|].scheds[i].open);
  }

  lemma {:induction false} SubsetSize(a: set<nat>, b: set<nat>)
    requires a <= b
    ensures |a| <= |b|
  {
    if a != {} {
      var x :| x in a;
      SubsetSize(a - {x}, b - {x});
    }
  }

  //
  // Which sessions are told to disconnect
  //

  predicate Stops(s: Step, i: nat) { s.DoStop? && s.i == i }

  predicate StoppedBetween(steps: seq<Step>, i: nat, a: nat, b: nat)
    requires b <= |steps|
  { exists m :: a <= m < b && Stops(steps[m], i) }

  /** Step `m` is the first stop of the chain from `a` on. */
  predicate FirstStop(steps: seq<Step>, i: nat, a: nat, m: int)
    requires m < |steps|
  { a <= m && Stops(steps[m], i) && forall l :: a <= l < m ==> !Stops(steps[l], i) }

  /** The first stop after `a` and before `b` found the session of `k` alive. */
  predicate ToldBetween(steps: seq<Step>, i: nat, k: nat, a: nat, b: nat)
    requires b <= |steps|
  { exists m :: a <= m < b && FirstStop(steps, i, a, m) && k in steps[m].live }

  /** One step: only a stop of the chain moves its sessions, and only a connection adds one. */
  lemma SessionStep(cfgs: seq<Config>, w: World, s: Step, i: nat, k: nat)
    requires Inv(cfgs, w) && Enabled(cfgs, w, s) && i < |cfgs| && WasConnected(w.scheds[i], k)
    ensures var a, b := w.scheds[i], Apply(cfgs, w, s).scheds[i];
            && WasConnected(b, k)
            && (k in b.sessions <==> !Stops(s, i) && k in a.sessions)
            && (k in b.disconnected <==> k in a.disconnected || (Stops(s, i) && k in a.sessions && k in s.live))
  {
    if s.i == i {
      match s
      case DoEnqueue(_, peer, clock, _) => EnqueueSessions(cfgs[i], w.scheds[i], w.total, peer, clock, 0);
      case DoRelease(_, j, clock, _) => ReleaseSessions(cfgs[i], w.scheds[i], w.total, j, clock, 0);
      case DoConnect(_, j) => assert j != k;
      case DoStop(_, live) => StopTellsSessions(w.scheds[i], live, k);
    }
  }

  lemma RunPrefixInv(cfgs: seq<Config>, trace: seq<World>, steps: seq<Step>, n: nat)
    requires OnePool(cfgs) && Run(cfgs, trace, steps) && n <= |steps|
    ensures Inv(cfgs, trace[n])
  {
    assert Run(cfgs, trace[..n + 1], steps[..n]);
    RunKeepsInv(cfgs, trace[..n + 1], steps[..n]);
  }

  lemma SessionBegins(cfgs: seq<Config>, trace: seq<World>, steps: seq<Step>, i: nat, k: nat, j: nat)
    requires OnePool(cfgs) && Run(cfgs, trace, steps) && j < |steps| && steps[j] == DoConnect(i, k)
    ensures i < |cfgs| == |trace[j + 1].scheds|
    ensures var s := trace[j + 1].scheds[i]; WasConnected(s, k) && k in s.sessions && k !in s.disconnected
  {
    RunPrefixInv(cfgs, trace, steps, j);
    assert Enabled(cfgs, trace[j], steps[j]) && trace[j + 1] == Apply(cfgs, trace[j], steps[j]);
    assert !WasConnected(trace[j].scheds[i], k);
  }

  /** What one more step does to the two conditions. */
  lemma BetweenNext(steps: seq<Step>, i: nat, k: nat, a: nat, n: nat)
    requires a <= n < |steps|
    ensures StoppedBetween(steps, i, a, n + 1) <==> StoppedBetween(steps, i, a, n) || Stops(steps[n], i)
    ensures ToldBetween(steps, i, k, a, n + 1) <==>
            || ToldBetween(steps, i, k, a, n)
            || (Stops(steps[n], i) && !StoppedBetween(steps, i, a, n) && k in steps[n].live)
  {
    if Stops(steps[n], i) && !StoppedBetween(steps, i, a, n) { assert FirstStop(steps, i, a, n); }
  }

  /**
   In every run a connection's session is kept exactly until the chain's next stop, and is told to disconnect
   exactly when that stop finds it alive.
   */
  lemma {:induction false} SessionFate(cfgs: seq<Config>, trace: seq<World>, steps: seq<Step>, i: nat, k: nat, j: nat,
                                       n: nat)
    requires OnePool(cfgs) && Run(cfgs, trace, steps) && j < n <= |steps| && steps[j] == DoConnect(i, k)
    ensures i < |cfgs| == |trace[n].scheds| && WasConnected(trace[n].scheds[i], k)
    ensures k in trace[n].scheds[i].sessions <==> !StoppedBetween(steps, i, j + 1, n)
    ensures k in trace[n].scheds[i].disconnected <==> ToldBetween(steps, i, k, j + 1, n)
  {
    if n == j + 1 {
      SessionBegins(cfgs, trace, steps, i, k, j);
    } else {
      var m := n - 1;
      SessionFate(cfgs, trace, steps, i, k, j, m);
      RunPrefixInv(cfgs, trace, steps, m);
      assert Enabled(cfgs, trace[m], steps[m]) && trace[m + 1] == Apply(cfgs, trace[m], steps[m]);
      SessionStep(cfgs, trace[m], steps[m], i, k);
      BetweenNext(steps, i, k, j + 1, m);
    }
  }

  /** So a stop reaches every connection made since the one before it, if its session still exists. */
  lemma StopReachesConnected(cfgs: seq<Config>, trace: seq<World>, steps: seq<Step>, i: nat, k: nat, j: nat, n: nat)
    requires OnePool(cfgs) && Run(cfgs, trace, steps) && j < n < |steps| && steps[j] == DoConnect(i, k)
    requires Stops(steps[n], i) && !StoppedBetween(steps, i, j + 1, n)
    ensures i < |trace[n + 1].scheds| && (k in trace[n + 1].scheds[i].disconnected <==> k in steps[n].live)
  {
    SessionFate(cfgs, trace, steps, i, k, j, n + 1);
    BetweenNext(steps, i, k, j + 1, n);
  }

  /** A dial that connects after the last stop is counted and told nothing. */
  lemma LateConnectionStays(cfg: Config, peer: Peer, live: set<nat>) returns (trace: seq<World>, steps: seq<Step>)
    requires cfg.filter(peer) && cfg.maxPerChain >= 1 && cfg.maxTotal >= 1
    ensures Run([cfg], trace, steps)
    ensures var s := trace[|steps|].scheds;
            |s| == 1 && s[0].stopping && s[0].validated == {0} && s[0].sessions == [0] && s[0].disconnected == []
  {
    trace, steps := [Start(1, 0)], [];
    trace, steps := Extend([cfg], trace, steps, DoEnqueue(0, peer, _ => 0, 0));
    trace, steps := Extend([cfg], trace, steps, DoStop(0, live));
    trace, steps := Extend([cfg], trace, steps, DoConnect(0, 0));
  }

  /** In every run, two dials of one node by one scheduler are at least the history expiry apart. */
  lemma DialsSpaced(cfgs: seq<Config>, trace: seq<World>, steps: seq<Step>, i: nat, j: nat, k: nat)
    requires OnePool(cfgs) && Run(cfgs, trace, steps) && i < |cfgs|
    requires |trace[|steps|].scheds| == |cfgs| && j < k < |trace[|steps|].scheds[i].dialed|
    requires trace[|steps|].scheds[i].dialed[j].peer.node == trace[|steps|].scheds[i].dialed[k].peer.node
    ensures trace[|steps|].scheds[i].dialed[j].time + cfgs[i].expiry <= trace[|steps|].scheds[i].dialed[k].time
  {
    RunKeepsInv(cfgs, trace, steps);
  }

  //
  // No idle backlog
  //

  /** A chain with a free slot has nothing queued. */
  ghost predicate NoIdleBacklog(cfgs: seq<Config>, w: World) {
    |w.scheds| == |cfgs| &&
    forall i :: 0 <= i < |cfgs| && w.scheds[i].active < cfgs[i].maxPerChain ==> w.scheds[i].queue == []
  }

  /** The pool has room for every chain's slots. */
  ghost predicate Roomy(cfgs: seq<Config>) {
    forall i :: 0 <= i < |cfgs| ==> cfgs[i].maxTotal >= |cfgs| * cfgs[i].maxPerChain
  }

  /** In a roomy pool a free chain slot is a free pool slot. */
  lemma RoomForAll(cfgs: seq<Config>, w: World, i: nat)
    requires Inv(cfgs, w) && OnePool(cfgs) && Roomy(cfgs) && i < |cfgs| && w.scheds[i].active < cfgs[i].maxPerChain
    ensures w.total < cfgs[i].maxTotal
  {
    var cap := cfgs[i].maxPerChain;
    var full := w.scheds[i].(active := cap);
    var scheds := w.scheds[i := full];
    forall j | 0 <= j < |scheds| ensures scheds[j].active <= cap { assert SchedOk(cfgs[j], w.scheds[j], w.time); }
    SumBound(scheds, cap);
    SumUpdate(w.scheds, i, full);
  }

  lemma StepDrains(cfgs: seq<Config>, w: World, s: Step)
    requires Inv(cfgs, w) && Enabled(cfgs, w, s) && Drained(cfgs[s.i], w.scheds[s.i], w.total)
    ensures Drained(cfgs[s.i], Apply(cfgs, w, s).scheds[s.i], Apply(cfgs, w, s).total)
  {
    match s
    case DoEnqueue(i, peer, clock, end) =>
      EnqueueKeeps(cfgs[i], w.scheds[i], w.total, peer, clock, 0, w.time, end);
    case DoRelease(i, k, clock, end) =>
      ReleaseKeeps(cfgs[i], w.scheds[i], w.total, k, clock, 0, w.time, end);
    case DoConnect(_, _) => {}
    case DoStop(_, _) => {}
  }

  lemma KeepNoIdle(cfgs: seq<Config>, w: World, w': World, i: nat)
    requires Inv(cfgs, w') && OnePool(cfgs) && Roomy(cfgs) && NoIdleBacklog(cfgs, w) && i < |cfgs| == |w'.scheds|
    requires forall j :: 0 <= j < |cfgs| && j != i ==> w'.scheds[j] == w.scheds[j]
    requires Drained(cfgs[i], w'.scheds[i], w'.total)
    ensures NoIdleBacklog(cfgs, w')
  {
    if w'.scheds[i].active < cfgs[i].maxPerChain { RoomForAll(cfgs, w', i); }
  }

  /** In every run on a roomy pool, no scheduler holds a queued peer while its chain has a free slot. */
  lemma {:induction false} RoomyRunsNeverIdle(cfgs: seq<Config>, trace: seq<World>, steps: seq<Step>)
    requires OnePool(cfgs) && Roomy(cfgs) && Run(cfgs, trace, steps)
    ensures NoIdleBacklog(cfgs, trace[|steps|])
    decreases |steps|
  {
    if |steps| > 0 {
      var k := |steps| - 1;
      assert Run(cfgs, trace[..|steps|], steps[..k]);
      RunKeepsInv(cfgs, trace[..|steps|], steps[..k]);
      RoomyRunsNeverIdle(cfgs, trace[..|steps|], steps[..k]);
      StepDrains(cfgs, trace[k], steps[k]);
      KeepStep(cfgs, trace[k], steps[k]);
      KeepNoIdle(cfgs, trace[k], trace[k + 1], steps[k].i);
    }
  }

  //
  // The condition is exact
  //

  /** Chains that each have a slot, filters that let every peer through, and a pool too small for all the slots. */
  ghost predicate Cramped(cfgs: seq<Config>) {
    && OnePool(cfgs) && |cfgs| > 0 && cfgs[0].maxPerChain >= 1 && cfgs[0].maxTotal < |cfgs| * cfgs[0].maxPerChain
    && forall i, p :: 0 <= i < |cfgs| ==> cfgs[i].filter(p)
  }

  lemma {:induction false} FreeChain(scheds: seq<Sched>, cap: int) returns (i: nat)
    requires SumActive(scheds) < |scheds| * cap
    ensures i < |scheds| && scheds[i].active < cap
  {
    if scheds != [] && scheds[0].active >= cap {
      OneMore(|scheds| - 1, cap);
      var j := FreeChain(scheds[1..], cap);
      i := j + 1;
    } else {
      i := 0;
    }
  }

  /** A pool filled by `k` dials of distinct nodes, with nothing queued. */
  ghost predicate Filled(cfgs: seq<Config>, w: World, k: nat) {
    && |w.scheds| == |cfgs| && w.total == k && w.time == 0
    && forall i :: 0 <= i < |cfgs| ==>
         w.scheds[i].queue == [] && !w.scheds[i].stopping && forall x <- w.scheds[i].history :: |x| < k
  }

  /** A new node offered to a chain with a free slot: dialed when the pool has room, queued when it has none. */
  lemma OfferNew(cfgs: seq<Config>, w: World, i: nat, k: nat) returns (step: Step)
    requires Cramped(cfgs) && Filled(cfgs, w, k) && i < |cfgs| && w.scheds[i].active < cfgs[0].maxPerChain
    ensures Enabled(cfgs, w, step)
    ensures k < cfgs[0].maxTotal ==> Filled(cfgs, Apply(cfgs, w, step), k + 1)
    ensures k >= cfgs[0].maxTotal ==> !NoIdleBacklog(cfgs, Apply(cfgs, w, step))
  {
    var node: ByteSeq := seq(k, _ => 0);
    assert node !in w.scheds[i].history;
    assert cfgs[i].filter(Peer(node, []));
    assert cfgs[i].maxPerChain == cfgs[0].maxPerChain && cfgs[i].maxTotal == cfgs[0].maxTotal;
    var s1 := w.scheds[i].(history := Expired(w.scheds[i].history, 0));
    assert !Contains(s1.history, node, 0);
    step := DoEnqueue(i, Peer(node, []), _ => 0, 0);
    var w' := Apply(cfgs, w, step);
    if k < cfgs[0].maxTotal {
      assert w'.scheds[i] == Spawn(cfgs[i], s1, Peer(node, []), 0);
    } else {
      assert w'.scheds[i] == s1.(queue := [Peer(node, [])]);
    }
  }

  lemma {:induction false} Fill(cfgs: seq<Config>, k: nat) returns (trace: seq<World>, steps: seq<Step>)
    requires Cramped(cfgs) && k <= NonNeg(cfgs[0].maxTotal)
    ensures Run(cfgs, trace, steps) && Filled(cfgs, trace[|steps|], k)
  {
    if k == 0 {
      trace, steps := [Start(|cfgs|, 0)], [];
    } else {
      trace, steps := Fill(cfgs, k - 1);
      RunKeepsInv(cfgs, trace, steps);
      var w := trace[|steps|];
      var i := FilledHasFree(cfgs, w, k - 1);
      var step := OfferNew(cfgs, w, i, k - 1);
      trace, steps := Extend(cfgs, trace, steps, step);
    }
  }

  lemma Extend(cfgs: seq<Config>, trace: seq<World>, steps: seq<Step>, s: Step)
    returns (trace': seq<World>, steps': seq<Step>)
    requires Run(cfgs, trace, steps) && Enabled(cfgs, trace[|steps|], s)
    ensures Run(cfgs, trace', steps') && trace'[|steps'|] == Apply(cfgs, trace[|steps|], s)
  {
    trace', steps' := trace + [Apply(cfgs, trace[|steps|], s)], steps + [s];
  }

  /** In a filled pool that is cramped some chain has a free slot. */
  lemma FilledHasFree(cfgs: seq<Config>, w: World, k: nat) returns (i: nat)
    requires Cramped(cfgs) && Filled(cfgs, w, k) && Inv(cfgs, w) && k <= NonNeg(cfgs[0].maxTotal)
    ensures i < |cfgs| && w.scheds[i].active < cfgs[0].maxPerChain
  {
    if cfgs[0].maxTotal < 0 { ProductPositive(|cfgs|, cfgs[0].maxPerChain); }
    i := FreeChain(w.scheds, cfgs[0].maxPerChain);
  }

  lemma ProductPositive(n: nat, cap: int)
    requires n > 0 && cap > 0
    ensures n * cap > 0
  {}

  /** On every cramped pool some run leaves a peer queued at a chain that has a free slot. */
  lemma CrampedRunIdles(cfgs: seq<Config>) returns (trace: seq<World>, steps: seq<Step>)
    requires Cramped(cfgs)
    ensures Run(cfgs, trace, steps) && !NoIdleBacklog(cfgs, trace[|steps|])
  {
    var k := NonNeg(cfgs[0].maxTotal);
    trace, steps := Fill(cfgs, k);
    RunKeepsInv(cfgs, trace, steps);
    var w := trace[|steps|];
    var i := FilledHasFree(cfgs, w, k);
    var step := OfferNew(cfgs, w, i, k);
    trace, steps := Extend(cfgs, trace, steps, step);
  }
}
