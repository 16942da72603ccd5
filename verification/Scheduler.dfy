/**
 The dial scheduler of one chain: its slots, its backlog and its dial history, with the pool total it shares
 with other chains.  A clock is the sequence of readings the code takes; an operation starts at reading `at`.
 */
module Scheduler {
  import opened Bytes

  type Clock = nat -> int

  datatype Peer = Peer(node: ByteSeq, address: ByteSeq)

  /** The pool's two caps, the history expiry and the chain's peer filter. */
  datatype Config = Config(maxTotal: int, maxPerChain: int, expiry: int, filter: Peer -> bool)

  /** A dial and the time it was entered in the history. */
  datatype Dial = Dial(peer: Peer, time: int)

  /**
   `dialed` lists every dial in order; `open` holds those that have not called on_done, `validated` the open ones
   that called on_connected.  `sessions` are the dials whose session the scheduler keeps, `disconnected` those it
   told to disconnect.
   */
  datatype Sched = Sched(
    active: int, validatedCount: int, totalValidated: int, stopping: bool, queue: seq<Peer>, history: map<ByteSeq, int>,
    sessions: seq<nat>, disconnected: seq<nat>, dialed: seq<Dial>, open: set<nat>, validated: set<nat>)

  const FRESH: Sched := Sched(0, 0, 0, false, [], map[], [], [], [], {}, {})

  /** A scheduler with the pool total and the next clock reading after an operation. */
  datatype Pooled = Pooled(s: Sched, total: int, at: nat)

  //
  // DialHistory
  //

  function Expired(entries: map<ByteSeq, int>, now: int): map<ByteSeq, int> {
    map x | x in entries && now < entries[x] :: entries[x]
  }

  predicate Contains(entries: map<ByteSeq, int>, node: ByteSeq, now: int) {
    node in entries && now < entries[node]
  }

  /** The clock is read only for a node that has an entry. */
  function Reads(entries: map<ByteSeq, int>, node: ByteSeq): nat { if node in entries then 1 else 0 }

  //
  // DialScheduler
  //

  function Spawn(cfg: Config, s: Sched, peer: Peer, now: int): Sched {
    s.(active := s.active + 1, history := s.history[peer.node := now + cfg.expiry],
       dialed := s.dialed + [Dial(peer, now)], open := s.open + {|s.dialed|})
  }

  predicate SlotFree(cfg: Config, s: Sched, total: int) { s.active < cfg.maxPerChain && total < cfg.maxTotal }

  function Enqueue(cfg: Config, s: Sched, total: int, peer: Peer, clock: Clock, at: nat): Pooled {
    if s.stopping || !cfg.filter(peer) then Pooled(s, total, at)
    else
      var s1 := s.(history := Expired(s.history, clock(at)));
      var at1 := at + 1 + Reads(s1.history, peer.node);
      if Contains(s1.history, peer.node, clock(at + 1)) then Pooled(s1, total, at1)
      else if SlotFree(cfg, s1, total) then Pooled(Spawn(cfg, s1, peer, clock(at1)), total + 1, at1 + 1)
      else Pooled(s1.(queue := s1.queue + [peer]), total, at1)
  }

  /** One round of the loop of release(): the front peer is skipped when recently dialed, and dialed otherwise. */
  function Front(cfg: Config, s: Sched, total: int, clock: Clock, at: nat): Pooled
    requires s.queue != []
  {
    var s1 := s.(queue := s.queue[1..]);
    var at1 := at + Reads(s.history, s.queue[0].node);
    if Contains(s.history, s.queue[0].node, clock(at)) then Pooled(s1, total, at1)
    else Pooled(Spawn(cfg, s1, s.queue[0], clock(at1)), total + 1, at1 + 1)
  }

  /** The loop of release(). */
  function Drain(cfg: Config, s: Sched, total: int, clock: Clock, at: nat): Pooled
    decreases |s.queue|
  {
    if SlotFree(cfg, s, total) && s.queue != [] then
      var r := Front(cfg, s, total, clock, at);
      Drain(cfg, r.s, r.total, clock, r.at)
    else Pooled(s, total, at)
  }

  /** The slot of dial `k` goes back. */
  function Freed(s: Sched, k: nat): Sched {
    s.(active := s.active - 1, open := s.open - {k}, validated := s.validated - {k},
       validatedCount := if k in s.validated then s.validatedCount - 1 else s.validatedCount)
  }

  /** What on_done of dial `k` does once its feedback has returned. */
  function Release(cfg: Config, s: Sched, total: int, k: nat, clock: Clock, at: nat): Pooled {
    var s1 := Freed(s, k);
    if s.stopping then Pooled(s1, total - 1, at)
    else Drain(cfg, s1.(history := Expired(s1.history, clock(at))), total - 1, clock, at + 1)
  }

  function Connect(s: Sched, k: nat): Sched {
    s.(validatedCount := s.validatedCount + 1, totalValidated := s.totalValidated + 1, sessions := s.sessions + [k],
       validated := s.validated + {k})
  }

  /** The sessions among the first `n` that still exist. */
  function Living(sessions: seq<nat>, n: nat, live: set<nat>): seq<nat>
    requires n <= |sessions|
  { if n == 0 then [] else Living(sessions, n - 1, live) + if sessions[n - 1] in live then [sessions[n - 1]] else [] }

  function Stop(s: Sched, live: set<nat>): Sched {
    s.(stopping := true, queue := [], sessions := [],
       disconnected := s.disconnected + Living(s.sessions, |s.sessions|, live))
  }

  //
  // What one scheduler keeps
  //

  function NonNeg(n: int): int { if n < 0 then 0 else n }

  /** Until its cooldown is over, a dialed node is in the history. */
  predicate Suppressed(cfg: Config, history: map<ByteSeq, int>, d: Dial, now: int) {
    || d.time + cfg.expiry <= now
    || (d.peer.node in history && d.time + cfg.expiry <= history[d.peer.node])
  }

  ghost predicate Spaced(cfg: Config, dialed: seq<Dial>) {
    forall j, k :: 0 <= j < k < |dialed| && dialed[j].peer.node == dialed[k].peer.node ==>
      dialed[j].time + cfg.expiry <= dialed[k].time
  }

  ghost predicate HistoryOk(cfg: Config, history: map<ByteSeq, int>, dialed: seq<Dial>, now: int) {
    && (forall d <- dialed :: d.time <= now && Suppressed(cfg, history, d, now))
    && Spaced(cfg, dialed)
  }

  ghost predicate CountsOk(cfg: Config, s: Sched) {
    && s.active == |s.open| && s.validatedCount == |s.validated| && s.validated <= s.open
    && s.active <= NonNeg(cfg.maxPerChain)
    && (forall k <- s.open :: k < |s.dialed|)
    && (s.stopping ==> s.queue == [])
    && SessionsOk(s)
  }

  /** Until it stops, a scheduler keeps the session of every connection there ever was. */
  ghost predicate SessionsOk(s: Sched) {
    && (!s.stopping ==> |s.sessions| == s.totalValidated && s.disconnected == [])
    && (forall k <- s.sessions :: WasConnected(s, k))
    && (forall k <- s.disconnected :: WasConnected(s, k))
  }

  /** The dial has connected, or is over. */
  predicate WasConnected(s: Sched, k: nat) { k < |s.dialed| && (k in s.validated || k !in s.open) }

  ghost predicate SchedOk(cfg: Config, s: Sched, now: int) {
    CountsOk(cfg, s) && HistoryOk(cfg, s.history, s.dialed, now)
  }

  lemma ExpireKeeps(cfg: Config, history: map<ByteSeq, int>, dialed: seq<Dial>, now: int, later: int)
    requires HistoryOk(cfg, history, dialed, now) && now <= later
    ensures HistoryOk(cfg, Expired(history, later), dialed, later)
  {
    forall d | d in dialed ensures Suppressed(cfg, Expired(history, later), d, later) {
      assert Suppressed(cfg, history, d, now);
    }
  }

  lemma LaterKeeps(cfg: Config, history: map<ByteSeq, int>, dialed: seq<Dial>, now: int, later: int)
    requires HistoryOk(cfg, history, dialed, now) && now <= later
    ensures HistoryOk(cfg, history, dialed, later)
  {
    forall d | d in dialed ensures Suppressed(cfg, history, d, later) { assert Suppressed(cfg, history, d, now); }
  }

  /** A node outside the history is past its cooldown, so dialing it keeps the spacing. */
  lemma SpawnSpaced(cfg: Config, s: Sched, peer: Peer, now: int, asked: int, dialTime: int)
    requires HistoryOk(cfg, s.history, s.dialed, now) && now <= asked <= dialTime
    requires !Contains(s.history, peer.node, asked)
    ensures var s' := Spawn(cfg, s, peer, dialTime); HistoryOk(cfg, s'.history, s'.dialed, dialTime)
  {
    var s' := Spawn(cfg, s, peer, dialTime);
    forall d | d in s'.dialed ensures d.time <= dialTime && Suppressed(cfg, s'.history, d, dialTime) {
      if d in s.dialed { assert Suppressed(cfg, s.history, d, now); }
    }
    forall j, k | 0 <= j < k < |s'.dialed| && s'.dialed[j].peer.node == s'.dialed[k].peer.node
      ensures s'.dialed[j].time + cfg.expiry <= s'.dialed[k].time
    {
      assert s.dialed[j] in s.dialed;
    }
  }

  lemma SpawnCounts(cfg: Config, s: Sched, peer: Peer, dialTime: int)
    requires CountsOk(cfg, s) && s.active < cfg.maxPerChain && !s.stopping
    ensures CountsOk(cfg, Spawn(cfg, s, peer, dialTime))
  {}

  //
  // Each operation keeps it, and moves the pool total by what it moves `active`
  //

  /** The readings of one operation: in order, from `now` on, none after `end`. */
  ghost predicate Readings(clock: Clock, at: nat, now: int, end: int) {
    && (forall i: nat, j: nat :: i <= j ==> clock(i) <= clock(j))
    && (forall i: nat :: clock(i) <= end)
    && now <= clock(at)
  }

  /** No peer waits while both caps leave room. */
  predicate Drained(cfg: Config, s: Sched, total: int) { SlotFree(cfg, s, total) ==> s.queue == [] }

  lemma FrontSpaced(cfg: Config, s: Sched, total: int, clock: Clock, at: nat, now: int, end: int) returns (later: int)
    requires HistoryOk(cfg, s.history, s.dialed, now) && Readings(clock, at, now, end) && s.queue != []
    ensures var r := Front(cfg, s, total, clock, at);
            HistoryOk(cfg, r.s.history, r.s.dialed, later) && Readings(clock, r.at, later, end)
  {
    var at1 := at + Reads(s.history, s.queue[0].node);
    assert clock(at) <= clock(at1) <= clock(at1 + 1);
    later := now;
    if !Contains(s.history, s.queue[0].node, clock(at)) {
      SpawnSpaced(cfg, s.(queue := s.queue[1..]), s.queue[0], now, clock(at), clock(at1));
      later := clock(at1);
    }
  }

  lemma {:induction false} DrainSpaced(cfg: Config, s: Sched, total: int, clock: Clock, at: nat, now: int, end: int)
    requires HistoryOk(cfg, s.history, s.dialed, now) && Readings(clock, at, now, end)
    ensures var s' := Drain(cfg, s, total, clock, at).s; HistoryOk(cfg, s'.history, s'.dialed, end)
    decreases |s.queue|
  {
    if SlotFree(cfg, s, total) && s.queue != [] {
      var r := Front(cfg, s, total, clock, at);
      var later := FrontSpaced(cfg, s, total, clock, at, now, end);
      DrainSpaced(cfg, r.s, r.total, clock, r.at, later, end);
    } else {
      assert clock(at) <= end;
      LaterKeeps(cfg, s.history, s.dialed, now, end);
    }
  }

  lemma {:induction false} DrainCounts(cfg: Config, s: Sched, total: int, clock: Clock, at: nat)
    requires CountsOk(cfg, s) && !s.stopping
    ensures CountsOk(cfg, Drain(cfg, s, total, clock, at).s)
    decreases |s.queue|
  {
    if SlotFree(cfg, s, total) && s.queue != [] {
      SpawnCounts(cfg, s.(queue := s.queue[1..]), s.queue[0], clock(at + Reads(s.history, s.queue[0].node)));
      var r := Front(cfg, s, total, clock, at);
      DrainCounts(cfg, r.s, r.total, clock, r.at);
    }
  }

  lemma {:induction false} DrainTotals(cfg: Config, s: Sched, total: int, clock: Clock, at: nat)
    requires total <= NonNeg(cfg.maxTotal)
    ensures var r := Drain(cfg, s, total, clock, at);
            && r.total - total == r.s.active - s.active && r.total <= NonNeg(cfg.maxTotal)
            && Drained(cfg, r.s, r.total) && r.s.stopping == s.stopping
    decreases |s.queue|
  {
    if SlotFree(cfg, s, total) && s.queue != [] {
      var r := Front(cfg, s, total, clock, at);
      DrainTotals(cfg, r.s, r.total, clock, r.at);
    }
  }

  //
  // What the drain does with each queued peer
  //

  /** The history and the next reading at some point of the drain. */
  datatype View = View(history: map<ByteSeq, int>, at: nat)

  /** What became of a queued peer: the dial, or none when it was skipped. */
  type Fate = Option<Dial>

  function Seen(cfg: Config, v: View, peer: Peer, fate: Fate): View {
    var at1 := v.at + Reads(v.history, peer.node);
    if fate.None? then View(v.history, at1) else View(v.history[peer.node := fate.value.time + cfg.expiry], at1 + 1)
  }

  /** The history and the reading when the `n`-th peer of the queue is looked at. */
  function ViewAt(cfg: Config, v: View, queue: seq<Peer>, fates: seq<Fate>, n: nat): View
    requires n <= |fates| <= |queue|
    decreases n
  { if n == 0 then v else ViewAt(cfg, Seen(cfg, v, queue[0], fates[0]), queue[1..], fates[1..], n - 1) }

  /** A peer is skipped exactly when it is in the history then, and otherwise dialed with the next reading. */
  predicate FateOk(v: View, peer: Peer, fate: Fate, clock: Clock) {
    && (fate.None? <==> Contains(v.history, peer.node, clock(v.at)))
    && (fate.Some? ==> fate.value == Dial(peer, clock(v.at + Reads(v.history, peer.node))))
  }

  function Dials(fates: seq<Fate>): seq<Dial> {
    if fates == [] then [] else (if fates[0].None? then [] else [fates[0].value]) + Dials(fates[1..])
  }

  /**
   The drain looks at the queue from the front, dials or skips each peer it looks at, and leaves the rest as it was.
   */
  ghost predicate Serves(cfg: Config, s: Sched, r: Pooled, clock: Clock, at: nat, fates: seq<Fate>) {
    var v := View(s.history, at);
    && |fates| <= |s.queue| && r.s.queue == s.queue[|fates|..]
    && (forall n :: 0 <= n < |fates| ==> FateOk(ViewAt(cfg, v, s.queue, fates, n), s.queue[n], fates[n], clock))
    && r.s.dialed == s.dialed + Dials(fates)
    && View(r.s.history, r.at) == ViewAt(cfg, v, s.queue, fates, |fates|)
  }

  /** What one round does with the front peer. */
  function FrontFate(s: Sched, clock: Clock, at: nat): Fate
    requires s.queue != []
  {
    if Contains(s.history, s.queue[0].node, clock(at)) then None
    else Some(Dial(s.queue[0], clock(at + Reads(s.history, s.queue[0].node))))
  }

  /** Fates of the rest are fates after the first. */
  lemma FatesNext(cfg: Config, v: View, queue: seq<Peer>, fate: Fate, rest: seq<Fate>, clock: Clock)
    requires queue != [] && |rest| < |queue| && FateOk(v, queue[0], fate, clock)
    requires forall n :: 0 <= n < |rest| ==>
               FateOk(ViewAt(cfg, Seen(cfg, v, queue[0], fate), queue[1..], rest, n), queue[1..][n], rest[n], clock)
    ensures forall n :: 0 <= n < |[fate] + rest| ==>
              FateOk(ViewAt(cfg, v, queue, [fate] + rest, n), queue[n], ([fate] + rest)[n], clock)
    ensures ViewAt(cfg, v, queue, [fate] + rest, |[fate] + rest|) ==
            ViewAt(cfg, Seen(cfg, v, queue[0], fate), queue[1..], rest, |rest|)
  {
    var fates, v1 := [fate] + rest, Seen(cfg, v, queue[0], fate);
    assert fates[1..] == rest;
    forall n | 0 <= n < |fates| ensures FateOk(ViewAt(cfg, v, queue, fates, n), queue[n], fates[n], clock) {
      if n > 0 { assert FateOk(ViewAt(cfg, v1, queue[1..], rest, n - 1), queue[1..][n - 1], rest[n - 1], clock); }
    }
  }

  lemma DialsNext(fate: Fate, rest: seq<Fate>)
    ensures Dials([fate] + rest) == (if fate.None? then [] else [fate.value]) + Dials(rest)
  {
    assert ([fate] + rest)[1..] == rest;
  }

  lemma FrontSeen(cfg: Config, s: Sched, total: int, clock: Clock, at: nat)
    requires s.queue != []
    ensures var p, fate := Front(cfg, s, total, clock, at), FrontFate(s, clock, at);
            && Seen(cfg, View(s.history, at), s.queue[0], fate) == View(p.s.history, p.at)
            && FateOk(View(s.history, at), s.queue[0], fate, clock)
            && p.s.queue == s.queue[1..] && p.s.dialed == s.dialed + if fate.None? then [] else [fate.value]
  {}

  lemma ServesNext(cfg: Config, s: Sched, total: int, r: Pooled, clock: Clock, at: nat, rest: seq<Fate>)
    requires s.queue != []
    requires var p := Front(cfg, s, total, clock, at); Serves(cfg, p.s, r, clock, p.at, rest)
    ensures Serves(cfg, s, r, clock, at, [FrontFate(s, clock, at)] + rest)
  {
    var fate := FrontFate(s, clock, at);
    FrontSeen(cfg, s, total, clock, at);
    FatesNext(cfg, View(s.history, at), s.queue, fate, rest, clock);
    DialsNext(fate, rest);
  }

  /** For every queue, history and clock: the drain serves the queue, and stops at a cap or at its end. */
  lemma {:induction false} DrainServes(cfg: Config, s: Sched, total: int, clock: Clock, at: nat)
    returns (fates: seq<Fate>)
    ensures Serves(cfg, s, Drain(cfg, s, total, clock, at), clock, at, fates)
    ensures Drained(cfg, Drain(cfg, s, total, clock, at).s, Drain(cfg, s, total, clock, at).total)
    decreases |s.queue|
  {
    fates := [];
    if SlotFree(cfg, s, total) && s.queue != [] {
      var p := Front(cfg, s, total, clock, at);
      var rest := DrainServes(cfg, p.s, p.total, clock, p.at);
      ServesNext(cfg, s, total, Drain(cfg, p.s, p.total, clock, p.at), clock, at, rest);
      fates := [FrontFate(s, clock, at)] + rest;
    }
  }

  lemma FreedCounts(cfg: Config, s: Sched, k: nat)
    requires CountsOk(cfg, s) && k in s.open
    ensures CountsOk(cfg, Freed(s, k))
  {}

  lemma ReleaseKeeps(cfg: Config, s: Sched, total: int, k: nat, clock: Clock, at: nat, now: int, end: int)
    requires SchedOk(cfg, s, now) && k in s.open && Readings(clock, at, now, end) && total <= NonNeg(cfg.maxTotal)
    ensures var r := Release(cfg, s, total, k, clock, at);
            && SchedOk(cfg, r.s, end) && r.total - total == r.s.active - s.active && r.total <= NonNeg(cfg.maxTotal)
            && (r.s.stopping <==> s.stopping) && (!s.stopping ==> Drained(cfg, r.s, r.total))
  {
    FreedCounts(cfg, s, k);
    assert clock(at) <= end && clock(at) <= clock(at + 1);
    if s.stopping {
      LaterKeeps(cfg, s.history, s.dialed, now, end);
    } else {
      ExpireKeeps(cfg, s.history, s.dialed, now, clock(at));
      var s1 := Freed(s, k).(history := Expired(s.history, clock(at)));
      UncountedKeeps(cfg, Freed(s, k), s1.history, s.queue);
      DrainSpaced(cfg, s1, total - 1, clock, at + 1, clock(at), end);
      DrainCounts(cfg, s1, total - 1, clock, at + 1);
      DrainTotals(cfg, s1, total - 1, clock, at + 1);
    }
  }

  lemma EnqueueSpaced(cfg: Config, s: Sched, total: int, peer: Peer, clock: Clock, at: nat, now: int, end: int)
    requires HistoryOk(cfg, s.history, s.dialed, now) && Readings(clock, at, now, end)
    ensures var s' := Enqueue(cfg, s, total, peer, clock, at).s; HistoryOk(cfg, s'.history, s'.dialed, end)
  {
    assert clock(at) <= end;
    LaterKeeps(cfg, s.history, s.dialed, now, end);
    if !s.stopping && cfg.filter(peer) {
      var s1 := s.(history := Expired(s.history, clock(at)));
      var at1 := at + 1 + Reads(s1.history, peer.node);
      assert clock(at) <= clock(at + 1) <= clock(at1) <= end;
      ExpireKeeps(cfg, s.history, s.dialed, now, clock(at));
      LaterKeeps(cfg, s1.history, s1.dialed, clock(at), end);
      if !Contains(s1.history, peer.node, clock(at + 1)) && SlotFree(cfg, s1, total) {
        SpawnSpaced(cfg, s1, peer, clock(at), clock(at + 1), clock(at1));
        var s2 := Spawn(cfg, s1, peer, clock(at1));
        LaterKeeps(cfg, s2.history, s2.dialed, clock(at1), end);
      }
    }
  }

  /** History and queue are not counted. */
  lemma UncountedKeeps(cfg: Config, s: Sched, history: map<ByteSeq, int>, queue: seq<Peer>)
    requires CountsOk(cfg, s) && !s.stopping
    ensures CountsOk(cfg, s.(history := history, queue := queue))
  {
    var s' := s.(history := history, queue := queue);
    assert forall k: nat :: WasConnected(s', k) <==> WasConnected(s, k);
  }

  lemma EnqueueCounts(cfg: Config, s: Sched, total: int, peer: Peer, clock: Clock, at: nat)
    requires CountsOk(cfg, s)
    ensures CountsOk(cfg, Enqueue(cfg, s, total, peer, clock, at).s)
  {
    if !s.stopping {
      var s1 := s.(history := Expired(s.history, clock(at)));
      UncountedKeeps(cfg, s, s1.history, s.queue);
      UncountedKeeps(cfg, s, s1.history, s.queue + [peer]);
      if SlotFree(cfg, s, total) { SpawnCounts(cfg, s1, peer, clock(at + 1 + Reads(s1.history, peer.node))); }
    }
  }

  lemma EnqueueKeeps(cfg: Config, s: Sched, total: int, peer: Peer, clock: Clock, at: nat, now: int, end: int)
    requires SchedOk(cfg, s, now) && Readings(clock, at, now, end) && total <= NonNeg(cfg.maxTotal)
    ensures var r := Enqueue(cfg, s, total, peer, clock, at);
            && SchedOk(cfg, r.s, end) && r.total - total == r.s.active - s.active && r.total <= NonNeg(cfg.maxTotal)
            && (r.s.stopping <==> s.stopping) && (Drained(cfg, s, total) ==> Drained(cfg, r.s, r.total))
  {
    EnqueueSpaced(cfg, s, total, peer, clock, at, now, end);
    EnqueueCounts(cfg, s, total, peer, clock, at);
  }

  lemma ConnectKeeps(cfg: Config, s: Sched, k: nat, now: int)
    requires SchedOk(cfg, s, now) && k in s.open && k !in s.validated
    ensures SchedOk(cfg, Connect(s, k), now)
  {
    assert (s.validated + {k}) <= s.open;
  }

  lemma {:induction false} LivingIff(sessions: seq<nat>, n: nat, live: set<nat>, k: nat)
    requires n <= |sessions|
    ensures k in Living(sessions, n, live) <==> k in sessions[..n] && k in live
  {
    if n > 0 {
      LivingIff(sessions, n - 1, live, k);
      assert sessions[..n] == sessions[..n - 1] + [sessions[n - 1]];
    }
  }

  /** Stopping forgets every session and disconnects those that still exist. */
  lemma StopTellsSessions(s: Sched, live: set<nat>, k: nat)
    ensures Stop(s, live).sessions == []
    ensures k in Stop(s, live).disconnected <==> k in s.disconnected || (k in s.sessions && k in live)
  {
    LivingIff(s.sessions, |s.sessions|, live, k);
    assert s.sessions[..|s.sessions|] == s.sessions;
  }

  lemma StopCounts(cfg: Config, s: Sched, live: set<nat>)
    requires CountsOk(cfg, s)
    ensures CountsOk(cfg, Stop(s, live))
  {
    var s' := Stop(s, live);
    forall k | k in s'.disconnected ensures WasConnected(s', k) {
      StopTellsSessions(s, live, k);
      assert WasConnected(s, k);
    }
  }

  //
  // What leaves the sessions alone
  //

  /** The same sessions, and what was connected stays so. */
  ghost predicate SameSessions(s: Sched, s': Sched) {
    && s'.sessions == s.sessions && s'.disconnected == s.disconnected
    && forall k: nat :: WasConnected(s, k) ==> WasConnected(s', k)
  }

  ghost predicate OpenDialed(s: Sched) { forall k <- s.open :: k < |s.dialed| }

  lemma SpawnSessions(cfg: Config, s: Sched, peer: Peer, now: int)
    requires OpenDialed(s)
    ensures SameSessions(s, Spawn(cfg, s, peer, now)) && OpenDialed(Spawn(cfg, s, peer, now))
  {}

  lemma EnqueueSessions(cfg: Config, s: Sched, total: int, peer: Peer, clock: Clock, at: nat)
    requires OpenDialed(s)
    ensures SameSessions(s, Enqueue(cfg, s, total, peer, clock, at).s)
  {
    var s1 := s.(history := Expired(s.history, clock(at)));
    SpawnSessions(cfg, s1, peer, clock(at + 1 + Reads(s1.history, peer.node)));
  }

  lemma {:induction false} DrainSessions(cfg: Config, s: Sched, total: int, clock: Clock, at: nat)
    requires OpenDialed(s)
    ensures SameSessions(s, Drain(cfg, s, total, clock, at).s)
    decreases |s.queue|
  {
    if SlotFree(cfg, s, total) && s.queue != [] {
      var r := Front(cfg, s, total, clock, at);
      SpawnSessions(cfg, s.(queue := s.queue[1..]), s.queue[0], clock(at + Reads(s.history, s.queue[0].node)));
      DrainSessions(cfg, r.s, r.total, clock, r.at);
    }
  }

  lemma ReleaseSessions(cfg: Config, s: Sched, total: int, k: nat, clock: Clock, at: nat)
    requires OpenDialed(s)
    ensures SameSessions(s, Release(cfg, s, total, k, clock, at).s)
  {
    var s1 := Freed(s, k);
    DrainSessions(cfg, s1.(history := Expired(s1.history, clock(at))), total - 1, clock, at + 1);
  }
}
