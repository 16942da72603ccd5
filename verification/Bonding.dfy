/**
 The discv4 endpoint proof: the pending-reply map, the reply slots it points to and the bonded set, under every
 interleaving of the PING, ENRRequest and FIND_NODE coroutines with incoming packets
 (section "Endpoint Proof" of Node Discovery Protocol v4).
 */
module Bonding {
  import opened Bytes

  datatype Endpoint = Endpoint(ip: string, port: nat)

  const PONG: nat := 2
  const NEIGHBOURS: nat := 4
  const ENR_RESPONSE: nat := 6

  //
  // Map keys
  //

  function Digit(d: nat): char
    requires d < 10
  { "0123456789"[d] }

  function Decimal(n: nat): string {
    if n < 10 then [Digit(n)] else Decimal(n / 10) + [Digit(n % 10)]
  }

  function EndpointKey(e: Endpoint): string { e.ip + ":" + Decimal(e.port) }

  function ReplyKey(e: Endpoint, ptype: nat): string { EndpointKey(e) + ":" + Decimal(ptype) }

  lemma {:induction false} DecimalHasNoColon(n: nat)
    ensures ':' !in Decimal(n)
  {
    if n >= 10 { DecimalHasNoColon(n / 10); }
  }

  lemma {:induction false} DecimalInjective(m: nat, n: nat)
    requires Decimal(m) == Decimal(n)
    ensures m == n
  {
    var s, t := Decimal(m), Decimal(n);
    assert s[|s| - 1] == Digit(m % 10) && t[|t| - 1] == Digit(n % 10);
    if m >= 10 && n >= 10 {
      assert Decimal(m / 10) == s[..|s| - 1] && Decimal(n / 10) == t[..|t| - 1];
      DecimalInjective(m / 10, n / 10);
    } else {
      DecimalLength(m);
      DecimalLength(n);
    }
  }

  lemma DecimalLength(n: nat)
    ensures |Decimal(n)| >= 1 && (|Decimal(n)| == 1 <==> n < 10)
  {}

  /** After its last colon a key has no other. */
  lemma NoLaterColon(a: string, x: string)
    requires ':' !in x
    ensures forall k :: |a| < k < |a + ":" + x| ==> (a + ":" + x)[k] != ':'
  {
    forall k | |a| < k < |a + ":" + x| ensures (a + ":" + x)[k] != ':' {
      assert (a + ":" + x)[k] == x[k - |a| - 1];
    }
  }

  /** What follows the last colon is determined. */
  lemma LastColon(a: string, x: string, b: string, y: string)
    requires ':' !in x && ':' !in y && a + ":" + x == b + ":" + y
    ensures a == b && x == y
  {
    var s := a + ":" + x;
    assert s[|a|] == ':' && s[|b|] == ':';
    NoLaterColon(a, x);
    NoLaterColon(b, y);
    assert a == s[..|a|] && b == s[..|b|] && x == s[|a| + 1..] && y == s[|b| + 1..];
  }

  lemma EndpointKeyInjective(e: Endpoint, f: Endpoint)
    requires EndpointKey(e) == EndpointKey(f)
    ensures e == f
  {
    DecimalHasNoColon(e.port);
    DecimalHasNoColon(f.port);
    LastColon(e.ip, Decimal(e.port), f.ip, Decimal(f.port));
    DecimalInjective(e.port, f.port);
  }

  /** A reply key names one endpoint and one packet type, whatever text the address is. */
  lemma ReplyKeyInjective(e: Endpoint, t: nat, f: Endpoint, v: nat)
    requires ReplyKey(e, t) == ReplyKey(f, v)
    ensures e == f && t == v
  {
    DecimalHasNoColon(t);
    DecimalHasNoColon(v);
    LastColon(EndpointKey(e), Decimal(t), EndpointKey(f), Decimal(v));
    DecimalInjective(t, v);
    EndpointKeyInjective(e, f);
  }

  //
  // State
  //

  datatype Phase = Sending | Waiting | Done

  /** A call of ping() with its PONG slot; `expiration` is zero until a PONG fills it. */
  datatype Ping = Ping(to: Endpoint, hash: ByteSeq, expiration: nat, phase: Phase)

  /** A call of request_enr() with its response slot. */
  datatype EnrRequest = EnrRequest(to: Endpoint, hash: ByteSeq, record: ByteSeq, phase: Phase)

  /** A call of find_node(), which has no slot. */
  datatype FindNode = FindNode(to: Endpoint, phase: Phase)

  /** The slots an entry shares with its coroutine; None is the null pointer. */
  datatype PendingReply = PendingReply(pong: Option<nat>, enr: Option<nat>, expectedHash: ByteSeq)

  /** What arrived, for stating where a bond comes from. */
  datatype Received = GotPing(from: Endpoint) | GotPong(from: Endpoint, pingHash: ByteSeq)

  /** `fault` is set when a handler writes through a null slot. */
  datatype State = State(
    running: bool, pending: map<string, PendingReply>, bonded: set<string>,
    pings: seq<Ping>, enrs: seq<EnrRequest>, finds: seq<FindNode>, received: set<Received>, fault: bool)

  datatype Step =
    | Start
    | Stop
    | StartPing(e: Endpoint, hash: ByteSeq)
    | PingSent(k: nat, ok: bool)
    | PingWoken(k: nat)
    | StartEnr(e: Endpoint, hash: ByteSeq)
    | EnrSent(k: nat, ok: bool)
    | EnrWoken(k: nat)
    | StartFind(e: Endpoint)
    | FindSent(k: nat, ok: bool)
    | FindWoken(k: nat)
    | ReceivePing(e: Endpoint, answered: bool)
    | ReceivePong(e: Endpoint, pingHash: ByteSeq, wireExpiration: nat)
    | ReceiveEnr(e: Endpoint, requestHash: ByteSeq, record: ByteSeq)

  predicate Enabled(s: State, step: Step) {
    match step
    case PingSent(k, _) => k < |s.pings| && s.pings[k].phase == Sending
    case PingWoken(k) => k < |s.pings| && s.pings[k].phase == Waiting
    case EnrSent(k, _) => k < |s.enrs| && s.enrs[k].phase == Sending
    case EnrWoken(k) => k < |s.enrs| && s.enrs[k].phase == Waiting
    case FindSent(k, _) => k < |s.finds| && s.finds[k].phase == Sending
    case FindWoken(k) => k < |s.finds| && s.finds[k].phase == Waiting
    case StartPing(_, _) => s.running
    case StartEnr(_, _) => s.running
    case _ => true
  }

  const TWO32: nat := 0x1_0000_0000

  /** handle_pong: the slot of whichever entry is under the key now, and only for its own hash. */
  function HandlePong(s: State, e: Endpoint, pingHash: ByteSeq, wireExpiration: nat): State {
    var s' := s.(received := s.received + {GotPong(e, pingHash)});
    var key := ReplyKey(e, PONG);
    if key !in s.pending || s.pending[key].expectedHash != pingHash then s'
    else match s.pending[key].pong
      case None => s'.(fault := true)
      case Some(k) =>
        if k < |s.pings| then s'.(pings := s.pings[k := s.pings[k].(expiration := wireExpiration % TWO32)]) else s'
  }

  function HandleEnr(s: State, e: Endpoint, requestHash: ByteSeq, record: ByteSeq): State {
    var key := ReplyKey(e, ENR_RESPONSE);
    if key !in s.pending || s.pending[key].expectedHash != requestHash then s
    else match s.pending[key].enr
      case None => s.(fault := true)
      case Some(k) => if k < |s.enrs| then s.(enrs := s.enrs[k := s.enrs[k].(record := record)]) else s
  }

  function BeginPing(s: State, e: Endpoint, hash: ByteSeq): State {
    s.(pings := s.pings + [Ping(e, hash, 0, Sending)],
       pending := s.pending[ReplyKey(e, PONG) := PendingReply(Some(|s.pings|), None, hash)])
  }

  /** The rest of ping() after its wait: the entry under the key goes, whoever's it is. */
  function FinishPing(s: State, k: nat): State
    requires k < |s.pings|
  {
    var p := s.pings[k];
    var s' := s.(pings := s.pings[k := p.(phase := Done)], pending := s.pending - {ReplyKey(p.to, PONG)});
    if p.expiration != 0 then s'.(bonded := s.bonded + {EndpointKey(p.to)}) else s'
  }

  function Apply(s: State, step: Step): State
    requires Enabled(s, step)
  {
    match step
    case Start => s.(running := true)
    case Stop => s.(running := false, pending := map[])
    case StartPing(e, hash) => BeginPing(s, e, hash)
    case PingSent(k, ok) =>
      if ok then s.(pings := s.pings[k := s.pings[k].(phase := Waiting)])
      else s.(pings := s.pings[k := s.pings[k].(phase := Done)], pending := s.pending - {ReplyKey(s.pings[k].to, PONG)})
    case PingWoken(k) => FinishPing(s, k)
    case StartEnr(e, hash) =>
      s.(enrs := s.enrs + [EnrRequest(e, hash, [], Sending)],
         pending := s.pending[ReplyKey(e, ENR_RESPONSE) := PendingReply(None, Some(|s.enrs|), hash)])
    case EnrSent(k, ok) =>
      if ok then s.(enrs := s.enrs[k := s.enrs[k].(phase := Waiting)])
      else s.(enrs := s.enrs[k := s.enrs[k].(phase := Done)],
              pending := s.pending - {ReplyKey(s.enrs[k].to, ENR_RESPONSE)})
    case EnrWoken(k) =>
      s.(enrs := s.enrs[k := s.enrs[k].(phase := Done)], pending := s.pending - {ReplyKey(s.enrs[k].to, ENR_RESPONSE)})
    case StartFind(e) =>
      s.(finds := s.finds + [FindNode(e, Sending)],
         pending := s.pending[ReplyKey(e, NEIGHBOURS) := PendingReply(None, None, [])])
    case FindSent(k, ok) =>
      if ok then s.(finds := s.finds[k := s.finds[k].(phase := Waiting)])
      else s.(finds := s.finds[k := s.finds[k].(phase := Done)],
              pending := s.pending - {ReplyKey(s.finds[k].to, NEIGHBOURS)})
    case FindWoken(k) =>
      s.(finds := s.finds[k := s.finds[k].(phase := Done)],
         pending := s.pending - {ReplyKey(s.finds[k].to, NEIGHBOURS)})
    case ReceivePing(e, answered) =>
      var s' := s.(received := s.received + {GotPing(e)});
      if answered then s'.(bonded := s.bonded + {EndpointKey(e)}) else s'
    case ReceivePong(e, pingHash, wireExpiration) => HandlePong(s, e, pingHash, wireExpiration)
    case ReceiveEnr(e, requestHash, record) => HandleEnr(s, e, requestHash, record)
  }

  const INITIAL: State := State(false, map[], {}, [], [], [], {}, false)

  ghost predicate Run(trace: seq<State>, steps: seq<Step>) {
    && |trace| == |steps| + 1 && trace[0] == INITIAL
    && forall i :: 0 <= i < |steps| ==> Follows(trace[i], steps[i], trace[i + 1])
  }

  predicate Follows(s: State, step: Step, s': State) { Enabled(s, step) && s' == Apply(s, step) }

  //
  // The invariant
  //

  /** The `k`-th ping was addressed to `e` and its hash came back from there. */
  predicate Answered(s: State, k: nat, e: Endpoint) {
    k < |s.pings| && s.pings[k].to == e && GotPong(e, s.pings[k].hash) in s.received
  }

  ghost predicate Proven(s: State, e: Endpoint) {
    GotPing(e) in s.received || exists k :: Answered(s, k, e)
  }

  predicate PongEntryOk(s: State, e: Endpoint, entry: PendingReply) {
    && entry.pong.Some? && entry.pong.value < |s.pings|
    && s.pings[entry.pong.value].to == e && s.pings[entry.pong.value].hash == entry.expectedHash
  }

  predicate EnrEntryOk(s: State, e: Endpoint, entry: PendingReply) {
    && entry.enr.Some? && entry.enr.value < |s.enrs|
    && s.enrs[entry.enr.value].to == e && s.enrs[entry.enr.value].hash == entry.expectedHash
  }

  ghost predicate EntriesOk(s: State) {
    && (forall e :: ReplyKey(e, PONG) in s.pending ==> PongEntryOk(s, e, s.pending[ReplyKey(e, PONG)]))
    && (forall e :: ReplyKey(e, ENR_RESPONSE) in s.pending ==> EnrEntryOk(s, e, s.pending[ReplyKey(e, ENR_RESPONSE)]))
  }

  ghost predicate SlotsOk(s: State) {
    forall k :: 0 <= k < |s.pings| && s.pings[k].expiration != 0 ==>
      GotPong(s.pings[k].to, s.pings[k].hash) in s.received
  }

  ghost predicate BondsOk(s: State) {
    forall e :: EndpointKey(e) in s.bonded ==> Proven(s, e)
  }

  ghost predicate Inv(s: State) { EntriesOk(s) && SlotsOk(s) && BondsOk(s) && !s.fault }

  //
  // Each step keeps it
  //

  /** Calls keep their target and hash; replies seen stay seen. */
  ghost predicate Grows(s: State, s': State) {
    && |s.pings| <= |s'.pings| && |s.enrs| <= |s'.enrs| && s.received <= s'.received
    && (forall k :: 0 <= k < |s.pings| ==> s'.pings[k].to == s.pings[k].to && s'.pings[k].hash == s.pings[k].hash)
    && (forall k :: 0 <= k < |s.enrs| ==> s'.enrs[k].to == s.enrs[k].to && s'.enrs[k].hash == s.enrs[k].hash)
  }

  /** Entries that were there before, or one new entry good for its key. */
  ghost predicate EntriesFrom(s: State, s': State, e: Endpoint, ptype: nat) {
    forall key <- s'.pending ::
      || (key in s.pending && s'.pending[key] == s.pending[key])
      || (key == ReplyKey(e, ptype)
          && (ptype == PONG ==> PongEntryOk(s', e, s'.pending[key]))
          && (ptype == ENR_RESPONSE ==> EnrEntryOk(s', e, s'.pending[key])))
  }

  lemma KeepEntries(s: State, s': State, e: Endpoint, ptype: nat)
    requires EntriesOk(s) && Grows(s, s') && EntriesFrom(s, s', e, ptype)
    ensures EntriesOk(s')
  {
    forall f | ReplyKey(f, PONG) in s'.pending ensures PongEntryOk(s', f, s'.pending[ReplyKey(f, PONG)]) {
      if ReplyKey(f, PONG) == ReplyKey(e, ptype) { ReplyKeyInjective(f, PONG, e, ptype); }
    }
    forall f | ReplyKey(f, ENR_RESPONSE) in s'.pending
      ensures EnrEntryOk(s', f, s'.pending[ReplyKey(f, ENR_RESPONSE)])
    {
      if ReplyKey(f, ENR_RESPONSE) == ReplyKey(e, ptype) { ReplyKeyInjective(f, ENR_RESPONSE, e, ptype); }
    }
  }

  lemma GrowProven(s: State, s': State, e: Endpoint)
    requires Grows(s, s') && Proven(s, e)
    ensures Proven(s', e)
  {
    if GotPing(e) !in s.received {
      var k :| Answered(s, k, e);
      assert Answered(s', k, e);
    }
  }

  lemma KeepBonds(s: State, s': State, e: Endpoint)
    requires BondsOk(s) && Grows(s, s') && s'.bonded <= s.bonded + {EndpointKey(e)}
    requires s'.bonded <= s.bonded || Proven(s', e)
    ensures BondsOk(s')
  {
    forall f | EndpointKey(f) in s'.bonded ensures Proven(s', f) {
      if EndpointKey(f) in s.bonded { GrowProven(s, s', f); } else { EndpointKeyInjective(e, f); }
    }
  }

  /** A step that bonds nothing. */
  lemma KeepQuiet(s: State, s': State, e: Endpoint, ptype: nat)
    requires Inv(s) && Grows(s, s') && EntriesFrom(s, s', e, ptype) && s'.bonded == s.bonded
    requires SlotsOk(s') && !s'.fault
    ensures Inv(s')
  {
    KeepEntries(s, s', e, ptype);
    KeepBonds(s, s', e);
  }

  lemma KeepPong(s: State, e: Endpoint, pingHash: ByteSeq, wireExpiration: nat)
    requires Inv(s)
    ensures Inv(HandlePong(s, e, pingHash, wireExpiration))
  {
    KeepQuiet(s, HandlePong(s, e, pingHash, wireExpiration), e, PONG);
  }

  lemma KeepWoken(s: State, k: nat)
    requires Inv(s) && k < |s.pings|
    ensures Inv(FinishPing(s, k))
  {
    var s', e := FinishPing(s, k), s.pings[k].to;
    if s.pings[k].expiration != 0 { assert Answered(s', k, e); }
    KeepEntries(s, s', e, PONG);
    KeepBonds(s, s', e);
  }

  /** Sends that finish and waits that end without a bond only take entries away. */
  lemma KeepFewer(s: State, s': State)
    requires Inv(s) && Grows(s, s') && s'.bonded == s.bonded && !s'.fault && s'.received == s.received
    requires |s'.pings| == |s.pings|
    requires forall k :: 0 <= k < |s.pings| ==> s'.pings[k].expiration == s.pings[k].expiration
    requires forall key <- s'.pending :: key in s.pending && s'.pending[key] == s.pending[key]
    ensures Inv(s')
  {
    KeepQuiet(s, s', Endpoint("", 0), NEIGHBOURS);
  }

  lemma KeepCall(s: State, step: Step)
    requires Inv(s) && Enabled(s, step) && (step.StartPing? || step.StartEnr? || step.StartFind?)
    ensures Inv(Apply(s, step))
  {
    var ptype := if step.StartPing? then PONG else if step.StartEnr? then ENR_RESPONSE else NEIGHBOURS;
    KeepQuiet(s, Apply(s, step), step.e, ptype);
  }

  lemma KeepReceived(s: State, step: Step)
    requires Inv(s) && (step.ReceivePing? || step.ReceivePong? || step.ReceiveEnr?)
    ensures Inv(Apply(s, step))
  {
    var s' := Apply(s, step);
    match step
    case ReceivePing(e, _) =>
      KeepEntries(s, s', e, PONG);
      KeepBonds(s, s', e);
    case ReceivePong(e, pingHash, wireExpiration) => KeepPong(s, e, pingHash, wireExpiration);
    case ReceiveEnr(e, _, _) => KeepQuiet(s, s', e, ENR_RESPONSE);
  }

  lemma KeepSend(s: State, step: Step)
    requires Inv(s) && Enabled(s, step) && (step.PingSent? || step.EnrSent? || step.FindSent?)
    ensures Inv(Apply(s, step))
  {
    KeepFewer(s, Apply(s, step));
  }

  lemma KeepRest(s: State, step: Step)
    requires Inv(s) && Enabled(s, step) && (step.Start? || step.Stop? || step.EnrWoken? || step.FindWoken?)
    ensures Inv(Apply(s, step))
  {
    KeepFewer(s, Apply(s, step));
  }

  lemma KeepStep(s: State, step: Step)
    requires Inv(s) && Enabled(s, step)
    ensures Inv(Apply(s, step))
  {
    if step.PingWoken? { KeepWoken(s, step.k); }
    else if step.StartPing? || step.StartEnr? || step.StartFind? { KeepCall(s, step); }
    else if step.ReceivePing? || step.ReceivePong? || step.ReceiveEnr? { KeepReceived(s, step); }
    else if step.PingSent? || step.EnrSent? || step.FindSent? { KeepSend(s, step); }
    else { KeepRest(s, step); }
  }

  lemma {:induction false} RunKeepsInv(trace: seq<State>, steps: seq<Step>)
    requires Run(trace, steps)
    ensures Inv(trace[|steps|])
    decreases |steps|
  {
    if |steps| > 0 {
      var k := |steps| - 1;
      var before := trace[..|steps|];
      assert Run(before, steps[..k]);
      RunKeepsInv(before, steps[..k]);
      assert Follows(trace[k], steps[k], trace[k + 1]);
      KeepStep(trace[k], steps[k]);
    }
  }

  //
  // The theorems
  //

  /** In every run an endpoint is bonded only if it sent a PING, or a PONG with the hash of a PING addressed to it. */
  lemma BondedOnlyIfProven(trace: seq<State>, steps: seq<Step>, e: Endpoint)
    requires Run(trace, steps) && EndpointKey(e) in trace[|steps|].bonded
    ensures var s := trace[|steps|];
            || GotPing(e) in s.received
            || exists k :: 0 <= k < |s.pings| && s.pings[k].to == e && GotPong(e, s.pings[k].hash) in s.received
  {
    RunKeepsInv(trace, steps);
    var s := trace[|steps|];
    if GotPing(e) !in s.received {
      assert Proven(s, e);
      var k :| Answered(s, k, e);
    }
  }

  /**
   In every run an entry under a PONG key has the PONG slot of a ping to that endpoint, so none is written through null.
   */
  lemma PongEntriesHaveSlots(trace: seq<State>, steps: seq<Step>, e: Endpoint)
    requires Run(trace, steps)
    ensures var s := trace[|steps|];
            && !s.fault
            && (ReplyKey(e, PONG) in s.pending ==>
                  var slot := s.pending[ReplyKey(e, PONG)].pong;
                  slot.Some? && slot.value < |s.pings| && s.pings[slot.value].to == e)
  {
    RunKeepsInv(trace, steps);
  }

  //
  // Which PONG leads to a bond
  //

  /** The entry under the ping's key is the one the ping put there. */
  predicate Owns(s: State, k: nat) {
    && k < |s.pings| && ReplyKey(s.pings[k].to, PONG) in s.pending
    && s.pending[ReplyKey(s.pings[k].to, PONG)].pong == Some(k)
  }

  /** The steps that take or replace the PONG entry of `e`. */
  predicate Disturbs(s: State, step: Step, e: Endpoint) {
    match step
    case Stop => true
    case StartPing(f, _) => f == e
    case PingSent(m, ok) => !ok && m < |s.pings| && s.pings[m].to == e
    case PingWoken(m) => m < |s.pings| && s.pings[m].to == e
    case _ => false
  }

  /**
   A PONG leads a waiting ping to a new bond exactly when the entry under the key is still the ping's own, the PONG
   echoes the ping's hash, and its expiration, cut to 32 bits, is not zero.
   */
  lemma AnswerBonds(trace: seq<State>, steps: seq<Step>, k: nat, pingHash: ByteSeq, wireExpiration: nat)
    requires Run(trace, steps) && k < |trace[|steps|].pings|
    requires var s := trace[|steps|]; var p := s.pings[k];
             p.phase == Waiting && p.expiration == 0 && EndpointKey(p.to) !in s.bonded
    ensures var s := trace[|steps|]; var p := s.pings[k];
            EndpointKey(p.to) in FinishPing(HandlePong(s, p.to, pingHash, wireExpiration), k).bonded <==>
            Owns(s, k) && pingHash == p.hash && wireExpiration % TWO32 != 0
  {
    RunKeepsInv(trace, steps);
    var s, e := trace[|steps|], trace[|steps|].pings[k].to;
    if ReplyKey(e, PONG) in s.pending { assert PongEntryOk(s, e, s.pending[ReplyKey(e, PONG)]); }
  }

  /** Only these steps touch a ping or the PONG entries. */
  predicate OfPings(step: Step) { step.StartPing? || step.PingSent? || step.PingWoken? || step.ReceivePong? }

  lemma OthersLeavePings(s: State, step: Step)
    requires Enabled(s, step) && !OfPings(step)
    ensures Apply(s, step).pings == s.pings
  {}

  /** Pings are never forgotten and keep their target and hash. */
  lemma PingsStep(s: State, step: Step)
    requires Enabled(s, step)
    ensures |Apply(s, step).pings| == |s.pings| + (if step.StartPing? then 1 else 0)
    ensures forall k :: 0 <= k < |s.pings| ==>
              Apply(s, step).pings[k].to == s.pings[k].to && Apply(s, step).pings[k].hash == s.pings[k].hash
  {
    if !OfPings(step) { OthersLeavePings(s, step); }
  }

  /** Steps of other requests leave the PONG entry of `e` alone. */
  lemma OthersLeaveEntry(s: State, step: Step, e: Endpoint)
    requires Enabled(s, step) && !OfPings(step) && !step.Stop?
    ensures var key := ReplyKey(e, PONG); var s' := Apply(s, step);
            (key in s'.pending <==> key in s.pending) && (key in s.pending ==> s'.pending[key] == s.pending[key])
  {
    match step
    case StartEnr(f, _) => SameKey(e, PONG, f, ENR_RESPONSE);
    case EnrSent(m, _) => SameKey(e, PONG, s.enrs[m].to, ENR_RESPONSE);
    case EnrWoken(m) => SameKey(e, PONG, s.enrs[m].to, ENR_RESPONSE);
    case StartFind(f) => SameKey(e, PONG, f, NEIGHBOURS);
    case FindSent(m, _) => SameKey(e, PONG, s.finds[m].to, NEIGHBOURS);
    case FindWoken(m) => SameKey(e, PONG, s.finds[m].to, NEIGHBOURS);
    case _ =>
  }

  /** What a step does to the PONG entry of `e`. */
  lemma EntryStep(s: State, step: Step, e: Endpoint)
    requires Enabled(s, step)
    ensures var key := ReplyKey(e, PONG); var s' := Apply(s, step);
            if step.StartPing? && step.e == e then key in s'.pending && s'.pending[key].pong == Some(|s.pings|)
            else if Disturbs(s, step, e) then key !in s'.pending
            else (key in s'.pending <==> key in s.pending) && (key in s.pending ==> s'.pending[key] == s.pending[key])
  {
    if !OfPings(step) && !step.Stop? {
      OthersLeaveEntry(s, step, e);
    } else {
      match step
      case StartPing(f, _) => SameKey(e, PONG, f, PONG);
      case PingSent(m, _) => SameKey(e, PONG, s.pings[m].to, PONG);
      case PingWoken(m) => SameKey(e, PONG, s.pings[m].to, PONG);
      case _ =>
    }
  }

  /** A ping's entry, once lost, never comes back: later entries belong to later pings. */
  lemma OwnsStep(s: State, step: Step, k: nat)
    requires Enabled(s, step) && k < |s.pings|
    ensures Owns(Apply(s, step), k) <==> Owns(s, k) && !Disturbs(s, step, s.pings[k].to)
  {
    PingsStep(s, step);
    EntryStep(s, step, s.pings[k].to);
  }

  lemma SameKey(e: Endpoint, t: nat, f: Endpoint, v: nat)
    ensures ReplyKey(e, t) == ReplyKey(f, v) <==> e == f && t == v
  {
    if ReplyKey(e, t) == ReplyKey(f, v) { ReplyKeyInjective(e, t, f, v); }
  }

  /** Step `i` of the run is the start of ping `k`. */
  ghost predicate Begins(trace: seq<State>, steps: seq<Step>, i: nat, k: nat)
    requires |trace| == |steps| + 1
  {
    i < |steps| && steps[i].StartPing? && |trace[i].pings| == k
  }

  ghost predicate Undisturbed(trace: seq<State>, steps: seq<Step>, i: nat, n: nat)
    requires |trace| == |steps| + 1 && i < n <= |steps| && steps[i].StartPing?
  {
    forall j :: i < j < n ==> !Disturbs(trace[j], steps[j], steps[i].e)
  }

  lemma {:induction false} PingBegan(trace: seq<State>, steps: seq<Step>, n: nat, k: nat) returns (i: nat)
    requires Run(trace, steps) && n <= |steps| && k < |trace[n].pings|
    ensures i < n && Begins(trace, steps, i, k)
  {
    assert n > 0;
    assert Follows(trace[n - 1], steps[n - 1], trace[n]);
    PingsStep(trace[n - 1], steps[n - 1]);
    if k < |trace[n - 1].pings| { i := PingBegan(trace, steps, n - 1, k); } else { i := n - 1; }
  }

  lemma OwnsAtStart(trace: seq<State>, steps: seq<Step>, i: nat, k: nat)
    requires Run(trace, steps) && Begins(trace, steps, i, k)
    ensures Owns(trace[i + 1], k)
    ensures trace[i + 1].pings[k].to == steps[i].e && trace[i + 1].pings[k].hash == steps[i].hash
    ensures trace[i + 1].pings[k].expiration == 0
  {
    assert Follows(trace[i], steps[i], trace[i + 1]);
  }

  lemma OwnsNext(trace: seq<State>, steps: seq<Step>, n: nat, k: nat)
    requires Run(trace, steps) && n < |steps| && k < |trace[n].pings|
    ensures k < |trace[n + 1].pings|
    ensures trace[n + 1].pings[k].to == trace[n].pings[k].to && trace[n + 1].pings[k].hash == trace[n].pings[k].hash
    ensures Owns(trace[n + 1], k) <==> Owns(trace[n], k) && !Disturbs(trace[n], steps[n], trace[n].pings[k].to)
  {
    assert Follows(trace[n], steps[n], trace[n + 1]);
    PingsStep(trace[n], steps[n]);
    OwnsStep(trace[n], steps[n], k);
  }

  lemma UndisturbedNext(trace: seq<State>, steps: seq<Step>, i: nat, n: nat)
    requires |trace| == |steps| + 1 && i < n < |steps| && steps[i].StartPing?
    ensures Undisturbed(trace, steps, i, n + 1) <==>
            Undisturbed(trace, steps, i, n) && !Disturbs(trace[n], steps[n], steps[i].e)
  {}

  /**
   In every run a ping's entry is its own exactly while no Stop, no later ping to the endpoint and no end of a ping to
   it has come since.
   */
  lemma {:induction false} OwnsWhileUndisturbed(trace: seq<State>, steps: seq<Step>, i: nat, k: nat, n: nat)
    requires Run(trace, steps) && Begins(trace, steps, i, k) && i < n <= |steps|
    ensures k < |trace[n].pings| && trace[n].pings[k].to == steps[i].e && trace[n].pings[k].hash == steps[i].hash
    ensures Owns(trace[n], k) <==> Undisturbed(trace, steps, i, n)
  {
    if n == i + 1 {
      OwnsAtStart(trace, steps, i, k);
    } else {
      var m := n - 1;
      OwnsWhileUndisturbed(trace, steps, i, k, m);
      OwnsNext(trace, steps, m, k);
      UndisturbedNext(trace, steps, i, m);
    }
  }

  /** Step `h` is a PONG that reaches the ping begun at `i`. */
  ghost predicate Answers(trace: seq<State>, steps: seq<Step>, i: nat, h: nat)
    requires |trace| == |steps| + 1 && i < h < |steps| && steps[i].StartPing?
  {
    && steps[h].ReceivePong? && steps[h].e == steps[i].e && steps[h].pingHash == steps[i].hash
    && Undisturbed(trace, steps, i, h)
  }

  /** The last PONG to reach the ping before step `n` is step `h`. */
  ghost predicate LastAnswer(trace: seq<State>, steps: seq<Step>, i: nat, n: nat, h: int)
    requires |trace| == |steps| + 1 && n <= |steps| && i < |steps| && steps[i].StartPing?
  {
    i < h < n && Answers(trace, steps, i, h) && forall g :: h < g < n ==> !Answers(trace, steps, i, g)
  }

  /** The last PONG to reach the ping before step `n` has a non-zero expiration. */
  ghost predicate Filled(trace: seq<State>, steps: seq<Step>, i: nat, n: nat)
    requires |trace| == |steps| + 1 && n <= |steps| && i < |steps| && steps[i].StartPing?
  {
    exists h :: LastAnswer(trace, steps, i, n, h) && steps[h].wireExpiration % TWO32 != 0
  }

  lemma SlotStep(s: State, step: Step, k: nat)
    requires Inv(s) && Enabled(s, step) && k < |s.pings|
    ensures k < |Apply(s, step).pings|
    ensures Apply(s, step).pings[k].expiration ==
            if step.ReceivePong? && step.e == s.pings[k].to && step.pingHash == s.pings[k].hash && Owns(s, k)
            then step.wireExpiration % TWO32 else s.pings[k].expiration
  {
    if step.ReceivePong? && ReplyKey(step.e, PONG) in s.pending {
      assert PongEntryOk(s, step.e, s.pending[ReplyKey(step.e, PONG)]);
    }
  }

  /** The slot of ping `k` after `n` steps. */
  ghost function Expiration(trace: seq<State>, k: nat, n: nat): nat
    requires n < |trace|
  { if k < |trace[n].pings| then trace[n].pings[k].expiration else 0 }

  lemma SlotNext(trace: seq<State>, steps: seq<Step>, i: nat, k: nat, n: nat)
    requires Run(trace, steps) && Begins(trace, steps, i, k) && i < n < |steps|
    ensures Expiration(trace, k, n + 1) ==
            if Answers(trace, steps, i, n) then steps[n].wireExpiration % TWO32 else Expiration(trace, k, n)
  {
    OwnsWhileUndisturbed(trace, steps, i, k, n);
    PrefixKeepsInv(trace, steps, n);
    assert Follows(trace[n], steps[n], trace[n + 1]);
    SlotStep(trace[n], steps[n], k);
  }

  lemma SlotAtStart(trace: seq<State>, steps: seq<Step>, i: nat, k: nat)
    requires Run(trace, steps) && Begins(trace, steps, i, k)
    ensures Expiration(trace, k, i + 1) == 0
  {
    OwnsAtStart(trace, steps, i, k);
  }

  /** No PONG reaches the ping from step `a` to step `n`. */
  ghost predicate Quiet(trace: seq<State>, steps: seq<Step>, i: nat, a: nat, n: nat)
    requires |trace| == |steps| + 1 && i < a && n <= |steps| && i < |steps| && steps[i].StartPing?
  {
    forall g :: a <= g < n ==> !Answers(trace, steps, i, g)
  }

  lemma {:induction false} SlotKept(trace: seq<State>, steps: seq<Step>, i: nat, k: nat, a: nat, n: nat)
    requires Run(trace, steps) && Begins(trace, steps, i, k) && i < a <= n <= |steps| && Quiet(trace, steps, i, a, n)
    ensures Expiration(trace, k, n) == Expiration(trace, k, a)
  {
    if a < n {
      var m := n - 1;
      SlotNext(trace, steps, i, k, m);
      SlotKept(trace, steps, i, k, a, m);
    }
  }

  /** Either nothing reached the ping before step `n`, or some PONG did last. */
  lemma {:induction false} QuietOrLast(trace: seq<State>, steps: seq<Step>, i: nat, n: nat) returns (h: int)
    requires |trace| == |steps| + 1 && i < n <= |steps| && steps[i].StartPing?
    ensures Quiet(trace, steps, i, i + 1, n) || LastAnswer(trace, steps, i, n, h)
  {
    h := n - 1;
    if i < h && !Answers(trace, steps, i, h) { h := QuietOrLast(trace, steps, i, h); }
  }

  /** In every run a ping's slot is filled exactly when the last PONG to reach it had a non-zero expiration. */
  lemma SlotIsLastAnswer(trace: seq<State>, steps: seq<Step>, i: nat, k: nat, n: nat)
    requires Run(trace, steps) && Begins(trace, steps, i, k) && i < n <= |steps|
    ensures Expiration(trace, k, n) != 0 <==> Filled(trace, steps, i, n)
  {
    var h := QuietOrLast(trace, steps, i, n);
    if Quiet(trace, steps, i, i + 1, n) {
      SlotAtStart(trace, steps, i, k);
      SlotKept(trace, steps, i, k, i + 1, n);
    } else {
      SlotNext(trace, steps, i, k, h);
      SlotKept(trace, steps, i, k, h + 1, n);
    }
  }

  lemma PrefixKeepsInv(trace: seq<State>, steps: seq<Step>, n: nat)
    requires Run(trace, steps) && n <= |steps|
    ensures Inv(trace[n])
  {
    assert Run(trace[..n + 1], steps[..n]);
    RunKeepsInv(trace[..n + 1], steps[..n]);
  }

  /**
   In every run the end of a ping's wait bonds an endpoint not yet bonded exactly when the last PONG from there that
   echoed the ping's hash, before a Stop, a later ping to the endpoint or the end of one, had a non-zero expiration.
   */
  lemma WakeBonds(trace: seq<State>, steps: seq<Step>, i: nat, k: nat)
    requires Run(trace, steps) && |steps| > 0 && steps[|steps| - 1] == PingWoken(k)
    requires Begins(trace, steps, i, k) && EndpointKey(steps[i].e) !in trace[|steps| - 1].bonded
    ensures EndpointKey(steps[i].e) in trace[|steps|].bonded <==> Filled(trace, steps, i, |steps| - 1)
  {
    var n := |steps| - 1;
    assert Follows(trace[n], steps[n], trace[n + 1]);
    SlotIsLastAnswer(trace, steps, i, k, n);
    OwnsWhileUndisturbed(trace, steps, i, k, n);
  }

  lemma Extend(trace: seq<State>, steps: seq<Step>, step: Step) returns (trace': seq<State>, steps': seq<Step>)
    requires Run(trace, steps) && Enabled(trace[|steps|], step)
    ensures Run(trace', steps') && trace'[|steps'|] == Apply(trace[|steps|], step)
  {
    trace', steps' := trace + [Apply(trace[|steps|], step)], steps + [step];
  }

  /** Two pings to one endpoint: the first to time out takes the second's entry, and the second's PONG is dropped. */
  lemma OverlapDropsReply(e: Endpoint, first: ByteSeq, second: ByteSeq) returns (trace: seq<State>, steps: seq<Step>)
    requires first != second
    ensures Run(trace, steps)
    ensures var s := trace[|steps|];
            && |s.pings| == 2 && s.pings[1] == Ping(e, second, 0, Done) && GotPong(e, second) in s.received
            && s.bonded == {}
  {
    trace, steps := [INITIAL], [];
    trace, steps := Extend(trace, steps, Start);
    trace, steps := Extend(trace, steps, StartPing(e, first));
    trace, steps := Extend(trace, steps, PingSent(0, true));
    trace, steps := Extend(trace, steps, StartPing(e, second));
    trace, steps := Extend(trace, steps, PingSent(1, true));
    trace, steps := Extend(trace, steps, PingWoken(0));
    trace, steps := Extend(trace, steps, ReceivePong(e, second, 1));
    trace, steps := Extend(trace, steps, PingWoken(1));
  }

  //
  // The client object: each method is what one coroutine or handler does between two suspensions
  //

  class Discv4Client {
    var running: bool
    var pendingReplies: map<string, PendingReply>
    var bondedSet: set<string>
    var pings: seq<Ping>
    var enrs: seq<EnrRequest>
    var finds: seq<FindNode>
    ghost var received: set<Received>
    ghost var fault: bool

    constructor ()
      ensures Now() == INITIAL
    {
      running, pendingReplies, bondedSet := false, map[], {};
      pings, enrs, finds, received, fault := [], [], [], {}, false;
    }

    ghost function Now(): State
      reads this
    { State(running, pendingReplies, bondedSet, pings, enrs, finds, received, fault) }

    method Stop()
      modifies this
      ensures Now() == Apply(old(Now()), Step.Stop)
    {
      running := false;
      pendingReplies := map[];
    }

    /** ping() up to its send. */
    method SendPing(e: Endpoint, hash: ByteSeq) returns (slot: Option<nat>)
      modifies this
      ensures !old(running) ==> slot.None? && Now() == old(Now())
      ensures old(running) ==> slot == Some(|old(pings)|) && Now() == Apply(old(Now()), StartPing(e, hash))
    {
      if !running { return None; }
      slot := Some(|pings|);
      pings := pings + [Ping(e, hash, 0, Sending)];
      pendingReplies := pendingReplies[ReplyKey(e, PONG) := PendingReply(slot, None, hash)];
    }

    method FinishSend(k: nat, ok: bool)
      requires Enabled(Now(), PingSent(k, ok))
      modifies this
      ensures Now() == Apply(old(Now()), PingSent(k, ok))
    {
      if ok {
        pings := pings[k := pings[k].(phase := Waiting)];
      } else {
        pendingReplies := pendingReplies - {ReplyKey(pings[k].to, PONG)};
        pings := pings[k := pings[k].(phase := Done)];
      }
    }

    /** ping() after its timer fires or is cancelled: the slot decides. */
    method FinishWait(k: nat) returns (pong: Option<nat>)
      requires Enabled(Now(), PingWoken(k))
      modifies this
      ensures Now() == Apply(old(Now()), PingWoken(k))
      ensures pong.Some? <==> old(pings[k]).expiration != 0
    {
      var p := pings[k];
      pings := pings[k := p.(phase := Done)];
      pendingReplies := pendingReplies - {ReplyKey(p.to, PONG)};
      if p.expiration == 0 { return None; }
      bondedSet := bondedSet + {EndpointKey(p.to)};
      pong := Some(p.expiration);
    }

    method ReceivePing(e: Endpoint, answered: bool)
      modifies this
      ensures Now() == Apply(old(Now()), Step.ReceivePing(e, answered))
    {
      received := received + {GotPing(e)};
      if !answered { return; }
      bondedSet := bondedSet + {EndpointKey(e)};
    }

    /** The invariant is what makes the write through the slot safe. */
    method ReceivePong(e: Endpoint, pingHash: ByteSeq, wireExpiration: nat)
      requires Inv(Now())
      modifies this
      ensures Now() == Apply(old(Now()), Step.ReceivePong(e, pingHash, wireExpiration)) && Inv(Now())
    {
      KeepPong(Now(), e, pingHash, wireExpiration);
      received := received + {GotPong(e, pingHash)};
      var key := ReplyKey(e, PONG);
      if key !in pendingReplies { return; }
      var entry := pendingReplies[key];
      if pingHash != entry.expectedHash { return; }
      var k := entry.pong.value;
      pings := pings[k := pings[k].(expiration := wireExpiration % TWO32)];
    }

    /** request_enr() up to its send. */
    method RequestEnr(e: Endpoint, hash: ByteSeq) returns (slot: Option<nat>)
      modifies this
      ensures !old(running) ==> slot.None? && Now() == old(Now())
      ensures old(running) ==> slot == Some(|old(enrs)|) && Now() == Apply(old(Now()), StartEnr(e, hash))
    {
      if !running { return None; }
      slot := Some(|enrs|);
      enrs := enrs + [EnrRequest(e, hash, [], Sending)];
      pendingReplies := pendingReplies[ReplyKey(e, ENR_RESPONSE) := PendingReply(None, slot, hash)];
    }

    method ReceiveEnrResponse(e: Endpoint, requestHash: ByteSeq, record: ByteSeq)
      requires Inv(Now())
      modifies this
      ensures Now() == Apply(old(Now()), ReceiveEnr(e, requestHash, record)) && Inv(Now())
    {
      KeepReceived(Now(), ReceiveEnr(e, requestHash, record));
      var key := ReplyKey(e, ENR_RESPONSE);
      if key !in pendingReplies { return; }
      var entry := pendingReplies[key];
      if requestHash != entry.expectedHash { return; }
      var k := entry.enr.value;
      enrs := enrs[k := enrs[k].(record := record)];
    }
  }
}
