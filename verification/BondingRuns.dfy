/**
 Bonds and ENR responses of the discv4 client, told from the steps of a run: an endpoint is bonded from the first step
 that proves it on, and an ENR request is left with the last response that reaches it.
 */
module BondingRuns {
  import opened Bytes
  import opened Bonding

  //
  // Bonds
  //

  /** Step `j` ends the wait of a ping to `e` whose last PONG counts. */
  ghost predicate WakesProven(trace: seq<State>, steps: seq<Step>, j: nat, e: Endpoint)
    requires |trace| == |steps| + 1 && j < |steps|
  {
    && steps[j].PingWoken?
    && exists i :: 0 <= i < j && Begins(trace, steps, i, steps[j].k) && steps[i].e == e && Filled(trace, steps, i, j)
  }

  /** Step `j` proves the endpoint: its PING is answered, or a ping to it ends with a PONG that counts. */
  ghost predicate Proves(trace: seq<State>, steps: seq<Step>, j: nat, e: Endpoint)
    requires |trace| == |steps| + 1 && j < |steps|
  { steps[j] == ReceivePing(e, true) || WakesProven(trace, steps, j, e) }

  ghost predicate ProvenBefore(trace: seq<State>, steps: seq<Step>, n: nat, e: Endpoint)
    requires |trace| == |steps| + 1 && n <= |steps|
  { exists j :: 0 <= j < n && Proves(trace, steps, j, e) }

  lemma BondStep(s: State, step: Step, e: Endpoint)
    requires Enabled(s, step)
    ensures EndpointKey(e) in Apply(s, step).bonded <==>
            || EndpointKey(e) in s.bonded
            || step == ReceivePing(e, true)
            || (step.PingWoken? && s.pings[step.k].to == e && s.pings[step.k].expiration != 0)
  {
    var f := if step.ReceivePing? then step.e else if step.PingWoken? then s.pings[step.k].to else e;
    if EndpointKey(f) == EndpointKey(e) { EndpointKeyInjective(f, e); }
  }

  /** A woken ping has a counting PONG exactly when its slot is filled. */
  lemma WokenProven(trace: seq<State>, steps: seq<Step>, j: nat, e: Endpoint)
    requires Run(trace, steps) && j < |steps| && steps[j].PingWoken? && steps[j].k < |trace[j].pings|
    ensures var p := trace[j].pings[steps[j].k];
            p.to == e && p.expiration != 0 <==> WakesProven(trace, steps, j, e)
  {
    var k := steps[j].k;
    var i := PingBegan(trace, steps, j, k);
    forall h | 0 <= h < j && Begins(trace, steps, h, k)
      ensures trace[j].pings[k].to == steps[h].e
      ensures trace[j].pings[k].expiration != 0 <==> Filled(trace, steps, h, j)
    {
      OwnsWhileUndisturbed(trace, steps, h, k, j);
      SlotIsLastAnswer(trace, steps, h, k, j);
    }
  }

  /**
   In every run an endpoint is bonded if and only if some earlier step proved it; so an answered PING bonds its sender,
   and a bond is never lost.
   */
  lemma {:induction false} BondedIffProven(trace: seq<State>, steps: seq<Step>, n: nat, e: Endpoint)
    requires Run(trace, steps) && n <= |steps|
    ensures EndpointKey(e) in trace[n].bonded <==> ProvenBefore(trace, steps, n, e)
  {
    if n > 0 {
      var m := n - 1;
      BondedIffProven(trace, steps, m, e);
      assert Follows(trace[m], steps[m], trace[m + 1]);
      BondStep(trace[m], steps[m], e);
      if steps[m].PingWoken? { WokenProven(trace, steps, m, e); }
      ProvenNext(trace, steps, m, e);
    }
  }

  lemma ProvenNext(trace: seq<State>, steps: seq<Step>, n: nat, e: Endpoint)
    requires |trace| == |steps| + 1 && n < |steps|
    ensures ProvenBefore(trace, steps, n + 1, e) <==> ProvenBefore(trace, steps, n, e) || Proves(trace, steps, n, e)
  {}

  //
  // ENR responses
  //

  /** The entry under the request's key is the one the request put there. */
  predicate EnrOwns(s: State, k: nat) {
    && k < |s.enrs| && ReplyKey(s.enrs[k].to, ENR_RESPONSE) in s.pending
    && s.pending[ReplyKey(s.enrs[k].to, ENR_RESPONSE)].enr == Some(k)
  }

  /** The steps that take or replace the ENR entry of `e`. */
  predicate EnrDisturbs(s: State, step: Step, e: Endpoint) {
    match step
    case Stop => true
    case StartEnr(f, _) => f == e
    case EnrSent(m, ok) => !ok && m < |s.enrs| && s.enrs[m].to == e
    case EnrWoken(m) => m < |s.enrs| && s.enrs[m].to == e
    case _ => false
  }

  predicate OfEnrs(step: Step) { step.StartEnr? || step.EnrSent? || step.EnrWoken? || step.ReceiveEnr? }

  /** Requests are never forgotten and keep their target and hash. */
  lemma EnrsStep(s: State, step: Step)
    requires Enabled(s, step)
    ensures |Apply(s, step).enrs| == |s.enrs| + (if step.StartEnr? then 1 else 0)
    ensures forall k :: 0 <= k < |s.enrs| ==>
              Apply(s, step).enrs[k].to == s.enrs[k].to && Apply(s, step).enrs[k].hash == s.enrs[k].hash
  {
    if !OfEnrs(step) { OthersLeaveEnrs(s, step); }
  }

  lemma OthersLeaveEnrs(s: State, step: Step)
    requires Enabled(s, step) && !OfEnrs(step)
    ensures Apply(s, step).enrs == s.enrs
  {}

  /** Steps of other requests leave the ENR entry of `e` alone. */
  lemma OthersLeaveEnrEntry(s: State, step: Step, e: Endpoint)
    requires Enabled(s, step) && !OfEnrs(step) && !step.Stop?
    ensures var key := ReplyKey(e, ENR_RESPONSE); var s' := Apply(s, step);
            (key in s'.pending <==> key in s.pending) && (key in s.pending ==> s'.pending[key] == s.pending[key])
  {
    match step
    case StartPing(f, _) => SameKey(e, ENR_RESPONSE, f, PONG);
    case PingSent(m, _) => SameKey(e, ENR_RESPONSE, s.pings[m].to, PONG);
    case PingWoken(m) => SameKey(e, ENR_RESPONSE, s.pings[m].to, PONG);
    case StartFind(f) => SameKey(e, ENR_RESPONSE, f, NEIGHBOURS);
    case FindSent(m, _) => SameKey(e, ENR_RESPONSE, s.finds[m].to, NEIGHBOURS);
    case FindWoken(m) => SameKey(e, ENR_RESPONSE, s.finds[m].to, NEIGHBOURS);
    case _ =>
  }

  lemma EnrEntryStep(s: State, step: Step, e: Endpoint)
    requires Enabled(s, step)
    ensures var key := ReplyKey(e, ENR_RESPONSE); var s' := Apply(s, step);
            if step.StartEnr? && step.e == e then key in s'.pending && s'.pending[key].enr == Some(|s.enrs|)
            else if EnrDisturbs(s, step, e) then key !in s'.pending
            else (key in s'.pending <==> key in s.pending) && (key in s.pending ==> s'.pending[key] == s.pending[key])
  {
    if !OfEnrs(step) && !step.Stop? {
      OthersLeaveEnrEntry(s, step, e);
    } else {
      match step
      case StartEnr(f, _) => SameKey(e, ENR_RESPONSE, f, ENR_RESPONSE);
      case EnrSent(m, _) => SameKey(e, ENR_RESPONSE, s.enrs[m].to, ENR_RESPONSE);
      case EnrWoken(m) => SameKey(e, ENR_RESPONSE, s.enrs[m].to, ENR_RESPONSE);
      case _ =>
    }
  }

  lemma EnrOwnsStep(s: State, step: Step, k: nat)
    requires Enabled(s, step) && k < |s.enrs|
    ensures EnrOwns(Apply(s, step), k) <==> EnrOwns(s, k) && !EnrDisturbs(s, step, s.enrs[k].to)
  {
    EnrsStep(s, step);
    EnrEntryStep(s, step, s.enrs[k].to);
  }

  lemma EnrSlotStep(s: State, step: Step, k: nat)
    requires Inv(s) && Enabled(s, step) && k < |s.enrs|
    ensures k < |Apply(s, step).enrs|
    ensures Apply(s, step).enrs[k].record ==
            if step.ReceiveEnr? && step.e == s.enrs[k].to && step.requestHash == s.enrs[k].hash && EnrOwns(s, k)
            then step.record else s.enrs[k].record
  {
    if step.ReceiveEnr? && ReplyKey(step.e, ENR_RESPONSE) in s.pending {
      assert EnrEntryOk(s, step.e, s.pending[ReplyKey(step.e, ENR_RESPONSE)]);
    }
  }

  /** Step `i` of the run is the start of ENR request `k`. */
  ghost predicate EnrBegins(trace: seq<State>, steps: seq<Step>, i: nat, k: nat)
    requires |trace| == |steps| + 1
  { i < |steps| && steps[i].StartEnr? && |trace[i].enrs| == k }

  ghost predicate EnrUndisturbed(trace: seq<State>, steps: seq<Step>, i: nat, n: nat)
    requires |trace| == |steps| + 1 && i < n <= |steps| && steps[i].StartEnr?
  { forall j :: i < j < n ==> !EnrDisturbs(trace[j], steps[j], steps[i].e) }

  /** Step `h` is a response that reaches the request begun at `i`. */
  ghost predicate Responds(trace: seq<State>, steps: seq<Step>, i: nat, h: nat)
    requires |trace| == |steps| + 1 && i < h < |steps| && steps[i].StartEnr?
  {
    && steps[h].ReceiveEnr? && steps[h].e == steps[i].e && steps[h].requestHash == steps[i].hash
    && EnrUndisturbed(trace, steps, i, h)
  }

  /** The record of the last response to reach the request before step `n`, if there is one. */
  ghost function LastRecord(trace: seq<State>, steps: seq<Step>, i: nat, n: nat): ByteSeq
    requires |trace| == |steps| + 1 && i < n <= |steps| && steps[i].StartEnr?
  {
    if n == i + 1 then []
    else if Responds(trace, steps, i, n - 1) then steps[n - 1].record
    else LastRecord(trace, steps, i, n - 1)
  }

  lemma EnrUndisturbedNext(trace: seq<State>, steps: seq<Step>, i: nat, n: nat)
    requires |trace| == |steps| + 1 && i < n < |steps| && steps[i].StartEnr?
    ensures EnrUndisturbed(trace, steps, i, n + 1) <==>
            EnrUndisturbed(trace, steps, i, n) && !EnrDisturbs(trace[n], steps[n], steps[i].e)
  {}

  /**
   In every run an ENR request holds the record of the last response from its endpoint that echoed its hash, before a
   Stop, a later ENR request to the endpoint or the end of one.
   */
  lemma {:induction false} EnrIsLastResponse(trace: seq<State>, steps: seq<Step>, i: nat, k: nat, n: nat)
    requires Run(trace, steps) && EnrBegins(trace, steps, i, k) && i < n <= |steps|
    ensures k < |trace[n].enrs| && trace[n].enrs[k].to == steps[i].e && trace[n].enrs[k].hash == steps[i].hash
    ensures EnrOwns(trace[n], k) <==> EnrUndisturbed(trace, steps, i, n)
    ensures trace[n].enrs[k].record == LastRecord(trace, steps, i, n)
  {
    var m := n - 1;
    assert Follows(trace[m], steps[m], trace[m + 1]);
    if m > i {
      EnrIsLastResponse(trace, steps, i, k, m);
      PrefixKeepsInv(trace, steps, m);
      EnrsStep(trace[m], steps[m]);
      EnrOwnsStep(trace[m], steps[m], k);
      EnrSlotStep(trace[m], steps[m], k);
      EnrUndisturbedNext(trace, steps, i, m);
    }
  }
}
