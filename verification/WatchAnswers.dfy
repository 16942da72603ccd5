/**
 What a receipts message delivers: the logs of its first block under the block that was asked for, all later blocks
 and all answers to nothing under the zero block, with every log counted.
 */
module WatchAnswers {
  import opened Bytes
  import opened EventWatch
  import opened WatchService
  import CT = ChainTracker

  //
  // One block of a message
  //

  /** The deliveries of a block's logs, numbered from the block's start, for a block of that number and hash. */
  function BlockDeliveries(subs: seq<Subscription>, receipts: seq<Receipt>, n: nat, number: nat, hash: Hash)
    : seq<Delivery>
    requires n <= |receipts|
  {
    var logs := LogsOf(receipts, n);
    Deliver(subs, logs, |logs|, Context(number, hash, ZERO_HASH), 0)
  }

  lemma DeliverAppends(subs: seq<Subscription>, before: seq<LogEntry>, logs: seq<LogEntry>, c: Context)
    ensures Deliver(subs, before + logs, |before + logs|, c, 0) ==
            Deliver(subs, before, |before|, c, 0) + Deliver(subs, logs, |logs|, c, Index(|before|))
  {
    DeliverWraps(subs, logs, |logs|, c, |before|);
    DeliverConcat(subs, before, logs, |logs|, c, 0);
  }

  lemma ReceivedNext(subs: seq<Subscription>, receipts: seq<Receipt>, b: CT.Block, n: nat)
    requires n < |receipts|
    requires Process(subs, ReceivedBlock(receipts, b), n).delivered ==
             BlockDeliveries(subs, receipts, n, b.number, b.hash)
    ensures Process(subs, ReceivedBlock(receipts, b), n + 1).delivered ==
            BlockDeliveries(subs, receipts, n + 1, b.number, b.hash)
  {
    DeliveredNext(subs, ReceivedBlock(receipts, b), n);
    DeliverAppends(subs, LogsOf(receipts, n), receipts[n].logs, Context(b.number, b.hash, ZERO_HASH));
  }

  lemma {:induction false} ReceivedExact(subs: seq<Subscription>, receipts: seq<Receipt>, b: CT.Block, n: nat)
    requires n <= |receipts|
    ensures Process(subs, ReceivedBlock(receipts, b), n).delivered ==
            BlockDeliveries(subs, receipts, n, b.number, b.hash)
  {
    if n > 0 {
      var m := n - 1;
      ReceivedExact(subs, receipts, b, m);
      ReceivedNext(subs, receipts, b, m);
    }
  }

  lemma StartDeliveries(subs: seq<Subscription>, logs: seq<LogEntry>, c: Context, d: Delivery) returns (k: nat, j: nat)
    requires d in Deliver(subs, logs, |logs|, c, 0)
    ensures k < |logs| && j < |subs| && Matches(subs[j].filter, logs[k], c.blockNumber)
    ensures d == Delivery(subs[j].id, MatchedEvent(logs[k], c.blockNumber, c.blockHash, c.txHash, Index(k)))
  {
    k, j := DeliveredFrom(subs, logs, c, 0, d);
  }

  lemma LogDelivered(subs: seq<Subscription>, logs: seq<LogEntry>, c: Context, first: nat, k: nat, i: nat, j: nat)
    requires k < |logs| && j < |subs| && Matches(subs[j].filter, logs[k], c.blockNumber) && i == first + k
    ensures Delivery(subs[j].id, Event(logs[k], c, Index(i))) in Deliver(subs, logs, |logs|, c, first)
  {
    DeliveredTo(subs, logs, c, first, k, j);
  }

  lemma StartDelivered(subs: seq<Subscription>, logs: seq<LogEntry>, c: Context, k: nat, j: nat)
    requires k < |logs| && j < |subs| && Matches(subs[j].filter, logs[k], c.blockNumber)
    ensures Delivery(subs[j].id, Event(logs[k], c, Index(k))) in Deliver(subs, logs, |logs|, c, 0)
  {
    LogDelivered(subs, logs, c, 0, k, k, j);
  }

  /** Every delivery of a block is one of its logs, with the block's number and hash, to a subscription wanting it. */
  lemma DeliveryOfBlock(subs: seq<Subscription>, receipts: seq<Receipt>, number: nat, hash: Hash, d: Delivery)
    returns (k: nat, j: nat)
    requires d in BlockDeliveries(subs, receipts, |receipts|, number, hash)
    ensures k < |LogsOf(receipts, |receipts|)| && j < |subs|
    ensures var log := LogsOf(receipts, |receipts|)[k];
            && Matches(subs[j].filter, log, number)
            && d == Delivery(subs[j].id, MatchedEvent(log, number, hash, ZERO_HASH, Index(k)))
  {
    k, j := StartDeliveries(subs, LogsOf(receipts, |receipts|), Context(number, hash, ZERO_HASH), d);
  }

  /** And every log of the block that a subscription wants at that number is delivered to it. */
  lemma BlockDelivered(subs: seq<Subscription>, receipts: seq<Receipt>, number: nat, hash: Hash, k: nat, j: nat)
    requires k < |LogsOf(receipts, |receipts|)| && j < |subs|
    requires Matches(subs[j].filter, LogsOf(receipts, |receipts|)[k], number)
    ensures var log := LogsOf(receipts, |receipts|)[k];
            Delivery(subs[j].id, MatchedEvent(log, number, hash, ZERO_HASH, Index(k)))
            in BlockDeliveries(subs, receipts, |receipts|, number, hash)
  {
    var logs := LogsOf(receipts, |receipts|);
    StartDelivered(subs, logs, Context(number, hash, ZERO_HASH), k, j);
  }

  //
  // A whole message
  //

  /** The first `n` parts one after the other. */
  function Joined(parts: seq<seq<Delivery>>, n: nat): seq<Delivery>
    requires n <= |parts|
  { if n == 0 then [] else Joined(parts, n - 1) + parts[n - 1] }

  /** The block each part of the message is processed under. */
  function BlockFor(s: Service, requestId: Option<nat>, i: nat): CT.Block {
    if i == 0 then Correlate(s.r, requestId).1 else Unknown()
  }

  function Part(s: Service, requestId: Option<nat>, blocks: seq<seq<Receipt>>, i: nat): seq<Delivery>
    requires i < |blocks|
  {
    var b := BlockFor(s, requestId, i);
    BlockDeliveries(s.subs, blocks[i], |blocks[i]|, b.number, b.hash)
  }

  ghost predicate PartsOf(s: Service, requestId: Option<nat>, blocks: seq<seq<Receipt>>, parts: seq<seq<Delivery>>) {
    |parts| == |blocks| && forall i :: 0 <= i < |parts| ==> parts[i] == Part(s, requestId, blocks, i)
  }

  lemma ReceiveNext(s: Service, requestId: Option<nat>, blocks: seq<seq<Receipt>>, parts: seq<seq<Delivery>>, n: nat)
    requires PartsOf(s, requestId, blocks, parts) && n < |blocks|
    ensures Receive(s, requestId, blocks, n + 1).delivered == Receive(s, requestId, blocks, n).delivered + parts[n]
  {
    if n > 0 { ReceiveOnlyLogs(s, requestId, blocks, n); }
    ReceivedExact(s.subs, blocks[n], BlockFor(s, requestId, n), |blocks[n]|);
  }

  lemma OneMorePart(head: seq<Delivery>, parts: seq<seq<Delivery>>, n: nat, was: seq<Delivery>, now: seq<Delivery>)
    requires n < |parts| && was == head + Joined(parts, n) && now == was + parts[n]
    ensures now == head + Joined(parts, n + 1)
  {
    Assoc3(head, Joined(parts, n), parts[n]);
  }

  lemma {:induction false} ReceiveParts(s: Service, requestId: Option<nat>, blocks: seq<seq<Receipt>>,
                                        parts: seq<seq<Delivery>>, n: nat)
    requires PartsOf(s, requestId, blocks, parts) && n <= |blocks|
    ensures Receive(s, requestId, blocks, n).delivered == s.delivered + Joined(parts, n)
  {
    if n > 0 {
      var m := n - 1;
      ReceiveParts(s, requestId, blocks, parts, m);
      ReceiveNext(s, requestId, blocks, parts, m);
      OneMorePart(s.delivered, parts, m, Receive(s, requestId, blocks, m).delivered,
                  Receive(s, requestId, blocks, m + 1).delivered);
    }
  }

  predicate NamesPending(r: Requests, requestId: Option<nat>) { requestId.Some? && requestId.value in r.pending }

  lemma BlocksFor(window: nat, s: Service, requestId: Option<nat>)
    requires Inv(window, s)
    ensures NamesPending(s.r, requestId) ==>
              requestId.value in s.r.sent && BlockFor(s, requestId, 0) == s.r.sent[requestId.value]
    ensures forall i: nat :: i > 0 || !NamesPending(s.r, requestId) ==>
              BlockFor(s, requestId, i) == CT.Block(ZERO_HASH, 0)
  {}

  /**
   In every run, a receipts message that names a pending request delivers its first block's logs with the number and
   hash the request was sent with; every later block, and every block of any other message, carries number 0 and the
   zero hash.
   */
  lemma AnswerDelivers(window: nat, steps: seq<Step>, n: nat) returns (parts: seq<seq<Delivery>>)
    requires n < |steps| && steps[n].DoReceive?
    ensures var s, s', m := Run(window, steps, n), Run(window, steps, n + 1), steps[n];
            && |parts| == |m.blocks| && s'.delivered == s.delivered + Joined(parts, |parts|)
            && (parts != [] && NamesPending(s.r, m.requestId) ==>
                  && m.requestId.value in s.r.sent
                  && var b := s.r.sent[m.requestId.value];
                     parts[0] == BlockDeliveries(s.subs, m.blocks[0], |m.blocks[0]|, b.number, b.hash))
            && (forall i :: 0 <= i < |parts| && (i > 0 || !NamesPending(s.r, m.requestId)) ==>
                  parts[i] == BlockDeliveries(s.subs, m.blocks[i], |m.blocks[i]|, 0, ZERO_HASH))
  {
    RunKeepsInv(window, steps, n);
    var s, m := Run(window, steps, n), steps[n];
    BlocksFor(window, s, m.requestId);
    parts := seq(|m.blocks|, i requires 0 <= i < |m.blocks| => Part(s, m.requestId, m.blocks, i));
    ReceiveParts(s, m.requestId, m.blocks, parts, |parts|);
  }

  //
  // Which requests are pending
  //

  /** A message with a block that names the request. */
  predicate Answers(s: Step, id: nat) { s.DoReceive? && s.requestId == Some(id) && s.blocks != [] }

  predicate Answered(window: nat, steps: seq<Step>, n: nat, id: nat)
    requires n <= |steps|
  { exists j :: 0 <= j < n && Answers(steps[j], id) && id in Run(window, steps, j).r.sent }

  lemma PendingStep(window: nat, s: Service, step: Step, id: nat)
    requires Inv(window, s)
    ensures var r, r' := s.r, Apply(window, s, step).r;
            && (id in r.sent ==> id in r'.sent)
            && (id in r'.pending <==> (id in r.pending && !Answers(step, id)) || (id !in r.sent && id in r'.sent))
  {
    if step.DoReceive? && step.blocks != [] {
      ReceiveOnlyLogs(s, step.requestId, step.blocks, |step.blocks|);
    }
  }

  /** In every run a request is pending from when it is sent until the first message that answers it. */
  lemma {:induction false} PendingTold(window: nat, steps: seq<Step>, n: nat, id: nat)
    requires n <= |steps|
    ensures var r := Run(window, steps, n).r;
            && (id in r.pending <==> id in r.sent && !Answered(window, steps, n, id))
            && (Answered(window, steps, n, id) ==> id in r.sent)
  {
    if n > 0 {
      var m := n - 1;
      var s := Run(window, steps, m);
      assert Run(window, steps, n) == Apply(window, s, steps[m]);
      PendingTold(window, steps, m, id);
      RunKeepsInv(window, steps, m);
      PendingStep(window, s, steps[m], id);
      AnsweredNext(window, steps, m, id);
    }
  }

  lemma AnsweredNext(window: nat, steps: seq<Step>, n: nat, id: nat)
    requires n < |steps|
    ensures Answered(window, steps, n + 1, id) <==>
            Answered(window, steps, n, id) || (Answers(steps[n], id) && id in Run(window, steps, n).r.sent)
  {}

  //
  // Which blocks are asked for
  //

  /** The hash is that of one of the last `window` blocks. */
  predicate Repeats(accepted: seq<CT.Block>, window: nat, hash: CT.Hash) {
    exists i :: 0 <= i < |accepted| && |accepted| - window <= i && accepted[i].hash == hash
  }

  lemma RepeatsIsWindow(accepted: seq<CT.Block>, window: nat, hash: CT.Hash)
    ensures hash in CT.Window(accepted, window) <==> Repeats(accepted, window, hash)
  {
    var w := CT.Window(accepted, window);
    var first := |accepted| - |w|;
    assert forall i :: 0 <= i < |w| ==> w[i] == accepted[first + i].hash;
    if Repeats(accepted, window, hash) {
      var i :| 0 <= i < |accepted| && |accepted| - window <= i && accepted[i].hash == hash;
      assert w[i - first] == hash;
    }
  }

  /**
   In every run a block is asked for if and only if there is a way to send, none of the last `window` accepted blocks
   has its hash, and the request encodes; it is then pending under a number never used before.
   */
  lemma RequestFate(window: nat, steps: seq<Step>, n: nat)
    requires n < |steps| && steps[n].DoRequest?
    ensures var r, r', m := Run(window, steps, n).r, Run(window, steps, n + 1).r, steps[n];
            && r.nextReq !in r.sent
            && if !m.canSend || Repeats(r.accepted, window, m.b.hash) then r' == r
               else
                 && r'.accepted == r.accepted + [m.b] && r'.nextReq == r.nextReq + 1 && r'.correlated == r.correlated
                 && r'.sent == (if m.encodes then r.sent[r.nextReq := m.b] else r.sent)
                 && r'.pending == (if m.encodes then r.pending[r.nextReq := m.b] else r.pending)
                 && r'.requested == r.requested + if m.encodes then 1 else 0
  {
    RunKeepsInv(window, steps, n);
    RepeatsIsWindow(Run(window, steps, n).r.accepted, window, steps[n].b.hash);
  }

  //
  // Subscriptions
  //

  /** What a subscription of watch_event asks for. */
  lemma WatchFilterMatches(address: ByteSeq, topic0: Hash, from: Option<nat>, to: Option<nat>, log: LogEntry,
                           block: nat)
    ensures Matches(WatchFilter(address, topic0, from, to), log, block) <==>
            && (address == BigEndian(0, 20) || log.address == address)
            && log.topics != [] && log.topics[0] == topic0
            && (from.None? || from.value <= block) && (to.None? || block <= to.value)
  {
    var f := WatchFilter(address, topic0, from, to);
    assert TopicOk(f.topics[0], log.topics, 0) <==> log.topics != [] && log.topics[0] == topic0;
  }

  /** Unwatching keeps exactly the subscriptions with another id, in their order. */
  lemma {:induction false} WithoutExact(subs: seq<Subscription>, n: nat, id: nat) returns (kept: seq<nat>)
    requires n <= |subs|
    ensures |kept| == |Without(subs, n, id)|
    ensures forall i :: 0 <= i < |kept| ==> kept[i] < n && Without(subs, n, id)[i] == subs[kept[i]]
    ensures forall i, j :: 0 <= i < j < |kept| ==> kept[i] < kept[j]
    ensures forall k :: 0 <= k < n ==> (k in kept <==> subs[k].id != id)
  {
    kept := [];
    if n > 0 {
      kept := WithoutExact(subs, n - 1, id);
      if subs[n - 1].id != id { kept := kept + [n - 1]; }
    }
  }

  //
  // The counts
  //

  /** The logs that some subscription wants. */
  function WantedAt(subs: seq<Subscription>, logs: seq<LogEntry>, n: nat, block: nat): set<nat>
    requires n <= |logs|
  { set k: nat | k < n && Wanted(subs, |subs|, logs[k], block) }

  lemma WantedSets(subs: seq<Subscription>, logs: seq<LogEntry>, n: nat, block: nat)
    requires n < |logs|
    ensures n !in WantedAt(subs, logs, n, block)
    ensures Wanted(subs, |subs|, logs[n], block) ==>
              WantedAt(subs, logs, n + 1, block) == WantedAt(subs, logs, n, block) + {n}
    ensures !Wanted(subs, |subs|, logs[n], block) ==>
              WantedAt(subs, logs, n + 1, block) == WantedAt(subs, logs, n, block)
  {}

  lemma SetGrows(was: set<nat>, now: set<nat>, n: nat, grows: bool)
    requires n !in was && now == if grows then was + {n} else was
    ensures |now| == |was| + if grows then 1 else 0
  {}

  lemma WantedNext(subs: seq<Subscription>, logs: seq<LogEntry>, n: nat, block: nat)
    requires n < |logs|
    ensures |WantedAt(subs, logs, n + 1, block)| ==
            |WantedAt(subs, logs, n, block)| + if Wanted(subs, |subs|, logs[n], block) then 1 else 0
  {
    WantedSets(subs, logs, n, block);
    SetGrows(WantedAt(subs, logs, n, block), WantedAt(subs, logs, n + 1, block), n,
             Wanted(subs, |subs|, logs[n], block));
  }

  lemma {:induction false} WantedCounted(subs: seq<Subscription>, logs: seq<LogEntry>, n: nat, block: nat)
    requires n <= |logs|
    ensures CountWanted(subs, logs, n, block) == |WantedAt(subs, logs, n, block)|
  {
    if n > 0 {
      WantedCounted(subs, logs, n - 1, block);
      WantedNext(subs, logs, n - 1, block);
    }
  }

  lemma {:induction false} CountConcat(subs: seq<Subscription>, a: seq<LogEntry>, b: seq<LogEntry>, n: nat, block: nat)
    requires n <= |a + b|
    ensures CountWanted(subs, a + b, n, block) ==
            if n <= |a| then CountWanted(subs, a, n, block)
            else CountWanted(subs, a, |a|, block) + CountWanted(subs, b, n - |a|, block)
  {
    if n > 0 { CountConcat(subs, a, b, n - 1, block); }
  }

  lemma {:induction false} ProcessAddsUp(subs: seq<Subscription>, b: BlockReceipts, n: nat)
    requires n <= Usable(b)
    ensures var p, logs := Process(subs, b, n), LogsOf(b.receipts, n);
            p.seen == |logs| && p.matched == CountWanted(subs, logs, |logs|, b.number)
  {
    if n > 0 {
      var before, logs := LogsOf(b.receipts, n - 1), b.receipts[n - 1].logs;
      ProcessAddsUp(subs, b, n - 1);
      CountConcat(subs, before, logs, |before + logs|, b.number);
    }
  }

  /** Processing a block sees each of its logs once, matches those that a subscription wants and discards the rest. */
  lemma ProcessCounts(s: Service, b: BlockReceipts)
    ensures var was, now, logs := s.stats, ProcessBlock(s, b).stats, LogsOf(b.receipts, Usable(b));
            var wanted := |WantedAt(s.subs, logs, |logs|, b.number)|;
            && now.processed == was.processed + Usable(b) && now.logsSeen == was.logsSeen + |logs|
            && now.matched == was.matched + wanted && now.discarded == was.discarded + |logs| - wanted
  {
    var logs := LogsOf(b.receipts, Usable(b));
    ProcessAddsUp(s.subs, b, Usable(b));
    LogsConserved(s.subs, b, Usable(b));
    WantedCounted(s.subs, logs, |logs|, b.number);
  }
}
