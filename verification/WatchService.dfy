/**
 The watch service: subscriptions, receipt requests and their answers, and the dispatch of received logs.
 */
module WatchService {
  import opened Bytes
  import opened EventWatch
  import CT = ChainTracker

  datatype Receipt = Receipt(status: Option<bool>, logs: seq<LogEntry>)

  //
  // process_receipts
  //

  /** What processing some receipts of a block does: deliveries, counts and the next free log index. */
  datatype Batch = Batch(delivered: seq<Delivery>, seen: nat, matched: nat, discarded: nat, next: nat)

  /** One block's receipts with their transaction hashes and, where known, their log indices. */
  datatype BlockReceipts = BlockReceipts(
    receipts: seq<Receipt>, txHashes: seq<Hash>, number: nat, hash: Hash, indices: seq<seq<nat>>)

  /** A receipt without a transaction hash is skipped. */
  function Usable(b: BlockReceipts): nat {
    if |b.receipts| < |b.txHashes| then |b.receipts| else |b.txHashes|
  }

  function FirstIndex(b: BlockReceipts, i: nat, next: nat): nat {
    if i < |b.indices| && b.indices[i] != [] then b.indices[i][0] else next
  }

  function Ctx(b: BlockReceipts, i: nat): Context
    requires i < |b.txHashes|
  { Context(b.number, b.hash, b.txHashes[i]) }

  function Process(subs: seq<Subscription>, b: BlockReceipts, n: nat): Batch
    requires n <= Usable(b)
  {
    if n == 0 then Batch([], 0, 0, 0, 0)
    else
      var prev, logs := Process(subs, b, n - 1), b.receipts[n - 1].logs;
      var hits := CountWanted(subs, logs, |logs|, b.number);
      Batch(prev.delivered + Deliver(subs, logs, |logs|, Ctx(b, n - 1), FirstIndex(b, n - 1, prev.next)),
            prev.seen + |logs|, prev.matched + hits, prev.discarded + (|logs| - hits), Index(prev.next + |logs|))
  }

  lemma {:induction false} LogsConserved(subs: seq<Subscription>, b: BlockReceipts, n: nat)
    requires n <= Usable(b)
    ensures Process(subs, b, n).seen == Process(subs, b, n).matched + Process(subs, b, n).discarded
  {
    if n > 0 { LogsConserved(subs, b, n - 1); }
  }

  /** All logs of the first `n` receipts. */
  function LogsOf(receipts: seq<Receipt>, n: nat): seq<LogEntry>
    requires n <= |receipts|
  { if n == 0 then [] else LogsOf(receipts, n - 1) + receipts[n - 1].logs }

  ghost predicate NoIndices(b: BlockReceipts) { forall i :: 0 <= i < |b.indices| ==> b.indices[i] == [] }

  /** The deliveries of one receipt, numbered on from the logs before it. */
  lemma OneReceipt(subs: seq<Subscription>, before: seq<LogEntry>, logs: seq<LogEntry>, c: Context, tx: Hash)
    ensures AllSame(Deliver(subs, logs, |logs|, c, Index(|before|)),
                    Deliver(subs, logs, |logs|, Context(c.blockNumber, c.blockHash, tx), |before|))
  {
    DeliverWraps(subs, logs, |logs|, c, |before|);
    DeliverSame(subs, logs, |logs|, c, tx, |before|);
  }

  /** One more receipt on both sides. */
  lemma NextReceipt(subs: seq<Subscription>, before: seq<LogEntry>, logs: seq<LogEntry>, c: Context, tx: Hash,
                    head: seq<Delivery>)
    requires AllSame(head, Deliver(subs, before, |before|, Context(c.blockNumber, c.blockHash, tx), 0))
    ensures AllSame(head + Deliver(subs, logs, |logs|, c, Index(|before|)),
                    Deliver(subs, before + logs, |before + logs|, Context(c.blockNumber, c.blockHash, tx), 0))
  {
    var c' := Context(c.blockNumber, c.blockHash, tx);
    OneReceipt(subs, before, logs, c, tx);
    DeliverConcat(subs, before, logs, |logs|, c', 0);
    SameConcat(head, Deliver(subs, before, |before|, c', 0),
               Deliver(subs, logs, |logs|, c, Index(|before|)), Deliver(subs, logs, |logs|, c', |before|));
  }

  lemma {:induction false} NextIsPosition(subs: seq<Subscription>, b: BlockReceipts, n: nat)
    requires n <= Usable(b)
    ensures Process(subs, b, n).next == Index(|LogsOf(b.receipts, n)|)
  {
    if n > 0 {
      NextIsPosition(subs, b, n - 1);
      IndexAdd(|LogsOf(b.receipts, n - 1)|, |b.receipts[n - 1].logs|);
    }
  }

  /** The first `n` receipts deliver what their logs deliver together. */
  ghost predicate Agrees(subs: seq<Subscription>, b: BlockReceipts, n: nat, tx: Hash)
    requires n <= Usable(b)
  {
    var logs := LogsOf(b.receipts, n);
    AllSame(Process(subs, b, n).delivered, Deliver(subs, logs, |logs|, Context(b.number, b.hash, tx), 0))
  }

  lemma DeliveredNext(subs: seq<Subscription>, b: BlockReceipts, n: nat)
    requires n < Usable(b) && NoIndices(b)
    ensures var before, logs := LogsOf(b.receipts, n), b.receipts[n].logs;
            Process(subs, b, n + 1).delivered ==
            Process(subs, b, n).delivered + Deliver(subs, logs, |logs|, Ctx(b, n), Index(|before|))
  {
    NextIsPosition(subs, b, n);
    assert FirstIndex(b, n, Process(subs, b, n).next) == Index(|LogsOf(b.receipts, n)|);
  }

  lemma AgreesNext(subs: seq<Subscription>, b: BlockReceipts, n: nat, tx: Hash)
    requires n < Usable(b) && NoIndices(b) && Agrees(subs, b, n, tx)
    ensures Agrees(subs, b, n + 1, tx)
  {
    DeliveredNext(subs, b, n);
    NextReceipt(subs, LogsOf(b.receipts, n), b.receipts[n].logs, Ctx(b, n), tx, Process(subs, b, n).delivered);
  }

  lemma {:induction false} ReceiptsRun(subs: seq<Subscription>, b: BlockReceipts, n: nat, tx: Hash)
    requires n <= Usable(b) && NoIndices(b)
    ensures Agrees(subs, b, n, tx)
  {
    if n > 0 {
      ReceiptsRun(subs, b, n - 1, tx);
      AgreesNext(subs, b, n - 1, tx);
    }
  }

  /**
   Without log indices and with a transaction hash per receipt, receipts deliver the same logs with the same
   block-wide indices, in the same order, as the block's logs taken together.
   */
  lemma ReceiptsAsBlockLogs(subs: seq<Subscription>, b: BlockReceipts)
    requires |b.receipts| <= |b.txHashes| && NoIndices(b)
    ensures var logs := LogsOf(b.receipts, |b.receipts|);
            AllSame(Process(subs, b, |b.receipts|).delivered,
                    Deliver(subs, logs, |logs|, Context(b.number, b.hash, ZERO_HASH), 0))
  {
    ReceiptsRun(subs, b, |b.receipts|, ZERO_HASH);
  }

  //
  // The service
  //

  /** Receipt requests: `sent` remembers every request made, `correlated` every request an answer was matched with. */
  datatype Requests = Requests(
    accepted: seq<CT.Block>, pending: map<nat, CT.Block>, nextReq: nat, requested: nat,
    sent: map<nat, CT.Block>, correlated: seq<(nat, CT.Block)>)

  datatype Stats = Stats(processed: nat, logsSeen: nat, matched: nat, discarded: nat)

  /** `ids` are the service's own subscriptions, `subs` the watcher's. */
  datatype Service = Service(
    r: Requests, stats: Stats, ids: seq<nat>, nextId: nat, subs: seq<Subscription>, watcherNextId: nat,
    delivered: seq<Delivery>)

  const NO_REQUESTS: Requests := Requests([], map[], 1, 0, map[], [])
  const INITIAL: Service := Service(NO_REQUESTS, Stats(0, 0, 0, 0), [], 1, [], 1, [])

  const ADDRESS_BYTES: nat := 20
  const ZERO_ADDRESS: ByteSeq := BigEndian(0, ADDRESS_BYTES)

  /** The filter of watch_event: the zero address stands for any contract. */
  function WatchFilter(address: ByteSeq, topic0: Hash, from: Option<nat>, to: Option<nat>): EventFilter {
    EventFilter(if address == ZERO_ADDRESS then [] else [address], [Some(topic0)], from, to)
  }

  function WithoutId(ids: seq<nat>, n: nat, id: nat): seq<nat>
    requires n <= |ids|
  { if n == 0 then [] else WithoutId(ids, n - 1, id) + if ids[n - 1] == id then [] else [ids[n - 1]] }

  function Watch(s: Service, filter: EventFilter): Service {
    s.(ids := s.ids + [s.nextId], nextId := (s.nextId + 1) % TWO32,
       subs := s.subs + [Subscription(s.watcherNextId, filter)], watcherNextId := (s.watcherNextId + 1) % TWO32)
  }

  function Unwatch(s: Service, id: nat): Service {
    s.(ids := WithoutId(s.ids, |s.ids|, id), subs := Without(s.subs, |s.subs|, id))
  }

  /** A block the tracker takes for new gets a request number; one whose request does not encode gets no more. */
  function Register(r: Requests, b: CT.Block, encodes: bool): Requests {
    if encodes
    then r.(nextReq := r.nextReq + 1, pending := r.pending[r.nextReq := b], requested := r.requested + 1,
            sent := r.sent[r.nextReq := b])
    else r.(nextReq := r.nextReq + 1)
  }

  /** request_receipts: nothing without a way to send, or for a block in the window. */
  function Request(r: Requests, window: nat, b: CT.Block, canSend: bool, encodes: bool): Requests {
    var (accepted, isNew) := CT.Accept(r.accepted, window, b);
    if canSend && isNew then Register(r.(accepted := accepted), b, encodes) else r
  }

  function Counted(stats: Stats, n: nat, p: Batch): Stats {
    Stats(stats.processed + n, stats.logsSeen + p.seen, stats.matched + p.matched, stats.discarded + p.discarded)
  }

  function ProcessBlock(s: Service, b: BlockReceipts): Service {
    var p := Process(s.subs, b, Usable(b));
    s.(delivered := s.delivered + p.delivered, stats := Counted(s.stats, Usable(b), p))
  }

  function Unknown(): CT.Block { CT.Block(ZERO_HASH, 0) }

  /** The block an answer belongs to: that of its pending request, if there is one. */
  function Correlate(r: Requests, requestId: Option<nat>): (Requests, CT.Block) {
    if requestId.None? || requestId.value !in r.pending then (r, Unknown())
    else
      var b := r.pending[requestId.value];
      (r.(pending := r.pending - {requestId.value}, correlated := r.correlated + [(requestId.value, b)]), b)
  }

  function ReceivedBlock(receipts: seq<Receipt>, b: CT.Block): BlockReceipts {
    BlockReceipts(receipts, seq(|receipts|, _ => ZERO_HASH), b.number, b.hash, [])
  }

  /** The first `n` blocks of a receipts message; only the first block is matched with the request. */
  function Receive(s: Service, requestId: Option<nat>, blocks: seq<seq<Receipt>>, n: nat): Service
    requires n <= |blocks|
  {
    if n == 0 then s
    else if n == 1 then var (r, b) := Correlate(s.r, requestId); ProcessBlock(s.(r := r), ReceivedBlock(blocks[0], b))
    else ProcessBlock(Receive(s, requestId, blocks, n - 1), ReceivedBlock(blocks[n - 1], Unknown()))
  }

  datatype Step =
    | DoWatch(address: ByteSeq, topic0: Hash, from: Option<nat>, to: Option<nat>)
    | DoUnwatch(id: nat)
    | DoRequest(b: CT.Block, canSend: bool, encodes: bool)
    | DoReceive(requestId: Option<nat>, blocks: seq<seq<Receipt>>)
    | DoProcess(block: BlockReceipts)

  function Apply(window: nat, s: Service, step: Step): Service {
    match step
    case DoWatch(address, topic0, from, to) => Watch(s, WatchFilter(address, topic0, from, to))
    case DoUnwatch(id) => Unwatch(s, id)
    case DoRequest(b, canSend, encodes) => s.(r := Request(s.r, window, b, canSend, encodes))
    case DoReceive(requestId, blocks) => Receive(s, requestId, blocks, |blocks|)
    case DoProcess(block) => ProcessBlock(s, block)
  }

  function Run(window: nat, steps: seq<Step>, n: nat): Service
    requires n <= |steps|
  { if n == 0 then INITIAL else Apply(window, Run(window, steps, n - 1), steps[n - 1]) }

  //
  // The invariant
  //

  /** Subscriptions made by watch_event ask for a first topic. */
  ghost predicate FromWatchEvent(subs: seq<Subscription>) {
    forall i :: 0 <= i < |subs| ==> |subs[i].filter.topics| > 0 && subs[i].filter.topics[0].Some?
  }

  ghost predicate SameIds(ids: seq<nat>, subs: seq<Subscription>) {
    |ids| == |subs| && forall i :: 0 <= i < |ids| ==> ids[i] == subs[i].id
  }

  /** Request `id` is for the `id`-th accepted block. */
  ghost predicate RequestsOk(window: nat, r: Requests) {
    && r.nextReq == |r.accepted| + 1 && CT.Separated(r.accepted, window)
    && r.requested == |r.pending| + |r.correlated|
    && (forall id <- r.sent :: 0 < id < r.nextReq && r.sent[id] == r.accepted[id - 1])
    && (forall id <- r.pending :: id in r.sent && r.pending[id] == r.sent[id])
    && CorrelatedOk(r)
  }

  ghost predicate CorrelatedOk(r: Requests) {
    && (forall i :: 0 <= i < |r.correlated| ==> AnswerOk(r, r.correlated[i].0, r.correlated[i].1))
    && (forall i, j :: 0 <= i < j < |r.correlated| ==> r.correlated[i].0 != r.correlated[j].0)
  }

  /** An answered request got its own block and is not pending any more. */
  predicate AnswerOk(r: Requests, id: nat, b: CT.Block) { id in r.sent && b == r.sent[id] && id !in r.pending }

  ghost predicate Inv(window: nat, s: Service) {
    && RequestsOk(window, s.r)
    && SameIds(s.ids, s.subs) && s.nextId == s.watcherNextId && FromWatchEvent(s.subs)
    && s.stats.logsSeen == s.stats.matched + s.stats.discarded
  }

  lemma {:induction false} WithoutSameIds(ids: seq<nat>, subs: seq<Subscription>, n: nat, id: nat)
    requires SameIds(ids, subs) && n <= |ids|
    ensures SameIds(WithoutId(ids, n, id), Without(subs, n, id))
  {
    if n > 0 { WithoutSameIds(ids, subs, n - 1, id); }
  }

  lemma {:induction false} WithoutKeepsTopics(subs: seq<Subscription>, n: nat, id: nat)
    requires FromWatchEvent(subs) && n <= |subs|
    ensures FromWatchEvent(Without(subs, n, id))
  {
    if n > 0 { WithoutKeepsTopics(subs, n - 1, id); }
  }

  lemma KeepRegister(window: nat, r: Requests, b: CT.Block, encodes: bool)
    requires RequestsOk(window, r) && CT.Separated(r.accepted + [b], window)
    ensures RequestsOk(window, Register(r.(accepted := r.accepted + [b]), b, encodes))
  {
    var r' := Register(r.(accepted := r.accepted + [b]), b, encodes);
    assert r.nextReq !in r.sent && r.nextReq !in r.pending;
    forall i | 0 <= i < |r'.correlated| ensures AnswerOk(r', r'.correlated[i].0, r'.correlated[i].1) {
      assert AnswerOk(r, r.correlated[i].0, r.correlated[i].1);
    }
  }

  lemma KeepRequest(window: nat, r: Requests, b: CT.Block, canSend: bool, encodes: bool)
    requires RequestsOk(window, r)
    ensures RequestsOk(window, Request(r, window, b, canSend, encodes))
  {
    CT.KeepSeparated(r.accepted, window, b);
    if canSend && CT.Accept(r.accepted, window, b).1 { KeepRegister(window, r, b, encodes); }
  }

  /** The answers stay those of requests no longer pending, one per request. */
  lemma CorrelateAnswers(r: Requests, id: nat)
    requires CorrelatedOk(r) && id in r.pending && id in r.sent && r.pending[id] == r.sent[id]
    ensures CorrelatedOk(r.(pending := r.pending - {id}, correlated := r.correlated + [(id, r.pending[id])]))
  {
    var r' := r.(pending := r.pending - {id}, correlated := r.correlated + [(id, r.pending[id])]);
    forall i | 0 <= i < |r'.correlated| ensures AnswerOk(r', r'.correlated[i].0, r'.correlated[i].1) {
      if i < |r.correlated| { assert AnswerOk(r, r.correlated[i].0, r.correlated[i].1); }
    }
    forall i, j | 0 <= i < j < |r'.correlated| ensures r'.correlated[i].0 != r'.correlated[j].0 {
      assert AnswerOk(r, r.correlated[i].0, r.correlated[i].1);
    }
  }

  lemma KeepCorrelate(window: nat, r: Requests, requestId: Option<nat>)
    requires RequestsOk(window, r)
    ensures RequestsOk(window, Correlate(r, requestId).0)
  {
    if requestId.Some? && requestId.value in r.pending {
      PendingSize(r.pending, requestId);
      CorrelateAnswers(r, requestId.value);
    }
  }

  lemma PendingSize(pending: map<nat, CT.Block>, requestId: Option<nat>)
    requires requestId.Some? && requestId.value in pending
    ensures |pending - {requestId.value}| == |pending| - 1
  {
    assert (pending - {requestId.value}).Keys == pending.Keys - {requestId.value};
  }

  /** Processing logs changes neither requests nor subscriptions. */
  ghost predicate OnlyLogs(s: Service, s': Service) {
    && s'.r == s.r && s'.ids == s.ids && s'.subs == s.subs && s'.nextId == s.nextId
    && s'.watcherNextId == s.watcherNextId
    && (s.stats.logsSeen == s.stats.matched + s.stats.discarded ==>
        s'.stats.logsSeen == s'.stats.matched + s'.stats.discarded)
  }

  lemma ProcessOnlyLogs(s: Service, b: BlockReceipts)
    ensures OnlyLogs(s, ProcessBlock(s, b))
  {
    LogsConserved(s.subs, b, Usable(b));
  }

  lemma {:induction false} ReceiveOnlyLogs(s: Service, requestId: Option<nat>, blocks: seq<seq<Receipt>>, n: nat)
    requires 0 < n <= |blocks|
    ensures OnlyLogs(s.(r := Correlate(s.r, requestId).0), Receive(s, requestId, blocks, n))
  {
    if n == 1 {
      var (r, b) := Correlate(s.r, requestId);
      ProcessOnlyLogs(s.(r := r), ReceivedBlock(blocks[0], b));
    } else {
      ReceiveOnlyLogs(s, requestId, blocks, n - 1);
      ProcessOnlyLogs(Receive(s, requestId, blocks, n - 1), ReceivedBlock(blocks[n - 1], Unknown()));
    }
  }

  lemma KeepReceive(window: nat, s: Service, requestId: Option<nat>, blocks: seq<seq<Receipt>>)
    requires Inv(window, s)
    ensures Inv(window, Receive(s, requestId, blocks, |blocks|))
  {
    if blocks != [] {
      KeepCorrelate(window, s.r, requestId);
      ReceiveOnlyLogs(s, requestId, blocks, |blocks|);
    }
  }

  lemma KeepWatch(window: nat, s: Service, filter: EventFilter)
    requires Inv(window, s) && |filter.topics| > 0 && filter.topics[0].Some?
    ensures Inv(window, Watch(s, filter))
  {}

  lemma KeepUnwatch(window: nat, s: Service, id: nat)
    requires Inv(window, s)
    ensures Inv(window, Unwatch(s, id))
  {
    WithoutSameIds(s.ids, s.subs, |s.ids|, id);
    WithoutKeepsTopics(s.subs, |s.subs|, id);
  }

  lemma KeepStep(window: nat, s: Service, step: Step)
    requires Inv(window, s)
    ensures Inv(window, Apply(window, s, step))
  {
    match step
    case DoWatch(address, topic0, from, to) => KeepWatch(window, s, WatchFilter(address, topic0, from, to));
    case DoUnwatch(id) => KeepUnwatch(window, s, id);
    case DoRequest(b, canSend, encodes) => KeepRequest(window, s.r, b, canSend, encodes);
    case DoReceive(requestId, blocks) => KeepReceive(window, s, requestId, blocks);
    case DoProcess(block) => ProcessOnlyLogs(s, block);
  }

  lemma {:induction false} RunKeepsInv(window: nat, steps: seq<Step>, n: nat)
    requires n <= |steps|
    ensures Inv(window, Run(window, steps, n))
  {
    if n > 0 {
      RunKeepsInv(window, steps, n - 1);
      KeepStep(window, Run(window, steps, n - 1), steps[n - 1]);
    }
  }

  //
  // The theorems
  //

  /** In every run each request is either pending or answered, and answered at most once, with its own block. */
  lemma RequestsAccountedFor(window: nat, steps: seq<Step>)
    ensures var r := Run(window, steps, |steps|).r;
            && r.requested == |r.pending| + |r.correlated|
            && (forall i :: 0 <= i < |r.correlated| ==> AnswerOk(r, r.correlated[i].0, r.correlated[i].1))
            && (forall i, j :: 0 <= i < j < |r.correlated| ==> r.correlated[i].0 != r.correlated[j].0)
  {
    RunKeepsInv(window, steps, |steps|);
  }

  /** In every run two requests for one block hash have at least `window` other accepted blocks between them. */
  lemma RequestsSeparated(window: nat, steps: seq<Step>, i: nat, j: nat)
    requires i < j && i in Run(window, steps, |steps|).r.sent && j in Run(window, steps, |steps|).r.sent
    requires Run(window, steps, |steps|).r.sent[i].hash == Run(window, steps, |steps|).r.sent[j].hash
    ensures 0 < i && j <= |Run(window, steps, |steps|).r.accepted| && j - i > window
  {
    RunKeepsInv(window, steps, |steps|);
  }

  /** In every run the service and its watcher hold the same subscriptions, and every log is matched or discarded. */
  lemma SubscriptionsAgree(window: nat, steps: seq<Step>)
    ensures var s := Run(window, steps, |steps|);
            SameIds(s.ids, s.subs) && FromWatchEvent(s.subs) && s.stats.logsSeen == s.stats.matched + s.stats.discarded
  {
    RunKeepsInv(window, steps, |steps|);
  }
}
