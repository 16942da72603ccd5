/**
 The watch service as the object that messages update.
 */
module WatchObjects {
  import opened Bytes
  import opened EventWatch
  import opened WatchService
  import CT = ChainTracker

  /** What one more receipt adds. */
  function Extended(p: Batch, delivered: seq<Delivery>, logs: nat, hits: nat): Batch
    requires hits <= logs
  { Batch(p.delivered + delivered, p.seen + logs, p.matched + hits, p.discarded + (logs - hits), Index(p.next + logs)) }

  function Added(t: Stats, logs: nat, hits: nat): Stats
    requires hits <= logs
  { Stats(t.processed, t.logsSeen + logs, t.matched + hits, t.discarded + (logs - hits)) }

  lemma ProcessNext(subs: seq<Subscription>, b: BlockReceipts, i: nat)
    requires i < Usable(b)
    ensures var p, logs := Process(subs, b, i), b.receipts[i].logs;
            Process(subs, b, i + 1) ==
            Extended(p, Deliver(subs, logs, |logs|, Ctx(b, i), FirstIndex(b, i, p.next)), |logs|,
                     CountWanted(subs, logs, |logs|, b.number))
  {}

  lemma ExtendedCounts(was: Stats, n: nat, p: Batch, before: seq<Delivery>, delivered: seq<Delivery>, logs: nat,
                       hits: nat)
    requires hits <= logs
    ensures Counted(was, n, Extended(p, delivered, logs, hits)) == Added(Counted(was, n, p), logs, hits)
    ensures before + Extended(p, delivered, logs, hits).delivered == (before + p.delivered) + delivered
  {}

  class EthWatchService {
    const watcher: EventWatcher
    const tracker: CT.Tracker
    var ids: seq<nat>
    var nextId: nat
    var pending: map<nat, CT.Block>
    var nextReq: nat
    var requested: nat
    var stats: Stats
    ghost var sent: map<nat, CT.Block>
    ghost var correlated: seq<(nat, CT.Block)>

    constructor (window: nat)
      ensures tracker.Valid() && Now() == INITIAL && fresh(watcher) && fresh(tracker) && fresh(tracker.ring)
      ensures tracker.window == if window == 0 then CT.DEFAULT_WINDOW else window
    {
      watcher := new EventWatcher();
      tracker := new CT.Tracker(window);
      ids, nextId, pending, nextReq, requested := [], 1, map[], 1, 0;
      stats := Stats(0, 0, 0, 0);
      sent, correlated := map[], [];
    }

    ghost function Now(): Service
      reads this, watcher, tracker
    {
      Service(Asked(), stats, ids, nextId, watcher.subscriptions, watcher.nextId, watcher.delivered)
    }

    method WatchEvent(address: ByteSeq, topic0: Hash, from: Option<nat>, to: Option<nat>) returns (id: nat)
      modifies this, watcher
      ensures Now() == Watch(old(Now()), WatchFilter(address, topic0, from, to)) && id == old(nextId)
    {
      id := nextId;
      nextId := (nextId + 1) % TWO32;
      var addresses := [];
      if address != ZERO_ADDRESS { addresses := addresses + [address]; }
      assert WatchFilter(address, topic0, from, to) == EventFilter(addresses, [Some(topic0)], from, to);
      ids := ids + [id];
      var watchId := watcher.Watch(EventFilter(addresses, [Some(topic0)], from, to));
    }

    method RemoveSubscription(id: nat)
      modifies this, watcher
      ensures Now() == Unwatch(old(Now()), id)
    {
      var kept := [];
      for i := 0 to |ids|
        invariant kept == WithoutId(ids, i, id) && Now() == old(Now())
      {
        if ids[i] != id { kept := kept + [ids[i]]; }
      }
      ids := kept;
      watcher.Unwatch(id);
    }

    ghost function Asked(): Requests
      reads this, tracker
    { Requests(tracker.accepted, pending, nextReq, requested, sent, correlated) }

    method RegisterRequest(b: CT.Block, encodes: bool)
      modifies `pending, `sent, `requested, `nextReq
      ensures Asked() == Register(old(Asked()), b, encodes)
    {
      var reqId := nextReq;
      nextReq := nextReq + 1;
      if !encodes { return; }
      pending := pending[reqId := b];
      sent := sent[reqId := b];
      requested := requested + 1;
    }

    method RequestReceipts(hash: CT.Hash, number: nat, canSend: bool, encodes: bool)
      requires tracker.Valid()
      modifies `pending, `sent, `requested, `nextReq, tracker, tracker.ring
      ensures tracker.Valid()
      ensures Asked() == Request(old(Asked()), tracker.window, CT.Block(hash, number), canSend, encodes)
    {
      if canSend {
        var isNew := tracker.MarkSeen(hash, number);
        if isNew { RegisterRequest(CT.Block(hash, number), encodes); }
      }
    }

    /** The deliveries and counts of the first `i` receipts, on top of what was there before. */
    ghost predicate Done(b: BlockReceipts, i: nat, n: nat, before: seq<Delivery>, was: Stats)
      requires i <= Usable(b)
      reads this, watcher
    {
      var p := Process(watcher.subscriptions, b, i);
      watcher.delivered == before + p.delivered && stats == Counted(was, n, p)
    }

    /** One receipt of a block. */
    method ProcessOne(b: BlockReceipts, i: nat, next: nat, ghost n: nat, ghost before: seq<Delivery>, ghost was: Stats)
      returns (next': nat)
      requires i < Usable(b) && next == Process(watcher.subscriptions, b, i).next && FirstIndex(b, i, next) < TWO32
      requires Done(b, i, n, before, was)
      modifies `stats, watcher`delivered
      ensures next' == Process(watcher.subscriptions, b, i + 1).next && Done(b, i + 1, n, before, was)
    {
      var logs := b.receipts[i].logs;
      var first := FirstIndex(b, i, next);
      ghost var subs, p := watcher.subscriptions, Process(watcher.subscriptions, b, i);
      ProcessNext(subs, b, i);
      ExtendedCounts(was, n, p, before, Deliver(subs, logs, |logs|, Ctx(b, i), first), |logs|,
                     CountWanted(subs, logs, |logs|, b.number));
      var matched := watcher.ProcessReceipt(logs, Ctx(b, i), first);
      stats := Added(stats, |logs|, matched);
      next' := AddIndex(next, |logs|);
    }

    method AddIndex(next: nat, count: nat) returns (r: nat)
      ensures r == Index(next + count)
    {
      IndexIsMod(next + count);
      r := (next + count) % TWO32;
    }

    /** Supplied indices are 32-bit words. */
    ghost predicate IndicesFit(b: BlockReceipts) {
      forall i :: 0 <= i < |b.indices| && b.indices[i] != [] ==> b.indices[i][0] < TWO32
    }

    lemma NextFits(subs: seq<Subscription>, b: BlockReceipts, i: nat)
      requires i < Usable(b) && IndicesFit(b)
      ensures FirstIndex(b, i, Process(subs, b, i).next) < TWO32
    {}

    method ProcessEach(b: BlockReceipts, count: nat, ghost before: seq<Delivery>, ghost was: Stats)
      requires count == Usable(b) && IndicesFit(b) && Done(b, 0, count, before, was)
      modifies `stats, watcher`delivered
      ensures Done(b, count, count, before, was)
    {
      var next := 0;
      for i := 0 to count
        invariant next == Process(watcher.subscriptions, b, i).next
        invariant Done(b, i, count, before, was)
      {
        NextFits(watcher.subscriptions, b, i);
        next := ProcessOne(b, i, next, count, before, was);
      }
    }

    method ProcessReceipts(b: BlockReceipts)
      requires IndicesFit(b)
      modifies `stats, watcher`delivered
      ensures Now() == ProcessBlock(old(Now()), b)
    {
      var count := Usable(b);
      stats := stats.(processed := stats.processed + count);
      ProcessEach(b, count, old(watcher.delivered), old(stats));
    }

    method MatchRequest(requestId: Option<nat>) returns (b: CT.Block)
      modifies `pending, `correlated
      ensures (Now().r, b) == Correlate(old(Now()).r, requestId) && Now() == old(Now()).(r := Now().r)
    {
      b := Unknown();
      if requestId.Some? && requestId.value in pending {
        b := pending[requestId.value];
        pending := pending - {requestId.value};
        correlated := correlated + [(requestId.value, b)];
      }
    }

    /** A receipts message: one list of receipts per block. */
    method ReceiveReceipts(requestId: Option<nat>, blocks: seq<seq<Receipt>>)
      modifies `pending, `correlated, `stats, watcher`delivered
      ensures Now() == Receive(old(Now()), requestId, blocks, |blocks|)
    {
      for i := 0 to |blocks|
        invariant Now() == Receive(old(Now()), requestId, blocks, i)
      {
        var b := Unknown();
        if i == 0 { b := MatchRequest(requestId); }
        ProcessReceipts(ReceivedBlock(blocks[i], b));
      }
    }
  }
}
