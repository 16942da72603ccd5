/**
 Log filters and the watcher that dispatches matching logs to subscriptions.
 A callback is modelled by the delivery it receives; callbacks do not change the subscriptions they are called from.
 */
module EventWatch {
  import opened Bytes

  type Hash = ByteSeq

  datatype LogEntry = LogEntry(address: ByteSeq, topics: seq<Hash>, data: ByteSeq)

  datatype EventFilter = EventFilter(
    addresses: seq<ByteSeq>, topics: seq<Option<Hash>>, fromBlock: Option<nat>, toBlock: Option<nat>)

  //
  // EventFilter::matches
  //

  predicate InRange(f: EventFilter, block: nat) {
    (f.fromBlock.Some? ==> f.fromBlock.value <= block) && (f.toBlock.Some? ==> block <= f.toBlock.value)
  }

  /** A wildcard, or the log's topic at the same position. */
  predicate TopicOk(want: Option<Hash>, topics: seq<Hash>, i: nat) {
    want.Some? ==> i < |topics| && topics[i] == want.value
  }

  /** What eth_getLogs means by a match. */
  predicate Matches(f: EventFilter, log: LogEntry, block: nat) {
    && InRange(f, block)
    && (f.addresses != [] ==> log.address in f.addresses)
    && (forall i :: 0 <= i < |f.topics| ==> TopicOk(f.topics[i], log.topics, i))
  }

  method FindAddress(addresses: seq<ByteSeq>, address: ByteSeq) returns (found: bool)
    ensures found <==> address in addresses
  {
    for i := 0 to |addresses|
      invariant address !in addresses[..i]
    {
      if addresses[i] == address { return true; }
    }
    found := false;
  }

  method MatchesLog(f: EventFilter, log: LogEntry, block: nat) returns (r: bool)
    ensures r <==> Matches(f, log, block)
  {
    if f.fromBlock.Some? && block < f.fromBlock.value { return false; }
    if f.toBlock.Some? && block > f.toBlock.value { return false; }
    if f.addresses != [] {
      var found := FindAddress(f.addresses, log.address);
      if !found { return false; }
    }
    for i := 0 to |f.topics|
      invariant forall k :: 0 <= k < i ==> TopicOk(f.topics[k], log.topics, k)
    {
      if f.topics[i].None? { continue; }
      if i >= |log.topics| || log.topics[i] != f.topics[i].value {
        assert !TopicOk(f.topics[i], log.topics, i);
        return false;
      }
    }
    r := true;
  }

  //
  // Dispatch
  //

  const TWO32: nat := 0x1_0000_0000

  /** `logIndex` is a 32-bit word. */
  datatype MatchedEvent = MatchedEvent(log: LogEntry, blockNumber: nat, blockHash: Hash, txHash: Hash, logIndex: nat)

  datatype Subscription = Subscription(id: nat, filter: EventFilter)

  datatype Delivery = Delivery(id: nat, event: MatchedEvent)

  /** The block and transaction the logs come from. */
  datatype Context = Context(blockNumber: nat, blockHash: Hash, txHash: Hash)

  const HASH_BYTES: nat := 32
  const ZERO_HASH: Hash := BigEndian(0, HASH_BYTES)

  function Event(log: LogEntry, c: Context, index: nat): MatchedEvent {
    MatchedEvent(log, c.blockNumber, c.blockHash, c.txHash, index)
  }

  /** A position as the 32-bit index an event carries. */
  function Index(position: nat): (r: nat)
    ensures r < TWO32
  { if position < TWO32 then position else Index(position - TWO32) }

  lemma {:induction false} IndexIsMod(position: nat)
    ensures Index(position) == position % TWO32
  {
    if position >= TWO32 { IndexIsMod(position - TWO32); }
  }

  /** The index of a sum needs only the index of its part. */
  lemma IndexAdd(position: nat, k: nat)
    ensures Index(Index(position) + k) == Index(position + k)
  {
    IndexIsMod(position);
    IndexIsMod(Index(position) + k);
    IndexIsMod(position + k);
  }

  method NextIndex(logIndex: nat, ghost position: nat) returns (next: nat)
    requires logIndex == Index(position)
    ensures next == Index(position + 1)
  {
    IndexAdd(position, 1);
    IndexIsMod(logIndex + 1);
    next := (logIndex + 1) % TWO32;
  }

  /** One log, to each of the first `n` subscriptions that matches, in order. */
  function Offer(subs: seq<Subscription>, n: nat, log: LogEntry, c: Context, index: nat): seq<Delivery>
    requires n <= |subs|
  {
    if n == 0 then []
    else
      Offer(subs, n - 1, log, c, index)
      + if Matches(subs[n - 1].filter, log, c.blockNumber) then [Delivery(subs[n - 1].id, Event(log, c, index))] else []
  }

  predicate Wanted(subs: seq<Subscription>, n: nat, log: LogEntry, block: nat)
    requires n <= |subs|
  { exists i :: 0 <= i < n && Matches(subs[i].filter, log, block) }

  /** The first `n` logs, numbered from `first`, to all subscriptions. */
  function Deliver(subs: seq<Subscription>, logs: seq<LogEntry>, n: nat, c: Context, first: nat): seq<Delivery>
    requires n <= |logs|
  {
    if n == 0 then []
    else Deliver(subs, logs, n - 1, c, first) + Offer(subs, |subs|, logs[n - 1], c, Index(first + n - 1))
  }

  function CountWanted(subs: seq<Subscription>, logs: seq<LogEntry>, n: nat, block: nat): (r: nat)
    requires n <= |logs|
    ensures r <= n
  {
    if n == 0 then 0
    else CountWanted(subs, logs, n - 1, block) + if Wanted(subs, |subs|, logs[n - 1], block) then 1 else 0
  }

  lemma {:induction false} DeliverPrefix(subs: seq<Subscription>, a: seq<LogEntry>, b: seq<LogEntry>, n: nat,
                                         c: Context, first: nat)
    requires n <= |a|
    ensures Deliver(subs, a + b, n, c, first) == Deliver(subs, a, n, c, first)
  {
    if n > 0 { DeliverPrefix(subs, a, b, n - 1, c, first); }
  }

  /** Delivering two runs of logs one after the other is delivering them as one. */
  lemma {:induction false} DeliverConcat(subs: seq<Subscription>, a: seq<LogEntry>, b: seq<LogEntry>, n: nat,
                                         c: Context, first: nat)
    requires n <= |b|
    ensures Deliver(subs, a + b, |a| + n, c, first) ==
            Deliver(subs, a, |a|, c, first) + Deliver(subs, b, n, c, first + |a|)
  {
    if n == 0 {
      DeliverPrefix(subs, a, b, |a|, c, first);
    } else {
      DeliverConcat(subs, a, b, n - 1, c, first);
      Assoc3(Deliver(subs, a, |a|, c, first), Deliver(subs, b, n - 1, c, first + |a|),
             Offer(subs, |subs|, b[n - 1], c, Index(first + |a| + n - 1)));
    }
  }

  lemma Assoc3(x: seq<Delivery>, y: seq<Delivery>, z: seq<Delivery>)
    ensures (x + y) + z == x + (y + z)
  {}

  /** Only the 32-bit index of the first log matters. */
  lemma {:induction false} DeliverWraps(subs: seq<Subscription>, logs: seq<LogEntry>, n: nat, c: Context, first: nat)
    requires n <= |logs|
    ensures Deliver(subs, logs, n, c, Index(first)) == Deliver(subs, logs, n, c, first)
  {
    if n > 0 {
      DeliverWraps(subs, logs, n - 1, c, first);
      IndexAdd(first, n - 1);
      assert Index(Index(first) + n - 1) == Index(first + n - 1);
    }
  }

  lemma {:induction false} OfferedOf(subs: seq<Subscription>, logs: seq<LogEntry>, n: nat, c: Context, first: nat,
                                     d: Delivery)
    returns (k: nat)
    requires n <= |logs| && d in Deliver(subs, logs, n, c, first)
    ensures k < n && d in Offer(subs, |subs|, logs[k], c, Index(first + k))
  {
    k := n - 1;
    if d in Deliver(subs, logs, k, c, first) { k := OfferedOf(subs, logs, k, c, first, d); }
  }

  lemma {:induction false} DeliverGrows(subs: seq<Subscription>, logs: seq<LogEntry>, m: nat, n: nat, c: Context,
                                        first: nat)
    requires m <= n <= |logs|
    ensures Deliver(subs, logs, m, c, first) <= Deliver(subs, logs, n, c, first)
    decreases n
  {
    if m < n { DeliverGrows(subs, logs, m, n - 1, c, first); }
  }

  lemma InPrefix(head: seq<Delivery>, last: seq<Delivery>, all: seq<Delivery>, d: Delivery)
    requires head + last <= all && d in last
    ensures d in all
  {
    var i :| 0 <= i < |last| && last[i] == d;
    assert all[|head| + i] == (head + last)[|head| + i];
  }

  lemma {:induction false} OfferedTo(subs: seq<Subscription>, n: nat, log: LogEntry, c: Context, index: nat,
                                     d: Delivery)
    returns (j: nat)
    requires n <= |subs| && d in Offer(subs, n, log, c, index)
    ensures j < n && Matches(subs[j].filter, log, c.blockNumber) && d == Delivery(subs[j].id, Event(log, c, index))
  {
    if d in Offer(subs, n - 1, log, c, index) {
      j := OfferedTo(subs, n - 1, log, c, index, d);
    } else {
      j := n - 1;
    }
  }

  lemma {:induction false} OffersTo(subs: seq<Subscription>, n: nat, log: LogEntry, c: Context, index: nat, j: nat)
    requires j < n <= |subs| && Matches(subs[j].filter, log, c.blockNumber)
    ensures Delivery(subs[j].id, Event(log, c, index)) in Offer(subs, n, log, c, index)
  {
    if j < n - 1 { OffersTo(subs, n - 1, log, c, index, j); }
  }

  /** A delivery is one of the logs, at its own index, to a subscription that wants it. */
  lemma DeliveredFrom(subs: seq<Subscription>, logs: seq<LogEntry>, c: Context, first: nat, d: Delivery)
    returns (k: nat, j: nat)
    requires d in Deliver(subs, logs, |logs|, c, first)
    ensures k < |logs| && j < |subs| && Matches(subs[j].filter, logs[k], c.blockNumber)
    ensures d == Delivery(subs[j].id, Event(logs[k], c, Index(first + k)))
  {
    k := OfferedOf(subs, logs, |logs|, c, first, d);
    j := OfferedTo(subs, |subs|, logs[k], c, Index(first + k), d);
  }

  /** Every log reaches every subscription that wants it. */
  lemma DeliveredTo(subs: seq<Subscription>, logs: seq<LogEntry>, c: Context, first: nat, k: nat, j: nat)
    requires k < |logs| && j < |subs| && Matches(subs[j].filter, logs[k], c.blockNumber)
    ensures Delivery(subs[j].id, Event(logs[k], c, Index(first + k))) in Deliver(subs, logs, |logs|, c, first)
  {
    OffersTo(subs, |subs|, logs[k], c, Index(first + k), j);
    DeliverGrows(subs, logs, k + 1, |logs|, c, first);
    InPrefix(Deliver(subs, logs, k, c, first), Offer(subs, |subs|, logs[k], c, Index(first + k)),
             Deliver(subs, logs, |logs|, c, first), Delivery(subs[j].id, Event(logs[k], c, Index(first + k))));
  }

  /** The same log, block and index, to the same subscription. */
  predicate SameButTx(d: Delivery, e: Delivery) {
    && d.id == e.id && d.event.log == e.event.log && d.event.logIndex == e.event.logIndex
    && d.event.blockNumber == e.event.blockNumber && d.event.blockHash == e.event.blockHash
  }

  ghost predicate AllSame(a: seq<Delivery>, b: seq<Delivery>) {
    |a| == |b| && forall i :: 0 <= i < |a| ==> SameButTx(a[i], b[i])
  }

  lemma SameConcat(a: seq<Delivery>, a': seq<Delivery>, b: seq<Delivery>, b': seq<Delivery>)
    requires AllSame(a, a') && AllSame(b, b')
    ensures AllSame(a + b, a' + b')
  {}

  lemma {:induction false} OfferSame(subs: seq<Subscription>, n: nat, log: LogEntry, c: Context, tx: Hash, index: nat)
    requires n <= |subs|
    ensures AllSame(Offer(subs, n, log, c, index), Offer(subs, n, log, Context(c.blockNumber, c.blockHash, tx), index))
  {
    if n > 0 { OfferSame(subs, n - 1, log, c, tx, index); }
  }

  /** The transaction hash is the only part of a delivery that depends on the transaction. */
  lemma {:induction false} DeliverSame(subs: seq<Subscription>, logs: seq<LogEntry>, n: nat, c: Context, tx: Hash,
                                       first: nat)
    requires n <= |logs|
    ensures AllSame(Deliver(subs, logs, n, c, first),
                    Deliver(subs, logs, n, Context(c.blockNumber, c.blockHash, tx), first))
  {
    if n > 0 {
      var c' := Context(c.blockNumber, c.blockHash, tx);
      DeliverSame(subs, logs, n - 1, c, tx, first);
      OfferSame(subs, |subs|, logs[n - 1], c, tx, Index(first + n - 1));
      SameConcat(Deliver(subs, logs, n - 1, c, first), Deliver(subs, logs, n - 1, c', first),
                 Offer(subs, |subs|, logs[n - 1], c, Index(first + n - 1)),
                 Offer(subs, |subs|, logs[n - 1], c', Index(first + n - 1)));
    }
  }

  //
  // EventWatcher
  //

  /** The first `n` subscriptions but those with the id. */
  function Without(subs: seq<Subscription>, n: nat, id: nat): seq<Subscription>
    requires n <= |subs|
  {
    if n == 0 then [] else Without(subs, n - 1, id) + if subs[n - 1].id == id then [] else [subs[n - 1]]
  }

  class EventWatcher {
    var subscriptions: seq<Subscription>
    var nextId: nat
    var delivered: seq<Delivery>

    constructor ()
      ensures subscriptions == [] && nextId == 1 && delivered == []
    {
      subscriptions, nextId, delivered := [], 1, [];
    }

    method Watch(filter: EventFilter) returns (id: nat)
      modifies this
      ensures id == old(nextId) && nextId == (old(nextId) + 1) % TWO32
      ensures subscriptions == old(subscriptions) + [Subscription(id, filter)] && delivered == old(delivered)
    {
      id := nextId;
      nextId := (nextId + 1) % TWO32;
      subscriptions := subscriptions + [Subscription(id, filter)];
    }

    method Unwatch(id: nat)
      modifies `subscriptions
      ensures subscriptions == Without(old(subscriptions), |old(subscriptions)|, id)
    {
      var kept := [];
      for i := 0 to |subscriptions|
        invariant kept == Without(subscriptions, i, id) && subscriptions == old(subscriptions)
      {
        if subscriptions[i].id != id { kept := kept + [subscriptions[i]]; }
      }
      subscriptions := kept;
    }

    /** One log to all subscriptions. */
    method OfferLog(log: LogEntry, c: Context, index: nat) returns (matched: bool)
      modifies `delivered
      ensures delivered == old(delivered) + Offer(subscriptions, |subscriptions|, log, c, index)
      ensures matched <==> Wanted(subscriptions, |subscriptions|, log, c.blockNumber)
    {
      matched := false;
      for i := 0 to |subscriptions|
        invariant delivered == old(delivered) + Offer(subscriptions, i, log, c, index)
        invariant matched <==> Wanted(subscriptions, i, log, c.blockNumber)
      {
        var hit := MatchesLog(subscriptions[i].filter, log, c.blockNumber);
        if hit {
          matched := true;
          delivered := delivered + [Delivery(subscriptions[i].id, Event(log, c, index))];
        }
      }
    }

    /** One log of a run: its deliveries follow those of the logs before it. */
    method ProcessLog(logs: seq<LogEntry>, i: nat, c: Context, logIndex: nat, ghost first: nat,
                      ghost before: seq<Delivery>)
      returns (hit: bool)
      requires i < |logs| && logIndex == Index(first + i)
      requires delivered == before + Deliver(subscriptions, logs, i, c, first)
      modifies `delivered
      ensures delivered == before + Deliver(subscriptions, logs, i + 1, c, first)
      ensures hit <==> Wanted(subscriptions, |subscriptions|, logs[i], c.blockNumber)
    {
      Assoc3(before, Deliver(subscriptions, logs, i, c, first),
             Offer(subscriptions, |subscriptions|, logs[i], c, logIndex));
      hit := OfferLog(logs[i], c, logIndex);
    }

    /** The index counter is a 32-bit word. */
    method ProcessReceipt(logs: seq<LogEntry>, c: Context, first: nat) returns (matched: nat)
      requires first < TWO32
      modifies `delivered
      ensures delivered == old(delivered) + Deliver(subscriptions, logs, |logs|, c, first)
      ensures matched == CountWanted(subscriptions, logs, |logs|, c.blockNumber)
    {
      matched := 0;
      var logIndex := first;
      for i := 0 to |logs|
        invariant logIndex == Index(first + i)
        invariant delivered == old(delivered) + Deliver(subscriptions, logs, i, c, first)
        invariant matched == CountWanted(subscriptions, logs, i, c.blockNumber)
      {
        var hit := ProcessLog(logs, i, c, logIndex, first, old(delivered));
        if hit { matched := matched + 1; }
        logIndex := NextIndex(logIndex, first + i);
      }
    }

    method ProcessBlockLogs(logs: seq<LogEntry>, blockNumber: nat, blockHash: Hash) returns (matched: nat)
      modifies `delivered
      ensures delivered == old(delivered) + Deliver(subscriptions, logs, |logs|,
                                                    Context(blockNumber, blockHash, ZERO_HASH), 0)
      ensures matched == CountWanted(subscriptions, logs, |logs|, blockNumber)
    {
      matched := ProcessReceipt(logs, Context(blockNumber, blockHash, ZERO_HASH), 0);
    }
  }
}
