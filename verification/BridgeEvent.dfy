/**
 Checking a bridge claim against a receipt, and the identifier preimage of a bridge event.
 */
module BridgeEvent {
  import opened Words
  import opened Bytes
  import opened EventWatch
  import opened WatchService

  //
  // verify_receipt_log
  //

  datatype Verdict =
    | Verified | MissingReceiptStatus | ReceiptFailed | BlockHashMismatch | TxHashMismatch | LogIndexOutOfRange
    | ContractMismatch | Topic0Mismatch | TopicsMismatch | DataMismatch

  datatype ReceiptResult = ReceiptResult(receipt: Receipt, txHash: Hash, blockHash: Hash, logIndices: seq<nat>)

  /** The part of a claim that names its log. */
  datatype Claim = Claim(
    blockHash: Hash, txHash: Hash, logIndex: nat, contract: ByteSeq, topic0: Hash, topics: seq<Hash>, data: ByteSeq)

  /** Where `x` first occurs at or after `i`, or the length. */
  function Find(s: seq<nat>, x: nat, i: nat): (k: nat)
    requires i <= |s|
    ensures i <= k <= |s| && (k < |s| ==> s[k] == x) && forall j :: i <= j < k ==> s[j] != x
    decreases |s| - i
  { if i == |s| || s[i] == x then i else Find(s, x, i + 1) }

  /** Which log of the receipt the claim means: by its listed index, or by position when none are listed. */
  function LogPosition(r: ReceiptResult, logIndex: nat): nat {
    if r.logIndices == [] then logIndex
    else var k := Find(r.logIndices, logIndex, 0); if k < |r.logIndices| then k else |r.receipt.logs|
  }

  predicate SameLog(log: LogEntry, c: Claim) {
    && log.address == c.contract && log.data == c.data
    && log.topics != [] && log.topics[0] == c.topic0 && (c.topics == [] || log.topics == c.topics)
  }

  /** The claim is about an existing log of a successful receipt of its block and transaction. */
  predicate Backed(r: ReceiptResult, c: Claim) {
    && r.receipt.status == Some(true) && r.blockHash == c.blockHash && r.txHash == c.txHash
    && LogPosition(r, c.logIndex) < |r.receipt.logs| && SameLog(r.receipt.logs[LogPosition(r, c.logIndex)], c)
  }

  method FindIndex(s: seq<nat>, x: nat) returns (k: nat)
    ensures k == Find(s, x, 0)
  {
    k := 0;
    while k < |s| && s[k] != x
      invariant k <= |s| && Find(s, x, k) == Find(s, x, 0)
    {
      k := k + 1;
    }
  }

  /** The first check that fails. */
  function Judge(r: ReceiptResult, c: Claim): Verdict {
    if r.receipt.status.None? then MissingReceiptStatus
    else if !r.receipt.status.value then ReceiptFailed
    else if r.blockHash != c.blockHash then BlockHashMismatch
    else if r.txHash != c.txHash then TxHashMismatch
    else if LogPosition(r, c.logIndex) >= |r.receipt.logs| then LogIndexOutOfRange
    else JudgeLog(r.receipt.logs[LogPosition(r, c.logIndex)], c)
  }

  function JudgeLog(log: LogEntry, c: Claim): Verdict {
    if log.address != c.contract then ContractMismatch
    else if log.topics == [] || log.topics[0] != c.topic0 then Topic0Mismatch
    else if c.topics != [] && log.topics != c.topics then TopicsMismatch
    else if log.data != c.data then DataMismatch
    else Verified
  }

  /** Exactly the backed claims are verified. */
  lemma VerifiedIffBacked(r: ReceiptResult, c: Claim)
    ensures Judge(r, c) == Verified <==> Backed(r, c)
  {
    if LogPosition(r, c.logIndex) < |r.receipt.logs| { JudgesLog(r.receipt.logs[LogPosition(r, c.logIndex)], c); }
  }

  lemma JudgesLog(log: LogEntry, c: Claim)
    ensures JudgeLog(log, c) == Verified <==> SameLog(log, c)
  {}

  method VerifyReceiptLog(r: ReceiptResult, c: Claim) returns (v: Verdict)
    ensures v == Judge(r, c) && (v == Verified <==> Backed(r, c))
  {
    VerifiedIffBacked(r, c);
    if r.receipt.status.None? { return MissingReceiptStatus; }
    if !r.receipt.status.value { return ReceiptFailed; }
    if r.blockHash != c.blockHash { return BlockHashMismatch; }
    if r.txHash != c.txHash { return TxHashMismatch; }
    var position := c.logIndex;
    if r.logIndices != [] {
      position := FindIndex(r.logIndices, c.logIndex);
      if position == |r.logIndices| { return LogIndexOutOfRange; }
    }
    if position >= |r.receipt.logs| { return LogIndexOutOfRange; }
    var log := r.receipt.logs[position];
    if log.address != c.contract { return ContractMismatch; }
    if log.topics == [] || log.topics[0] != c.topic0 { return Topic0Mismatch; }
    if c.topics != [] && log.topics != c.topics { return TopicsMismatch; }
    if log.data != c.data { return DataMismatch; }
    v := Verified;
  }

  //
  // Claims built from delivered events
  //

  function ClaimOf(e: MatchedEvent): Claim
    requires e.log.topics != []
  { Claim(e.blockHash, e.txHash, e.logIndex, e.log.address, e.log.topics[0], e.log.topics, e.log.data) }

  /** The indices of a receipt's logs are consecutive 32-bit words, one per log. */
  ghost predicate Consecutive(indices: seq<nat>, logs: seq<LogEntry>) {
    && |indices| == |logs| <= TWO32
    && forall k :: 0 <= k < |indices| ==> indices[k] == Index(indices[0] + k)
  }

  lemma {:induction false} IndexDistinct(a: nat, b: nat)
    requires a < b < a + TWO32
    ensures Index(a) != Index(b)
  {
    if a >= TWO32 { IndexDistinct(a - TWO32, b - TWO32); }
  }

  lemma FindConsecutive(indices: seq<nat>, logs: seq<LogEntry>, k: nat)
    requires Consecutive(indices, logs) && k < |indices|
    ensures Find(indices, Index(indices[0] + k), 0) == k
  {
    var x := Index(indices[0] + k);
    forall j | 0 <= j < k ensures indices[j] != x {
      IndexDistinct(indices[0] + j, indices[0] + k);
      assert indices[j] == Index(indices[0] + j);
    }
    assert indices[k] == x;
  }

  /** A delivery of a block comes from one of its receipts. */
  lemma {:induction false} DeliveredByReceipt(subs: seq<Subscription>, b: BlockReceipts, n: nat, d: Delivery)
    returns (i: nat)
    requires n <= Usable(b) && d in Process(subs, b, n).delivered
    ensures i < n
    ensures var logs := b.receipts[i].logs;
            d in Deliver(subs, logs, |logs|, Ctx(b, i), FirstIndex(b, i, Process(subs, b, i).next))
  {
    if d in Process(subs, b, n - 1).delivered { i := DeliveredByReceipt(subs, b, n - 1, d); } else { i := n - 1; }
  }

  function ResultOf(b: BlockReceipts, i: nat): ReceiptResult
    requires i < |b.receipts| && i < |b.txHashes| && i < |b.indices|
  { ReceiptResult(b.receipts[i], b.txHashes[i], b.hash, b.indices[i]) }

  /** The claim of the `k`-th log of a successful receipt with consecutive indices. */
  lemma ConsecutiveIsBacked(r: ReceiptResult, k: nat, number: nat)
    requires r.receipt.status == Some(true) && Consecutive(r.logIndices, r.receipt.logs)
    requires k < |r.receipt.logs| && r.receipt.logs[k].topics != []
    ensures Backed(r, ClaimOf(Event(r.receipt.logs[k], Context(number, r.blockHash, r.txHash),
                                    Index(r.logIndices[0] + k))))
  {
    FindConsecutive(r.logIndices, r.receipt.logs, k);
  }

  /** The receipt succeeded and lists consecutive log indices. */
  ghost predicate WellIndexed(b: BlockReceipts, i: nat)
    requires i < Usable(b)
  { i < |b.indices| && b.receipts[i].status == Some(true) && Consecutive(b.indices[i], b.receipts[i].logs) }

  /**
   In every run of the watch service, an event its subscriptions are delivered from a block comes from one of the
   block's receipts; if that receipt succeeded and lists consecutive log indices, the claim made from the event is
   backed by it.
   */
  lemma RunClaimIsBacked(window: nat, steps: seq<Step>, b: BlockReceipts, d: Delivery) returns (i: nat)
    requires d in Process(Run(window, steps, |steps|).subs, b, Usable(b)).delivered
    ensures i < Usable(b) && d.event.log.topics != [] && d.event.log in b.receipts[i].logs
    ensures WellIndexed(b, i) ==> Backed(ResultOf(b, i), ClaimOf(d.event))
  {
    SubscriptionsAgree(window, steps);
    i := DeliveredClaimIsBacked(Run(window, steps, |steps|).subs, b, d);
  }

  lemma DeliveredClaimIsBacked(subs: seq<Subscription>, b: BlockReceipts, d: Delivery) returns (i: nat)
    requires FromWatchEvent(subs) && d in Process(subs, b, Usable(b)).delivered
    ensures i < Usable(b) && d.event.log.topics != [] && d.event.log in b.receipts[i].logs
    ensures WellIndexed(b, i) ==> Backed(ResultOf(b, i), ClaimOf(d.event))
  {
    i := DeliveredByReceipt(subs, b, Usable(b), d);
    var k, j := DeliveredFrom(subs, b.receipts[i].logs, Ctx(b, i), FirstIndex(b, i, Process(subs, b, i).next), d);
    assert TopicOk(subs[j].filter.topics[0], b.receipts[i].logs[k].topics, 0);
    if WellIndexed(b, i) { WellIndexedIsBacked(b, i, k, Process(subs, b, i).next); }
  }

  lemma WellIndexedIsBacked(b: BlockReceipts, i: nat, k: nat, next: nat)
    requires i < Usable(b) && WellIndexed(b, i) && k < |b.receipts[i].logs| && b.receipts[i].logs[k].topics != []
    ensures Backed(ResultOf(b, i), ClaimOf(Event(b.receipts[i].logs[k], Ctx(b, i), Index(FirstIndex(b, i, next) + k))))
  {
    ConsecutiveIsBacked(ResultOf(b, i), k, b.number);
  }

  /**
   Without listed indices a block-wide index is read as a position in the receipt, so the claim of the receipt's
   `k`-th log is backed exactly when the log at that position is the same one.
   */
  lemma UnlistedIndexIsPosition(r: Receipt, txHash: Hash, blockHash: Hash, number: nat, first: nat, k: nat)
    requires r.status == Some(true) && k < |r.logs| && r.logs[k].topics != []
    ensures var e := Event(r.logs[k], Context(number, blockHash, txHash), Index(first + k));
            Backed(ReceiptResult(r, txHash, blockHash, []), ClaimOf(e)) <==>
            Index(first + k) < |r.logs| && r.logs[Index(first + k)] == r.logs[k]
  {}

  /** The claim made from the `k`-th log of a receipt whose logs are numbered from `first`. */
  function ClaimAt(r: ReceiptResult, number: nat, first: nat, k: nat): Claim
    requires k < |r.receipt.logs| && r.receipt.logs[k].topics != []
  { ClaimOf(Event(r.receipt.logs[k], Context(number, r.blockHash, r.txHash), Index(first + k))) }

  ghost predicate HaveTopics(logs: seq<LogEntry>) { forall k :: 0 <= k < |logs| ==> logs[k].topics != [] }

  /** Without listed indices, every claim of a receipt is backed exactly when its logs are numbered from zero. */
  lemma UnlistedBackedIff(r: ReceiptResult, number: nat, first: nat)
    requires r.receipt.status == Some(true) && r.logIndices == [] && HaveTopics(r.receipt.logs)
    requires 0 < |r.receipt.logs| < TWO32 && first < TWO32
    ensures (forall k :: 0 <= k < |r.receipt.logs| ==> Backed(r, ClaimAt(r, number, first, k))) <==> first == 0
  {
    var n := |r.receipt.logs|;
    if first > 0 {
      var k := if first < n then n - first else 0;
      UnlistedIndexIsPosition(r.receipt, r.txHash, r.blockHash, number, first, k);
      assert !Backed(r, ClaimAt(r, number, first, k));
    }
  }

  /**
   So in a block without listed indices, every claim of a successful receipt is backed exactly when the receipts
   before it have no logs.
   */
  lemma UnlistedReceiptBackedIff(subs: seq<Subscription>, b: BlockReceipts, i: nat)
    requires NoIndices(b) && i < Usable(b) && |LogsOf(b.receipts, i)| < TWO32
    requires b.receipts[i].status == Some(true) && HaveTopics(b.receipts[i].logs) && 0 < |b.receipts[i].logs| < TWO32
    ensures var r := ReceiptResult(b.receipts[i], b.txHashes[i], b.hash, []);
            var first := FirstIndex(b, i, Process(subs, b, i).next);
            (forall k :: 0 <= k < |r.receipt.logs| ==> Backed(r, ClaimAt(r, b.number, first, k))) <==>
            LogsOf(b.receipts, i) == []
  {
    NextIsPosition(subs, b, i);
    assert FirstIndex(b, i, Process(subs, b, i).next) == |LogsOf(b.receipts, i)|;
    UnlistedBackedIff(ReceiptResult(b.receipts[i], b.txHashes[i], b.hash, []), b.number, |LogsOf(b.receipts, i)|);
  }

  /** Two receipts of one block, each with the one log, as they arrive in a receipts message. */
  function TwoReceipts(log: LogEntry): seq<Receipt> {
    [Receipt(Some(true), [log]), Receipt(Some(true), [log])]
  }

  /** The failing run: a subscription is delivered the second receipt's log, and the claim made from it is refused. */
  lemma SecondReceiptRefused(window: nat, log: LogEntry) returns (d: Delivery)
    requires log.topics != []
    ensures var steps := [DoWatch(log.address, log.topics[0], None, None), DoReceive(None, [TwoReceipts(log)])];
            d in Run(window, steps, 2).delivered
    ensures d.event.log == log
    ensures Judge(ReceiptResult(TwoReceipts(log)[1], d.event.txHash, d.event.blockHash, []), ClaimOf(d.event)) ==
            LogIndexOutOfRange
  {
    var steps := [DoWatch(log.address, log.topics[0], None, None), DoReceive(None, [TwoReceipts(log)])];
    var f := WatchFilter(log.address, log.topics[0], None, None);
    var s := Watch(INITIAL, f);
    var b := ReceivedBlock(TwoReceipts(log), Unknown());
    assert Run(window, steps, 1) == s by { assert Run(window, steps, 0) == INITIAL; }
    assert Run(window, steps, 2).delivered == Process(s.subs, b, 2).delivered;
    assert s.subs == [Subscription(1, f)] && Matches(f, log, 0);
    d := Delivery(1, Event(log, Ctx(b, 1), 1));
    NextIsPosition(s.subs, b, 1);
    assert LogsOf(b.receipts, 1) == [log] by { assert LogsOf(b.receipts, 0) == []; }
    DeliveredTo(s.subs, [log], Ctx(b, 1), 1, 0, 0);
  }

  //
  // compute_bridge_message_id
  //

  /** What the event's identifier is the hash of. */
  function MessagePreimage(chainId: nat, contract: ByteSeq, txHash: Hash, logIndex: nat): ByteSeq {
    BigEndian(chainId, 8) + contract + txHash + BigEndian(logIndex, 4)
  }

  method AppendMessage(chainId: nat, contract: ByteSeq, txHash: Hash, logIndex: nat) returns (s: ByteSeq)
    ensures s == MessagePreimage(chainId, contract, txHash, logIndex)
  {
    var input := new ByteBuffer();
    input.AppendUint(chainId, 8);
    input.AppendArray(contract);
    input.AppendArray(txHash);
    input.AppendUint(logIndex, 4);
    s := input.bytes;
  }

  /** Different events have different preimages. */
  lemma PreimageInjective(chainId: nat, contract: ByteSeq, txHash: Hash, logIndex: nat,
                          chainId': nat, contract': ByteSeq, txHash': Hash, logIndex': nat)
    requires chainId < Pow2(64) && chainId' < Pow2(64) && logIndex < Pow2(32) && logIndex' < Pow2(32)
    requires |contract| == |contract'| == 20 && |txHash| == |txHash'| == HASH_BYTES
    requires MessagePreimage(chainId, contract, txHash, logIndex) ==
             MessagePreimage(chainId', contract', txHash', logIndex')
    ensures chainId == chainId' && contract == contract' && txHash == txHash' && logIndex == logIndex'
  {
    PreimageParts(chainId, contract, txHash, logIndex);
    PreimageParts(chainId', contract', txHash', logIndex');
  }

  lemma PreimageParts(chainId: nat, contract: ByteSeq, txHash: Hash, logIndex: nat)
    requires chainId < Pow2(64) && logIndex < Pow2(32) && |contract| == 20 && |txHash| == HASH_BYTES
    ensures var s := MessagePreimage(chainId, contract, txHash, logIndex);
            && |s| == 64 && FromBigEndian(s[..8]) == chainId && s[8..28] == contract && s[28..60] == txHash
            && FromBigEndian(s[60..]) == logIndex
  {
    FourParts(BigEndian(chainId, 8), contract, txHash, BigEndian(logIndex, 4));
    DecodeEncode(chainId, 8);
    DecodeEncode(logIndex, 4);
  }

  lemma FourParts(a: ByteSeq, b: ByteSeq, c: ByteSeq, d: ByteSeq)
    requires |a| == 8 && |b| == 20 && |c| == 32 && |d| == 4
    ensures var s := a + b + c + d; |s| == 64 && s[..8] == a && s[8..28] == b && s[28..60] == c && s[60..] == d
  {}
}
