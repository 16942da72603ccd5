/**
 The block tracker that keeps receipts from being requested twice: a set, an eviction ring and a tip, proved to be
 a window over the last accepted blocks.
 */
module ChainTracker {
  import opened Words
  import opened Bytes

  type Hash = ByteSeq

  datatype Block = Block(hash: Hash, number: nat)

  const DEFAULT_WINDOW: nat := 1024

  //
  // The simple form: the list of accepted blocks
  //

  function Recent(accepted: seq<Block>, w: nat): seq<Block> {
    if |accepted| <= w then accepted else accepted[|accepted| - w..]
  }

  /** The last `w` accepted hashes, oldest first. */
  function Window(accepted: seq<Block>, w: nat): seq<Hash> {
    var recent := Recent(accepted, w);
    seq(|recent|, i requires 0 <= i < |recent| => recent[i].hash)
  }

  function Accept(accepted: seq<Block>, w: nat, b: Block): (seq<Block>, bool) {
    if b.hash in Window(accepted, w) then (accepted, false) else (accepted + [b], true)
  }

  /** What a run of calls leaves accepted. */
  function Accepted(calls: seq<Block>, w: nat): seq<Block> {
    if calls == [] then [] else Accept(Accepted(calls[..|calls| - 1], w), w, calls[|calls| - 1]).0
  }

  /** The highest accepted number and the first hash that reached it; heights of 0 reach nothing. */
  function Tip(accepted: seq<Block>): (nat, Option<Hash>) {
    if accepted == [] then (0, None)
    else
      var before, b := Tip(accepted[..|accepted| - 1]), accepted[|accepted| - 1];
      if b.number > before.0 then (b.number, Some(b.hash)) else before
  }

  /** Block `j` is the first to reach height `n`. */
  ghost predicate FirstAt(accepted: seq<Block>, j: nat, n: nat) {
    j < |accepted| && accepted[j].number == n && forall i :: 0 <= i < j ==> accepted[i].number < n
  }

  lemma {:induction false} TipIsHighest(accepted: seq<Block>)
    ensures forall i :: 0 <= i < |accepted| ==> accepted[i].number <= Tip(accepted).0
    ensures Tip(accepted).1.None? <==> Tip(accepted).0 == 0
  {
    if accepted != [] { TipIsHighest(accepted[..|accepted| - 1]); }
  }

  /** The tip is the maximum, and its hash is that of the first block at that height. */
  lemma {:induction false} TipIsFirstHighest(accepted: seq<Block>) returns (j: nat)
    requires Tip(accepted).0 > 0
    ensures FirstAt(accepted, j, Tip(accepted).0) && Tip(accepted).1 == Some(accepted[j].hash)
    ensures forall i :: 0 <= i < |accepted| ==> accepted[i].number <= Tip(accepted).0
  {
    var before, b := accepted[..|accepted| - 1], accepted[|accepted| - 1];
    TipIsHighest(accepted);
    TipIsHighest(before);
    if b.number > Tip(before).0 { j := |before|; } else { j := TipIsFirstHighest(before); }
  }

  /** Two blocks with one hash have at least `w` accepted blocks of other hashes between them. */
  ghost predicate Separated(accepted: seq<Block>, w: nat) {
    forall i, j :: 0 <= i < j < |accepted| && accepted[i].hash == accepted[j].hash ==> j - i > w
  }

  lemma {:induction false} AcceptedAreSeparated(calls: seq<Block>, w: nat)
    ensures Separated(Accepted(calls, w), w)
  {
    if calls != [] {
      var before, b := Accepted(calls[..|calls| - 1], w), calls[|calls| - 1];
      AcceptedAreSeparated(calls[..|calls| - 1], w);
      KeepSeparated(before, w, b);
    }
  }

  lemma InWindow(accepted: seq<Block>, w: nat, i: nat)
    requires |accepted| - w <= i < |accepted|
    ensures accepted[i].hash in Window(accepted, w)
  {
    var k := if |accepted| <= w then i else i - (|accepted| - w);
    assert Window(accepted, w)[k] == accepted[i].hash;
  }

  lemma KeepSeparated(accepted: seq<Block>, w: nat, b: Block)
    requires Separated(accepted, w)
    ensures Separated(Accept(accepted, w, b).0, w)
  {
    forall i | 0 <= i < |accepted| && |accepted| - w <= i ensures accepted[i].hash in Window(accepted, w) {
      InWindow(accepted, w, i);
    }
  }

  //
  // The fast form: a ring that holds a first-in first-out list
  //

  /** A new hash joins the list; a full one gives up its oldest. */
  function Push(order: seq<Hash>, w: nat, h: Hash): seq<Hash>
    requires 0 < w && |order| <= w
  { if |order| < w then order + [h] else order[1..] + [h] }

  lemma WindowPushes(accepted: seq<Block>, w: nat, b: Block)
    requires w > 0
    ensures |Window(accepted, w)| <= w && Window(accepted + [b], w) == Push(Window(accepted, w), w, b.hash)
  {}

  ghost predicate Distinct(order: seq<Hash>) { forall i, j :: 0 <= i < j < |order| ==> order[i] != order[j] }

  /** The set and the ring, read from its head around, stand for the list. */
  ghost predicate Holds(seen: set<Hash>, ring: seq<Hash>, head: nat, order: seq<Hash>) {
    && |order| <= |ring| && Distinct(order)
    && |seen| == |order| && (forall h :: h in seen <==> h in order)
    && (if |order| < |ring| then head == 0 && ring[..|order|] == order
        else head < |ring| && ring[head..] + ring[..head] == order)
  }

  /** In a full ring the head is the oldest; writing there and moving on pushes. */
  lemma ReplaceHolds(seen: set<Hash>, ring: seq<Hash>, head: nat, order: seq<Hash>, h: Hash, next: nat)
    requires Holds(seen, ring, head, order) && h !in seen && 0 < |order| == |ring|
    requires next == if head + 1 == |ring| then 0 else head + 1
    ensures ring[head] == order[0]
    ensures Holds(seen - {order[0]} + {h}, ring[head := h], next, Push(order, |ring|, h))
  {
    var ring', order' := ring[head := h], order[1..] + [h];
    assert order == ring[head..] + ring[..head];
    assert ring'[next..] + ring'[..next] == order';
    assert Distinct(order');
    forall x ensures x in seen - {order[0]} + {h} <==> x in order' {
      if x in order && x != order[0] {
        var k :| 0 <= k < |order| && order[k] == x;
        assert order'[k - 1] == x;
      }
    }
  }

  lemma AppendHolds(seen: set<Hash>, ring: seq<Hash>, head: nat, order: seq<Hash>, h: Hash)
    requires Holds(seen, ring, head, order) && h !in seen && |order| < |ring|
    ensures Holds(seen + {h}, ring[|order| := h], head, Push(order, |ring|, h))
  {
    var ring', order' := ring[|order| := h], order + [h];
    assert ring'[..|order'|] == order';
    if |order'| == |ring| { assert ring'[0..] + ring'[..0] == order'; }
  }

  class Tracker {
    const window: nat
    const ring: array<Hash>
    var seen: set<Hash>
    var head: nat
    var tipNumber: nat
    var tipHash: Option<Hash>
    ghost var accepted: seq<Block>

    ghost predicate Valid()
      reads this, ring
    {
      && 0 < window == ring.Length && Holds(seen, ring[..], head, Window(accepted, window))
      && (tipNumber, tipHash) == Tip(accepted)
    }

    constructor (windowSize: nat)
      ensures Valid() && accepted == [] && fresh(ring)
      ensures window == if windowSize == 0 then DEFAULT_WINDOW else windowSize
    {
      window := if windowSize == 0 then DEFAULT_WINDOW else windowSize;
      ring := new Hash[if windowSize == 0 then DEFAULT_WINDOW else windowSize](_ => []);
      seen, head, tipNumber, tipHash, accepted := {}, 0, 0, None, [];
    }

    method IsSeen(hash: Hash) returns (r: bool)
      requires Valid()
      ensures r <==> hash in Window(accepted, window)
    {
      r := hash in seen;
    }

    /** The new hash takes the slot of the oldest. */
    method Replace(hash: Hash, ghost order: seq<Hash>)
      requires 0 < window == ring.Length == |order| && Holds(seen, ring[..], head, order) && hash !in seen
      modifies `seen, `head, ring
      ensures Holds(seen, ring[..], head, Push(order, window, hash))
    {
      var next := NextSlot(head, window);
      ReplaceHolds(seen, ring[..], head, order, hash, next);
      var oldest := ring[head];
      seen := seen - {oldest} + {hash};
      ghost var ring' := ring[..][head := hash];
      ring[head] := hash;
      assert ring[..] == ring';
      head := next;
    }

    /** The new hash takes the next free slot. */
    method Append(hash: Hash, ghost order: seq<Hash>)
      requires |order| < window == ring.Length && Holds(seen, ring[..], head, order) && hash !in seen
      modifies `seen, ring
      ensures Holds(seen, ring[..], head, Push(order, window, hash))
    {
      AppendHolds(seen, ring[..], head, order, hash);
      ghost var ring' := ring[..][|seen| := hash];
      ring[|seen|] := hash;
      assert ring[..] == ring';
      seen := seen + {hash};
    }

    method MarkSeen(hash: Hash, number: nat) returns (isNew: bool)
      requires Valid()
      modifies this, ring
      ensures Valid() && (accepted, isNew) == Accept(old(accepted), window, Block(hash, number))
    {
      if hash in seen { return false; }
      ghost var b, order := Block(hash, number), Window(accepted, window);
      WindowPushes(accepted, window, b);
      if |seen| >= window { Replace(hash, order); } else { Append(hash, order); }
      accepted := accepted + [b];
      if number > tipNumber { tipNumber, tipHash := number, Some(hash); }
      isNew := true;
    }

    method Reset()
      requires Valid()
      modifies this, ring
      ensures Valid() && accepted == []
    {
      tipNumber, tipHash, seen, head := 0, None, {}, 0;
      for i := 0 to ring.Length
        invariant tipNumber == 0 && tipHash == None && seen == {} && head == 0
      {
        ring[i] := [];
      }
      accepted := [];
    }
  }

  method NextSlot(head: nat, w: nat) returns (next: nat)
    requires head < w
    ensures next == if head + 1 == w then 0 else head + 1
  {
    if head + 1 < w { DivModUnique(head + 1, w, 0, head + 1); } else { DivModUnique(head + 1, w, 1, 0); }
    next := (head + 1) % w;
  }
}
