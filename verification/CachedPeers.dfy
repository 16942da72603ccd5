/**
 The order in which cached peers are offered for dialing: rotated by a configured offset, then dealt out in bands
 so that the first dials are spread over the whole list.
 */
module CachedPeers {
  import opened Words

  //
  // Rotation
  //

  function Rotated<T>(peers: seq<T>, startOffset: nat): seq<T> {
    if peers == [] then []
    else var k := startOffset % |peers|; peers[k..] + peers[..k]
  }

  lemma RotatedIsPermutation<T>(peers: seq<T>, startOffset: nat)
    ensures multiset(Rotated(peers, startOffset)) == multiset(peers)
  {
    if peers != [] {
      var k := startOffset % |peers|;
      assert peers == peers[..k] + peers[k..];
    }
  }

  /** Element `i` of the rotation is element `i + startOffset`, counted around the end. */
  lemma RotatedAt<T>(peers: seq<T>, startOffset: nat, i: nat)
    requires i < |peers|
    ensures |Rotated(peers, startOffset)| == |peers|
    ensures Rotated(peers, startOffset)[i] == peers[(i + startOffset) % |peers|]
  {
    var n := |peers|;
    var q, k := startOffset / n, startOffset % n;
    if i + k < n {
      DivModUnique(i + startOffset, n, q, i + k);
    } else {
      assert (q + 1) * n == q * n + n;
      DivModUnique(i + startOffset, n, q + 1, i + k - n);
    }
  }

  lemma RotatedByNothing<T>(peers: seq<T>, startOffset: nat)
    requires |peers| <= 1 || startOffset == 0
    ensures Rotated(peers, startOffset) == peers
  {
    if |peers| == 1 { DivModUnique(startOffset, 1, startOffset, 0); }
    else if |peers| > 1 { DivModUnique(0, |peers|, 0, 0); }
  }

  method Rotate<T>(peers: seq<T>, startOffset: nat) returns (r: seq<T>)
    ensures r == Rotated(peers, startOffset)
  {
    if |peers| <= 1 || startOffset == 0 {
      RotatedByNothing(peers, startOffset);
      return peers;
    }
    var offset := startOffset % |peers|;
    if offset == 0 { return peers; }
    r := peers[offset..] + peers[..offset];
  }

  //
  // Bands
  //

  /** The first index of band `b`; band `b` ends where the next begins. */
  function Begin(n: nat, bands: nat, b: nat): (i: nat)
    requires bands > 0
  { (n * b) / bands }

  lemma BeginBounds(n: nat, bands: nat, b: nat)
    requires b < bands <= n
    ensures Begin(n, bands, b) < Begin(n, bands, b + 1) <= n
  {
    var q, r := (n * b) / bands, (n * b) % bands;
    var q', r' := (n * (b + 1)) / bands, (n * (b + 1)) % bands;
    assert n * (b + 1) == n * b + n;
    Quotients(bands, q, r, q', r', n);
    MulLe(b + 1, bands, n);
    assert q' * bands + r' <= n * bands;
    Below(bands, q', r', n);
  }

  lemma Quotients(bands: nat, q: int, r: int, q': int, r': int, n: nat)
    requires bands > 0 && 0 <= r < bands && 0 <= r' < bands && bands <= n
    requires q' * bands + r' == q * bands + r + n
    ensures q < q'
  {
    if q' <= q { MulLe(q', q, bands); }
  }

  lemma Below(bands: nat, q: int, r: int, n: nat)
    requires bands > 0 && 0 <= r && q * bands + r <= n * bands
    ensures q <= n
  {
    assert (n + 1) * bands == n * bands + bands;
    if q > n { MulLe(n + 1, q, bands); }
  }

  lemma BeginEnds(n: nat, bands: nat)
    requires bands > 0
    ensures Begin(n, bands, 0) == 0 && Begin(n, bands, bands) == n
  {
    DivModUnique(n * bands, bands, n, 0);
  }

  /** The list cut into bands. */
  ghost function Bands<T>(peers: seq<T>, bands: nat): seq<seq<T>>
    requires 0 < bands <= |peers|
  { seq(bands, b requires 0 <= b < bands => BeginBounds(|peers|, bands, b); Band(peers, bands, b)) }

  ghost function Band<T>(peers: seq<T>, bands: nat, b: nat): seq<T>
    requires b < bands <= |peers|
  {
    BeginBounds(|peers|, bands, b);
    peers[Begin(|peers|, bands, b)..Begin(|peers|, bands, b + 1)]
  }

  ghost function Join<T>(bs: seq<seq<T>>): seq<T> {
    if bs == [] then [] else Join(bs[..|bs| - 1]) + bs[|bs| - 1]
  }

  lemma {:induction false} BandsJoin<T>(peers: seq<T>, bands: nat, k: nat)
    requires 0 < bands <= |peers| && k <= bands
    ensures Begin(|peers|, bands, k) <= |peers| && Join(Bands(peers, bands)[..k]) == peers[..Begin(|peers|, bands, k)]
  {
    BeginEnds(|peers|, bands);
    var bs := Bands(peers, bands);
    if k > 0 {
      BandsJoin(peers, bands, k - 1);
      BeginBounds(|peers|, bands, k - 1);
      assert bs[..k][..k - 1] == bs[..k - 1] && bs[..k][k - 1] == Band(peers, bands, k - 1);
    }
  }

  //
  // Dealing
  //

  /** Row `o` takes the element at offset `o` of each band that is long enough. */
  ghost function Row<T>(bs: seq<seq<T>>, o: nat): seq<T> {
    if bs == [] then [] else Row(bs[..|bs| - 1], o) + At(bs[|bs| - 1], o)
  }

  ghost function At<T>(band: seq<T>, o: nat): seq<T> { if o < |band| then [band[o]] else [] }

  /** The first `o` rows. */
  ghost function Rows<T>(bs: seq<seq<T>>, o: nat): seq<T> {
    if o == 0 then [] else Rows(bs, o - 1) + Row(bs, o - 1)
  }

  ghost function Count<T>(s: seq<T>, x: T): nat {
    if s == [] then 0 else Count(s[..|s| - 1], x) + if s[|s| - 1] == x then 1 else 0
  }

  lemma {:induction false} CountConcat<T>(s: seq<T>, t: seq<T>, x: T)
    ensures Count(s + t, x) == Count(s, x) + Count(t, x)
  {
    if t == [] {
      assert s + t == s;
    } else {
      CountConcat(s, t[..|t| - 1], x);
      assert (s + t)[..|s + t| - 1] == s + t[..|t| - 1];
    }
  }

  ghost function Upto<T>(band: seq<T>, o: nat): seq<T> { if o < |band| then band[..o] else band }

  /** How often `x` is among the first `o` elements of the bands. */
  ghost function Dealt<T>(bs: seq<seq<T>>, o: nat, x: T): nat {
    if bs == [] then 0 else Dealt(bs[..|bs| - 1], o, x) + Count(Upto(bs[|bs| - 1], o), x)
  }

  lemma UptoNext<T>(band: seq<T>, o: nat, x: T)
    ensures Count(Upto(band, o + 1), x) == Count(Upto(band, o), x) + Count(At(band, o), x)
  {
    assert Upto(band, o + 1) == Upto(band, o) + At(band, o);
    CountConcat(Upto(band, o), At(band, o), x);
  }

  lemma {:induction false} DealtNext<T>(bs: seq<seq<T>>, o: nat, x: T)
    ensures Dealt(bs, o + 1, x) == Dealt(bs, o, x) + Count(Row(bs, o), x)
  {
    if bs != [] {
      DealtNext(bs[..|bs| - 1], o, x);
      UptoNext(bs[|bs| - 1], o, x);
      CountConcat(Row(bs[..|bs| - 1], o), At(bs[|bs| - 1], o), x);
    }
  }

  lemma {:induction false} DealtNothing<T>(bs: seq<seq<T>>, x: T)
    ensures Dealt(bs, 0, x) == 0
  {
    if bs != [] { DealtNothing(bs[..|bs| - 1], x); }
  }

  lemma {:induction false} DealtAll<T>(bs: seq<seq<T>>, o: nat, x: T)
    requires forall band <- bs :: |band| <= o
    ensures Dealt(bs, o, x) == Count(Join(bs), x)
  {
    if bs != [] {
      DealtAll(bs[..|bs| - 1], o, x);
      assert bs[|bs| - 1] in bs;
      CountConcat(Join(bs[..|bs| - 1]), bs[|bs| - 1], x);
    }
  }

  lemma RowsNext<T>(bs: seq<seq<T>>, o: nat, x: T)
    ensures Count(Rows(bs, o + 1), x) == Count(Rows(bs, o), x) + Count(Row(bs, o), x)
  {
    assert Rows(bs, o + 1) == Rows(bs, o) + Row(bs, o);
    CountConcat(Rows(bs, o), Row(bs, o), x);
  }

  lemma {:induction false} RowsDealt<T>(bs: seq<seq<T>>, o: nat, x: T)
    ensures Count(Rows(bs, o), x) == Dealt(bs, o, x)
  {
    if o == 0 {
      DealtNothing(bs, x);
    } else {
      var p := o - 1;
      RowsDealt(bs, p, x);
      DealtNext(bs, p, x);
      RowsNext(bs, p, x);
    }
  }

  lemma {:induction false} CountIsMultiset<T>(s: seq<T>, x: T)
    ensures Count(s, x) == multiset(s)[x]
  {
    if s != [] {
      CountIsMultiset(s[..|s| - 1], x);
      assert s == s[..|s| - 1] + [s[|s| - 1]];
    }
  }

  lemma SameCounts<T>(s: seq<T>, t: seq<T>)
    requires forall x :: Count(s, x) == Count(t, x)
    ensures multiset(s) == multiset(t) && |s| == |t|
  {
    forall x ensures multiset(s)[x] == multiset(t)[x] {
      CountIsMultiset(s, x);
      CountIsMultiset(t, x);
    }
    assert multiset(s) == multiset(t);
    assert |multiset(s)| == |s| && |multiset(t)| == |t|;
  }

  /** Enough rows deal out every element of the bands exactly once. */
  lemma RowsArePermutation<T>(bs: seq<seq<T>>, o: nat)
    requires forall band <- bs :: |band| <= o
    ensures multiset(Rows(bs, o)) == multiset(Join(bs)) && |Rows(bs, o)| == |Join(bs)|
  {
    forall x ensures Count(Rows(bs, o), x) == Count(Join(bs), x) {
      RowsDealt(bs, o, x);
      DealtAll(bs, o, x);
    }
    SameCounts(Rows(bs, o), Join(bs));
  }

  lemma {:induction false} RowsGrow<T>(bs: seq<seq<T>>, o: nat, o': nat)
    requires o <= o'
    ensures Rows(bs, o) <= Rows(bs, o')
    decreases o'
  {
    if o < o' { RowsGrow(bs, o, o' - 1); }
  }

  lemma {:induction false} FirstRow<T>(bs: seq<seq<T>>)
    requires forall b :: 0 <= b < |bs| ==> |bs[b]| > 0
    ensures |Row(bs, 0)| == |bs| && forall b :: 0 <= b < |bs| ==> Row(bs, 0)[b] == bs[b][0]
  {
    if bs != [] {
      FirstRow(bs[..|bs| - 1]);
    }
  }

  lemma RowsStart<T>(bs: seq<seq<T>>, o: nat, b: nat)
    requires (forall b :: 0 <= b < |bs| ==> |bs[b]| > 0) && o > 0 && b < |bs|
    ensures b < |Rows(bs, o)| && Rows(bs, o)[b] == bs[b][0]
  {
    FirstRow(bs);
    RowsGrow(bs, 1, o);
    assert Rows(bs, 1) == Rows(bs, 0) + Row(bs, 0);
    assert Rows(bs, 1) == Row(bs, 0);
  }

  /** Once everything is dealt, further rows add nothing. */
  lemma RowsDone<T>(bs: seq<seq<T>>, o: nat, n: nat)
    requires (forall band <- bs :: |band| <= n) && o <= n
    ensures |Rows(bs, o)| <= |Join(bs)|
    ensures |Rows(bs, o)| == |Join(bs)| || o == n ==> Rows(bs, o) == Rows(bs, n) && |Rows(bs, o)| == |Join(bs)|
  {
    RowsArePermutation(bs, n);
    RowsGrow(bs, o, n);
  }

  //
  // spread_cached_peers_for_dial_slots
  //

  function BandCount(n: nat, slots: int): nat { if slots <= 1 || n <= 1 then 1 else if slots < n then slots else n }

  ghost function Spread<T>(peers: seq<T>, slots: int): seq<T> {
    var bands := BandCount(|peers|, slots);
    if bands <= 1 then peers else Rows(Bands(peers, bands), |peers|)
  }

  lemma BandsFacts<T>(peers: seq<T>, bands: nat)
    requires 0 < bands <= |peers|
    ensures Join(Bands(peers, bands)) == peers
    ensures forall band <- Bands(peers, bands) :: band != [] && |band| <= |peers|
  {
    var bs := Bands(peers, bands);
    BandsJoin(peers, bands, bands);
    BeginEnds(|peers|, bands);
    assert bs[..bands] == bs && peers[..|peers|] == peers;
    forall band | band in bs ensures band != [] && |band| <= |peers| {
      var b :| 0 <= b < bands && band == bs[b];
      BeginBounds(|peers|, bands, b);
    }
  }

  /** No peer is lost or repeated. */
  lemma SpreadIsPermutation<T>(peers: seq<T>, slots: int)
    ensures multiset(Spread(peers, slots)) == multiset(peers) && |Spread(peers, slots)| == |peers|
  {
    var bands := BandCount(|peers|, slots);
    if bands > 1 {
      BandsFacts(peers, bands);
      RowsArePermutation(Bands(peers, bands), |peers|);
    }
  }

  lemma BandFront<T>(peers: seq<T>, bands: nat, b: nat)
    requires b < bands <= |peers|
    ensures Begin(|peers|, bands, b) < |peers| && |Bands(peers, bands)[b]| > 0
    ensures Bands(peers, bands)[b][0] == peers[Begin(|peers|, bands, b)]
  {
    BeginBounds(|peers|, bands, b);
    assert Bands(peers, bands)[b] == Band(peers, bands, b);
  }

  function Smaller(a: int, b: int): int { if a <= b then a else b }

  /** One slot, or one peer, leaves the order as it is. */
  lemma NothingToSpread<T>(peers: seq<T>, slots: int)
    requires slots <= 1 || |peers| <= 1
    ensures Spread(peers, slots) == peers
  {}

  lemma SpreadsOver<T>(peers: seq<T>, slots: int, k: nat)
    requires |peers| > 1 && slots > 1 && k == Smaller(slots, |peers|)
    ensures Spread(peers, slots) == Rows(Bands(peers, k), |peers|)
  {}

  lemma FirstOfBand<T>(peers: seq<T>, slots: int, k: nat, b: nat)
    requires |peers| > 1 && slots > 1 && k == Smaller(slots, |peers|) && b < k
    ensures |Spread(peers, slots)| == |peers| && Begin(|peers|, k, b) < |peers|
    ensures Spread(peers, slots)[b] == peers[Begin(|peers|, k, b)]
  {
    SpreadIsPermutation(peers, slots);
    BandFront(peers, k, b);
    BandsFacts(peers, k);
    SpreadsOver(peers, slots, k);
    RowsStart(Bands(peers, k), |peers|, b);
  }

  /**
   The first peers out are evenly spaced over the list, as many as there are slots or peers: the start of each band,
   in band order.
   */
  lemma BandStartsFirst<T>(peers: seq<T>, slots: int, k: nat, b: nat, i: nat)
    requires |peers| > 1 && slots > 1 && k == Smaller(slots, |peers|) && b < k && i == |peers| * b / k
    ensures |Spread(peers, slots)| == |peers| && i < |peers|
    ensures Spread(peers, slots)[b] == peers[i]
  {
    FirstOfBand(peers, slots, k, b);
  }

  //
  // The order of the rest
  //

  /** A band and an offset in it. */
  datatype Place = Place(band: nat, offset: nat)

  /** Smaller offsets first, equal offsets in band order. */
  predicate Earlier(p: Place, q: Place) { p.offset < q.offset || (p.offset == q.offset && p.band < q.band) }

  ghost predicate InOrder(at: seq<Place>) { forall i, j :: 0 <= i < j < |at| ==> Earlier(at[i], at[j]) }

  predicate Fits<T>(bs: seq<seq<T>>, p: Place) { p.band < |bs| && p.offset < |bs[p.band]| }

  /** Each element of `row` is the one at its place. */
  ghost predicate Placed<T>(bs: seq<seq<T>>, at: seq<Place>, row: seq<T>) {
    && |at| == |row|
    && forall i :: 0 <= i < |at| ==> Fits(bs, at[i]) && row[i] == bs[at[i].band][at[i].offset]
  }

  lemma {:induction false} RowPlaces<T>(bs: seq<seq<T>>, o: nat, k: nat) returns (at: seq<Place>)
    requires k <= |bs|
    ensures Placed(bs, at, Row(bs[..k], o)) && InOrder(at)
    ensures forall i :: 0 <= i < |at| ==> at[i].offset == o && at[i].band < k
  {
    if k == 0 {
      at := [];
    } else {
      var front := RowPlaces(bs, o, k - 1);
      assert bs[..k][..k - 1] == bs[..k - 1] && bs[..k][k - 1] == bs[k - 1];
      at := if o < |bs[k - 1]| then front + [Place(k - 1, o)] else front;
    }
  }

  lemma PlacesConcat<T>(bs: seq<seq<T>>, at: seq<Place>, at': seq<Place>, row: seq<T>, row': seq<T>, o: nat)
    requires Placed(bs, at, row) && InOrder(at) && Placed(bs, at', row') && InOrder(at')
    requires forall i :: 0 <= i < |at| ==> at[i].offset < o
    requires forall i :: 0 <= i < |at'| ==> at'[i].offset == o
    ensures Placed(bs, at + at', row + row') && InOrder(at + at')
    ensures forall i :: 0 <= i < |at + at'| ==> (at + at')[i].offset <= o
  {}

  lemma {:induction false} RowsPlaces<T>(bs: seq<seq<T>>, o: nat) returns (at: seq<Place>)
    ensures Placed(bs, at, Rows(bs, o)) && InOrder(at)
    ensures forall i :: 0 <= i < |at| ==> at[i].offset < o
  {
    if o == 0 {
      at := [];
    } else {
      var front := RowsPlaces(bs, o - 1);
      var last := RowPlaces(bs, o - 1, |bs|);
      assert bs[..|bs|] == bs;
      PlacesConcat(bs, front, last, Rows(bs, o - 1), Row(bs, o - 1), o - 1);
      at := front + last;
    }
  }

  /** `x` is the peer at place `p` when the list is cut into `k` bands. */
  ghost predicate PeerAt<T>(peers: seq<T>, k: nat, p: Place, x: T)
    requires k > 0
  {
    && p.band < k
    && |peers| * p.band / k + p.offset < |peers| * (p.band + 1) / k <= |peers|
    && x == peers[|peers| * p.band / k + p.offset]
  }

  lemma PlaceInBand<T>(peers: seq<T>, k: nat, p: Place)
    requires 0 < k <= |peers| && Fits(Bands(peers, k), p)
    ensures PeerAt(peers, k, p, Bands(peers, k)[p.band][p.offset])
  {
    BeginBounds(|peers|, k, p.band);
    assert Bands(peers, k)[p.band] == Band(peers, k, p.band);
  }

  /**
   The whole order: reading the spread list from its start, the places go strictly upwards, a smaller offset before a
   larger one of any band, and equal offsets in band order.
   */
  lemma SpreadInOrder<T>(peers: seq<T>, slots: int, k: nat) returns (at: seq<Place>)
    requires |peers| > 1 && slots > 1 && k == Smaller(slots, |peers|)
    ensures |at| == |peers| == |Spread(peers, slots)| && InOrder(at)
    ensures forall i :: 0 <= i < |at| ==> PeerAt(peers, k, at[i], Spread(peers, slots)[i])
  {
    var bs := Bands(peers, k);
    SpreadIsPermutation(peers, slots);
    SpreadsOver(peers, slots, k);
    at := RowsPlaces(bs, |peers|);
    forall i | 0 <= i < |at| ensures PeerAt(peers, k, at[i], Spread(peers, slots)[i]) {
      assert Fits(bs, at[i]);
      PlaceInBand(peers, k, at[i]);
    }
  }

  /** Rotating and then spreading keeps every peer exactly once. */
  lemma PreloadOrderIsPermutation<T>(peers: seq<T>, startOffset: nat, slots: int)
    ensures multiset(Spread(Rotated(peers, startOffset), slots)) == multiset(peers)
  {
    RotatedIsPermutation(peers, startOffset);
    SpreadIsPermutation(Rotated(peers, startOffset), slots);
  }

  /** One round of the inner loop. */
  method DealOne<T>(peers: seq<T>, bands: nat, offset: nat, band: nat) returns (r: seq<T>)
    requires band < bands <= |peers|
    ensures r == At(Band(peers, bands, band), offset)
  {
    BeginBounds(|peers|, bands, band);
    var begin := (|peers| * band) / bands;
    var end := (|peers| * (band + 1)) / bands;
    var index := begin + offset;
    r := if index < end then [peers[index]] else [];
  }

  method DealRow<T>(peers: seq<T>, bands: nat, offset: nat, spread: seq<T>) returns (r: seq<T>)
    requires 0 < bands <= |peers|
    ensures r == spread + Row(Bands(peers, bands), offset)
  {
    ghost var bs := Bands(peers, bands);
    r := spread;
    for band := 0 to bands
      invariant r == spread + Row(bs[..band], offset)
    {
      var next := DealOne(peers, bands, offset, band);
      r := r + next;
      assert bs[..band + 1][..band] == bs[..band];
    }
    assert bs[..bands] == bs;
  }

  /** When as many peers are out as there are, the rows are complete. */
  lemma AllDealt<T>(peers: seq<T>, bands: nat, offset: nat)
    requires 0 < bands <= |peers| && offset <= |peers|
    ensures var bs := Bands(peers, bands); var rows := Rows(bs, offset);
            && |rows| <= |peers|
            && (|rows| == |peers| || offset == |peers| ==> rows == Rows(bs, |peers|) && |rows| == |peers|)
  {
    BandsFacts(peers, bands);
    RowsDone(Bands(peers, bands), offset, |peers|);
  }

  /** The outer loop ends because as many rows as peers deal out everything. */
  method DealAll<T>(peers: seq<T>, bands: nat) returns (r: seq<T>)
    requires 0 < bands <= |peers|
    ensures r == Rows(Bands(peers, bands), |peers|)
  {
    ghost var bs := Bands(peers, bands);
    r := [];
    var offset := 0;
    AllDealt(peers, bands, offset);
    while |r| < |peers|
      invariant offset <= |peers| && r == Rows(bs, offset)
      invariant |r| == |peers| || offset == |peers| ==> r == Rows(bs, |peers|) && |r| == |peers|
      invariant |r| <= |peers|
      decreases |peers| - offset
    {
      r := DealRow(peers, bands, offset, r);
      offset := offset + 1;
      AllDealt(peers, bands, offset);
    }
  }

  method SpreadForDialSlots<T>(peers: seq<T>, slots: int) returns (r: seq<T>)
    ensures r == Spread(peers, slots)
  {
    if |peers| <= 1 || slots <= 1 { return peers; }
    var bands := if slots < |peers| then slots else |peers|;
    r := DealAll(peers, bands);
  }
}
