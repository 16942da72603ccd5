/**
 The ENR-tree resolver: the breadth-first walk over DNS labels and the merge over several trees.
 Lookup and record parsing are functions of the environment.
 */
module EnrTree {
  import opened EnrText

  const MAX_LOOKUPS: nat := 8192

  //
  // The tree
  //

  /** TXT lookup, the valid records an entry is, and the labels an entry names. */
  datatype Dns = Dns(lookup: string -> seq<string>, enrs: string -> seq<string>, kids: string -> seq<string>)

  /** An entry that parses to a usable peer is a record; any other may be a branch. */
  predicate IsEnr(parses: string -> bool, entry: string) { ENR_PREFIX <= entry && parses(entry) }

  function EntryEnrs(parses: string -> bool, raw: string): seq<string> {
    if IsEnr(parses, Trim(raw)) then [Trim(raw)] else []
  }

  function EntryKids(parses: string -> bool, raw: string): seq<string> {
    if IsEnr(parses, Trim(raw)) then [] else BranchLabels(Trim(raw))
  }

  /** Entries read as their text says. */
  ghost predicate Reads(d: Dns, parses: string -> bool) {
    forall raw :: d.enrs(raw) == EntryEnrs(parses, raw) && d.kids(raw) == EntryKids(parses, raw)
  }

  function EnrsOf(d: Dns, entries: seq<string>, n: nat): seq<string>
    requires n <= |entries|
  { if n == 0 then [] else EnrsOf(d, entries, n - 1) + d.enrs(entries[n - 1]) }

  function KidsOf(d: Dns, entries: seq<string>, n: nat): seq<string>
    requires n <= |entries|
  { if n == 0 then [] else KidsOf(d, entries, n - 1) + d.kids(entries[n - 1]) }

  /** One tree: its domain in the DNS. */
  datatype Tree = Tree(d: Dns, domain: string) {
    function Entries(name: string): seq<string> { d.lookup(name + "." + domain) }

    function Enrs(name: string): seq<string> { EnrsOf(d, Entries(name), |Entries(name)|) }

    function Kids(name: string): seq<string> { KidsOf(d, Entries(name), |Entries(name)|) }
  }

  function RootsOf(records: seq<string>, n: nat): seq<string>
    requires n <= |records|
  {
    if n == 0 then []
    else
      RootsOf(records, n - 1)
      + if ROOT_PREFIX <= records[n - 1] && EntryLabel(records[n - 1]) != "" then [EntryLabel(records[n - 1])] else []
  }

  function Roots(t: Tree): seq<string> { RootsOf(t.d.lookup(t.domain), |t.d.lookup(t.domain)|) }

  /** A way down the tree from a root label. */
  ghost predicate Path(t: Tree, path: seq<string>) {
    path != [] && path[0] in Roots(t) && forall i :: 0 < i < |path| ==> path[i] in t.Kids(path[i - 1])
  }

  ghost predicate Reachable(t: Tree, name: string) { exists path :: Path(t, path) && path[|path| - 1] == name }

  lemma RootReachable(t: Tree, name: string)
    requires name in Roots(t)
    ensures Reachable(t, name)
  {
    assert Path(t, [name]) && [name][|[name]| - 1] == name;
  }

  lemma KidReachable(t: Tree, name: string, kid: string)
    requires Reachable(t, name) && kid in t.Kids(name)
    ensures Reachable(t, kid)
  {
    var path :| Path(t, path) && path[|path| - 1] == name;
    var longer := path + [kid];
    assert Path(t, longer) && longer[|longer| - 1] == kid;
  }

  /** All valid records of the first `n` labels, in order. */
  function AllEnrs(t: Tree, looked: seq<string>, n: nat): seq<string>
    requires n <= |looked|
  { if n == 0 then [] else AllEnrs(t, looked, n - 1) + t.Enrs(looked[n - 1]) }

  lemma {:induction false} AllEnrsPrefix(t: Tree, looked: seq<string>, more: seq<string>, n: nat)
    requires n <= |looked|
    ensures AllEnrs(t, looked + more, n) == AllEnrs(t, looked, n)
  {
    if n > 0 { AllEnrsPrefix(t, looked, more, n - 1); }
  }

  lemma AllEnrsNext(t: Tree, looked: seq<string>, name: string)
    ensures AllEnrs(t, looked + [name], |looked| + 1) == AllEnrs(t, looked, |looked|) + t.Enrs(name)
  {
    AllEnrsPrefix(t, looked, [name], |looked|);
  }

  lemma {:induction false} InAllEnrs(t: Tree, looked: seq<string>, n: nat, e: string)
    requires n <= |looked|
    ensures e in AllEnrs(t, looked, n) <==> exists i :: 0 <= i < n && e in t.Enrs(looked[i])
  {
    if n > 0 {
      InAllEnrs(t, looked, n - 1, e);
      if e in t.Enrs(looked[n - 1]) { assert e in AllEnrs(t, looked, n); }
    }
  }

  function Capped(s: seq<string>, max: nat): seq<string> { if |s| <= max then s else s[..max] }

  /** A label pushed more than once is looked up once. */
  ghost predicate Distinct(looked: seq<string>) { forall i, j :: 0 <= i < j < |looked| ==> looked[i] != looked[j] }

  /** Every root and every child of a looked-up label is looked up or waiting. */
  ghost predicate Closed(t: Tree, looked: seq<string>, pending: seq<string>) {
    && (forall r <- Roots(t) :: r in looked || r in pending)
    && (forall i :: 0 <= i < |looked| ==> KidsKnown(t, looked[i], looked, pending))
  }

  ghost predicate KidsKnown(t: Tree, name: string, looked: seq<string>, pending: seq<string>) {
    forall kid <- t.Kids(name) :: kid in looked || kid in pending
  }

  ghost predicate AllReachable(t: Tree, names: seq<string>) { forall i :: 0 <= i < |names| ==> Reachable(t, names[i]) }

  /** With nothing waiting, everything reachable was looked up. */
  lemma {:induction false} ReachedAll(t: Tree, looked: seq<string>, path: seq<string>)
    requires Closed(t, looked, []) && Path(t, path)
    ensures path[|path| - 1] in looked
    decreases |path|
  {
    if |path| > 1 {
      var shorter := path[..|path| - 1];
      assert Path(t, shorter);
      ReachedAll(t, looked, shorter);
      var i :| 0 <= i < |looked| && looked[i] == path[|path| - 2];
      assert KidsKnown(t, looked[i], looked, []);
    }
  }

  //
  // resolve_url
  //

  /** What the walk keeps between two labels. */
  ghost predicate Walk(t: Tree, max: nat, out: seq<string>, looked: seq<string>, pending: seq<string>) {
    && Distinct(looked) && |looked| <= MAX_LOOKUPS && AllReachable(t, looked) && AllReachable(t, pending)
    && out == Capped(AllEnrs(t, looked, |looked|), max)
    && (|out| < max ==> Closed(t, looked, pending))
  }

  /** What scanning `kids` may do to the queue. */
  ghost predicate Queued(kids: seq<string>, seen: set<string>, pending: seq<string>, pending': seq<string>) {
    && Appends(kids, pending, pending')
    && (forall x <- kids :: x in seen || x in pending')
  }

  /** The queue grows at its end, by some of the labels. */
  ghost predicate Appends(kids: seq<string>, pending: seq<string>, pending': seq<string>) {
    pending <= pending' && forall k :: |pending| <= k < |pending'| ==> pending'[k] in kids
  }

  lemma QueuedBoth(a: seq<string>, b: seq<string>, seen: set<string>, p: seq<string>, q: seq<string>, r: seq<string>)
    requires Queued(a, seen, p, q) && Queued(b, seen, q, r)
    ensures Queued(a + b, seen, p, r)
  {
    forall x | x in a + b ensures x in seen || x in r {
      if x in q { assert x in r; }
    }
  }

  method ScanEntry(ghost d: Dns, parses: string -> bool, raw: string, seen: set<string>, pending: seq<string>,
                   out: seq<string>)
    returns (pending': seq<string>, out': seq<string>)
    requires Reads(d, parses)
    ensures out' == out + d.enrs(raw) && Queued(d.kids(raw), seen, pending, pending') && |out'| <= |out| + 1
  {
    var entry := TrimCopy(raw);
    if ENR_PREFIX <= entry && parses(entry) { return pending, out + [entry]; }
    var kids := SplitBranchLabels(entry);
    pending' := PushUnseen(kids, seen, pending);
    out' := out;
  }

  /** The result of scanning the records and labels of one label. */
  ghost predicate Scanned(enrs: seq<string>, kids: seq<string>, seen: set<string>, pending: seq<string>,
                          out: seq<string>, max: nat, pending': seq<string>, out': seq<string>)
  {
    && out' == Capped(out + enrs, max)
    && Appends(kids, pending, pending')
    && (|out'| < max ==> forall x <- kids :: x in seen || x in pending')
  }

  /** The first `n` entries are done. */
  ghost predicate Progress(d: Dns, entries: seq<string>, n: nat, seen: set<string>, pending: seq<string>,
                           out: seq<string>, pending': seq<string>, out': seq<string>)
    requires n <= |entries|
  { out' == out + EnrsOf(d, entries, n) && Queued(KidsOf(d, entries, n), seen, pending, pending') }

  method ScanNext(ghost d: Dns, parses: string -> bool, entries: seq<string>, i: nat, seen: set<string>,
                  ghost pending: seq<string>, ghost out: seq<string>,
                  pending1: seq<string>, out1: seq<string>)
    returns (pending': seq<string>, out': seq<string>)
    requires Reads(d, parses) && i < |entries| && Progress(d, entries, i, seen, pending, out, pending1, out1)
    ensures Progress(d, entries, i + 1, seen, pending, out, pending', out') && |out'| <= |out1| + 1
  {
    pending', out' := ScanEntry(d, parses, entries[i], seen, pending1, out1);
    QueuedBoth(KidsOf(d, entries, i), d.kids(entries[i]), seen, pending, pending1, pending');
    EnrText.Assoc(out, EnrsOf(d, entries, i), d.enrs(entries[i]));
  }

  /** The entries of one label: records go out until the limit, labels not yet seen are appended. */
  method ScanEntries(ghost d: Dns, parses: string -> bool, entries: seq<string>, seen: set<string>,
                     pending: seq<string>, out: seq<string>, max: nat)
    returns (pending': seq<string>, out': seq<string>)
    requires Reads(d, parses) && |out| < max
    ensures Scanned(EnrsOf(d, entries, |entries|), KidsOf(d, entries, |entries|), seen, pending, out, max, pending',
                    out')
  {
    pending', out' := pending, out;
    var i := 0;
    while i < |entries| && |out'| < max
      invariant i <= |entries| && |out'| <= max && Progress(d, entries, i, seen, pending, out, pending', out')
    {
      pending', out' := ScanNext(d, parses, entries, i, seen, pending, out, pending', out');
      i := i + 1;
    }
    ProgressEnds(d, entries, i, seen, pending, out, max, pending', out');
  }

  lemma ProgressEnds(d: Dns, entries: seq<string>, n: nat, seen: set<string>, pending: seq<string>, out: seq<string>,
                     max: nat, pending': seq<string>, out': seq<string>)
    requires n <= |entries| && Progress(d, entries, n, seen, pending, out, pending', out')
    requires |out'| <= max && (n < |entries| ==> |out'| == max)
    ensures Scanned(EnrsOf(d, entries, |entries|), KidsOf(d, entries, |entries|), seen, pending, out, max, pending',
                    out')
  {
    EnrsGrow(d, entries, n, |entries|);
    KidsGrow(d, entries, n, |entries|);
    ScanEnds(EnrsOf(d, entries, n), EnrsOf(d, entries, |entries|), KidsOf(d, entries, n), KidsOf(d, entries, |entries|),
             seen, pending, out, max, pending', out');
  }

  /** The scan ends after the last entry, or with the record that fills the limit. */
  lemma ScanEnds(enrs: seq<string>, allEnrs: seq<string>, kids: seq<string>, allKids: seq<string>, seen: set<string>,
                 pending: seq<string>, out: seq<string>, max: nat, pending': seq<string>, out': seq<string>)
    requires enrs <= allEnrs && kids <= allKids && out' == out + enrs && |out'| <= max
    requires |out'| == max || (enrs == allEnrs && kids == allKids)
    requires Queued(kids, seen, pending, pending')
    ensures Scanned(allEnrs, allKids, seen, pending, out, max, pending', out')
  {}

  method PushUnseen(kids: seq<string>, seen: set<string>, pending: seq<string>) returns (r: seq<string>)
    ensures Queued(kids, seen, pending, r)
  {
    r := pending;
    for i := 0 to |kids|
      invariant Appends(kids, pending, r)
      invariant forall k :: 0 <= k < i ==> kids[k] in seen || kids[k] in r
    {
      if kids[i] !in seen { r := r + [kids[i]]; }
    }
  }

  lemma PrefixGrows(x: seq<string>, a: seq<string>, b: seq<string>)
    requires x <= a
    ensures x <= a + b
  {}

  lemma {:induction false} EnrsGrow(d: Dns, entries: seq<string>, m: nat, n: nat)
    requires m <= n <= |entries|
    ensures EnrsOf(d, entries, m) <= EnrsOf(d, entries, n)
    decreases n
  {
    if m < n {
      EnrsGrow(d, entries, m, n - 1);
      PrefixGrows(EnrsOf(d, entries, m), EnrsOf(d, entries, n - 1), d.enrs(entries[n - 1]));
    }
  }

  lemma {:induction false} KidsGrow(d: Dns, entries: seq<string>, m: nat, n: nat)
    requires m <= n <= |entries|
    ensures KidsOf(d, entries, m) <= KidsOf(d, entries, n)
    decreases n
  {
    if m < n {
      KidsGrow(d, entries, m, n - 1);
      PrefixGrows(KidsOf(d, entries, m), KidsOf(d, entries, n - 1), d.kids(entries[n - 1]));
    }
  }

  lemma WalkSkips(t: Tree, max: nat, out: seq<string>, looked: seq<string>, pending: seq<string>)
    requires Walk(t, max, out, looked, pending) && pending != [] && pending[0] in looked
    ensures Walk(t, max, out, looked, pending[1..])
  {
    if |out| < max {
      forall i | 0 <= i < |looked| ensures KidsKnown(t, looked[i], looked, pending[1..]) {
        assert KidsKnown(t, looked[i], looked, pending);
      }
    }
  }

  lemma CappedNext(all: seq<string>, more: seq<string>, max: nat)
    requires |Capped(all, max)| < max
    ensures Capped(all, max) == all && Capped(all + more, max) == Capped(Capped(all, max) + more, max)
  {}

  /** The label at the front is looked up. */
  lemma WalkLooks(t: Tree, max: nat, out: seq<string>, looked: seq<string>, pending: seq<string>, seen: set<string>,
                  out': seq<string>, pending': seq<string>)
    requires Walk(t, max, out, looked, pending) && pending != [] && pending[0] !in looked
    requires |out| < max && |looked| < MAX_LOOKUPS
    requires forall x :: x in seen <==> x in looked + [pending[0]]
    requires Scanned(t.Enrs(pending[0]), t.Kids(pending[0]), seen, pending[1..], out, max, pending', out')
    ensures Walk(t, max, out', looked + [pending[0]], pending')
  {
    var name := pending[0];
    LookedNext(t, looked, name);
    AllEnrsNext(t, looked, name);
    CappedNext(AllEnrs(t, looked, |looked|), t.Enrs(name), max);
    PendingReachable(t, name, pending, pending');
    if |out'| < max { KeepClosed(t, looked, pending, pending'); }
  }

  lemma LookedNext(t: Tree, looked: seq<string>, name: string)
    requires Distinct(looked) && AllReachable(t, looked) && name !in looked && Reachable(t, name)
    ensures Distinct(looked + [name]) && AllReachable(t, looked + [name])
  {}

  lemma PendingReachable(t: Tree, name: string, pending: seq<string>, pending': seq<string>)
    requires AllReachable(t, pending) && pending != [] && name == pending[0]
    requires Appends(t.Kids(name), pending[1..], pending')
    ensures AllReachable(t, pending')
  {
    forall i | 0 <= i < |pending'| ensures Reachable(t, pending'[i]) {
      if i < |pending| - 1 {
        assert pending'[i] == pending[1..][i] == pending[i + 1];
      } else {
        KidReachable(t, name, pending'[i]);
      }
    }
  }

  lemma KeepClosed(t: Tree, looked: seq<string>, pending: seq<string>, pending': seq<string>)
    requires Closed(t, looked, pending) && pending != [] && pending[1..] <= pending'
    requires forall x <- t.Kids(pending[0]) :: x in looked + [pending[0]] || x in pending'
    ensures Closed(t, looked + [pending[0]], pending')
  {
    var looked' := looked + [pending[0]];
    assert forall x <- pending :: x == pending[0] || x in pending[1..];
    assert forall x <- pending[1..] :: x in pending';
    forall i | 0 <= i < |looked'| ensures KidsKnown(t, looked'[i], looked', pending') {
      if i < |looked| { assert KidsKnown(t, looked[i], looked, pending); }
    }
  }

  //
  // The order of the walk
  //

  /** Some way from a root down to the label takes `n` steps. */
  ghost predicate AtDepth(t: Tree, name: string, n: nat)
    decreases n
  { if n == 0 then name in Roots(t) else exists parent :: AtDepth(t, parent, n - 1) && name in t.Kids(parent) }

  /** The shortest way takes `n` steps. */
  ghost predicate Shortest(t: Tree, name: string, n: nat) {
    AtDepth(t, name, n) && forall m: nat :: AtDepth(t, name, m) ==> n <= m
  }

  /** No label is looked up before one that is nearer to the roots. */
  ghost predicate NearestFirst(t: Tree, looked: seq<string>, depths: seq<nat>) {
    && |depths| == |looked| && (forall i :: 0 <= i < |looked| ==> Shortest(t, looked[i], depths[i]))
    && (forall i, j :: 0 <= i < j < |depths| ==> depths[i] <= depths[j])
  }

  /** Labels with a depth each. */
  ghost predicate Depths(t: Tree, names: seq<string>, depths: seq<nat>) {
    && |depths| == |names| && (forall i :: 0 <= i < |names| ==> AtDepth(t, names[i], depths[i]))
    && (forall i, j :: 0 <= i < j < |depths| ==> depths[i] <= depths[j])
  }

  ghost predicate Listed(names: seq<string>, depths: seq<nat>, name: string, n: nat)
    requires |names| == |depths|
  { exists i :: 0 <= i < |names| && names[i] == name && depths[i] <= n }

  /** The label was looked up or waits, at no more than this depth. */
  ghost predicate Known(looked: seq<string>, above: seq<nat>, pending: seq<string>, below: seq<nat>, name: string,
                        n: nat)
    requires |looked| == |above| && |pending| == |below|
  { Listed(looked, above, name, n) || Listed(pending, below, name, n) }

  /** Looked-up labels are no deeper than waiting ones, and these lie on at most two neighbouring levels. */
  ghost predicate Levels(t: Tree, looked: seq<string>, above: seq<nat>, pending: seq<string>, below: seq<nat>) {
    && Depths(t, looked, above) && Depths(t, pending, below)
    && (forall i, k :: 0 <= i < |above| && 0 <= k < |below| ==> above[i] <= below[k])
    && (forall k :: 0 <= k < |below| ==> below[k] <= below[0] + 1)
    && (forall r <- Roots(t) :: Known(looked, above, pending, below, r, 0))
    && (forall i :: 0 <= i < |looked| ==> KidsLevel(t, looked[i], above[i], looked, above, pending, below))
  }

  ghost predicate KidsLevel(t: Tree, name: string, n: nat, looked: seq<string>, above: seq<nat>, pending: seq<string>,
                            below: seq<nat>)
    requires |looked| == |above| && |pending| == |below|
  { forall kid <- t.Kids(name) :: Known(looked, above, pending, below, kid, n + 1) }

  /** A label at depth `n` was looked up at no more than that, or the next in the queue is no deeper. */
  lemma {:induction false} NextIsNear(t: Tree, looked: seq<string>, above: seq<nat>, pending: seq<string>,
                                      below: seq<nat>, name: string, n: nat)
    requires Levels(t, looked, above, pending, below) && AtDepth(t, name, n)
    ensures Listed(looked, above, name, n) || (below != [] && below[0] <= n)
    decreases n
  {
    if n == 0 {
      assert Known(looked, above, pending, below, name, 0);
    } else {
      var parent :| AtDepth(t, parent, n - 1) && name in t.Kids(parent);
      NextIsNear(t, looked, above, pending, below, parent, n - 1);
      if Listed(looked, above, parent, n - 1) {
        var i :| 0 <= i < |looked| && looked[i] == parent && above[i] <= n - 1;
        assert KidsLevel(t, looked[i], above[i], looked, above, pending, below);
        assert Known(looked, above, pending, below, name, above[i] + 1);
      }
    }
  }

  lemma NearestNext(t: Tree, looked: seq<string>, above: seq<nat>, pending: seq<string>, below: seq<nat>)
    requires Levels(t, looked, above, pending, below) && NearestFirst(t, looked, above) && pending != []
    requires pending[0] !in looked
    ensures NearestFirst(t, looked + [pending[0]], above + [below[0]])
  {
    forall n: nat | AtDepth(t, pending[0], n) ensures below[0] <= n {
      NextIsNear(t, looked, above, pending, below, pending[0], n);
    }
    assert Shortest(t, pending[0], below[0]);
  }

  /** Whatever was known is still known. */
  ghost predicate StillKnown(looked: seq<string>, above: seq<nat>, pending: seq<string>, below: seq<nat>,
                             looked': seq<string>, above': seq<nat>, pending': seq<string>, below': seq<nat>)
    requires |looked| == |above| && |pending| == |below| && |looked'| == |above'| && |pending'| == |below'|
  {
    forall name, n: nat :: Known(looked, above, pending, below, name, n) ==>
      Known(looked', above', pending', below', name, n)
  }

  lemma LevelsStart(t: Tree)
    ensures Levels(t, [], [], Roots(t), seq(|Roots(t)|, _ => 0))
  {
    var below := seq(|Roots(t)|, _ => 0);
    forall r | r in Roots(t) ensures Known([], [], Roots(t), below, r, 0) {
      var i :| 0 <= i < |Roots(t)| && Roots(t)[i] == r;
      assert below[i] == 0;
    }
  }

  lemma SkipKnown(looked: seq<string>, above: seq<nat>, pending: seq<string>, below: seq<nat>, h: nat)
    requires |looked| == |above| && |pending| == |below| && pending != []
    requires h < |looked| && looked[h] == pending[0] && above[h] <= below[0]
    ensures StillKnown(looked, above, pending, below, looked, above, pending[1..], below[1..])
  {
    forall name, n: nat | Known(looked, above, pending, below, name, n)
      ensures Known(looked, above, pending[1..], below[1..], name, n)
    {
      if Listed(pending, below, name, n) {
        var k :| 0 <= k < |pending| && pending[k] == name && below[k] <= n;
        if k == 0 {
          assert looked[h] == name && above[h] <= n;
        } else {
          assert pending[1..][k - 1] == name && below[1..][k - 1] <= n;
        }
      }
    }
  }

  /** A label that was looked up already leaves the queue. */
  lemma LevelsSkip(t: Tree, looked: seq<string>, above: seq<nat>, pending: seq<string>, below: seq<nat>)
    requires Levels(t, looked, above, pending, below) && pending != [] && pending[0] in looked
    ensures Levels(t, looked, above, pending[1..], below[1..])
  {
    var h :| 0 <= h < |looked| && looked[h] == pending[0];
    SkipKnown(looked, above, pending, below, h);
    forall i | 0 <= i < |looked| ensures KidsLevel(t, looked[i], above[i], looked, above, pending[1..], below[1..]) {
      assert KidsLevel(t, looked[i], above[i], looked, above, pending, below);
    }
    SkipDepths(t, pending, below);
  }

  lemma SkipDepths(t: Tree, pending: seq<string>, below: seq<nat>)
    requires Depths(t, pending, below) && pending != []
    requires forall k :: 0 <= k < |below| ==> below[k] <= below[0] + 1
    ensures Depths(t, pending[1..], below[1..])
    ensures forall k :: 0 <= k < |below[1..]| ==> below[1..][k] <= below[1..][0] + 1
  {
    forall k | 0 <= k < |below[1..]| ensures below[1..][k] <= below[1..][0] + 1 {
      assert below[k + 1] <= below[0] + 1 && below[0] <= below[1];
    }
  }

  /** Depths of the queue after the front is looked up: its labels lie one below it. */
  function Deeper(below: seq<nat>, size: nat): seq<nat>
    requires below != []
  { below[1..] + seq(if size < |below| then 0 else size + 1 - |below|, _ => below[0] + 1) }

  lemma LookKnown(looked: seq<string>, above: seq<nat>, pending: seq<string>, below: seq<nat>, pending': seq<string>)
    requires |looked| == |above| && |pending| == |below| && pending != [] && pending[1..] <= pending'
    ensures |Deeper(below, |pending'|)| == |pending'|
    ensures StillKnown(looked, above, pending, below, looked + [pending[0]], above + [below[0]], pending',
                       Deeper(below, |pending'|))
  {
    var looked', above', below' := looked + [pending[0]], above + [below[0]], Deeper(below, |pending'|);
    forall name, n: nat | Known(looked, above, pending, below, name, n)
      ensures Known(looked', above', pending', below', name, n)
    {
      if Listed(looked, above, name, n) {
        var i :| 0 <= i < |looked| && looked[i] == name && above[i] <= n;
        assert looked'[i] == name && above'[i] <= n;
      } else {
        var k :| 0 <= k < |pending| && pending[k] == name && below[k] <= n;
        if k == 0 {
          assert looked'[|looked|] == name && above'[|looked|] <= n;
        } else {
          assert pending[1..][k - 1] == pending'[k - 1] == name && below'[k - 1] <= n;
        }
      }
    }
  }

  lemma LookDepths(t: Tree, pending: seq<string>, below: seq<nat>, pending': seq<string>)
    requires Depths(t, pending, below) && pending != [] && Appends(t.Kids(pending[0]), pending[1..], pending')
    requires forall k :: 0 <= k < |below| ==> below[k] <= below[0] + 1
    ensures var below' := Deeper(below, |pending'|);
            && Depths(t, pending', below')
            && forall k :: 0 <= k < |below'| ==> below[0] <= below'[k] <= below[0] + 1
  {
    var below' := Deeper(below, |pending'|);
    forall k | 0 <= k < |pending'| ensures AtDepth(t, pending'[k], below'[k]) {
      if k < |pending| - 1 {
        assert pending'[k] == pending[1..][k] == pending[k + 1] && below'[k] == below[k + 1];
      } else {
        assert AtDepth(t, pending[0], below'[k] - 1) && pending'[k] in t.Kids(pending[0]);
      }
    }
  }

  /** Every label of the one just looked up is known one level below it. */
  lemma LookKids(t: Tree, name: string, n: nat, looked: seq<string>, above: seq<nat>, pending: seq<string>,
                 below: seq<nat>)
    requires |looked| == |above| && |pending| == |below|
    requires (forall i :: 0 <= i < |above| ==> above[i] <= n) && (forall k :: 0 <= k < |below| ==> below[k] <= n + 1)
    requires forall kid <- t.Kids(name) :: kid in looked || kid in pending
    ensures KidsLevel(t, name, n, looked, above, pending, below)
  {
    forall kid | kid in t.Kids(name) ensures Known(looked, above, pending, below, kid, n + 1) {
      if kid in looked {
        var i :| 0 <= i < |looked| && looked[i] == kid;
        assert above[i] <= n + 1;
      } else {
        var k :| 0 <= k < |pending| && pending[k] == kid;
        assert below[k] <= n + 1;
      }
    }
  }

  lemma LevelsLook(t: Tree, looked: seq<string>, above: seq<nat>, pending: seq<string>, below: seq<nat>,
                   pending': seq<string>)
    requires Levels(t, looked, above, pending, below) && pending != []
    requires Appends(t.Kids(pending[0]), pending[1..], pending')
    requires forall kid <- t.Kids(pending[0]) :: kid in looked + [pending[0]] || kid in pending'
    ensures Levels(t, looked + [pending[0]], above + [below[0]], pending', Deeper(below, |pending'|))
  {
    var looked', above', below' := looked + [pending[0]], above + [below[0]], Deeper(below, |pending'|);
    LookKnown(looked, above, pending, below, pending');
    LookDepths(t, pending, below, pending');
    LookKids(t, pending[0], below[0], looked', above', pending', below');
    forall i | 0 <= i < |looked'| ensures KidsLevel(t, looked'[i], above'[i], looked', above', pending', below') {
      if i < |looked| { assert KidsLevel(t, looked[i], above[i], looked, above, pending, below); }
    }
  }

  /** The levels are known until the walk ends at the record limit. */
  ghost predicate Ordered(t: Tree, full: bool, looked: seq<string>, above: seq<nat>, pending: seq<string>,
                          below: seq<nat>)
  { NearestFirst(t, looked, above) && (full || Levels(t, looked, above, pending, below)) }

  lemma OrderedLooks(t: Tree, looked: seq<string>, above: seq<nat>, pending: seq<string>, below: seq<nat>,
                     seen: set<string>, out: seq<string>, max: nat, out': seq<string>, pending': seq<string>)
    returns (above': seq<nat>, below': seq<nat>)
    requires Ordered(t, false, looked, above, pending, below) && pending != [] && pending[0] !in looked
    requires forall x :: x in seen <==> x in looked + [pending[0]]
    requires Scanned(t.Enrs(pending[0]), t.Kids(pending[0]), seen, pending[1..], out, max, pending', out')
    ensures Ordered(t, |out'| >= max, looked + [pending[0]], above', pending', below')
  {
    above', below' := above + [below[0]], Deeper(below, |pending'|);
    NearestNext(t, looked, above, pending, below);
    if |out'| < max { LevelsLook(t, looked, above, pending, below, pending'); }
  }

  lemma OrderedSkips(t: Tree, looked: seq<string>, above: seq<nat>, pending: seq<string>, below: seq<nat>)
    returns (below': seq<nat>)
    requires Ordered(t, false, looked, above, pending, below) && pending != [] && pending[0] in looked
    ensures Ordered(t, false, looked, above, pending[1..], below')
  {
    LevelsSkip(t, looked, above, pending, below);
    below' := below[1..];
  }

  method RootLabels(records: seq<string>) returns (labels: seq<string>)
    ensures labels == RootsOf(records, |records|)
  {
    labels := [];
    for i := 0 to |records|
      invariant labels == RootsOf(records, i)
    {
      if !(ROOT_PREFIX <= records[i]) { continue; }
      var name := EntryLabel(records[i]);
      if name == "" { continue; }
      labels := labels + [name];
    }
  }

  /** What the loop keeps; `above` and `below` are depths of the labels looked up and waiting. */
  ghost predicate Walking(t: Tree, max: nat, out: seq<string>, looked: seq<string>, pending: seq<string>,
                          seen: set<string>, above: seq<nat>, below: seq<nat>)
  {
    && Walk(t, max, out, looked, pending) && Ordered(t, |out| >= max, looked, above, pending, below)
    && forall x :: x in seen <==> x in looked
  }

  lemma WalkStarts(t: Tree, max: nat) returns (below: seq<nat>)
    ensures Walking(t, max, [], [], Roots(t), {}, [], below)
  {
    below := seq(|Roots(t)|, _ => 0);
    forall i | 0 <= i < |Roots(t)| ensures Reachable(t, Roots(t)[i]) { RootReachable(t, Roots(t)[i]); }
    LevelsStart(t);
  }

  lemma WalkPasses(t: Tree, max: nat, out: seq<string>, looked: seq<string>, pending: seq<string>, seen: set<string>,
                   above: seq<nat>, below: seq<nat>)
    returns (below': seq<nat>)
    requires Walking(t, max, out, looked, pending, seen, above, below) && |out| < max
    requires pending != [] && pending[0] in seen
    ensures Walking(t, max, out, looked, pending[1..], seen, above, below')
  {
    WalkSkips(t, max, out, looked, pending);
    below' := OrderedSkips(t, looked, above, pending, below);
  }

  lemma WalkAdvances(t: Tree, max: nat, out: seq<string>, looked: seq<string>, pending: seq<string>,
                     seen: set<string>, above: seq<nat>, below: seq<nat>, seen': set<string>, out': seq<string>,
                     pending': seq<string>)
    returns (above': seq<nat>, below': seq<nat>)
    requires Walking(t, max, out, looked, pending, seen, above, below) && |out| < max && |looked| < MAX_LOOKUPS
    requires pending != [] && pending[0] !in seen && seen' == seen + {pending[0]}
    requires Scanned(t.Enrs(pending[0]), t.Kids(pending[0]), seen', pending[1..], out, max, pending', out')
    ensures Walking(t, max, out', looked + [pending[0]], pending', seen', above', below')
  {
    assert forall x :: x in seen' <==> x in looked + [pending[0]];
    WalkLooks(t, max, out, looked, pending, seen', out', pending');
    above', below' := OrderedLooks(t, looked, above, pending, below, seen', out, max, out', pending');
  }

  /**
   The breadth-first walk.  `looked` are the labels looked up, in order, `left` those still waiting at the end, and
   `depths` how far the looked-up ones are from the roots.
   It ends for every lookup function: each round looks up a new label, at most 8192 times, or shortens the queue.
   */
  method ResolveUrl(t: Tree, parses: string -> bool, max: nat)
    returns (out: seq<string>, ghost looked: seq<string>, ghost left: seq<string>, ghost depths: seq<nat>)
    requires Reads(t.d, parses)
    ensures |out| <= max && Walk(t, max, out, looked, left) && NearestFirst(t, looked, depths)
    ensures left == [] || |out| == max || |looked| == MAX_LOOKUPS
  {
    var pending := RootLabels(t.d.lookup(t.domain));
    var seen: set<string> := {};
    var lookups := 0;
    out, looked := [], [];
    depths := [];
    ghost var below := WalkStarts(t, max);
    while pending != [] && |out| < max && lookups < MAX_LOOKUPS
      invariant Walking(t, max, out, looked, pending, seen, depths, below) && lookups == |looked|
      decreases MAX_LOOKUPS - lookups, |pending|
    {
      var name := pending[0];
      if name in seen {
        below := WalkPasses(t, max, out, looked, pending, seen, depths, below);
        pending := pending[1..];
        continue;
      }
      ghost var before := seen;
      seen := seen + {name};
      lookups := lookups + 1;
      var pending', out' := ScanEntries(t.d, parses, t.d.lookup(name + "." + t.domain), seen, pending[1..], out, max);
      depths, below := WalkAdvances(t, max, out, looked, pending, before, depths, below, seen, out', pending');
      pending, out, looked := pending', out', looked + [name];
    }
    left := pending;
  }

  /** Labels that wait although they were looked up already change nothing. */
  lemma ClosedWithout(t: Tree, looked: seq<string>, left: seq<string>)
    requires Closed(t, looked, left) && forall x <- left :: x in looked
    ensures Closed(t, looked, [])
  {
    forall i | 0 <= i < |looked| ensures KidsKnown(t, looked[i], looked, []) {
      assert KidsKnown(t, looked[i], looked, left);
    }
  }

  /** A walk with no new label left to look up looked up exactly the reachable ones. */
  lemma WalkReachesAll(t: Tree, max: nat, out: seq<string>, looked: seq<string>, left: seq<string>, name: string)
    requires Walk(t, max, out, looked, left) && |out| < max && forall x <- left :: x in looked
    ensures name in looked <==> Reachable(t, name)
  {
    ClosedWithout(t, looked, left);
    if Reachable(t, name) {
      var path :| Path(t, path) && path[|path| - 1] == name;
      ReachedAll(t, looked, path);
    }
  }

  /** A walk that hit neither bound returned exactly the valid records on the labels reachable from the root. */
  lemma WalkIsComplete(t: Tree, max: nat, out: seq<string>, looked: seq<string>, left: seq<string>, e: string)
    requires Walk(t, max, out, looked, left) && |out| < max && forall x <- left :: x in looked
    ensures e in out <==> Holds(t, e)
  {
    InAllEnrs(t, looked, |looked|, e);
    forall x ensures x in looked <==> Reachable(t, x) { WalkReachesAll(t, max, out, looked, left, x); }
  }

  /** The tree publishes the record: it is valid and stands on a label reachable from the root. */
  ghost predicate Holds(t: Tree, e: string) { exists x :: Reachable(t, x) && e in t.Enrs(x) }

  //
  // resolve
  //

  function TextDns(lookup: string -> seq<string>, parses: string -> bool): (d: Dns)
    ensures Reads(d, parses) && d.lookup == lookup
  { Dns(lookup, raw => EntryEnrs(parses, raw), raw => EntryKids(parses, raw)) }

  /** What the walk of one tree returned, the labels it looked up and those it left waiting. */
  datatype Answer = Answer(records: seq<string>, looked: seq<string>, left: seq<string>)

  /** The walk of the tree ran until no label waited or a bound was reached; a URL without a domain has no tree. */
  ghost predicate ResultOf(d: Dns, domain: string, max: nat, a: Answer) {
    if domain == "" then a == Answer([], [], [])
    else
      && Walk(Tree(d, domain), max, a.records, a.looked, a.left)
      && (a.left == [] || |a.records| == max || |a.looked| == MAX_LOOKUPS)
  }

  /** Neither bound cut the walk short. */
  ghost predicate Finished(a: Answer, max: nat) { |a.records| < max && forall x <- a.left :: x in a.looked }

  /** One of the URLs' trees publishes the record. */
  ghost predicate Published(d: Dns, domains: seq<string>, e: string) {
    exists i :: 0 <= i < |domains| && domains[i] != "" && Holds(Tree(d, domains[i]), e)
  }

  function Domains(urls: seq<string>): seq<string> {
    seq(|urls|, i requires 0 <= i < |urls| => UrlDomain(urls[i]))
  }

  ghost predicate AllIn(found: seq<string>, out: seq<string>) { forall x <- found :: x in out }

  /** New records of one tree are appended until one fills the limit. */
  method AddNew(found: seq<string>, seen: set<string>, out: seq<string>, max: nat)
    returns (seen': set<string>, out': seq<string>, full: bool)
    requires Distinct(out) && (forall x :: x in seen <==> x in out) && |out| <= max && (|out| == max ==> found == [])
    ensures Distinct(out') && (forall x :: x in seen' <==> x in out') && |out'| <= max && out <= out'
    ensures forall x <- out' :: x in out || x in found
    ensures if full then |out'| == max else AllIn(found, out') && (|out'| == max ==> |out| == max)
  {
    seen', out', full := seen, out, false;
    for i := 0 to |found|
      invariant Distinct(out') && (forall x :: x in seen' <==> x in out') && out <= out'
      invariant |out'| < max || (found == [] && out' == out)
      invariant forall x <- out' :: x in out || x in found
      invariant AllIn(found[..i], out')
    {
      assert forall x <- found[..i + 1] :: x in found[..i] || x == found[i];
      if found[i] !in seen' {
        seen', out' := seen' + {found[i]}, out' + [found[i]];
        if |out'| >= max { return seen', out', true; }
      }
    }
    assert found[..|found|] == found;
  }

  /**
   `answers` are those of the trees walked so far, one per URL from the front: no record is repeated, each came
   from a tree, and while there was room none was left out.
   */
  ghost predicate Merged(out: seq<string>, answers: seq<Answer>, complete: bool) {
    && Distinct(out)
    && (forall x <- out :: FromOne(x, answers))
    && (complete ==> forall i :: 0 <= i < |answers| ==> AllIn(answers[i].records, out))
  }

  ghost predicate FromOne(x: string, answers: seq<Answer>) { exists i :: 0 <= i < |answers| && x in answers[i].records }

  lemma MergedNext(out: seq<string>, answers: seq<Answer>, a: Answer, out': seq<string>, complete: bool)
    requires Merged(out, answers, true) && Distinct(out') && out <= out'
    requires forall x <- out' :: x in out || x in a.records
    requires complete ==> AllIn(a.records, out')
    ensures Merged(out', answers + [a], complete)
  {
    var all := answers + [a];
    forall x | x in out' ensures FromOne(x, all) {
      if x in out {
        assert FromOne(x, answers);
        var i :| 0 <= i < |answers| && x in answers[i].records;
        assert x in all[i].records;
      } else {
        assert x in all[|answers|].records;
      }
    }
    if complete {
      forall i | 0 <= i < |all| ensures AllIn(all[i].records, out') {
        if i < |answers| { assert AllIn(answers[i].records, out); }
      }
    }
  }

  method ResolveOne(d: Dns, parses: string -> bool, domain: string, max: nat)
    returns (found: seq<string>, ghost a: Answer)
    requires Reads(d, parses)
    ensures ResultOf(d, domain, max, a) && a.records == found && |found| <= max
  {
    if domain == "" { return [], Answer([], [], []); }
    ghost var looked, left;
    ghost var depths: seq<nat>;
    found, looked, left, depths := ResolveUrl(Tree(d, domain), parses, max);
    a := Answer(found, looked, left);
  }

  ghost predicate AnswersOk(d: Dns, domains: seq<string>, max: nat, answers: seq<Answer>) {
    |answers| <= |domains| && forall i :: 0 <= i < |answers| ==> ResultOf(d, domains[i], max, answers[i])
  }

  lemma SameAnswer(d: Dns, domain: string, max: nat, a: Answer, same: Answer)
    requires ResultOf(d, domain, max, a) && same == a
    ensures ResultOf(d, domain, max, same)
  {}

  lemma AnswersNext(d: Dns, domains: seq<string>, max: nat, answers: seq<Answer>, a: Answer)
    requires AnswersOk(d, domains, max, answers) && |answers| < |domains| && ResultOf(d, domains[|answers|], max, a)
    ensures AnswersOk(d, domains, max, answers + [a])
  {
    var n := |answers|;
    forall i | 0 <= i < n + 1 ensures ResultOf(d, domains[i], max, (answers + [a])[i]) {
      if i < n {
        AnswerAt(d, domains, max, answers, a, i);
      } else {
        SameAnswer(d, domains[n], max, a, (answers + [a])[i]);
      }
    }
  }

  lemma AnswerAt(d: Dns, domains: seq<string>, max: nat, answers: seq<Answer>, a: Answer, i: nat)
    requires AnswersOk(d, domains, max, answers) && i < |answers|
    ensures ResultOf(d, domains[i], max, (answers + [a])[i])
  {
    SameAnswer(d, domains[i], max, answers[i], (answers + [a])[i]);
  }

  /** Every tree was walked to its end. */
  ghost predicate AllFinished(answers: seq<Answer>, domains: seq<string>, max: nat) {
    |answers| == |domains| && forall i :: 0 <= i < |answers| && domains[i] != "" ==> Finished(answers[i], max)
  }

  lemma AnswerIsExact(d: Dns, domain: string, max: nat, a: Answer, e: string)
    requires ResultOf(d, domain, max, a) && (domain != "" ==> Finished(a, max))
    ensures e in a.records <==> domain != "" && Holds(Tree(d, domain), e)
  {
    if domain != "" { WalkIsComplete(Tree(d, domain), max, a.records, a.looked, a.left, e); }
  }

  /** When every tree was walked to its end and there was room, the result is exactly what the trees publish. */
  lemma ResolvedIsExact(d: Dns, domains: seq<string>, max: nat, out: seq<string>, answers: seq<Answer>, e: string)
    requires AnswersOk(d, domains, max, answers) && Merged(out, answers, true) && AllFinished(answers, domains, max)
    ensures e in out <==> Published(d, domains, e)
  {
    if e in out {
      assert FromOne(e, answers);
      var i :| 0 <= i < |answers| && e in answers[i].records;
      AnswerIsExact(d, domains[i], max, answers[i], e);
    }
    if Published(d, domains, e) {
      var i :| 0 <= i < |domains| && domains[i] != "" && Holds(Tree(d, domains[i]), e);
      AnswerIsExact(d, domains[i], max, answers[i], e);
      assert AllIn(answers[i].records, out);
    }
  }

  /**
   No record twice, none that no tree publishes, at most `max` of them.  Unless the limit was reached every URL was
   resolved; if moreover no bound cut a walk short, the records are exactly those the trees publish.
   */
  method Resolve(lookup: string -> seq<string>, parses: string -> bool, urls: seq<string>, max: nat)
    returns (out: seq<string>, ghost answers: seq<Answer>)
    ensures |out| <= max && Distinct(out) && Merged(out, answers, |out| < max)
    ensures AnswersOk(TextDns(lookup, parses), Domains(urls), max, answers) && (|out| < max ==> |answers| == |urls|)
    ensures forall e <- out :: Published(TextDns(lookup, parses), Domains(urls), e)
    ensures |out| < max && AllFinished(answers, Domains(urls), max) ==>
              forall e :: e in out <==> Published(TextDns(lookup, parses), Domains(urls), e)
  {
    ghost var d := TextDns(lookup, parses);
    out, answers := ResolveAll(TextDns(lookup, parses), parses, Domains(urls), max);
    forall e | e in out ensures Published(d, Domains(urls), e) {
      OnlyPublished(d, Domains(urls), max, out, answers, |out| < max, e);
    }
    if |out| < max && AllFinished(answers, Domains(urls), max) {
      forall e ensures e in out <==> Published(d, Domains(urls), e) {
        ResolvedIsExact(d, Domains(urls), max, out, answers, e);
      }
    }
  }

  /** Bounds or not, a record returned is on a reachable label of a tree. */
  lemma OnlyPublished(d: Dns, domains: seq<string>, max: nat, out: seq<string>, answers: seq<Answer>, complete: bool,
                      e: string)
    requires AnswersOk(d, domains, max, answers) && Merged(out, answers, complete) && e in out
    ensures Published(d, domains, e)
  {
    assert FromOne(e, answers);
    var i :| 0 <= i < |answers| && e in answers[i].records;
    assert ResultOf(d, domains[i], max, answers[i]);
    var a, t := answers[i], Tree(d, domains[i]);
    InAllEnrs(t, a.looked, |a.looked|, e);
    var k :| 0 <= k < |a.looked| && e in t.Enrs(a.looked[k]);
    assert Reachable(t, a.looked[k]);
    assert Holds(t, e);
  }

  method ResolveAll(d: Dns, parses: string -> bool, domains: seq<string>, max: nat)
    returns (out: seq<string>, ghost answers: seq<Answer>)
    requires Reads(d, parses)
    ensures |out| <= max && Merged(out, answers, |out| < max) && (|out| < max ==> |answers| == |domains|)
    ensures AnswersOk(d, domains, max, answers)
  {
    out, answers := [], [];
    var seen: set<string> := {};
    for n := 0 to |domains|
      invariant |answers| == n && Merged(out, answers, true) && |out| <= max && (|out| == max ==> max == 0)
      invariant forall x :: x in seen <==> x in out
      invariant AnswersOk(d, domains, max, answers)
    {
      var found;
      ghost var a;
      found, a := ResolveOne(d, parses, domains[n], max);
      ghost var before := out;
      var full;
      seen, out, full := AddNew(found, seen, out, max);
      MergedNext(before, answers, a, out, !full);
      AnswersNext(d, domains, max, answers, a);
      answers := answers + [a];
      if full { return; }
    }
  }

  //
  // When the bounds do not matter
  //

  /** `names` lists the tree's reachable labels once each. */
  ghost predicate Lists(t: Tree, names: seq<string>) {
    Distinct(names) && forall x :: x in names <==> Reachable(t, x)
  }

  function Remove(s: seq<string>, i: nat): seq<string>
    requires i < |s|
  { s[..i] + s[i + 1..] }

  lemma {:induction false} AllEnrsRemove(t: Tree, s: seq<string>, i: nat, n: nat)
    requires i < n <= |s|
    ensures |AllEnrs(t, s, n)| == |AllEnrs(t, Remove(s, i), n - 1)| + |t.Enrs(s[i])|
  {
    if n == i + 1 {
      AllEnrsPrefix(t, s[..i], s[i..], i);
      AllEnrsPrefix(t, s[..i], s[i + 1..], i);
      assert s == s[..i] + s[i..];
    } else {
      AllEnrsRemove(t, s, i, n - 1);
      assert Remove(s, i)[n - 2] == s[n - 1];
    }
  }

  ghost predicate Within(a: seq<string>, b: seq<string>) { forall i :: 0 <= i < |a| ==> a[i] in b }

  lemma RemoveKeeps(names: seq<string>, i: nat, x: string)
    requires i < |names| && x in names && x != names[i]
    ensures x in Remove(names, i)
  {
    var j :| 0 <= j < |names| && names[j] == x;
    assert x == Remove(names, i)[if j < i then j else j - 1];
  }

  lemma RemoveWithin(looked: seq<string>, names: seq<string>) returns (i: nat)
    requires Distinct(looked) && Within(looked, names) && looked != []
    ensures i < |names| && names[i] == looked[|looked| - 1] && Within(looked[..|looked| - 1], Remove(names, i))
  {
    var k := |looked| - 1;
    assert looked[k] in names;
    i :| 0 <= i < |names| && names[i] == looked[k];
    forall j | 0 <= j < k ensures looked[j] in Remove(names, i) { RemoveKeeps(names, i, looked[j]); }
  }

  /** Distinct labels among `names` are no more than `names`, and hold no more records. */
  lemma {:induction false} SubsetHoldsFewer(t: Tree, looked: seq<string>, names: seq<string>)
    requires Distinct(looked) && Within(looked, names)
    ensures |looked| <= |names| && |AllEnrs(t, looked, |looked|)| <= |AllEnrs(t, names, |names|)|
    decreases |looked|
  {
    if looked != [] {
      var k := |looked| - 1;
      var rest := looked[..k];
      var i := RemoveWithin(looked, names);
      SubsetHoldsFewer(t, rest, Remove(names, i));
      AllEnrsRemove(t, names, i, |names|);
      AllEnrsNext(t, rest, looked[k]);
      assert looked == rest + [looked[k]];
    }
  }

  lemma {:induction false} SameSizeCovers(looked: seq<string>, names: seq<string>, x: string)
    requires Distinct(looked) && Within(looked, names) && |looked| == |names| && x in names
    ensures x in looked
    decreases |looked|
  {
    var k := |looked| - 1;
    if looked[k] != x {
      var i := RemoveWithin(looked, names);
      RemoveKeeps(names, i, x);
      SameSizeCovers(looked[..k], Remove(names, i), x);
    }
  }

  lemma LookedAmong(t: Tree, a: Answer, names: seq<string>)
    requires Lists(t, names) && AllReachable(t, a.looked)
    ensures Within(a.looked, names)
  {
    forall i | 0 <= i < |a.looked| ensures a.looked[i] in names { assert Reachable(t, a.looked[i]); }
  }

  lemma FittingTreeFinishes(d: Dns, domain: string, max: nat, a: Answer, names: seq<string>)
    requires domain != "" && ResultOf(d, domain, max, a) && Lists(Tree(d, domain), names)
    requires |names| <= MAX_LOOKUPS && |AllEnrs(Tree(d, domain), names, |names|)| < max
    ensures Finished(a, max)
  {
    var t := Tree(d, domain);
    LookedAmong(t, a, names);
    SubsetHoldsFewer(t, a.looked, names);
    if a.left != [] {
      forall x | x in a.left ensures x in a.looked {
        assert Reachable(t, x);
        SameSizeCovers(a.looked, names, x);
      }
    }
  }

  lemma NamesLooked(t: Tree, max: nat, a: Answer, names: seq<string>)
    requires Lists(t, names) && Walk(t, max, a.records, a.looked, a.left) && Finished(a, max)
    ensures Within(names, a.looked)
  {
    forall i | 0 <= i < |names| ensures names[i] in a.looked {
      WalkReachesAll(t, max, a.records, a.looked, a.left, names[i]);
    }
  }

  lemma CappedBelow(found: seq<string>, max: nat)
    requires |Capped(found, max)| < max
    ensures |found| < max
  {}

  lemma FinishedTreeFits(d: Dns, domain: string, max: nat, a: Answer, names: seq<string>)
    requires domain != "" && ResultOf(d, domain, max, a) && Lists(Tree(d, domain), names) && Finished(a, max)
    ensures |names| <= MAX_LOOKUPS && |AllEnrs(Tree(d, domain), names, |names|)| < max
  {
    var t := Tree(d, domain);
    NamesLooked(t, max, a, names);
    SubsetHoldsFewer(t, names, a.looked);
    CappedBelow(AllEnrs(t, a.looked, |a.looked|), max);
  }

  /**
   A walk is not cut short exactly when the tree has at most 8192 reachable labels and fewer records than the limit,
   counted with repetition.
   */
  lemma FinishesIffFits(d: Dns, domain: string, max: nat, a: Answer, names: seq<string>)
    requires domain != "" && ResultOf(d, domain, max, a) && Lists(Tree(d, domain), names)
    ensures Finished(a, max) <==> |names| <= MAX_LOOKUPS && |AllEnrs(Tree(d, domain), names, |names|)| < max
  {
    if Finished(a, max) { FinishedTreeFits(d, domain, max, a, names); }
    if |names| <= MAX_LOOKUPS && |AllEnrs(Tree(d, domain), names, |names|)| < max {
      FittingTreeFinishes(d, domain, max, a, names);
    }
  }

  /** A tree that is a single label. */
  ghost predicate SingleLabel(t: Tree, root: string) { Roots(t) == [root] && t.Kids(root) == [] }

  lemma OnlyRoot(t: Tree, root: string, x: string)
    requires SingleLabel(t, root) && Reachable(t, x)
    ensures x == root
  {
    var path :| Path(t, path) && path[|path| - 1] == x;
    ReachedAll(t, [root], path);
  }

  /** The walk of a single label returns its records up to the limit. */
  lemma SingleAnswer(t: Tree, root: string, max: nat, a: Answer)
    requires SingleLabel(t, root) && max > 0 && Walk(t, max, a.records, a.looked, a.left)
    requires a.left == [] || |a.records| == max || |a.looked| == MAX_LOOKUPS
    ensures a.looked == [root] && a.records == Capped(t.Enrs(root), max)
  {
    forall i | 0 <= i < |a.looked| ensures a.looked[i] == root { OnlyRoot(t, root, a.looked[i]); }
    SubsetHoldsFewer(t, a.looked, [root]);
    assert a.looked != [] by {
      assert AllEnrs(t, [], 0) == [];
      assert root in Roots(t);
    }
    AllEnrsNext(t, [], root);
    assert [] + [root] == [root] == a.looked && [] + t.Enrs(root) == t.Enrs(root);
  }

  /** A record repeated in one tree counts against the limit, so a short result may still miss a record. */
  lemma RepetitionHidesRecord(d: Dns, domain: string, root: string, e: string, hidden: string, answers: seq<Answer>,
                              out: seq<string>)
    requires domain != "" && e != hidden && SingleLabel(Tree(d, domain), root)
    requires Tree(d, domain).Enrs(root) == [e, e, hidden]
    requires AnswersOk(d, [domain], 2, answers) && Merged(out, answers, |out| < 2) && (|out| < 2 ==> |answers| == 1)
    ensures out == [e] && Published(d, [domain], hidden)
  {
    var t := Tree(d, domain);
    RootReachable(t, root);
    assert Holds(t, hidden) && [domain][0] == domain;
    forall i | 0 <= i < |answers| ensures answers[i].records == [e, e] {
      assert ResultOf(d, domain, 2, answers[i]);
      SingleAnswer(t, root, 2, answers[i]);
    }
    forall i | 0 <= i < |out| ensures out[i] == e { assert FromOne(out[i], answers); }
    SubsetHoldsFewer(t, out, [e]);
    assert e in answers[0].records && e in out;
  }

  //
  // Such a tree
  //

  const ROOT_TEXT: string := ROOT_PREFIX + " e=r"

  function RepeatLookup(name: string): seq<string> {
    if name == "d" then [ROOT_TEXT] else if name == "r.d" then ["enr:a", "enr:a", "enr:b"] else []
  }

  function RepeatTree(): Tree { Tree(TextDns(RepeatLookup, _ => true), "d") }

  lemma TrimmedText(s: string)
    requires s != "" && !IsSpace(s[0]) && !IsSpace(s[|s| - 1])
    ensures Trim(s) == s
  {
    assert Trims(s, 0, |s|) && s == s[0..|s|];
    TrimIsUnique(s, s);
  }

  lemma {:induction false} WordAt(s: string, rest: string)
    requires (forall i :: 0 <= i < |s| ==> !IsSpace(s[i])) && (rest == "" || IsSpace(rest[0]))
    ensures Word(s + rest) == s
  {
    if s == "" {
      assert s + rest == rest;
    } else {
      WordAt(s[1..], rest);
      assert (s + rest)[1..] == s[1..] + rest;
    }
  }

  lemma RootText()
    ensures ROOT_PREFIX <= ROOT_TEXT && EntryLabel(ROOT_TEXT) == "r"
  {
    WordAt(ROOT_PREFIX, " e=r");
    assert TrimFront(ROOT_TEXT) == ROOT_TEXT && ROOT_TEXT[|ROOT_PREFIX|..] == " e=r";
    assert TrimFront(" e=r") == "e=r" by { assert " e=r"[1..] == "e=r"; }
    WordAt("e=r", "");
    assert "e=r" + "" == "e=r" && "e=r"[2..] == "r";
    assert EntryLabel(" e=r") == "r";
  }

  lemma RepeatTreeRoot()
    ensures Roots(RepeatTree()) == ["r"]
  {
    RootText();
    assert RepeatTree().d.lookup("d") == [ROOT_TEXT];
    assert RootsOf([ROOT_TEXT], 1) == RootsOf([ROOT_TEXT], 0) + ["r"];
  }

  lemma RecordText(e: string)
    requires e == "enr:a" || e == "enr:b"
    ensures EntryEnrs(_ => true, e) == [e] && EntryKids(_ => true, e) == []
  {
    TrimmedText(e);
  }

  lemma RepeatTreeRecords()
    ensures RepeatTree().Enrs("r") == ["enr:a", "enr:a", "enr:b"] && RepeatTree().Kids("r") == []
  {
    var d := RepeatTree().d;
    assert "r" + "." + "d" == "r.d";
    RecordText("enr:a");
    RecordText("enr:b");
    ThreeEntries(d, "enr:a", "enr:a", "enr:b");
  }

  lemma ThreeEntries(d: Dns, a: string, b: string, c: string)
    requires d.enrs(a) == [a] && d.enrs(b) == [b] && d.enrs(c) == [c]
    requires d.kids(a) == [] && d.kids(b) == [] && d.kids(c) == []
    ensures EnrsOf(d, [a, b, c], 3) == [a, b, c] && KidsOf(d, [a, b, c], 3) == []
  {
    var s := [a, b, c];
    assert EnrsOf(d, s, 0) == [] && EnrsOf(d, s, 1) == [a] && EnrsOf(d, s, 2) == [a, b];
    assert KidsOf(d, s, 0) == [] && KidsOf(d, s, 1) == [] && KidsOf(d, s, 2) == [];
  }

  /** Resolved with room for two records, the tree gives one and keeps another to itself. */
  method ResolveRepeated() returns (out: seq<string>)
    ensures out == ["enr:a"] && Published(RepeatTree().d, ["d"], "enr:b")
  {
    var urls := ["enrtree://k@d"];
    assert Domains(urls) == ["d"] by {
      assert urls[0][|URL_PREFIX|..] == "k@d";
      assert AtSign("k@d") == 1;
    }
    ghost var answers;
    out, answers := Resolve(RepeatLookup, _ => true, urls, 2);
    RepeatTreeRoot();
    RepeatTreeRecords();
    RepetitionHidesRecord(RepeatTree().d, "d", "r", "enr:a", "enr:b", answers, out);
  }

  /** No record stands twice in the tree. */
  ghost predicate NoRepeats(t: Tree) {
    && (forall x :: Reachable(t, x) ==> Distinct(t.Enrs(x)))
    && (forall x, y, e :: Reachable(t, x) && Reachable(t, y) && e in t.Enrs(x) && e in t.Enrs(y) ==> x == y)
  }

  lemma DistinctConcat(a: seq<string>, b: seq<string>)
    requires Distinct(a) && Distinct(b) && Disjoint(a, b)
    ensures Distinct(a + b)
  {
    forall i, j | 0 <= i < j < |a + b| ensures (a + b)[i] != (a + b)[j] {
      if i < |a| <= j { assert a[i] in a; }
    }
  }

  ghost predicate Apart(t: Tree, looked: seq<string>) {
    && (forall i :: 0 <= i < |looked| ==> Distinct(t.Enrs(looked[i])))
    && (forall i, j :: 0 <= i < j < |looked| ==> Disjoint(t.Enrs(looked[i]), t.Enrs(looked[j])))
  }

  predicate Disjoint(a: seq<string>, b: seq<string>) { forall e <- a :: e !in b }

  lemma LookedApart(t: Tree, looked: seq<string>)
    requires NoRepeats(t) && Distinct(looked) && AllReachable(t, looked)
    ensures Apart(t, looked)
  {
    forall i | 0 <= i < |looked| ensures Distinct(t.Enrs(looked[i])) { assert Reachable(t, looked[i]); }
    forall i, j | 0 <= i < j < |looked| ensures Disjoint(t.Enrs(looked[i]), t.Enrs(looked[j])) {
      assert Reachable(t, looked[i]) && Reachable(t, looked[j]);
    }
  }

  lemma EarlierApart(t: Tree, looked: seq<string>, n: nat)
    requires Apart(t, looked) && n < |looked|
    ensures Disjoint(AllEnrs(t, looked, n), t.Enrs(looked[n]))
  {
    forall e | e in AllEnrs(t, looked, n) ensures e !in t.Enrs(looked[n]) {
      InAllEnrs(t, looked, n, e);
      var i :| 0 <= i < n && e in t.Enrs(looked[i]);
      assert Disjoint(t.Enrs(looked[i]), t.Enrs(looked[n]));
    }
  }

  lemma {:induction false} AllEnrsDistinct(t: Tree, looked: seq<string>, n: nat)
    requires Apart(t, looked) && n <= |looked|
    ensures Distinct(AllEnrs(t, looked, n))
  {
    if n > 0 {
      AllEnrsDistinct(t, looked, n - 1);
      EarlierApart(t, looked, n - 1);
      DistinctConcat(AllEnrs(t, looked, n - 1), t.Enrs(looked[n - 1]));
    }
  }

  /** Where no record is repeated, a tree whose records are all in a short result was walked to its end. */
  lemma ShortMeansFinished(d: Dns, domain: string, max: nat, a: Answer, names: seq<string>, out: seq<string>)
    requires domain != "" && ResultOf(d, domain, max, a) && NoRepeats(Tree(d, domain))
    requires Lists(Tree(d, domain), names) && |names| <= MAX_LOOKUPS
    requires AllIn(a.records, out) && |out| < max
    ensures Finished(a, max)
  {
    var t := Tree(d, domain);
    LookedApart(t, a.looked);
    AllEnrsDistinct(t, a.looked, |a.looked|);
    assert Distinct(a.records);
    SubsetHoldsFewer(t, a.records, out);
    forall i | 0 <= i < |a.looked| ensures a.looked[i] in names { assert Reachable(t, a.looked[i]); }
    SubsetHoldsFewer(t, a.looked, names);
    if a.left != [] {
      forall x | x in a.left ensures x in a.looked {
        assert Reachable(t, x);
        SameSizeCovers(a.looked, names, x);
      }
    }
  }

  /**
   If no tree repeats a record and none has more than 8192 reachable labels, a result below the limit is exactly
   what the trees publish.
   */
  lemma ShortResultIsExact(d: Dns, domains: seq<string>, max: nat, out: seq<string>, answers: seq<Answer>,
                           names: seq<seq<string>>, e: string)
    requires AnswersOk(d, domains, max, answers) && Merged(out, answers, true) && |out| < max
    requires |answers| == |domains| == |names|
    requires forall i :: 0 <= i < |domains| && domains[i] != "" ==>
               NoRepeats(Tree(d, domains[i])) && Lists(Tree(d, domains[i]), names[i]) && |names[i]| <= MAX_LOOKUPS
    ensures e in out <==> Published(d, domains, e)
  {
    forall i | 0 <= i < |answers| && domains[i] != "" ensures Finished(answers[i], max) {
      assert AllIn(answers[i].records, out);
      ShortMeansFinished(d, domains[i], max, answers[i], names[i], out);
    }
    ResolvedIsExact(d, domains, max, out, answers, e);
  }
}
