/**
 The text of ENR-tree entries (EIP-1459, "DNS Record Structure").
 */
module EnrText {
  const ROOT_PREFIX: string := "enrtree-root:v1"
  const BRANCH_PREFIX: string := "enrtree-branch:"
  const ENR_PREFIX: string := "enr:"
  const URL_PREFIX: string := "enrtree://"

  predicate IsSpace(c: char) { c == ' ' || '\t' <= c <= '\r' }

  function TrimFront(s: string): string { if s != "" && IsSpace(s[0]) then TrimFront(s[1..]) else s }

  function TrimBack(s: string): string { if s != "" && IsSpace(s[|s| - 1]) then TrimBack(s[..|s| - 1]) else s }

  function Trim(s: string): string { TrimBack(TrimFront(s)) }

  ghost predicate AllSpace(s: string, i: int, j: int)
    requires 0 <= i <= j <= |s|
  { forall k :: i <= k < j ==> IsSpace(s[k]) }

  /** From `i` up to `j` is what trimming leaves: only white space is dropped, and none stays at either end. */
  ghost predicate Trims(s: string, i: int, j: int) {
    && 0 <= i <= j <= |s| && AllSpace(s, 0, i) && AllSpace(s, j, |s|)
    && (i < j ==> !IsSpace(s[i]) && !IsSpace(s[j - 1]))
  }

  ghost predicate IsTrimOf(s: string, r: string) { exists i, j :: Trims(s, i, j) && r == s[i..j] }

  lemma {:induction false} FrontDropsSpace(s: string) returns (i: int)
    ensures 0 <= i <= |s| && TrimFront(s) == s[i..] && AllSpace(s, 0, i) && (i < |s| ==> !IsSpace(s[i]))
  {
    i := 0;
    if s != "" && IsSpace(s[0]) {
      var k := FrontDropsSpace(s[1..]);
      i := k + 1;
      forall m | 0 < m < i ensures IsSpace(s[m]) { assert s[m] == s[1..][m - 1]; }
    }
  }

  lemma {:induction false} BackDropsSpace(s: string) returns (j: int)
    ensures 0 <= j <= |s| && TrimBack(s) == s[..j] && AllSpace(s, j, |s|) && (j > 0 ==> !IsSpace(s[j - 1]))
  {
    j := |s|;
    if s != "" && IsSpace(s[|s| - 1]) { j := BackDropsSpace(s[..|s| - 1]); }
  }

  /** Trimming leaves a contiguous part, without white space at its ends, and drops only white space. */
  lemma TrimKeepsMiddle(s: string)
    ensures IsTrimOf(s, Trim(s))
  {
    var i := FrontDropsSpace(s);
    var j := BackDropsSpace(s[i..]);
    assert s[i..][..j] == s[i..i + j];
    forall k | i + j <= k < |s| ensures IsSpace(s[k]) { assert s[k] == s[i..][k - i]; }
    assert Trims(s, i, i + j);
  }

  lemma PartsAgree(s: string, i: int, j: int, k: int, l: int)
    requires Trims(s, i, j) && Trims(s, k, l)
    ensures s[i..j] == s[k..l]
  {}

  /** There is only one such part. */
  lemma TrimIsUnique(s: string, r: string)
    requires IsTrimOf(s, r)
    ensures r == Trim(s)
  {
    TrimKeepsMiddle(s);
    var i, j :| Trims(s, i, j) && r == s[i..j];
    var k, l :| Trims(s, k, l) && Trim(s) == s[k..l];
    PartsAgree(s, i, j, k, l);
  }

  method TrimCopy(value: string) returns (r: string)
    ensures r == Trim(value) && IsTrimOf(value, r)
  {
    TrimKeepsMiddle(value);
    r := value;
    while r != "" && IsSpace(r[0])
      invariant TrimFront(r) == TrimFront(value)
      decreases |r|
    {
      r := r[1..];
    }
    while r != "" && IsSpace(r[|r| - 1])
      invariant TrimBack(r) == Trim(value)
      decreases |r|
    {
      r := r[..|r| - 1];
    }
  }

  function Comma(s: string): (k: nat)
    ensures k <= |s| && ',' !in s[..k] && (k < |s| ==> s[k] == ',')
  { if s == "" || s[0] == ',' then 0 else assert s == [s[0]] + s[1..]; 1 + Comma(s[1..]) }

  /** The text up to the first comma, trimmed, if anything is left of it. */
  function FirstPart(rest: string): seq<string> {
    var name := Trim(rest[..Comma(rest)]);
    if name == "" then [] else [name]
  }

  /** The text after the first comma. */
  function AfterComma(rest: string): (left: string)
    ensures rest != "" ==> |left| < |rest|
  { if Comma(rest) < |rest| then rest[Comma(rest) + 1..] else "" }

  /** The labels of a branch entry after its prefix. */
  function Labels(rest: string): seq<string>
    decreases |rest|
  { if rest == "" then [] else FirstPart(rest) + Labels(AfterComma(rest)) }

  function BranchLabels(entry: string): seq<string> {
    if BRANCH_PREFIX <= entry then Labels(entry[|BRANCH_PREFIX|..]) else []
  }

  /** One round of the loop. */
  method NextLabel(rest: string) returns (found: seq<string>, left: string)
    requires rest != ""
    ensures found == FirstPart(rest) && left == AfterComma(rest)
  {
    var comma := Comma(rest);
    var trimmed := TrimCopy(rest[..comma]);
    found := if trimmed == "" then [] else [trimmed];
    left := if comma == |rest| then "" else rest[comma + 1..];
  }

  lemma Assoc(a: seq<string>, b: seq<string>, c: seq<string>)
    ensures a + (b + c) == (a + b) + c
  {}

  method SplitLabels(text: string) returns (labels: seq<string>)
    ensures labels == Labels(text)
  {
    labels := [];
    var rest := text;
    while rest != ""
      invariant labels + Labels(rest) == Labels(text)
      decreases |rest|
    {
      var found, left := NextLabel(rest);
      Assoc(labels, found, Labels(left));
      labels, rest := labels + found, left;
    }
  }

  method SplitBranchLabels(branch: string) returns (labels: seq<string>)
    ensures labels == BranchLabels(branch)
  {
    if !(BRANCH_PREFIX <= branch) { return []; }
    labels := SplitLabels(branch[|BRANCH_PREFIX|..]);
  }

  /** A label as a tree publisher writes it. */
  predicate PlainLabel(s: string) { s != "" && ',' !in s && !IsSpace(s[0]) && !IsSpace(s[|s| - 1]) }

  function JoinLabels(labels: seq<string>): string {
    if labels == [] then "" else if |labels| == 1 then labels[0] else labels[0] + "," + JoinLabels(labels[1..])
  }

  lemma {:induction false} CommaAt(s: string, rest: string)
    requires ',' !in s && (rest == "" || rest[0] == ',')
    ensures Comma(s + rest) == |s|
  {
    if s == "" {
      assert s + rest == rest;
    } else {
      CommaAt(s[1..], rest);
      assert (s + rest)[1..] == s[1..] + rest;
    }
  }

  lemma FirstLabel(head: string, text: string)
    requires PlainLabel(head)
    ensures Labels(head) == [head] && Labels(head + "," + text) == [head] + Labels(text)
  {
    assert Trim(head) == head;
    CommaAt(head, "");
    assert head + "" == head && head[..|head|] == head;
    assert Labels(head) == FirstPart(head) + Labels("");
    var s := head + "," + text;
    CommaAt(head, "," + text);
    assert head + ("," + text) == s && s[..|head|] == head && s[|head| + 1..] == text;
  }

  /** Splitting undoes joining with commas. */
  lemma {:induction false} LabelsOfJoin(labels: seq<string>)
    requires forall i :: 0 <= i < |labels| ==> PlainLabel(labels[i])
    ensures Labels(JoinLabels(labels)) == labels
  {
    if labels != [] {
      assert labels == [labels[0]] + labels[1..];
      LabelsOfJoin(labels[1..]);
      FirstLabel(labels[0], JoinLabels(labels[1..]));
    }
  }

  function Word(s: string): (w: string)
    ensures w <= s && (s != "" && !IsSpace(s[0]) ==> w != "")
  { if s == "" || IsSpace(s[0]) then "" else [s[0]] + Word(s[1..]) }

  lemma {:induction false} TrimFrontShortens(s: string)
    ensures |TrimFront(s)| <= |s| && (TrimFront(s) != "" ==> !IsSpace(TrimFront(s)[0]))
  {
    if s != "" && IsSpace(s[0]) { TrimFrontShortens(s[1..]); }
  }

  /** The value of the first word that starts with `e=`. */
  function EntryLabel(text: string): string
    decreases |text|
  {
    TrimFrontShortens(text);
    var t := TrimFront(text);
    if t == "" then ""
    else
      var w := Word(t);
      if "e=" <= w then w[2..] else EntryLabel(t[|w|..])
  }

  function AtSign(s: string): (k: nat)
    ensures k <= |s| && '@' !in s[..k] && (k < |s| ==> s[k] == '@')
  { if s == "" || s[0] == '@' then 0 else assert s == [s[0]] + s[1..]; 1 + AtSign(s[1..]) }

  /** The domain of `enrtree://key@domain`, when neither part is empty. */
  function Domain(rest: string): (domain: string)
    ensures domain != "" ==>
              exists k :: 0 < k < |rest| && rest[k] == '@' && '@' !in rest[..k] && domain == rest[k + 1..]
  {
    var at := AtSign(rest);
    if at == 0 || at + 1 >= |rest| then "" else rest[at + 1..]
  }

  function UrlDomain(url: string): string { if URL_PREFIX <= url then Domain(url[|URL_PREFIX|..]) else "" }
}
