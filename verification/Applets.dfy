/** The applet table finder of `tools/appletcensus.py`: NUL-separated records, the contiguous
    groups of names among them, the longest ascending run, and the recovery of its first name. */
module Applets {
  import opened Common
  import Text

  const NUL: char := '\0'
  const MIN_RUN := 20

  /** A record: where it begins in the blob, and its bytes. */
  datatype Record = Record(off: nat, text: string)
  {
    function End(): nat { off + |text| }
  }

  // ------------------------------------------------------------ the records of a blob

  /** `r` is a stretch of the blob without NUL that cannot be extended on either side. */
  ghost predicate IsRun(blob: string, r: Record) {
    && r.text != "" && r.End() <= |blob| && blob[r.off..r.End()] == r.text
    && NUL !in r.text
    && (r.off == 0 || blob[r.off - 1] == NUL)
    && (r.End() == |blob| || blob[r.End()] == NUL)
  }

  /** In the order of the blob, at least one byte apart. */
  ghost predicate Apart(rs: seq<Record>) {
    forall k, l :: 0 <= k < l < |rs| ==> rs[k].End() < rs[l].off
  }

  /** All the maximal NUL-free stretches and nothing else, in order. */
  ghost predicate AllRuns(blob: string, rs: seq<Record>) {
    && Apart(rs)
    && (forall k :: 0 <= k < |rs| ==> IsRun(blob, rs[k]))
    && forall r :: IsRun(blob, r) ==> r in rs
  }

  method Runs(blob: string) returns (out: seq<Record>)
    ensures AllRuns(blob, out)
  {
    hide IsRun;
    out := [];
    var cur, start := "", 0;
    for i := 0 to |blob|
      invariant if cur == "" then start == i && (i == 0 || blob[i - 1] == NUL)
                else start < i && (start == 0 || blob[start - 1] == NUL)
      invariant start <= i && cur == blob[start..i] && NUL !in cur
      invariant Apart(out) && forall k :: 0 <= k < |out| ==> IsRun(blob, out[k]) && out[k].End() < start
      invariant forall r :: IsRun(blob, r) && r.off < start ==> r in out
    {
      var c := blob[i];
      if c == NUL {
        if cur != "" {
          FirstIsRun(blob, start, cur);
          out := out + [Record(start, cur)];
        } else {
          NoRunAtNul(blob, i);
        }
        cur, start := "", i + 1;
      } else {
        if cur == "" {
          start := i;
        }
        cur := cur + [c];
      }
    }
    RunsWithin(blob);
    if cur != "" {
      FirstIsRun(blob, start, cur);
      out := out + [Record(start, cur)];
    }
  }

  lemma NoRunAtNul(blob: string, i: nat)
    requires i < |blob| && blob[i] == NUL
    ensures forall r :: IsRun(blob, r) ==> r.off != i
  {
    forall r | IsRun(blob, r) ensures r.off != i {
      RunHasNoNul(blob, r);
    }
  }

  lemma RunsWithin(blob: string)
    ensures forall r :: IsRun(blob, r) ==> r.off < |blob|
  {}

  /** A run that begins inside the stretch [start, end) is that stretch. */
  lemma SameRun(blob: string, r: Record, start: nat, end: nat)
    requires start < end <= |blob| && NUL !in blob[start..end]
    requires end == |blob| || blob[end] == NUL
    requires IsRun(blob, r) && start <= r.off <= end
    ensures r == Record(start, blob[start..end])
  {
    assert forall k :: start <= k < end ==> blob[k] == blob[start..end][k - start];
    RunHasNoNul(blob, r);
    assert blob[r.off] != NUL;
    assert r.off == start;
    assert r.End() == end;
  }

  lemma RunHasNoNul(blob: string, r: Record)
    requires IsRun(blob, r)
    ensures forall k :: r.off <= k < r.End() ==> blob[k] != NUL
  {
    assert forall k :: r.off <= k < r.End() ==> blob[k] == r.text[k - r.off];
  }

  // ------------------------------------------------------------ names

  predicate IsLetter(c: char) { 'a' <= c <= 'z' }

  predicate InName(c: char) { IsLetter(c) || '0' <= c <= '9' || c == '_' || c == '.' || c == '-' }

  predicate NameShape(s: string) {
    s != "" && IsLetter(s[0]) && forall i :: 0 <= i < |s| ==> InName(s[i])
  }

  /** What `$` allows at the end of a pattern: the text's end, or one newline before it. */
  function Body(s: string): string {
    if s != "" && s[|s| - 1] == '\n' then s[..|s| - 1] else s
  }

  predicate IsName(s: string) { NameShape(Body(s)) }

  /** Byte order. */
  predicate Less(a: string, b: string) {
    b != "" && (a == "" || a[0] < b[0] || (a[0] == b[0] && Less(a[1..], b[1..])))
  }

  lemma {:induction false} LessTransitive(a: string, b: string, c: string)
    requires Less(a, b) && Less(b, c)
    ensures Less(a, c) && a != c
  {
    if a != "" && a[0] == b[0] && b[0] == c[0] {
      LessTransitive(a[1..], b[1..], c[1..]);
    }
  }

  predicate Contiguous(a: Record, b: Record) { b.off == a.End() + 1 }

  predicate Linked(a: Record, b: Record) { Contiguous(a, b) && Less(a.text, b.text) }

  /** A run of names in the blob: records of it that are names, separated by exactly one NUL each,
      strictly ascending. */
  ghost predicate NameRun(blob: string, rs: seq<Record>) {
    && (forall k :: 0 <= k < |rs| ==> IsRun(blob, rs[k]) && IsName(rs[k].text))
    && forall k :: 0 <= k < |rs| - 1 ==> Linked(rs[k], rs[k + 1])
  }

  function Names(rs: seq<Record>): seq<Record> {
    if rs == [] then [] else (if IsName(rs[0].text) then [rs[0]] else []) + Names(rs[1..])
  }

  lemma {:induction false} NamesMembers(rs: seq<Record>, r: Record)
    ensures r in Names(rs) <==> r in rs && IsName(r.text)
  {
    if rs != [] {
      NamesMembers(rs[1..], r);
      assert rs == [rs[0]] + rs[1..];
    }
  }

  lemma {:induction false} NamesApart(rs: seq<Record>)
    requires Apart(rs)
    ensures Apart(Names(rs))
  {
    if rs != [] {
      NamesApart(rs[1..]);
      var rest := Names(rs[1..]);
      forall l | 0 <= l < |rest| ensures rs[0].End() < rest[l].off {
        NamesMembers(rs[1..], rest[l]);
        var k :| 0 <= k < |rs[1..]| && rs[1..][k] == rest[l];
        assert rs[1..][k] == rs[k + 1];
      }
    }
  }

  // ------------------------------------------------------------ the longest ascending slice

  ghost predicate Ascends(rs: seq<Record>, i: nat, j: nat) {
    i <= j <= |rs| && forall k :: i <= k < j - 1 ==> Less(rs[k].text, rs[k + 1].text)
  }

  /** No ascending slice is longer than [lo, hi), and none as long begins before it. */
  ghost predicate LongestSlice(rs: seq<Record>, lo: nat, hi: nat) {
    && Ascends(rs, lo, hi)
    && forall i: nat, j: nat :: Ascends(rs, i, j) ==> j - i <= hi - lo && (j - i == hi - lo > 0 ==> lo <= i)
  }

  /** An ascending slice does not reach across a place where the names do not ascend. */
  lemma NoneStraddles(items: seq<Record>, a: nat, b: nat, i: nat)
    requires Ascends(items, a, b) && 0 < i < |items| && !Less(items[i - 1].text, items[i].text)
    ensures !(a < i < b)
  {
    if a < i < b {
      StepInside(items, a, b, i);
    }
  }

  lemma StepInside(rs: seq<Record>, a: nat, b: nat, i: nat)
    requires Ascends(rs, a, b) && a < i < b
    ensures Less(rs[i - 1].text, rs[i].text)
  {
    assert Less(rs[i - 1].text, rs[i - 1 + 1].text);
  }

  method LongestSortedRun(items: seq<Record>) returns (lo: nat, hi: nat)
    ensures LongestSlice(items, lo, hi)
    ensures items != [] ==> lo < hi
  {
    lo, hi := 0, 0;
    var i := 0;
    while i < |items|
      invariant 0 <= i <= |items| && hi <= i && Ascends(items, lo, hi)
      invariant i > 0 ==> lo < hi
      invariant 0 < i < |items| ==> !Less(items[i - 1].text, items[i].text)
      invariant forall a: nat, b: nat :: Ascends(items, a, b) && b <= i ==>
                  b - a <= hi - lo && (b - a == hi - lo > 0 ==> lo <= a)
      decreases |items| - i
    {
      var j := i;
      while j + 1 < |items| && Less(items[j].text, items[j + 1].text)
        invariant i <= j < |items| && Ascends(items, i, j + 1)
      {
        j := j + 1;
      }
      ghost var lo0, hi0 := lo, hi;
      if j - i + 1 > hi - lo {
        lo, hi := i, j + 1;
      }
      forall a: nat, b: nat | Ascends(items, a, b) && b <= j + 1
        ensures b - a <= hi - lo && (b - a == hi - lo > 0 ==> lo <= a)
      {
        if i > 0 {
          NoneStraddles(items, a, b, i);
        }
      }
      i := j + 1;
    }
    forall a: nat, b: nat | Ascends(items, a, b)
      ensures b - a <= hi - lo && (b - a == hi - lo > 0 ==> lo <= a) {}
  }

  // ------------------------------------------------------------ contiguous groups

  function Flatten(groups: seq<seq<Record>>): seq<Record> {
    if groups == [] then [] else groups[0] + Flatten(groups[1..])
  }

  lemma {:induction false} FlattenSnoc(groups: seq<seq<Record>>, g: seq<Record>)
    ensures Flatten(groups + [g]) == Flatten(groups) + g
  {
    if groups == [] {
      assert [g][1..] == [];
      assert [] + [g] == [g];
    } else {
      assert (groups + [g])[1..] == groups[1..] + [g];
      FlattenSnoc(groups[1..], g);
    }
  }

  ghost predicate Unbroken(g: seq<Record>) {
    forall k :: 0 <= k < |g| - 1 ==> Contiguous(g[k], g[k + 1])
  }

  /** Non-empty unbroken groups, with a break between each and the next. */
  ghost predicate Grouped(groups: seq<seq<Record>>) {
    && (forall k :: 0 <= k < |groups| ==> groups[k] != [] && Unbroken(groups[k]))
    && forall k :: 0 <= k < |groups| - 1 ==> BreakBetween(groups[k], groups[k + 1])
  }

  ghost predicate BreakBetween(g: seq<Record>, h: seq<Record>) {
    g != [] && h != [] && !Contiguous(g[|g| - 1], h[0])
  }

  lemma GroupedSnoc(groups: seq<seq<Record>>, g: seq<Record>)
    requires Grouped(groups) && g != [] && Unbroken(g)
    requires groups != [] ==> BreakBetween(groups[|groups| - 1], g)
    ensures Grouped(groups + [g]) && Flatten(groups + [g]) == Flatten(groups) + g
  {
    hide Flatten, Unbroken, BreakBetween;
    FlattenSnoc(groups, g);
    var all, n := groups + [g], |groups|;
    assert forall k :: 0 <= k < n ==> all[k] == groups[k];
    assert all[n] == g;
    forall k | 0 <= k < |all| - 1 ensures BreakBetween(all[k], all[k + 1]) {
      if k < n - 1 {
        assert BreakBetween(groups[k], groups[k + 1]);
      }
    }
  }

  lemma NoGroups()
    ensures Grouped([]) && Flatten([]) == []
  {}

  method Group(cand: seq<Record>) returns (groups: seq<seq<Record>>)
    ensures Grouped(groups) && Flatten(groups) == cand
  {
    hide Flatten, Grouped, Contiguous;
    NoGroups();
    groups := [];
    var cur: seq<Record> := [];
    for k := 0 to |cand|
      invariant Grouped(groups) && Unbroken(cur)
      invariant k > 0 ==> cur != []
      invariant k == 0 ==> groups == []
      invariant Flatten(groups) + cur == cand[..k]
      invariant groups != [] ==> BreakBetween(groups[|groups| - 1], cur)
    {
      var rec := cand[k];
      assert cand[..k + 1] == cand[..k] + [rec];
      if cur != [] && !Contiguous(cur[|cur| - 1], rec) {
        GroupedSnoc(groups, cur);
        groups := groups + [cur];
        cur := [];
      }
      cur := cur + [rec];
    }
    assert cand[..|cand|] == cand;
    if cur != [] {
      GroupedSnoc(groups, cur);
      groups := groups + [cur];
    } else {
      assert Flatten(groups) + cur == Flatten(groups);
    }
  }

  /** Where group `g` begins in the flattened list. */
  function Start(groups: seq<seq<Record>>, g: nat): nat
    requires g <= |groups|
  {
    if g == 0 then 0 else |groups[0]| + Start(groups[1..], g - 1)
  }

  lemma {:induction false} GroupInFlat(groups: seq<seq<Record>>, g: nat)
    requires g < |groups|
    ensures Start(groups, g) + |groups[g]| <= |Flatten(groups)|
    ensures Flatten(groups)[Start(groups, g)..Start(groups, g) + |groups[g]|] == groups[g]
  {
    if g > 0 {
      var n, s := |groups[0]|, Start(groups[1..], g - 1);
      GroupInFlat(groups[1..], g - 1);
      assert Flatten(groups)[n + s..n + s + |groups[g]|] == Flatten(groups[1..])[s..s + |groups[g]|];
    }
  }

  lemma {:induction false} GroupsInOrder(groups: seq<seq<Record>>, g: nat, h: nat)
    requires g < h < |groups|
    ensures Start(groups, g) + |groups[g]| <= Start(groups, h)
  {
    if g > 0 {
      GroupsInOrder(groups[1..], g - 1, h - 1);
    }
  }

  ghost predicate LinkedSlice(rs: seq<Record>, i: nat, j: nat) {
    i <= j <= |rs| && forall k :: i <= k < j - 1 ==> Linked(rs[k], rs[k + 1])
  }

  /** A linked slice that reaches past the first group joins it to the second. */
  lemma SliceJoins(groups: seq<seq<Record>>, i: nat, j: nat)
    requires groups != [] && forall k :: 0 <= k < |groups| ==> groups[k] != []
    requires LinkedSlice(Flatten(groups), i, j) && i < |groups[0]| < j
    ensures |groups| > 1 && Contiguous(groups[0][|groups[0]| - 1], groups[1][0])
  {
    var n, all := |groups[0]|, Flatten(groups);
    assert Linked(all[n - 1], all[n - 1 + 1]);
    assert all[n - 1] == groups[0][n - 1];
    assert all[n] == Flatten(groups[1..])[0] == groups[1..][0][0];
  }

  lemma FirstBreak(groups: seq<seq<Record>>)
    requires Grouped(groups)
    ensures |groups| > 1 ==> groups[0] != [] && groups[1] != [] && !Contiguous(groups[0][|groups[0]| - 1], groups[1][0])
  {
    assert |groups| > 1 ==> BreakBetween(groups[0], groups[0 + 1]);
  }

  /** A linked slice of the candidates lies inside one group. */
  lemma {:induction false} SliceInGroup(groups: seq<seq<Record>>, i: nat, j: nat) returns (g: nat, a: nat)
    requires Grouped(groups) && i < j && LinkedSlice(Flatten(groups), i, j)
    ensures g < |groups| && i == Start(groups, g) + a
    ensures Ascends(groups[g], a, a + (j - i))
  {
    var n, all, rest := |groups[0]|, Flatten(groups), Flatten(groups[1..]);
    if j <= n {
      g, a := 0, i;
      assert forall k :: i <= k < j ==> all[k] == groups[0][k];
    } else if i >= n {
      assert forall k :: n <= k < |all| ==> all[k] == rest[k - n];
      assert Grouped(groups[1..]) by {
        assert forall k :: 0 <= k < |groups| - 1 ==> groups[1..][k] == groups[k + 1];
      }
      forall k | i - n <= k < j - n - 1 ensures Linked(rest[k], rest[k + 1]) {
        assert Linked(all[k + n], all[k + n + 1]);
      }
      g, a := SliceInGroup(groups[1..], i - n, j - n);
      g := g + 1;
    } else {
      SliceJoins(groups, i, j);
      FirstBreak(groups);
      assert false;
    }
  }

  // ------------------------------------------------------------ the table

  /** The one longest name run of the blob: no other is longer, and of those as long it is the
      first. */
  ghost predicate IsLongest(blob: string, run: seq<Record>) {
    && NameRun(blob, run)
    && forall other: seq<Record> :: NameRun(blob, other) ==>
         |other| <= |run| && (|other| == |run| > 0 ==> run[0].off <= other[0].off)
  }

  lemma CandidatesApart(blob: string, all: seq<Record>)
    requires AllRuns(blob, all)
    ensures Apart(Names(all))
  {
    NamesApart(all);
  }

  lemma RunExtends(cand: seq<Record>, run: seq<Record>, i: nat, n: nat)
    requires Apart(cand) && 0 < n < |run| && i + n <= |cand| && cand[i..i + n] == run[..n]
    requires Contiguous(run[n - 1], run[n]) && run[n] in cand
    ensures i + n < |cand| && cand[i..i + n + 1] == run[..n + 1]
  {
    hide Apart, Contiguous;
    var p :| 0 <= p < |cand| && cand[p] == run[n];
    assert cand[i + n - 1] == cand[i..i + n][n - 1] == run[..n][n - 1];
    NextInOrder(cand, i + n - 1, p);
    assert cand[i..i + n + 1] == cand[i..i + n] + [cand[i + n]];
    assert run[..n + 1] == run[..n] + [run[n]];
  }

  /** The records of a name run are candidates, each right after the one before it. */
  lemma RunMember(blob: string, all: seq<Record>, run: seq<Record>, k: nat)
    requires AllRuns(blob, all) && NameRun(blob, run) && k < |run|
    ensures run[k] in Names(all)
    ensures k + 1 < |run| ==> Contiguous(run[k], run[k + 1])
  {
    hide Names, IsName, Less;
    NamesMembers(all, run[k]);
    assert k + 1 < |run| ==> Linked(run[k], run[k + 1]);
  }

  /** Every name run of the blob is a linked slice of its candidate names. */
  lemma RunIsSlice(blob: string, all: seq<Record>, run: seq<Record>) returns (i: nat)
    requires AllRuns(blob, all) && NameRun(blob, run) && run != []
    ensures i + |run| <= |Names(all)| && Names(all)[i..i + |run|] == run
    ensures LinkedSlice(Names(all), i, i + |run|)
  {
    hide Names, NameRun, AllRuns, Apart, Contiguous;
    var cand := Names(all);
    CandidatesApart(blob, all);
    RunMember(blob, all, run, 0);
    i :| 0 <= i < |cand| && cand[i] == run[0];
    var n := 1;
    while n < |run|
      invariant 1 <= n <= |run| && i + n <= |cand|
      invariant cand[i..i + n] == run[..n]
    {
      RunMember(blob, all, run, n - 1);
      RunMember(blob, all, run, n);
      RunExtends(cand, run, i, n);
      n := n + 1;
    }
    assert run[..|run|] == run;
    RunLinked(blob, run);
    LinkedThere(cand, i, run);
  }

  lemma RunLinked(blob: string, run: seq<Record>)
    requires NameRun(blob, run)
    ensures LinkedSlice(run, 0, |run|)
  {
    hide Linked;
  }

  lemma LinkedThere(rs: seq<Record>, i: nat, run: seq<Record>)
    requires LinkedSlice(run, 0, |run|) && i + |run| <= |rs| && rs[i..i + |run|] == run
    ensures LinkedSlice(rs, i, i + |run|)
  {
    hide Linked;
    forall k | i <= k < i + |run| - 1 ensures Linked(rs[k], rs[k + 1]) {
      assert Linked(run[k - i], run[k - i + 1]);
      assert rs[k] == rs[i..i + |run|][k - i] && rs[k + 1] == rs[i..i + |run|][k - i + 1];
    }
  }

  lemma NextInOrder(cand: seq<Record>, p: nat, q: nat)
    requires Apart(cand) && p < |cand| && q < |cand| && Contiguous(cand[p], cand[q])
    ensures q == p + 1
  {
    if q <= p {
      Ordered(cand, q, p);
      assert false;
    }
    if p + 1 < q {
      Ordered(cand, p, p + 1);
      Ordered(cand, p + 1, q);
      assert false;
    }
  }

  lemma Ordered(cand: seq<Record>, p: nat, q: nat)
    requires Apart(cand) && p <= q < |cand|
    ensures cand[p].off <= cand[q].off
    ensures p < q ==> cand[p].End() < cand[q].off
  {
  }

  /** A linked slice of the candidates is a name run. */
  lemma SliceIsRun(blob: string, all: seq<Record>, i: nat, j: nat)
    requires AllRuns(blob, all) && LinkedSlice(Names(all), i, j)
    ensures NameRun(blob, Names(all)[i..j])
  {
    var run := Names(all)[i..j];
    forall k | 0 <= k < |run| ensures IsRun(blob, run[k]) && IsName(run[k].text) {
      NamesMembers(all, Names(all)[i + k]);
    }
    forall k | 0 <= k < |run| - 1 ensures Linked(run[k], run[k + 1]) {
      assert Linked(Names(all)[i + k], Names(all)[i + k + 1]);
    }
  }

  /** No linked slice of the candidates is longer, and none as long begins before it. */
  ghost predicate BestSlice(cand: seq<Record>, i: nat, j: nat) {
    && LinkedSlice(cand, i, j)
    && forall a: nat, b: nat :: LinkedSlice(cand, a, b) ==> b - a <= j - i && (b - a == j - i > 0 ==> i <= a)
  }

  lemma GroupSlice(groups: seq<seq<Record>>, g: nat, a: nat, b: nat)
    requires g < |groups| && a <= b <= |groups[g]|
    ensures Start(groups, g) + b <= |Flatten(groups)|
    ensures Flatten(groups)[Start(groups, g) + a..Start(groups, g) + b] == groups[g][a..b]
  {
    hide Flatten, Start;
    GroupInFlat(groups, g);
    var all, s, n := Flatten(groups), Start(groups, g), |groups[g]|;
    Text.SliceOfSlice(all, s, s + n, a, b);
  }

  lemma AscendsLinked(g: seq<Record>, a: nat, b: nat)
    requires Unbroken(g) && Ascends(g, a, b)
    ensures LinkedSlice(g[a..b], 0, b - a)
  {
    hide Less, Contiguous;
    forall k | 0 <= k < b - a - 1 ensures Linked(g[a..b][k], g[a..b][k + 1]) {
      assert Less(g[a + k].text, g[a + k + 1].text);
      assert Contiguous(g[a + k], g[a + k + 1]);
    }
  }

  lemma AscendsIsLinked(groups: seq<seq<Record>>, g: nat, a: nat, b: nat)
    requires Grouped(groups) && g < |groups| && Ascends(groups[g], a, b)
    ensures LinkedSlice(Flatten(groups), Start(groups, g) + a, Start(groups, g) + b)
    ensures Flatten(groups)[Start(groups, g) + a..Start(groups, g) + b] == groups[g][a..b]
  {
    hide Flatten, Start, Less, Unbroken, LinkedSlice;
    GroupSlice(groups, g, a, b);
    AscendsLinked(groups[g], a, b);
    LinkedThere(Flatten(groups), Start(groups, g) + a, groups[g][a..b]);
  }

  /** The longest run over all groups, the first of the longest. */
  method BestRun(groups: seq<seq<Record>>) returns (best: seq<Record>, ghost i: nat)
    requires Grouped(groups)
    ensures BestSlice(Flatten(groups), i, i + |best|)
    ensures best == Flatten(groups)[i..i + |best|]
  {
    hide Flatten, Start, Less;
    best, i := [], 0;
    for k := 0 to |groups|
      invariant LinkedSlice(Flatten(groups), i, i + |best|) && best == Flatten(groups)[i..i + |best|]
      invariant best != [] ==> k > 0 && i + |best| <= Start(groups, k - 1) + |groups[k - 1]|
      invariant forall g: nat, a: nat, b: nat :: g < k && Ascends(groups[g], a, b) ==>
                  b - a <= |best| && (b - a == |best| > 0 ==> i <= Start(groups, g) + a)
    {
      var lo, hi := LongestSortedRun(groups[k]);
      if k > 0 {
        GroupsInOrder(groups, k - 1, k);
      }
      GroupInFlat(groups, k);
      if hi - lo > |best| {
        AscendsIsLinked(groups, k, lo, hi);
        best, i := groups[k][lo..hi], Start(groups, k) + lo;
      }
    }
    forall a: nat, b: nat | LinkedSlice(Flatten(groups), a, b)
      ensures b - a <= |best| && (b - a == |best| > 0 ==> i <= a)
    {
      if a < b {
        var g, at := SliceInGroup(groups, a, b);
      }
    }
  }

  /** The best slice of the candidates is the blob's longest name run. */
  lemma BestIsLongest(blob: string, all: seq<Record>, i: nat, j: nat)
    requires AllRuns(blob, all) && BestSlice(Names(all), i, j)
    ensures IsLongest(blob, Names(all)[i..j])
  {
    var cand, run := Names(all), Names(all)[i..j];
    SliceIsRun(blob, all, i, j);
    NamesApart(all);
    forall other: seq<Record> | NameRun(blob, other)
      ensures |other| <= |run| && (|other| == |run| > 0 ==> run[0].off <= other[0].off)
    {
      if other != [] {
        var a := RunIsSlice(blob, all, other);
        assert other[0] == cand[a];
        assert |other| == |run| ==> i <= a;
        assert i < a ==> cand[i].End() < cand[a].off;
      }
    }
  }

  /** There is only one longest run. */
  lemma LongestUnique(blob: string, run: seq<Record>, other: seq<Record>)
    requires IsLongest(blob, run) && IsLongest(blob, other)
    ensures run == other
  {
    hide NameRun;
    if run != [] {
      assert run[0].off == other[0].off;
      SameRuns(blob, run, other, |run|);
      assert run[..|run|] == run && other[..|other|] == other;
    }
  }

  lemma {:induction false} SameRuns(blob: string, run: seq<Record>, other: seq<Record>, n: nat)
    requires NameRun(blob, run) && NameRun(blob, other) && |run| == |other| && n <= |run|
    requires run != [] && run[0].off == other[0].off
    ensures run[..n] == other[..n]
  {
    hide Less, IsName, IsRun;
    if n > 0 {
      SameRuns(blob, run, other, n - 1);
      if n > 1 {
        assert Linked(run[n - 2], run[n - 2 + 1]) && Linked(other[n - 2], other[n - 2 + 1]);
        assert run[n - 2] == run[..n - 1][n - 2] == other[..n - 1][n - 2];
      }
      SameStart(blob, run[n - 1], other[n - 1]);
      assert run[..n] == run[..n - 1] + [run[n - 1]];
    }
  }

  lemma SameStart(blob: string, r: Record, q: Record)
    requires IsRun(blob, r) && IsRun(blob, q) && r.off == q.off
    ensures r == q
  {
    RunHasNoNul(blob, q);
    SameRun(blob, r, q.off, q.End());
  }

  /** The names of a run ascend throughout, not only from one to the next. */
  lemma {:induction false} RunSorted(blob: string, run: seq<Record>, i: nat, j: nat)
    requires NameRun(blob, run) && i < j < |run|
    ensures Less(run[i].text, run[j].text)
    decreases j
  {
    hide Less, IsRun, IsName;
    assert Linked(run[j - 1], run[j - 1 + 1]);
    if i < j - 1 {
      RunSorted(blob, run, i, j - 1);
      LessTransitive(run[i].text, run[j - 1].text, run[j].text);
    }
  }

  // ------------------------------------------------------------ the first name's recovery

  /** The first index from `i` on at which the rest of `b` has the shape of a name. */
  function ShapeFrom(b: string, i: nat): (r: Option<nat>)
    ensures r.Some? ==> i <= r.value < |b| && NameShape(b[r.value..])
    ensures forall k :: i <= k < |b| && NameShape(b[k..]) ==> r.Some? && r.value <= k
    decreases |b| - i
  {
    if i >= |b| then None else if NameShape(b[i..]) then Some(i) else ShapeFrom(b, i + 1)
  }

  /** The record right before the run, if there is one. */
  ghost predicate IsPrevious(blob: string, best: seq<Record>, prev: Option<Record>) {
    match prev
    case Some(r) => best != [] && IsRun(blob, r) && r.End() + 1 == best[0].off
    case None => best == [] || forall r :: IsRun(blob, r) ==> r.End() + 1 != best[0].off
  }

  /** The run with the name at the end of the record before it, when that name is not the whole
      record and sorts before the run. */
  function Recover(prev: Option<Record>, best: seq<Record>): seq<Record> {
    if prev.None? || best == [] then best
    else
      var raw := prev.value.text;
      match ShapeFrom(Body(raw), 0)
      case None => best
      case Some(i) =>
        var name := Body(raw)[i..];
        if name != raw && Less(name, best[0].text) then [Record(prev.value.off + i, name)] + best else best
  }

  datatype Refusal = TooShort

  method FindPrevious(data: string, all: seq<Record>, best: seq<Record>) returns (prev: Option<Record>)
    requires AllRuns(data, all)
    ensures IsPrevious(data, best, prev)
  {
    hide IsRun;
    if best == [] {
      return None;
    }
    for k := 0 to |all|
      invariant forall m :: 0 <= m < k ==> all[m].End() + 1 != best[0].off
    {
      if all[k].End() + 1 == best[0].off {
        return Some(all[k]);
      }
    }
    return None;
  }

  /** The applet table: the longest name run, its first name recovered, refused when it is short. */
  method FindApplets(data: string) returns (r: Result<seq<Record>, Refusal>)
    ensures exists best, prev ::
              && IsLongest(data, best) && IsPrevious(data, best, prev)
              && r == if |Recover(prev, best)| < MIN_RUN then Refused(TooShort) else Ok(Recover(prev, best))
  {
    hide Recover, AllRuns, BestSlice, IsLongest, IsPrevious, Grouped;
    var all := Runs(data);
    var groups := Group(Names(all));
    var best, i := BestRun(groups);
    BestIsLongest(data, all, i, i + |best|);
    var prev := FindPrevious(data, all, best);
    var whole := Recover(prev, best);
    r := if |whole| < MIN_RUN then Refused(TooShort) else Ok(whole);
  }

  /** A record sits in the blob where it says. */
  ghost predicate Sits(blob: string, r: Record) {
    r.End() <= |blob| && blob[r.off..r.End()] == r.text
  }

  lemma RunSits(blob: string, r: Record)
    requires IsRun(blob, r)
    ensures Sits(blob, r)
  {}

  lemma SubSlice(blob: string, o: nat, text: string, i: nat, n: nat)
    requires o + |text| <= |blob| && blob[o..o + |text|] == text && i + n <= |text|
    ensures blob[o + i..o + i + n] == text[i..i + n]
  {
    Text.SliceOfSlice(blob, o, o + |text|, i, i + n);
  }

  /** The recovered name sits in the blob where it says and sorts before the run.  It is separated
      from the run by exactly one NUL if and only if the record it was taken from does not end in a
      newline: there the pattern's `$` matched one byte early. */
  lemma RecoveryKeepsRun(blob: string, best: seq<Record>, prev: Option<Record>)
    requires NameRun(blob, best) && IsPrevious(blob, best, prev)
    requires Recover(prev, best) != best
    ensures var all := Recover(prev, best);
            && prev.Some? && prev.value.text != "" && |all| == |best| + 1 && all[1..] == best
            && Sits(blob, all[0]) && NameShape(all[0].text) && Less(all[0].text, best[0].text)
            && (Contiguous(all[0], best[0]) <==> prev.value.text[|prev.value.text| - 1] != '\n')
  {
    hide Less, NameRun, IsRun, NameShape, Recover, Body;
    RecoverNeedsRecord(prev, best);
    var r := prev.value;
    RunSits(blob, r);
    var i := RecoveredAt(r, best);
    var name := Body(r.text)[i..];
    SubSlice(blob, r.off, r.text, i, |name|);
  }

  lemma RecoverNeedsRecord(prev: Option<Record>, best: seq<Record>)
    requires Recover(prev, best) != best
    ensures prev.Some? && best != []
  {}

  /** Where in the previous record the recovered name is. */
  lemma RecoveredAt(r: Record, best: seq<Record>) returns (i: nat)
    requires best != [] && Recover(Some(r), best) != best
    ensures i <= |Body(r.text)| && var name := Body(r.text)[i..];
            && Recover(Some(r), best) == [Record(r.off + i, name)] + best
            && r.text != "" && i + |name| <= |r.text| && name == r.text[i..i + |name|]
            && NameShape(name) && Less(name, best[0].text)
            && (i + |name| == |r.text| <==> r.text[|r.text| - 1] != '\n')
  {
    hide Less;
    i := ShapeFrom(Body(r.text), 0).value;
    var name := Body(r.text)[i..];
    assert r.text != "";
    assert name == r.text[i..i + |name|];
  }

  /** The answer is settled by the blob: there is one longest run and one record before it. */
  lemma OneAnswer(data: string, best: seq<Record>, prev: Option<Record>, best': seq<Record>, prev': Option<Record>)
    requires IsLongest(data, best) && IsPrevious(data, best, prev)
    requires IsLongest(data, best') && IsPrevious(data, best', prev')
    ensures best == best' && Recover(prev, best) == Recover(prev', best')
  {
    hide IsLongest, Recover;
    LongestUnique(data, best, best');
    if prev.Some? && prev'.Some? {
      SameEnd(data, prev.value, prev'.value);
    }
    NothingRecovered(prev, best);
    NothingRecovered(prev', best);
  }

  lemma NothingRecovered(prev: Option<Record>, best: seq<Record>)
    ensures prev.None? || best == [] ==> Recover(prev, best) == best
  {}

  lemma SameEnd(blob: string, r: Record, q: Record)
    requires IsRun(blob, r) && IsRun(blob, q) && r.End() == q.End()
    ensures r == q
  {
    RunHasNoNul(blob, r);
    RunHasNoNul(blob, q);
    assert r.off == q.off;
  }

  // ------------------------------------------------------------ blobs written as records

  /** Texts with one NUL between each and the next. */
  function Joined(texts: seq<string>): string
    requires texts != []
  {
    if |texts| == 1 then texts[0] else texts[0] + ([NUL] + Joined(texts[1..]))
  }

  function RecordsAt(texts: seq<string>, off: nat): (r: seq<Record>)
    ensures |r| == |texts| && forall k :: 0 <= k < |r| ==> r[k].text == texts[k]
  {
    if texts == [] then [] else [Record(off, texts[0])] + RecordsAt(texts[1..], off + |texts[0]| + 1)
  }

  ghost predicate Writable(t: string) { t != "" && NUL !in t }

  /** The maximal NUL-free stretches from `off` on are these, each right after the one before it. */
  ghost predicate RunsFrom(blob: string, rs: seq<Record>, off: nat) {
    && Apart(rs) && Unbroken(rs)
    && (forall k :: 0 <= k < |rs| ==> IsRun(blob, rs[k]) && off <= rs[k].off)
    && (forall r :: IsRun(blob, r) && off <= r.off ==> r in rs)
    && (rs != [] ==> rs[0].off == off)
  }

  lemma ApartNext(r: Record, rest: seq<Record>)
    requires Apart(rest) && forall k :: 0 <= k < |rest| ==> r.End() < rest[k].off
    ensures Apart([r] + rest)
  {
    var rs := [r] + rest;
    forall k, l | 0 <= k < l < |rs| ensures rs[k].End() < rs[l].off {
      assert rs[l] == rest[l - 1] && (k > 0 ==> rs[k] == rest[k - 1]);
    }
  }

  lemma UnbrokenNext(r: Record, rest: seq<Record>)
    requires Unbroken(rest) && (rest != [] ==> Contiguous(r, rest[0]))
    ensures Unbroken([r] + rest)
  {
    hide Contiguous;
    var rs := [r] + rest;
    forall k | 0 <= k < |rs| - 1 ensures Contiguous(rs[k], rs[k + 1]) {
      assert rs[k + 1] == rest[k] && (k > 0 ==> rs[k] == rest[k - 1]);
      assert k > 0 ==> Contiguous(rest[k - 1], rest[k - 1 + 1]);
    }
  }

  lemma RunsFromNext(blob: string, r: Record, rest: seq<Record>)
    requires IsRun(blob, r) && RunsFrom(blob, rest, r.End() + 1)
    requires forall q :: IsRun(blob, q) && r.off <= q.off <= r.End() ==> q == r
    ensures RunsFrom(blob, [r] + rest, r.off)
  {
    hide IsRun, Apart, Unbroken;
    var rs := [r] + rest;
    ApartNext(r, rest);
    UnbrokenNext(r, rest);
    forall q | IsRun(blob, q) && r.off <= q.off ensures q in rs {
      if q.off > r.End() {
        assert q in rest;
      } else {
        assert q == rs[0];
      }
    }
    forall k | 0 <= k < |rs| ensures IsRun(blob, rs[k]) && r.off <= rs[k].off {
      assert k > 0 ==> rs[k] == rest[k - 1];
    }
  }

  ghost predicate AllWritable(texts: seq<string>) { forall k :: 0 <= k < |texts| ==> Writable(texts[k]) }

  /** The one text left, up to the blob's end. */
  lemma LastReadsBack(blob: string, t: string, off: nat)
    requires Writable(t) && off <= |blob| && blob[off..] == t && (off == 0 || blob[off - 1] == NUL)
    ensures RunsFrom(blob, [Record(off, t)] + [], off)
  {
    hide RunsFrom, IsRun, Writable;
    assert blob[off..] == t + "";
    FirstText(blob, off, t, "");
    FirstIsRun(blob, off, t);
    NoRunsPast(blob, off + |t| + 1);
    RunsFromNext(blob, Record(off, t), []);
  }

  /** A text, a NUL, and what follows read back. */
  lemma NextReadsBack(blob: string, t: string, more: string, off: nat, rest: seq<Record>)
    requires Writable(t) && off <= |blob| && blob[off..] == t + ([NUL] + more) && (off == 0 || blob[off - 1] == NUL)
    requires RunsFrom(blob, rest, off + |t| + 1)
    ensures RunsFrom(blob, [Record(off, t)] + rest, off)
  {
    hide RunsFrom, IsRun, Writable;
    FirstText(blob, off, t, [NUL] + more);
    FirstIsRun(blob, off, t);
    RunsFromNext(blob, Record(off, t), rest);
  }

  lemma AfterNul(blob: string, t: string, more: string, off: nat)
    requires off <= |blob| && blob[off..] == t + ([NUL] + more)
    ensures var e := off + |t|; e + 1 <= |blob| && blob[e + 1..] == more && blob[e] == NUL
  {
    FirstText(blob, off, t, [NUL] + more);
    var e := off + |t|;
    assert blob[e..][0] == NUL && blob[e..][1..] == blob[e + 1..];
  }

  lemma OneText(texts: seq<string>, off: nat)
    requires |texts| == 1
    ensures Joined(texts) == texts[0] && RecordsAt(texts, off) == [Record(off, texts[0])] + []
  {}

  lemma MoreTexts(texts: seq<string>, off: nat)
    requires |texts| > 1
    ensures Joined(texts) == texts[0] + ([NUL] + Joined(texts[1..]))
    ensures RecordsAt(texts, off) == [Record(off, texts[0])] + RecordsAt(texts[1..], off + |texts[0]| + 1)
  {}

  lemma OthersWritable(texts: seq<string>)
    requires texts != [] && AllWritable(texts)
    ensures Writable(texts[0]) && AllWritable(texts[1..])
  {
    hide Writable;
  }

  /** What is written as records is read back as those records. */
  lemma {:induction false} JoinedReadsBack(blob: string, texts: seq<string>, off: nat)
    requires texts != [] && off <= |blob| && blob[off..] == Joined(texts) && (off == 0 || blob[off - 1] == NUL)
    requires AllWritable(texts)
    ensures RunsFrom(blob, RecordsAt(texts, off), off)
    decreases |texts|
  {
    hide RunsFrom, Joined, RecordsAt, Writable, AllWritable;
    OthersWritable(texts);
    if |texts| == 1 {
      OneText(texts, off);
      LastReadsBack(blob, texts[0], off);
    } else {
      MoreTexts(texts, off);
      var more, next := Joined(texts[1..]), off + |texts[0]| + 1;
      AfterNul(blob, texts[0], more, off);
      JoinedReadsBack(blob, texts[1..], next);
      NextReadsBack(blob, texts[0], more, off, RecordsAt(texts[1..], next));
    }
  }

  lemma FirstText(blob: string, off: nat, t: string, rest: string)
    requires off <= |blob| && blob[off..] == t + rest
    ensures off + |t| <= |blob| && blob[off..off + |t|] == t && blob[off + |t|..] == rest
  {
    assert blob[off..][..|t|] == t && blob[off..][|t|..] == rest;
  }

  lemma FirstIsRun(blob: string, off: nat, t: string)
    requires Writable(t) && off + |t| <= |blob| && blob[off..off + |t|] == t && (off == 0 || blob[off - 1] == NUL)
    requires off + |t| == |blob| || blob[off + |t|..][0] == NUL
    ensures IsRun(blob, Record(off, t))
    ensures forall q :: IsRun(blob, q) && off <= q.off <= off + |t| ==> q == Record(off, t)
  {
    forall q | IsRun(blob, q) && off <= q.off <= off + |t| ensures q == Record(off, t) {
      SameRun(blob, q, off, off + |t|);
    }
  }

  lemma NoRunsPast(blob: string, off: nat)
    requires off > |blob|
    ensures RunsFrom(blob, [], off)
  {}

  lemma {:induction false} AllNames(rs: seq<Record>)
    requires forall k :: 0 <= k < |rs| ==> IsName(rs[k].text)
    ensures Names(rs) == rs
  {
    if rs != [] {
      AllNames(rs[1..]);
      assert [rs[0]] + rs[1..] == rs;
    }
  }

  // ------------------------------------------------------------ a gapped table

  /** The record that holds a first name: a byte that is none of a name's, the name, a newline. */
  function Spoiled(first: string): string { ['\U{1}'] + first + ['\n'] }

  ghost predicate AscendingNames(names: seq<string>) {
    && (forall k :: 0 <= k < |names| ==> NameShape(names[k]))
    && forall k :: 0 <= k < |names| - 1 ==> Less(names[k], names[k + 1])
  }

  lemma NameIsWritable(t: string)
    requires NameShape(t)
    ensures Writable(t) && IsName(t)
  {
    assert forall i :: 0 <= i < |t| ==> InName(t[i]);
  }

  lemma SpoiledRecord(first: string, best: seq<Record>)
    requires NameShape(first) && best != [] && Less(first, best[0].text)
    ensures Writable(Spoiled(first)) && !IsName(Spoiled(first))
    ensures Recover(Some(Record(0, Spoiled(first))), best) == [Record(1, first)] + best
  {
    hide Less;
    NameIsWritable(first);
    var raw := Spoiled(first);
    var b := Body(raw);
    assert b == ['\U{1}'] + first;
    assert b[0..] == b && b[0] == '\U{1}' && b[1..] == first;
    assert !NameShape(b[0..]);
    assert ShapeFrom(b, 0) == Some(1);
    assert |first| != |raw|;
  }

  lemma AscendingLinked(names: seq<string>, best: seq<Record>)
    requires AscendingNames(names) && |best| == |names| && forall k :: 0 <= k < |best| ==> best[k].text == names[k]
    requires Unbroken(best)
    ensures LinkedSlice(best, 0, |best|)
  {
    hide Contiguous, Less, NameShape;
    forall k | 0 <= k < |best| - 1 ensures Linked(best[k], best[k + 1]) {
      assert Contiguous(best[k], best[k + 1]) && Less(names[k], names[k + 1]);
    }
  }

  lemma WholeIsBest(cand: seq<Record>)
    requires LinkedSlice(cand, 0, |cand|)
    ensures BestSlice(cand, 0, |cand|)
  {
    hide Linked;
  }

  lemma RestRuns(blob: string, r: Record, rest: seq<Record>)
    requires RunsFrom(blob, [r] + rest, 0) && rest != []
    ensures AllRuns(blob, [r] + rest) && Unbroken(rest) && IsRun(blob, r) && Contiguous(r, rest[0])
  {
    hide IsRun, Contiguous, Apart;
    var all := [r] + rest;
    forall k | 0 <= k < |rest| - 1 ensures Contiguous(rest[k], rest[k + 1]) {
      assert Contiguous(all[k + 1], all[k + 1 + 1]);
    }
    assert all[0] == r && Contiguous(all[0], all[0 + 1]);
  }

  /** The longest run of a blob that holds a spoiled record and then an ascending list of names. */
  lemma SpoiledBlob(first: string, names: seq<string>)
    requires NameShape(first) && names != [] && AscendingNames(names) && Less(first, names[0])
    ensures var raw := Spoiled(first);
            var blob, best := Joined([raw] + names), RecordsAt(names, |raw| + 1);
            IsLongest(blob, best) && IsPrevious(blob, best, Some(Record(0, raw))) && best[0].off == |raw| + 1
  {
    hide NameShape, Less, IsName, Recover, Joined, IsLongest, RunsFrom, AllRuns, Unbroken, IsRun, BestSlice;
    var raw := Spoiled(first);
    var texts := [raw] + names;
    var blob, best := Joined(texts), RecordsAt(names, |raw| + 1);
    SpoiledRecord(first, best);
    forall k | 0 <= k < |names| ensures Writable(names[k]) && IsName(names[k]) {
      NameIsWritable(names[k]);
    }
    assert AllWritable(texts);
    assert blob[0..] == blob;
    JoinedReadsBack(blob, texts, 0);
    assert texts[1..] == names;
    var all := [Record(0, raw)] + best;
    assert RecordsAt(texts, 0) == all;
    RestRuns(blob, Record(0, raw), best);
    AllNames(best);
    NamesSkip(Record(0, raw), best);
    AscendingLinked(names, best);
    WholeIsBest(best);
    BestIsLongest(blob, all, 0, |best|);
    assert best[0..|best|] == best;
  }

  lemma NamesSkip(r: Record, rest: seq<Record>)
    requires !IsName(r.text)
    ensures Names([r] + rest) == Names(rest)
  {
    assert ([r] + rest)[1..] == rest;
  }

  /** The newline case is real: for every ascending list of at least nineteen names, and every name that
      sorts before them at the end of a record that ends in a newline, the tool's one answer is a table
      whose first name ends one byte before the separator. */
  lemma RecoveryLeavesGap(first: string, names: seq<string>, best: seq<Record>, prev: Option<Record>)
    requires NameShape(first) && |names| >= MIN_RUN - 1 && AscendingNames(names) && Less(first, names[0])
    requires var blob := Joined([Spoiled(first)] + names); IsLongest(blob, best) && IsPrevious(blob, best, prev)
    ensures var table := Recover(prev, best);
            && |table| == |names| + 1 >= MIN_RUN
            && table[0] == Record(1, first) && table[1].text == names[0]
            && !Contiguous(table[0], table[1]) && table[1].off == table[0].End() + 2
  {
    hide Recover, IsLongest, IsPrevious, Joined, NameShape, Less;
    var raw := Spoiled(first);
    var blob, run := Joined([raw] + names), RecordsAt(names, |raw| + 1);
    SpoiledBlob(first, names);
    OneAnswer(blob, best, prev, run, Some(Record(0, raw)));
    SpoiledRecord(first, run);
  }
}
