/** The landmark search and the segment arithmetic of `tools/boot-timeline.py`. */
module Landmarks {
  import opened Common

  datatype Id =
    | Booting | Chipname | RamSize | Banner | Autoboot
    | Jump | Decomp | DecompDone | KernelEntry | Wlan | Nic | FastPath
    | B00 | B09 | B10 | UserInit | Ready

  datatype SegmentId =
    | LoaderBooting | LoaderBanner | LoaderEsc | RtkDecompress | RtkTotal
    | KernelEarly | KernelWlan | KernelNic | KernelLate | KernelTotal
    | UserReady | JumpToReady | Setup | InitPost

  /** A segment: its two anchors, and the word that says how far two firmwares' values compare. */
  datatype Segment = Segment(id: SegmentId, from: Id, to: Id, cls: string)

  const IDENTICAL: string := "identical"
  const COMPARABLE: string := "comparable"
  const NOT_COMPARABLE: string := "not-comparable"

  const LOADER_TABLE: seq<Id> := [Booting, Chipname, RamSize, Banner, Autoboot]
  const VENDOR_TABLE: seq<Id> :=
    [Booting, Chipname, RamSize, Banner, Autoboot, Jump, Decomp, DecompDone, KernelEntry,
     Wlan, Nic, FastPath, UserInit, Ready]
  const RLXFW_TABLE: seq<Id> :=
    [Booting, Chipname, RamSize, Banner, Autoboot, Jump, Decomp, DecompDone, KernelEntry,
     B00, B09, Wlan, Nic, FastPath, B10, UserInit, Ready]

  const SEGMENTS: seq<Segment> := [
    Segment(LoaderBooting, Booting, Chipname, IDENTICAL),
    Segment(LoaderBanner, Booting, Banner, IDENTICAL),
    Segment(LoaderEsc, Banner, Autoboot, IDENTICAL),
    Segment(RtkDecompress, Decomp, DecompDone, COMPARABLE),
    Segment(RtkTotal, Jump, KernelEntry, COMPARABLE),
    Segment(KernelEarly, KernelEntry, Wlan, COMPARABLE),
    Segment(KernelWlan, Wlan, Nic, COMPARABLE),
    Segment(KernelNic, Nic, FastPath, COMPARABLE),
    Segment(KernelLate, FastPath, UserInit, COMPARABLE),
    Segment(KernelTotal, KernelEntry, UserInit, COMPARABLE),
    Segment(UserReady, UserInit, Ready, NOT_COMPARABLE),
    Segment(JumpToReady, Jump, Ready, NOT_COMPARABLE),
    Segment(Setup, B00, B09, NOT_COMPARABLE),
    Segment(InitPost, B10, UserInit, NOT_COMPARABLE)]

  /** The classes of the two segments that end at a landmark of the host. */
  const NET_CLASSES: seq<string> := [NOT_COMPARABLE, NOT_COMPARABLE]

  // ------------------------------------------------------------ the tables

  ghost predicate Distinct(table: seq<Id>) {
    forall i, j :: 0 <= i < j < |table| ==> table[i] != table[j]
  }

  ghost predicate RunsForward(table: seq<Id>, s: Segment) {
    forall i, j :: 0 <= i < |table| && 0 <= j < |table| && table[i] == s.from && table[j] == s.to ==> i < j
  }

  ghost predicate Clean(table: seq<Id>, segments: seq<Segment>) {
    Distinct(table) && forall k :: 0 <= k < |segments| ==> RunsForward(table, segments[k])
  }

  function IndexOf(table: seq<Id>, id: Id): (i: nat)
    ensures i <= |table|
    ensures i < |table| ==> table[i] == id
    ensures forall j :: 0 <= j < i ==> table[j] != id
  {
    if table == [] || table[0] == id then 0 else 1 + IndexOf(table[1..], id)
  }

  /** The table check that refuses a run: true when no id repeats and no segment runs backwards. */
  method CheckTable(table: seq<Id>, segments: seq<Segment>) returns (clean: bool)
    ensures clean <==> Clean(table, segments)
  {
    for i := 0 to |table|
      invariant forall a, b :: 0 <= a < i && a < b < |table| ==> table[a] != table[b]
    {
      if IndexOf(table[i + 1..], table[i]) < |table| - i - 1 {
        assert table[i + 1 + IndexOf(table[i + 1..], table[i])] == table[i];
        return false;
      }
      forall b | i < b < |table| ensures table[i] != table[b] {
        assert table[i + 1..][b - i - 1] == table[b];
      }
    }
    for k := 0 to |segments|
      invariant forall m :: 0 <= m < k ==> RunsForward(table, segments[m])
    {
      var i, j := IndexOf(table, segments[k].from), IndexOf(table, segments[k].to);
      if i < |table| && j < |table| && i >= j {
        assert !RunsForward(table, segments[k]);
        return false;
      }
    }
    return true;
  }

  predicate IsClass(w: string) { w == IDENTICAL || w == COMPARABLE || w == NOT_COMPARABLE }

  ghost predicate AllClean(tables: seq<seq<Id>>, segments: seq<Segment>, others: seq<string>) {
    && (forall t :: 0 <= t < |tables| ==> Clean(tables[t], segments))
    && (forall k :: 0 <= k < |segments| ==> IsClass(segments[k].cls))
    && (forall k :: 0 <= k < |others| ==> IsClass(others[k]))
  }

  /** The whole check: every table, and the class of every segment, those that end at the host too. */
  method CheckTables(tables: seq<seq<Id>>, segments: seq<Segment>, others: seq<string>) returns (clean: bool)
    ensures clean <==> AllClean(tables, segments, others)
  {
    hide IsClass, Clean;
    clean := true;
    for t := 0 to |tables|
      invariant clean <==> forall u :: 0 <= u < t ==> Clean(tables[u], segments)
    {
      var ok := CheckTable(tables[t], segments);
      clean := clean && ok;
    }
    ghost var tablesClean := clean;
    for k := 0 to |segments|
      invariant clean <==> tablesClean && forall m :: 0 <= m < k ==> IsClass(segments[m].cls)
    {
      clean := clean && IsClass(segments[k].cls);
    }
    ghost var segmentsClean := clean;
    for k := 0 to |others|
      invariant clean <==> segmentsClean && forall m :: 0 <= m < k ==> IsClass(others[m])
    {
      clean := clean && IsClass(others[k]);
    }
  }

  /** The one order every shipped table follows. */
  ghost function Rank(id: Id): nat {
    match id
    case Booting => 0 case Chipname => 1 case RamSize => 2 case Banner => 3 case Autoboot => 4
    case Jump => 5 case Decomp => 6 case DecompDone => 7 case KernelEntry => 8
    case B00 => 9 case B09 => 10 case Wlan => 11 case Nic => 12 case FastPath => 13
    case B10 => 14 case UserInit => 15 case Ready => 16
  }

  ghost predicate Ascending(table: seq<Id>) {
    forall i :: 0 <= i < |table| - 1 ==> Rank(table[i]) < Rank(table[i + 1])
  }

  lemma {:induction false} AscendingPairs(table: seq<Id>, i: nat, j: nat)
    requires Ascending(table) && i < j < |table|
    ensures Rank(table[i]) < Rank(table[j])
    decreases j
  {
    if i < j - 1 {
      AscendingPairs(table, i, j - 1);
    }
    assert Rank(table[j - 1]) < Rank(table[j - 1 + 1]);
  }

  lemma AscendingClean(table: seq<Id>, segments: seq<Segment>)
    requires Ascending(table)
    requires SegmentsAscend(segments)
    ensures Clean(table, segments)
  {
    forall i, j | 0 <= i < j < |table| ensures Rank(table[i]) < Rank(table[j]) {
      AscendingPairs(table, i, j);
    }
  }

  ghost predicate SegmentsAscend(segments: seq<Segment>) {
    forall k :: 0 <= k < |segments| ==> Rank(segments[k].from) < Rank(segments[k].to)
  }

  lemma ShippedSegmentsAscend()
    ensures SegmentsAscend(SEGMENTS)
  {
  }

  lemma ShippedTablesAscend()
    ensures Ascending(LOADER_TABLE) && Ascending(VENDOR_TABLE) && Ascending(RLXFW_TABLE)
  {
  }

  const TABLES: seq<seq<Id>> := [LOADER_TABLE, VENDOR_TABLE, RLXFW_TABLE]

  /** The tables and segments as shipped pass their own check. */
  lemma ShippedTablesClean()
    ensures AllClean(TABLES, SEGMENTS, NET_CLASSES)
  {
    hide Clean;
    ShippedSegmentsAscend();
    ShippedTablesAscend();
    AscendingClean(LOADER_TABLE, SEGMENTS);
    AscendingClean(VENDOR_TABLE, SEGMENTS);
    AscendingClean(RLXFW_TABLE, SEGMENTS);
    ShippedClasses();
  }

  lemma ShippedClasses()
    ensures forall k :: 0 <= k < |SEGMENTS| ==> IsClass(SEGMENTS[k].cls)
    ensures forall k :: 0 <= k < |NET_CLASSES| ==> IsClass(NET_CLASSES[k])
  {}

  // ------------------------------------------------------------ the search

  /** The regex engine: where a landmark's anchor byte is, searching from a position. */
  type Search = (Id, nat) -> Option<nat>

  /** A search from a position never answers before it. */
  ghost predicate Forward(search: Search) {
    forall id, pos: nat :: search(id, pos).Some? ==> search(id, pos).value >= pos
  }

  /** Where each landmark of the table is found, searching in table order from a cursor that only
      a found landmark moves. */
  ghost function Offsets(search: Search, table: seq<Id>, pos: nat): (r: seq<Option<nat>>)
    ensures |r| == |table|
    decreases table
  {
    if table == [] then []
    else
      var hit := search(table[0], pos);
      [hit] + Offsets(search, table[1..], if hit.Some? then hit.value else pos)
  }

  /** The landmarks found, keyed by id. */
  ghost predicate FoundBy(search: Search, table: seq<Id>, found: map<Id, nat>) {
    && (forall i :: 0 <= i < |table| ==>
          (Offsets(search, table, 0)[i] == if table[i] in found then Some(found[table[i]]) else None))
    && forall id :: id in found ==> id in table
  }

  method FindLandmarks(search: Search, table: seq<Id>) returns (found: map<Id, nat>)
    requires Distinct(table)
    ensures FoundBy(search, table, found)
  {
    found := map[];
    var pos := 0;
    ghost var all := Offsets(search, table, 0);
    for k := 0 to |table|
      invariant all[k..] == Offsets(search, table[k..], pos)
      invariant forall i :: 0 <= i < k ==>
                  (all[i] == if table[i] in found then Some(found[table[i]]) else None)
      invariant forall id :: id in found ==> id in table[..k]
    {
      var hit := search(table[k], pos);
      assert table[k..][1..] == table[k + 1..];
      assert all[k] == hit;
      assert all[k + 1..] == all[k..][1..];
      if hit.Some? {
        found := found[table[k] := hit.value];
        pos := hit.value;
      }
    }
  }

  /** Found offsets do not decrease along the table, whatever the table and the engine. */
  lemma {:induction false} OffsetsMonotone(search: Search, table: seq<Id>, pos: nat, i: nat, j: nat)
    requires Forward(search) && i <= j < |table|
    requires Offsets(search, table, pos)[i].Some? && Offsets(search, table, pos)[j].Some?
    ensures pos <= Offsets(search, table, pos)[i].value <= Offsets(search, table, pos)[j].value
    decreases table
  {
    var hit := search(table[0], pos);
    var next := if hit.Some? then hit.value else pos;
    assert Forward(search) && hit.Some? ==> hit.value >= pos;
    if j > 0 {
      if i > 0 {
        OffsetsMonotone(search, table[1..], next, i - 1, j - 1);
      } else {
        OffsetsMonotone(search, table[1..], next, j - 1, j - 1);
      }
    }
  }

  // ------------------------------------------------------------ the clock

  /** One `.timing` row: the bytes captured before a read, and when it returned. */
  datatype Row = Row(offset: int, time: real)

  ghost predicate SortedRows(rows: seq<Row>) {
    forall i, j :: 0 <= i < j < |rows| ==> rows[i].offset <= rows[j].offset
  }

  ghost predicate ClockForward(rows: seq<Row>) {
    forall i, j :: 0 <= i < j < |rows| ==> rows[i].time <= rows[j].time
  }

  /** The library's bisection: how many rows lie at or before `offset`. */
  method BisectRight(rows: seq<Row>, offset: int) returns (n: nat)
    requires SortedRows(rows)
    ensures n <= |rows|
    ensures forall i :: 0 <= i < n ==> rows[i].offset <= offset
    ensures forall i :: n <= i < |rows| ==> offset < rows[i].offset
  {
    var lo, hi := 0, |rows|;
    while lo < hi
      invariant 0 <= lo <= hi <= |rows|
      invariant forall i :: 0 <= i < lo ==> rows[i].offset <= offset
      invariant forall i :: hi <= i < |rows| ==> offset < rows[i].offset
    {
      var mid := (lo + hi) / 2;
      if offset < rows[mid].offset {
        hi := mid;
      } else {
        lo := mid + 1;
      }
    }
    return lo;
  }

  /** `row` is the last row at or before `offset`. */
  ghost predicate IsRowOf(rows: seq<Row>, offset: int, row: nat) {
    && row < |rows| && rows[row].offset <= offset
    && forall i :: row < i < |rows| ==> offset < rows[i].offset
  }

  method RowOf(rows: seq<Row>, offset: int) returns (r: Option<nat>)
    requires SortedRows(rows)
    ensures r.Some? ==> IsRowOf(rows, offset, r.value)
    ensures r.None? ==> forall i :: 0 <= i < |rows| ==> offset < rows[i].offset
  {
    var n := BisectRight(rows, offset);
    return if n == 0 then None else Some(n - 1);
  }

  // ------------------------------------------------------------ the segments

  /** A landmark's offset and the row that delivered it. */
  datatype Mark = Mark(offset: nat, row: nat)

  /** A segment's length, and whether its two anchors came in different reads. */
  datatype Measured = Measured(seconds: real, exact: bool)

  ghost predicate TimedBy(rows: seq<Row>, found: map<Id, nat>, at: map<Id, Mark>) {
    && (forall id :: id in at ==> id in found && at[id].offset == found[id]
                                  && IsRowOf(rows, found[id], at[id].row))
    && forall id, i :: id in found && id !in at && 0 <= i < |rows| ==> found[id] < rows[i].offset
  }

  /** The measurement of a segment between two marks of the capture. */
  ghost predicate Measures(rows: seq<Row>, at: map<Id, Mark>, s: Segment, m: Measured) {
    && s.from in at && s.to in at
    && at[s.from].row < |rows| && at[s.to].row < |rows|
    && m.seconds == rows[at[s.to].row].time - rows[at[s.from].row].time
    && (m.exact <==> at[s.from].row != at[s.to].row)
  }

  ghost predicate DistinctSegments(segments: seq<Segment>) {
    forall i, j :: 0 <= i < j < |segments| ==> segments[i].id != segments[j].id
  }

  method TimeLandmarks(rows: seq<Row>, table: seq<Id>, found: map<Id, nat>) returns (at: map<Id, Mark>)
    requires SortedRows(rows)
    requires forall id :: id in found ==> id in table
    ensures TimedBy(rows, found, at)
  {
    at := map[];
    for k := 0 to |table|
      invariant forall id :: id in at ==> id in found && at[id].offset == found[id]
                                          && IsRowOf(rows, found[id], at[id].row)
      invariant forall id, i :: id in table[..k] && id in found && id !in at && 0 <= i < |rows| ==>
                  found[id] < rows[i].offset
    {
      var id := table[k];
      if id in found {
        var row := RowOf(rows, found[id]);
        if row.Some? {
          at := at[id := Mark(found[id], row.value)];
        }
      }
    }
  }

  /** The segments with both anchors timed, and no other. */
  ghost predicate SegmentsOf(rows: seq<Row>, at: map<Id, Mark>, segments: seq<Segment>,
                             seg: map<SegmentId, Measured>) {
    forall k :: 0 <= k < |segments| ==>
      && (segments[k].id in seg <==> segments[k].from in at && segments[k].to in at)
      && (segments[k].id in seg ==> Measures(rows, at, segments[k], seg[segments[k].id]))
  }

  method MeasureSegments(rows: seq<Row>, table: seq<Id>, at: map<Id, Mark>, segments: seq<Segment>)
    returns (seg: map<SegmentId, Measured>)
    requires DistinctSegments(segments)
    requires forall id :: id in at ==> id in table && at[id].row < |rows|
    ensures SegmentsOf(rows, at, segments, seg)
  {
    seg := map[];
    for k := 0 to |segments|
      invariant SegmentsOf(rows, at, segments[..k], seg)
      invariant forall m :: k <= m < |segments| ==> segments[m].id !in seg
    {
      var s := segments[k];
      if s.from in table && s.to in table && s.from in at && s.to in at {
        seg := seg[s.id := Measured(rows[at[s.to].row].time - rows[at[s.from].row].time,
                                    at[s.from].row != at[s.to].row)];
      }
    }
    assert segments[..|segments|] == segments;
  }

  /** The one function that turns a capture into segments. */
  method Measure(search: Search, rows: seq<Row>, table: seq<Id>, segments: seq<Segment>)
    returns (found: map<Id, nat>, at: map<Id, Mark>, seg: map<SegmentId, Measured>)
    requires SortedRows(rows) && Distinct(table) && DistinctSegments(segments)
    ensures FoundBy(search, table, found) && TimedBy(rows, found, at)
    ensures SegmentsOf(rows, at, segments, seg)
  {
    found := FindLandmarks(search, table);
    at := TimeLandmarks(rows, table, found);
    seg := MeasureSegments(rows, table, at, segments);
  }

  /** A byte further on is never in an earlier row. */
  lemma RowsMonotone(rows: seq<Row>, a: int, b: int, i: nat, j: nat)
    requires SortedRows(rows) && a <= b
    requires IsRowOf(rows, a, i) && IsRowOf(rows, b, j)
    ensures i <= j
  {
    assert j >= i;
  }

  /** With clean tables and a clock that does not run backwards, every measured segment is at least
      0, and one whose anchors came in the same read is exactly 0. */
  lemma SegmentsNonNegative(search: Search, rows: seq<Row>, table: seq<Id>, s: Segment,
                            found: map<Id, nat>, at: map<Id, Mark>, m: Measured)
    requires Forward(search) && SortedRows(rows) && ClockForward(rows)
    requires Distinct(table) && RunsForward(table, s)
    requires FoundBy(search, table, found) && TimedBy(rows, found, at)
    requires Measures(rows, at, s, m)
    ensures m.seconds >= 0.0
    ensures !m.exact ==> m.seconds == 0.0
  {
    var i, j := IndexOf(table, s.from), IndexOf(table, s.to);
    OffsetsMonotone(search, table, 0, i, j);
    RowsMonotone(rows, found[s.from], found[s.to], at[s.from].row, at[s.to].row);
  }

  /** Early, WLAN, NIC and late tile the kernel's total: wherever the four are measured the total
      is too, and they add up to it. */
  lemma KernelPartsAddUp(rows: seq<Row>, at: map<Id, Mark>, seg: map<SegmentId, Measured>)
    requires SegmentsOf(rows, at, SEGMENTS, seg)
    requires {KernelEarly, KernelWlan, KernelNic, KernelLate} <= seg.Keys
    ensures KernelTotal in seg
    ensures seg[KernelEarly].seconds + seg[KernelWlan].seconds + seg[KernelNic].seconds + seg[KernelLate].seconds
            == seg[KernelTotal].seconds
  {
    assert SEGMENTS[5].id == KernelEarly && SEGMENTS[6].id == KernelWlan && SEGMENTS[7].id == KernelNic;
    assert SEGMENTS[8].id == KernelLate && SEGMENTS[9].id == KernelTotal;
  }
}
