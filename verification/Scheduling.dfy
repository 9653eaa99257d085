/** The cold/warm inheritance of `tools/boot-timeline.py`: which earlier capture of a directory a
    kernel boot takes its class from, and when an unplaced capture could have run in between. */
module Scheduling {
  import opened Common

  datatype BootClass = Cold | Warm | Unknown

  /** What a later capture inherits from this one. */
  datatype BootEvent = LoaderBoot(c8: BootClass) | LoaderText | KernelBoot

  /** The record a capture left: its whole-second start, its exact start and end where it recorded
      them, its duration and whether that was read on the raw monotonic clock. */
  datatype Meta = Meta(wall: Option<int>, t0: Option<real>, end: Option<real>,
                       duration: Option<real>, rawClock: bool)

  /** One capture of the directory: its record, the boot it holds, and its last `.timing` row. */
  datatype Capture = Capture(meta: Meta, event: Option<BootEvent>, lastRow: Option<real>)

  /** A placed capture: its second, a time it had started by, and a time it had not ended before. */
  datatype Placed = Placed(wall: int, startBy: real, endFrom: real)

  function Duration(m: Meta): real {
    if m.duration.None? || m.rawClock then 0.0 else m.duration.value
  }

  function Place(m: Meta): Placed
    requires m.wall.Some?
  {
    var w := m.wall.value;
    if m.t0.Some? && m.end.Some? then Placed(w, m.t0.value, m.end.value)
    else Placed(w, (w + 1) as real, w as real + Duration(m))
  }

  predicate Between(m: Meta, lo: int, hi: int) {
    m.wall.Some? && lo <= m.wall.value <= hi
  }

  function PlacedBetween(dir: seq<Capture>, lo: int, hi: int): seq<Placed> {
    if dir == [] then []
    else
      var rest := PlacedBetween(dir[1..], lo, hi);
      if Between(dir[0].meta, lo, hi) then [Place(dir[0].meta)] + rest else rest
  }

  /** Tuple order: by second, then by start bound, then by end bound. */
  predicate Before(a: Placed, b: Placed) {
    a.wall < b.wall
    || (a.wall == b.wall
        && (a.startBy < b.startBy || (a.startBy == b.startBy && a.endFrom <= b.endFrom)))
  }

  ghost predicate SortedPlaced(s: seq<Placed>) {
    s == [] || ((forall y :: y in s[1..] ==> Before(s[0], y)) && SortedPlaced(s[1..]))
  }

  function Insert(x: Placed, s: seq<Placed>): seq<Placed> {
    if s == [] then [x]
    else if Before(x, s[0]) then [x] + s
    else [s[0]] + Insert(x, s[1..])
  }

  function Sort(s: seq<Placed>): seq<Placed> {
    if s == [] then [] else Insert(s[0], Sort(s[1..]))
  }

  lemma {:induction false} InsertPermutes(x: Placed, s: seq<Placed>)
    ensures multiset(Insert(x, s)) == multiset(s) + multiset{x}
  {
    if s != [] {
      assert s == [s[0]] + s[1..];
      InsertPermutes(x, s[1..]);
    }
  }

  lemma {:induction false} SortPermutes(s: seq<Placed>)
    ensures multiset(Sort(s)) == multiset(s)
  {
    if s != [] {
      assert s == [s[0]] + s[1..];
      SortPermutes(s[1..]);
      InsertPermutes(s[0], Sort(s[1..]));
    }
  }

  lemma InsertMembers(x: Placed, s: seq<Placed>, y: Placed)
    ensures y in Insert(x, s) <==> y == x || y in s
  {
    InsertPermutes(x, s);
    assert y in Insert(x, s) <==> y in multiset(Insert(x, s));
  }

  lemma SortKeeps(s: seq<Placed>, x: Placed)
    ensures x in Sort(s) <==> x in s
  {
    SortPermutes(s);
    assert x in Sort(s) <==> x in multiset(Sort(s));
  }

  lemma {:induction false} InsertSorted(x: Placed, s: seq<Placed>)
    requires SortedPlaced(s)
    ensures SortedPlaced(Insert(x, s))
  {
    if s != [] {
      if Before(x, s[0]) {
        assert ([x] + s)[1..] == s;
        assert forall y :: y in s ==> y == s[0] || y in s[1..];
      } else {
        InsertSorted(x, s[1..]);
        var rest := Insert(x, s[1..]);
        assert ([s[0]] + rest)[1..] == rest;
        forall y | y in rest ensures Before(s[0], y) {
          InsertMembers(x, s[1..], y);
        }
      }
    }
  }

  lemma {:induction false} SortSorted(s: seq<Placed>)
    ensures SortedPlaced(Sort(s))
  {
    if s != [] {
      SortSorted(s[1..]);
      InsertSorted(s[0], Sort(s[1..]));
    }
  }

  lemma {:induction false} SortedPairs(s: seq<Placed>, i: nat, j: nat)
    requires SortedPlaced(s) && i < j < |s|
    ensures Before(s[i], s[j])
  {
    if i == 0 {
      assert s[j] == s[1..][j - 1];
    } else {
      SortedPairs(s[1..], i - 1, j - 1);
    }
  }

  predicate GapAt(s: seq<Placed>, i: nat, span: real)
    requires i + 1 < |s|
  {
    s[i + 1].startBy - s[i].endFrom >= span
  }

  ghost predicate HasGap(s: seq<Placed>, span: real) {
    exists i :: 0 <= i < |s| - 1 && GapAt(s, i, span)
  }

  function Span(c: Capture): real {
    if c.lastRow.None? then 0.0 else c.lastRow.value
  }

  ghost predicate CouldFit(dir: seq<Capture>, unplaced: Capture, lo: int, hi: int) {
    HasGap(Sort(PlacedBetween(dir, lo, hi)), Span(unplaced))
  }

  method ComputeCouldFit(dir: seq<Capture>, unplaced: Capture, lo: int, hi: int)
    returns (r: Option<real>)
    ensures r.Some? <==> CouldFit(dir, unplaced, lo, hi)
    ensures r.Some? ==> r.value == Span(unplaced)
  {
    var span := if unplaced.lastRow.Some? then unplaced.lastRow.value else 0.0;
    var placed := ComputePlaced(dir, lo, hi);
    placed := Sort(placed);
    var i := 0;
    while i + 1 < |placed|
      invariant forall k :: 0 <= k < i && k + 1 < |placed| ==> !GapAt(placed, k, span)
    {
      if placed[i + 1].startBy - placed[i].endFrom >= span {
        assert GapAt(placed, i, span);
        return Some(span);
      }
      i := i + 1;
    }
    return None;
  }

  /** The captures with a wall time in the range, each with the latest it can have started and the
      earliest it can have ended. */
  method ComputePlaced(dir: seq<Capture>, lo: int, hi: int) returns (placed: seq<Placed>)
    ensures placed == PlacedBetween(dir, lo, hi)
  {
    placed := [];
    for k := 0 to |dir|
      invariant placed + PlacedBetween(dir[k..], lo, hi) == PlacedBetween(dir, lo, hi)
    {
      var m := dir[k].meta;
      assert dir[k..][1..] == dir[k + 1..];
      if m.wall.Some? && lo <= m.wall.value <= hi {
        var w := m.wall.value;
        if m.t0.Some? && m.end.Some? {
          placed := placed + [Placed(w, m.t0.value, m.end.value)];
        } else {
          var duration := if m.duration.None? || m.rawClock then 0.0 else m.duration.value;
          placed := placed + [Placed(w, (w + 1) as real, w as real + duration)];
        }
      }
    }
    assert placed == PlacedBetween(dir, lo, hi);
  }

  // ------------------------------------------------------------ what really happened

  /** When a capture really ran. */
  datatype Life = Life(start: real, end: real)

  ghost predicate Precedes(a: Life, b: Life) {
    a.end <= b.start
  }

  /** The record is true of the run: the start fell in the recorded second and by the recorded
      bound, and the end came no earlier than the recorded bound.  A capture that recorded no
      start ran at least as long as its own `.timing`. */
  ghost predicate TrueRecord(c: Capture, l: Life) {
    && l.start <= l.end
    && (c.meta.wall.Some? ==>
          && c.meta.wall.value as real <= l.start < (c.meta.wall.value + 1) as real
          && l.start <= Place(c.meta).startBy && Place(c.meta).endFrom <= l.end)
    && (c.meta.wall.None? ==> l.end - l.start >= Span(c))
  }

  /** One serial port: the records are true and no two captures overlap. */
  ghost predicate History(dir: seq<Capture>, lives: seq<Life>) {
    && |dir| == |lives|
    && (forall i :: 0 <= i < |dir| ==> TrueRecord(dir[i], lives[i]))
    && forall i, j :: 0 <= i < |dir| && 0 <= j < |dir| && i != j ==>
         Precedes(lives[i], lives[j]) || Precedes(lives[j], lives[i])
  }

  lemma {:induction false} PlacedMembers(dir: seq<Capture>, lo: int, hi: int, x: Placed)
    ensures x in PlacedBetween(dir, lo, hi)
            <==> exists i :: 0 <= i < |dir| && Between(dir[i].meta, lo, hi) && x == Place(dir[i].meta)
  {
    if dir != [] {
      PlacedMembers(dir[1..], lo, hi, x);
      if x in PlacedBetween(dir[1..], lo, hi) {
        var i :| 0 <= i < |dir[1..]| && Between(dir[1..][i].meta, lo, hi) && x == Place(dir[1..][i].meta);
        assert dir[i + 1] == dir[1..][i];
      }
      if i :| 0 <= i < |dir| && Between(dir[i].meta, lo, hi) && x == Place(dir[i].meta) {
        if i > 0 { assert dir[1..][i - 1] == dir[i]; }
      }
    }
  }

  /** Between one capture that ended by `from` and a later one that started no sooner than `to`,
      two neighbours do the same, when every capture does one or the other. */
  lemma {:induction false} NeighboursAround(s: seq<Placed>, i: nat, j: nat, from: real, to: real) returns (k: nat)
    requires i < j < |s|
    requires forall m :: 0 <= m < |s| ==> s[m].endFrom <= from || s[m].startBy >= to
    requires s[i].endFrom <= from && s[j].startBy >= to
    ensures i <= k < j && s[k].endFrom <= from && s[k + 1].startBy >= to
    decreases j - i
  {
    if s[i + 1].startBy >= to {
      k := i;
    } else {
      k := NeighboursAround(s, i + 1, j, from, to);
    }
  }

  /** Soundness: if capture `u` really ran after `p` ended and before `q` started, where `p` and
      `q` were placed at the seconds `lo < hi`, then `could_fit` says that it could. */
  lemma CouldFitSound(dir: seq<Capture>, lives: seq<Life>, p: nat, u: nat, q: nat, lo: int, hi: int)
    requires History(dir, lives)
    requires p < |dir| && u < |dir| && q < |dir| && lo < hi
    requires dir[p].meta.wall == Some(lo) && dir[q].meta.wall == Some(hi) && dir[u].meta.wall.None?
    requires Precedes(lives[p], lives[u]) && Precedes(lives[u], lives[q])
    ensures CouldFit(dir, dir[u], lo, hi)
  {
    var placed := PlacedBetween(dir, lo, hi);
    var s := Sort(placed);
    var from, to := lives[u].start, lives[u].end;
    forall m | 0 <= m < |s| ensures s[m].endFrom <= from || s[m].startBy >= to {
      SortKeeps(placed, s[m]);
      PlacedMembers(dir, lo, hi, s[m]);
      var i :| 0 <= i < |dir| && Between(dir[i].meta, lo, hi) && s[m] == Place(dir[i].meta);
      assert Precedes(lives[i], lives[u]) || Precedes(lives[u], lives[i]);
    }
    var x, y := Place(dir[p].meta), Place(dir[q].meta);
    PlacedMembers(dir, lo, hi, x);
    PlacedMembers(dir, lo, hi, y);
    SortKeeps(placed, x);
    SortKeeps(placed, y);
    var i :| 0 <= i < |s| && s[i] == x;
    var j :| 0 <= j < |s| && s[j] == y;
    SortSorted(placed);
    if j < i {
      SortedPairs(s, j, i);
      assert false;
    }
    var k := NeighboursAround(s, i, j, from, to);
    assert GapAt(s, k, Span(dir[u]));
  }

  /** The recorded intervals are exact and follow one another. */
  ghost predicate BackToBack(s: seq<Placed>) {
    && (forall i, j :: 0 <= i < j < |s| ==> s[i].endFrom <= s[j].startBy)
    && forall i :: 0 <= i < |s| ==> s[i].startBy <= s[i].endFrom
  }

  /** A run of length `span` from `t` on meets no placed capture, and lies between two of them. */
  ghost predicate RoomAt(s: seq<Placed>, t: real, span: real) {
    && (exists p :: p in s && p.endFrom <= t)
    && (exists q :: q in s && t + span <= q.startBy)
    && forall x :: x in s ==> x.endFrom <= t || t + span <= x.startBy
  }

  lemma GapLeavesRoom(s: seq<Placed>, i: nat, span: real)
    requires BackToBack(s) && i + 1 < |s| && GapAt(s, i, span)
    ensures RoomAt(s, s[i].endFrom, span)
  {
    assert s[i] in s && s[i + 1] in s;
    forall j | 0 <= j < |s| ensures s[j].endFrom <= s[i].endFrom || s[i].endFrom + span <= s[j].startBy {
      if j < i {
        assert s[j].endFrom <= s[i].startBy;
      } else if j > i + 1 {
        assert s[i + 1].endFrom <= s[j].startBy;
      }
    }
  }

  lemma RoomNeedsGap(s: seq<Placed>, t: real, span: real)
    requires BackToBack(s) && span > 0.0 && RoomAt(s, t, span)
    ensures HasGap(s, span)
  {
    var p :| p in s && p.endFrom <= t;
    var q :| q in s && t + span <= q.startBy;
    var i :| 0 <= i < |s| && s[i] == p;
    var j :| 0 <= j < |s| && s[j] == q;
    assert i < j;
    var k := NeighboursAround(s, i, j, t, t + span);
    assert GapAt(s, k, span);
  }

  /** Precision where the recorded intervals are exact: a gap is reported exactly when some
      moment really leaves room for the unplaced capture. */
  lemma GapIsRoom(s: seq<Placed>, span: real)
    requires BackToBack(s) && span > 0.0
    ensures HasGap(s, span) <==> exists t: real :: RoomAt(s, t, span)
  {
    if HasGap(s, span) {
      var i :| 0 <= i < |s| - 1 && GapAt(s, i, span);
      GapLeavesRoom(s, i, span);
    }
    if t: real :| RoomAt(s, t, span) {
      RoomNeedsGap(s, t, span);
    }
  }

  // ------------------------------------------------------------ whose class a kernel boot has

  /** What the capture itself says before its directory is asked. */
  datatype Own = OwnLine(c8: BootClass) | LoaderWithoutLine | OpensInLoader | NothingOwn

  predicate HoldsBoot(dir: seq<Capture>, self: nat, i: nat) {
    i < |dir| && i != self && dir[i].event.Some?
  }

  predicate PlacedBoot(dir: seq<Capture>, self: nat, i: nat, limit: int) {
    HoldsBoot(dir, self, i) && dir[i].meta.wall.Some? && dir[i].meta.wall.value <= limit
  }

  /** `l` is the one latest placed boot before the second `me`, and no unplaced boot fits after it. */
  ghost predicate Inherits(dir: seq<Capture>, self: nat, me: int, l: nat) {
    && PlacedBoot(dir, self, l, me) && dir[l].meta.wall.value < me
    && (forall i :: 0 <= i < |dir| && i != l && PlacedBoot(dir, self, i, me) ==>
          dir[i].meta.wall.value < dir[l].meta.wall.value)
    && forall i :: 0 <= i < |dir| && HoldsBoot(dir, self, i) && dir[i].meta.wall.None? ==>
         !CouldFit(dir, dir[i], dir[l].meta.wall.value, me)
  }

  /** The latest placed boot no later than `limit`, and whether it is alone in its second. */
  method LatestBoot(dir: seq<Capture>, self: nat, limit: int) returns (last: Option<nat>, alone: bool)
    ensures last.None? <==> forall i :: 0 <= i < |dir| ==> !PlacedBoot(dir, self, i, limit)
    ensures last.Some? ==> last.value < |dir| && PlacedBoot(dir, self, last.value, limit)
    ensures last.Some? ==> forall i :: 0 <= i < |dir| && PlacedBoot(dir, self, i, limit) ==>
                             dir[i].meta.wall.value <= dir[last.value].meta.wall.value
    ensures last.Some? ==>
              (alone <==> forall i :: 0 <= i < |dir| && i != last.value && PlacedBoot(dir, self, i, limit) ==>
                            dir[i].meta.wall.value < dir[last.value].meta.wall.value)
  {
    last, alone := None, true;
    for k := 0 to |dir|
      invariant last.None? <==> forall i :: 0 <= i < k ==> !PlacedBoot(dir, self, i, limit)
      invariant last.Some? ==> last.value < k && PlacedBoot(dir, self, last.value, limit)
      invariant last.Some? ==> forall i :: 0 <= i < k && PlacedBoot(dir, self, i, limit) ==>
                                 dir[i].meta.wall.value <= dir[last.value].meta.wall.value
      invariant last.Some? ==>
                  (alone <==> forall i :: 0 <= i < k && i != last.value && PlacedBoot(dir, self, i, limit) ==>
                                dir[i].meta.wall.value < dir[last.value].meta.wall.value)
    {
      if PlacedBoot(dir, self, k, limit) {
        if last.None? || dir[last.value].meta.wall.value < dir[k].meta.wall.value {
          last, alone := Some(k), true;
        } else if dir[last.value].meta.wall.value == dir[k].meta.wall.value {
          alone := false;
        }
      }
    }
  }

  /** The class of the kernel boot in capture `self`, and the capture it was inherited from. */
  method KernelClass(own: Own, dir: seq<Capture>, self: nat, me: Option<int>)
    returns (c8: BootClass, from: Option<nat>)
    ensures own.OwnLine? ==> c8 == own.c8 && from == None
    ensures own.LoaderWithoutLine? || own.OpensInLoader? || (own.NothingOwn? && me.None?) ==>
              c8 == Unknown && from == None
    ensures own.NothingOwn? && me.Some? ==>
              (from.Some? <==> exists l: nat :: l < |dir| && Inherits(dir, self, me.value, l)
                                           && dir[l].event.value.LoaderBoot?
                                           && dir[l].event.value.c8 != Unknown)
    ensures from.Some? ==> own.NothingOwn? && me.Some? && from.value < |dir|
                           && Inherits(dir, self, me.value, from.value)
                           && dir[from.value].event == Some(LoaderBoot(c8))
    ensures own.NothingOwn? && from.None? ==> c8 == Unknown
  {
    match own {
      case OwnLine(c) => return c, None;
      case LoaderWithoutLine => return Unknown, None;
      case OpensInLoader => return Unknown, None;
      case NothingOwn =>
    }
    if me.None? {
      return Unknown, None;
    }
    var last, alone := LatestBoot(dir, self, me.value);
    if last.None? {
      return Unknown, None;
    }
    var l := last.value;
    var wmax := dir[l].meta.wall.value;
    forall k | 0 <= k < |dir| && Inherits(dir, self, me.value, k) ensures k == l {}
    if wmax == me.value || !alone {
      return Unknown, None;
    }
    for k := 0 to |dir|
      invariant forall i :: 0 <= i < k && HoldsBoot(dir, self, i) && dir[i].meta.wall.None? ==>
                  !CouldFit(dir, dir[i], wmax, me.value)
    {
      if HoldsBoot(dir, self, k) && dir[k].meta.wall.None? {
        var span := ComputeCouldFit(dir, dir[k], wmax, me.value);
        if span.Some? {
          return Unknown, None;
        }
      }
    }
    assert Inherits(dir, self, me.value, l);
    match dir[l].event.value {
      case LoaderBoot(c) =>
        if c == Unknown {
          return Unknown, None;
        }
        return c, Some(l);
      case KernelBoot => return Unknown, None;
      case LoaderText => return Unknown, None;
    }
  }

  /** When a class is inherited from `l`, `l` really is the last boot before `self`: every other
      capture that holds a boot ran before `l` or after `self`. */
  lemma InheritsFromLastBoot(dir: seq<Capture>, lives: seq<Life>, self: nat, me: int, l: nat, i: nat)
    requires History(dir, lives)
    requires self < |dir| && l < |dir| && i < |dir|
    requires dir[self].meta.wall == Some(me)
    requires Inherits(dir, self, me, l)
    requires HoldsBoot(dir, self, i) && i != l
    ensures Precedes(lives[l], lives[self])
    ensures Precedes(lives[i], lives[l]) || Precedes(lives[self], lives[i])
  {
    var w := dir[l].meta.wall.value;
    assert TrueRecord(dir[l], lives[l]) && TrueRecord(dir[self], lives[self]) && TrueRecord(dir[i], lives[i]);
    EarlierSecond(w, me);
    assert Precedes(lives[l], lives[self]) || Precedes(lives[self], lives[l]);
    assert Precedes(lives[i], lives[l]) || Precedes(lives[l], lives[i]);
    assert Precedes(lives[i], lives[self]) || Precedes(lives[self], lives[i]);
    if dir[i].meta.wall.Some? {
      var v := dir[i].meta.wall.value;
      if v <= me {
        EarlierSecond(v, w);
      } else {
        EarlierSecond(me, v);
      }
    } else if Precedes(lives[l], lives[i]) && Precedes(lives[i], lives[self]) {
      CouldFitSound(dir, lives, l, i, self, w, me);
    }
  }

  lemma EarlierSecond(v: int, w: int)
    ensures v < w ==> (v + 1) as real <= w as real
  {
  }
}
