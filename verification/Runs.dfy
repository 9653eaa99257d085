/** What every run of the card runner keeps, over every script of host answers: which items it reaches,
    the exit code or the traceback it ends with, what it starts, and what a stop leaves running. */
module Runs {
  import opened Common
  import opened Runner
  import Gates

  // ------------------------------------------------------------ items that pass and items that break

  /** The cells the items name, in order. */
  ghost function NamesOf(items: seq<Item>): seq<string> {
    if items == [] then []
    else
      var n, last := |items| - 1, CellName(items[|items| - 1]);
      NamesOf(items[..n]) + (if last.Some? then [last.value] else [])
  }

  /** The background cells the items start, in order. */
  ghost function BgNamesOf(card: Card, items: seq<Item>): seq<string> {
    if items == [] then []
    else
      var n, last := |items| - 1, items[|items| - 1];
      BgNamesOf(card, items[..n]) + (if last.Run? && StartsBg(card, last, last.name) then [last.name] else [])
  }

  /** Item `i` declares cell `n` a reading, and the cell exited non-zero. */
  ghost predicate ReadAsReading(items: seq<Item>, obs: nat -> Obs, i: nat, n: string) {
    i < |items| && items[i] == Reading(n) && obs(i).exec.Exited? && obs(i).exec.rc != 0
  }

  /** The cell's command is taken to bash: it has no record, its RUN line is written, its log is opened
      and the host would start it. */
  ghost predicate Tried(cell: Cell, unrecorded: bool, ob: Obs) {
    unrecorded && !ob.appeared && ob.writes(0) && (cell.kind.Cap? || ob.open.Opened?) && ob.spawn.Spawned?
  }

  /** It is started: it is taken to bash and holds no NUL. */
  ghost predicate Untouched(cell: Cell, unrecorded: bool, ob: Obs) {
    Tried(cell, unrecorded, ob) && !Unrunnable(cell)
  }

  /** What a passing cell means: it ran over no record, its command exited 0, was a declared reading, or
      gave its start signal, a CAP cell left no record that is no object, and every line was written. */
  ghost predicate CellWell(cell: Cell, reading: bool, unrecorded: bool, ob: Obs) {
    && Untouched(cell, unrecorded, ob)
    && if cell.kind.HostBg?
       then cell.program.Some? && WaitStart(cell.program.value, ob.polls).Continue? && ob.writes(1)
       else ob.exec.Exited? && !(cell.kind.Cap? && Gates.Unusable(ob.meta)) && ob.writes(1)
            && (ob.exec.rc == 0 || (reading && ob.writes(2)))
  }

  /** A command with a NUL that was taken to bash, or a CAP cell that ran and left a record that is no
      object. */
  ghost predicate CellBroken(cell: Cell, unrecorded: bool, ob: Obs) {
    && Tried(cell, unrecorded, ob)
    && (Unrunnable(cell) || (cell.kind.Cap? && ob.exec.Exited? && Gates.Unusable(ob.meta)))
  }

  /** A gate on a cell that was a declared reading is skipped. */
  ghost predicate Skipped(items: seq<Item>, obs: nat -> Obs, i: nat, name: string) {
    exists j :: 0 <= j < i && ReadAsReading(items, obs, j, name)
  }

  function Asked(gate: Gates.Kind, ob: Obs): Gates.Verdict { Gates.Ask(gate, ob.log, ob.meta, ob.found) }

  ghost predicate ItemWell(card: Card, items: seq<Item>, obs: nat -> Obs, disk: set<string>, i: nat)
    requires i < |items|
  {
    var ob := obs(i);
    match items[i]
    case Malformed => false
    case Run(name) => name in card && CellWell(card[name], false, name !in disk, ob)
    case Reading(name) => name in card && CellWell(card[name], true, name !in disk, ob)
    case Wait(name) => ob.writes(0) && ob.wait.Exited? && ob.writes(1)
    case Gate(name, gate) =>
      ob.writes(0) && (Skipped(items, obs, i, name) || (!ob.gateInterrupted && Asked(gate, ob).Holds?))
  }

  /** The items that end the run in an exception nobody catches: a cell whose command holds a NUL, a CAP
      cell that ran and left a record that is no object, and a gate that is asked and breaks. */
  ghost predicate ItemBroken(card: Card, items: seq<Item>, obs: nat -> Obs, disk: set<string>, i: nat)
    requires i < |items|
  {
    var ob := obs(i);
    match items[i]
    case Run(name) => name in card && CellBroken(card[name], name !in disk, ob)
    case Reading(name) => name in card && CellBroken(card[name], name !in disk, ob)
    case Gate(name, gate) => !Skipped(items, obs, i, name) && !ob.gateInterrupted && Asked(gate, ob).Breaks?
    case _ => false
  }

  /** The start signal is seen exactly at the first turn that shows it, no earlier turn having
      found the leader gone or the deadline past; the clock's own tool is asked once. */
  lemma {:induction false} StartSeenExactly(program: Program, polls: seq<Poll>)
    ensures WaitStart(program, polls).Continue? <==>
              exists i :: 0 <= i < |polls| && polls[i].exited.None? && polls[i].signalled
                          && (program.HostClock? ==> i == 0 && polls[i].timeLeft)
                          && forall j :: 0 <= j < i ==>
                               polls[j].exited.None? && !polls[j].signalled && !polls[j].late
  {
    if polls != [] {
      var rest := polls[1..];
      StartSeenExactly(program, rest);
      if i :| 0 <= i < |rest| && rest[i].exited.None? && rest[i].signalled
              && (program.HostClock? ==> i == 0 && rest[i].timeLeft)
              && forall j :: 0 <= j < i ==> rest[j].exited.None? && !rest[j].signalled && !rest[j].late
      {
        assert rest[i] == polls[i + 1];
        assert forall j :: 1 <= j < i + 1 ==> polls[j] == rest[j - 1];
      }
      if i :| 0 <= i < |polls| && polls[i].exited.None? && polls[i].signalled
              && (program.HostClock? ==> i == 0 && polls[i].timeLeft)
              && forall j :: 0 <= j < i ==> polls[j].exited.None? && !polls[j].signalled && !polls[j].late
      {
        if i > 0 {
          assert rest[i - 1] == polls[i];
          assert forall j :: 0 <= j < i - 1 ==> rest[j] == polls[j + 1];
        }
      }
    }
  }

  // ------------------------------------------------------------ one item

  /** After `k` items passed, the fields say exactly what those items did; the records are those of the
      start and those of cells that were started. */
  ghost predicate Reached(card: Card, items: seq<Item>, obs: nat -> Obs, disk: set<string>, k: nat,
                          kinds: map<string, Program>, st: State)
    requires k <= |items|
  {
    && st.started == NamesOf(items[..k])
    && st.bg == BgNamesOf(card, items[..k])
    && st.bgkind == kinds
    && Records(card, disk, st)
    && (forall n :: n in st.disk && n !in disk ==> n in st.started)
    && (forall n :: n in st.readings <==> exists i :: 0 <= i < k && ReadAsReading(items, obs, i, n))
  }

  /** No record is lost, and a host cell that was started has one. */
  ghost predicate Records(card: Card, disk: set<string>, st: State) {
    disk <= st.disk && forall n :: n in st.started && n in card && !card[n].kind.Cap? ==> n in st.disk
  }

  lemma {:induction false} BgNamesMembers(card: Card, items: seq<Item>, name: string)
    ensures name in BgNamesOf(card, items) <==> exists i :: 0 <= i < |items| && StartsBg(card, items[i], name)
  {
    if items != [] {
      var n := |items| - 1;
      BgNamesMembers(card, items[..n], name);
      assert forall i :: 0 <= i < n ==> items[..n][i] == items[i];
    }
  }

  ghost function Started(item: Item): seq<string> {
    if CellName(item).Some? then [CellName(item).value] else []
  }

  ghost function StartedBg(card: Card, item: Item): seq<string> {
    if item.Run? && StartsBg(card, item, item.name) then [item.name] else []
  }

  lemma NamesOfNext(card: Card, items: seq<Item>, k: nat)
    requires k < |items|
    ensures NamesOf(items[..k + 1]) == NamesOf(items[..k]) + Started(items[k])
    ensures BgNamesOf(card, items[..k + 1]) == BgNamesOf(card, items[..k]) + StartedBg(card, items[k])
  {
    assert items[..k + 1][..k] == items[..k];
  }

  /** The plan's guarantees for one cell. */
  ghost predicate CellReady(card: Card, kinds: map<string, Program>, name: string, reading: bool) {
    && name in card && card[name].command.Some?
    && (card[name].kind.HostBg? ==> !reading && name in kinds && card[name].program == Some(kinds[name]))
  }

  lemma CellOutcome(card: Card, st: State, name: string, reading: bool, ob: Obs)
    requires CellReady(card, st.bgkind, name, reading)
    ensures var (next, o) := RunCell(card, false, st, name, reading, ob);
            && (o.Continue? <==> CellWell(card[name], reading, name !in st.disk, ob))
            && (o.Crash? <==> CellBroken(card[name], name !in st.disk, ob))
  {
    hide WaitStart, Gates.Unusable;
  }

  lemma CellStarts(card: Card, st: State, name: string, reading: bool, ob: Obs)
    requires CellReady(card, st.bgkind, name, reading)
    ensures var (next, o) := RunCell(card, false, st, name, reading, ob);
            && next.bgkind == st.bgkind && next.sent == st.sent
            && (if !Untouched(card[name], name !in st.disk, ob) then next.started == st.started && next.bg == st.bg
                else next.started == st.started + [name]
                     && next.bg == if card[name].kind.HostBg? then st.bg + [name] else st.bg)
            && st.disk <= next.disk <= st.disk + {name}
            && (Untouched(card[name], name !in st.disk, ob) && !card[name].kind.Cap? ==> name in next.disk)
  {
    hide WaitStart, Gates.Unusable;
  }

  lemma CellNotes(card: Card, st: State, name: string, reading: bool, ob: Obs)
    requires CellReady(card, st.bgkind, name, reading)
    ensures var (next, o) := RunCell(card, false, st, name, reading, ob);
            o.Continue? ==>
              next.readings == if reading && ob.exec.Exited? && ob.exec.rc != 0
                               then st.readings[name := ob.exec.rc] else st.readings
  {
    hide WaitStart, Gates.Unusable;
  }

  /** One planned cell: it crashes exactly when its command holds a NUL or it left a record that is no
      object, continues exactly when it is well, and starts its own command or nothing; it sends no
      signal. */
  lemma CellStep(card: Card, st: State, name: string, reading: bool, ob: Obs)
    requires CellReady(card, st.bgkind, name, reading)
    ensures var (next, o) := RunCell(card, false, st, name, reading, ob);
            var started := Untouched(card[name], name !in st.disk, ob);
            && next.bgkind == st.bgkind && next.sent == st.sent
            && (o.Continue? <==> CellWell(card[name], reading, name !in st.disk, ob))
            && (o.Crash? <==> CellBroken(card[name], name !in st.disk, ob))
            && next.started == (if started then st.started + [name] else st.started)
            && next.bg == (if started && card[name].kind.HostBg? then st.bg + [name] else st.bg)
            && st.disk <= next.disk <= st.disk + {name}
            && (started && !card[name].kind.Cap? ==> name in next.disk)
            && (o.Continue? ==>
                  next.readings == if reading && ob.exec.Exited? && ob.exec.rc != 0
                                   then st.readings[name := ob.exec.rc] else st.readings)
  {
    hide RunCell, CellWell, CellBroken, Untouched;
    CellOutcome(card, st, name, reading, ob);
    CellStarts(card, st, name, reading, ob);
    CellNotes(card, st, name, reading, ob);
  }

  /** A state that has started the cells of the first `k` items, or of these and the next. */
  ghost predicate StoppedAt(card: Card, items: seq<Item>, obs: nat -> Obs, disk: set<string>, k: nat, st: State)
    requires k < |items|
  {
    && st.started == NamesOf(items[..Top(card, items, obs, disk, k)])
    && st.bg == BgNamesOf(card, items[..Top(card, items, obs, disk, k)])
    && Records(card, disk, st)
  }

  /** How many items have started their cells when the run ends at item `k`. */
  ghost function Top(card: Card, items: seq<Item>, obs: nat -> Obs, disk: set<string>, k: nat): (t: nat)
    requires k < |items|
    ensures k <= t <= k + 1
  {
    var name := CellName(items[k]);
    if name.Some? && name.value in card && Untouched(card[name.value], name.value !in disk, obs(k)) then k + 1 else k
  }

  /** One item from a reached state: it crashes exactly when it is broken, it continues exactly when it
      is well, and then the next state is reached; otherwise at most its own cell was started.  It sends
      no signal. */
  ghost predicate Stepped(card: Card, items: seq<Item>, obs: nat -> Obs, disk: set<string>, k: nat,
                          kinds: map<string, Program>, next: State, o: Outcome)
    requires k < |items|
  {
    && (o.Crash? <==> ItemBroken(card, items, obs, disk, k))
    && (o.Continue? <==> ItemWell(card, items, obs, disk, k))
    && (o.Continue? ==> Reached(card, items, obs, disk, k + 1, kinds, next))
    && StoppedAt(card, items, obs, disk, k, next)
  }

  lemma {:induction false} NamesFrom(items: seq<Item>, name: string) returns (i: nat)
    requires name in NamesOf(items)
    ensures i < |items| && CellName(items[i]) == Some(name)
  {
    var n := |items| - 1;
    if name in NamesOf(items[..n]) {
      i := NamesFrom(items[..n], name);
    } else {
      i := n;
    }
  }

  ghost predicate NoRepeats(names: seq<string>) {
    forall a, b :: 0 <= a < b < |names| ==> names[a] != names[b]
  }

  lemma {:induction false} NamesDistinct(items: seq<Item>)
    requires forall i, j :: 0 <= i < j < |items| && CellName(items[i]).Some? ==>
               CellName(items[i]) != CellName(items[j])
    ensures NoRepeats(NamesOf(items))
  {
    if items != [] {
      var n := |items| - 1;
      NamesDistinct(items[..n]);
      var before := NamesOf(items[..n]);
      forall a | 0 <= a < |before| ensures CellName(items[n]) != Some(before[a]) {
        var i := NamesFrom(items[..n], before[a]);
      }
    }
  }

  /** A cell named by item `k` is named by no item before it. */
  lemma NotBefore(items: seq<Item>, k: nat)
    requires ItemsOk(items) && k < |items| && CellName(items[k]).Some?
    ensures CellName(items[k]).value !in NamesOf(items[..k])
  {
    if CellName(items[k]).value in NamesOf(items[..k]) {
      var i := NamesFrom(items[..k], CellName(items[k]).value);
    }
  }

  lemma RecordsKept(card: Card, disk: set<string>, st: State, next: State, name: string, started: bool)
    requires Records(card, disk, st) && name in card
    requires st.disk <= next.disk <= st.disk + {name}
    requires next.started == if started then st.started + [name] else st.started
    requires started && !card[name].kind.Cap? ==> name in next.disk
    ensures Records(card, disk, next)
    ensures (forall n :: n in st.disk && n !in disk ==> n in st.started) && started ==>
              forall n :: n in next.disk && n !in disk ==> n in next.started
  {
    assert forall n :: n in next.started <==> n in st.started || (started && n == name);
  }

  /** What an item that names a cell asks of it. */
  lemma CellItem(card: Card, items: seq<Item>, obs: nat -> Obs, disk: set<string>, k: nat)
    requires k < |items| && CellName(items[k]).Some? && CellName(items[k]).value in card
    ensures var name, reading := CellName(items[k]).value, items[k].Reading?;
            && (ItemWell(card, items, obs, disk, k) <==> CellWell(card[name], reading, name !in disk, obs(k)))
            && (ItemBroken(card, items, obs, disk, k) <==> CellBroken(card[name], name !in disk, obs(k)))
            && Top(card, items, obs, disk, k) == (if Untouched(card[name], name !in disk, obs(k)) then k + 1 else k)
            && (CellWell(card[name], reading, name !in disk, obs(k)) ==> Untouched(card[name], name !in disk, obs(k)))
  {
    hide Untouched, CellBroken;
  }

  lemma ReadingsNext(items: seq<Item>, obs: nat -> Obs, k: nat, before: map<string, int>, after: map<string, int>)
    requires k < |items| && CellName(items[k]).Some?
    requires forall n :: n in before <==> exists i :: 0 <= i < k && ReadAsReading(items, obs, i, n)
    requires after == if items[k].Reading? && obs(k).exec.Exited? && obs(k).exec.rc != 0
                      then before[items[k].name := obs(k).exec.rc] else before
    ensures forall n :: n in after <==> exists i :: 0 <= i < k + 1 && ReadAsReading(items, obs, i, n)
  {
    forall n ensures n in after <==> n in before || ReadAsReading(items, obs, k, n) {}
  }

  lemma CellReaches(card: Card, items: seq<Item>, obs: nat -> Obs, disk: set<string>, k: nat,
                    kinds: map<string, Program>, st: State)
    requires k < |items| && CellName(items[k]).Some? && ItemsOk(items)
    requires CellReady(card, kinds, CellName(items[k]).value, items[k].Reading?)
    requires Reached(card, items, obs, disk, k, kinds, st)
    ensures var (next, o) := Step(card, false, st, items[k], obs(k));
            Stepped(card, items, obs, disk, k, kinds, next, o) && next.sent == st.sent
  {
    hide RunCell, CellWell, CellBroken, Untouched, Records, ItemWell, ItemBroken, Top;
    hide ReadAsReading, NamesOf, BgNamesOf;
    var name, reading := items[k].name, items[k].Reading?;
    NotBefore(items, k);
    RecordKnown(card, disk, st, name);
    CellStep(card, st, name, reading, obs(k));
    NamesOfNext(card, items, k);
    CellItem(card, items, obs, disk, k);
    var (next, o) := RunCell(card, false, st, name, reading, obs(k));
    RecordsKept(card, disk, st, next, name, Untouched(card[name], name !in disk, obs(k)));
    if o.Continue? {
      WellExits(card[name], reading, name !in disk, obs(k));
      ReadingsNext(items, obs, k, st.readings, next.readings);
    }
  }

  lemma WellExits(cell: Cell, reading: bool, unrecorded: bool, ob: Obs)
    requires CellWell(cell, reading, unrecorded, ob)
    ensures cell.kind.HostBg? || ob.exec.Exited?
  {}

  lemma RecordKnown(card: Card, disk: set<string>, st: State, name: string)
    requires Records(card, disk, st) && name !in st.started
    requires forall n :: n in st.disk && n !in disk ==> n in st.started
    ensures name in st.disk <==> name in disk
  {}

  lemma WellStarts(cell: Cell, reading: bool, unrecorded: bool, ob: Obs)
    requires CellWell(cell, reading, unrecorded, ob)
    ensures Untouched(cell, unrecorded, ob)
  {}

  /** An item that starts nothing leaves the fields as they were. */
  lemma OtherStep(card: Card, st: State, item: Item, ob: Obs)
    requires item.Gate? || item.Wait?
    requires item.Gate? ==> item.name in card
    requires item.Wait? ==> item.name in st.bg
    ensures var (next, o) := Step(card, false, st, item, ob);
            && next == st.(lines := next.lines)
            && (o.Continue? <==>
                  ob.writes(0) && if item.Wait? then ob.wait.Exited? && ob.writes(1)
                                  else item.name in st.readings || (!ob.gateInterrupted && Asked(item.gate, ob).Holds?))
            && (o.Crash? <==> && item.Gate? && item.name !in st.readings
                              && !ob.gateInterrupted && Asked(item.gate, ob).Breaks?)
  {
    hide Gates.Ask;
  }

  lemma OtherReaches(card: Card, items: seq<Item>, obs: nat -> Obs, disk: set<string>, k: nat,
                     kinds: map<string, Program>, st: State)
    requires k < |items| && (items[k].Gate? || items[k].Wait?)
    requires items[k].Gate? ==> items[k].name in card
    requires items[k].Wait? ==> items[k].name in st.bg
    requires Reached(card, items, obs, disk, k, kinds, st)
    ensures var (next, o) := Step(card, false, st, items[k], obs(k));
            Stepped(card, items, obs, disk, k, kinds, next, o) && next.sent == st.sent
  {
    hide Step, Gates.Ask;
    OtherStep(card, st, items[k], obs(k));
    NamesOfNext(card, items, k);
    assert NamesOf(items[..k]) + [] == NamesOf(items[..k]);
    assert BgNamesOf(card, items[..k]) + [] == BgNamesOf(card, items[..k]);
    assert forall n :: !ReadAsReading(items, obs, k, n);
  }

  lemma StepReaches(card: Card, items: seq<Item>, obs: nat -> Obs, disk: set<string>, k: nat,
                    kinds: map<string, Program>, st: State)
    requires k < |items| && ItemsOk(items)
    requires ItemPlanned(card, items, k) && KindsKnown(card, items, kinds)
    requires Reached(card, items, obs, disk, k, kinds, st)
    ensures var (next, o) := Step(card, false, st, items[k], obs(k));
            Stepped(card, items, obs, disk, k, kinds, next, o) && next.sent == st.sent
  {
    hide Step, Stepped;
    if CellName(items[k]).Some? {
      if items[k].Run? && card[items[k].name].kind.HostBg? {
        assert StartsBg(card, items[k], items[k].name);
      }
      CellReaches(card, items, obs, disk, k, kinds, st);
    } else {
      if items[k].Wait? {
        var name := items[k].name;
        var j :| 0 <= j < k && StartsBg(card, items[j], name);
        assert items[..k][j] == items[j];
        BgNamesMembers(card, items[..k], name);
      }
      OtherReaches(card, items, obs, disk, k, kinds, st);
    }
  }

  /** The items of an accepted list, run from item `k` on under any script: either all are well and
      the last state is reached, or the run ends at the first that is not, with an uncaught exception
      exactly when that one is broken.  No signal is sent on the way. */
  lemma {:induction false} RunReaches(card: Card, items: seq<Item>, obs: nat -> Obs, disk: set<string>, k: nat,
                                      kinds: map<string, Program>, st: State) returns (m: nat)
    requires k <= |items| && ItemsOk(items)
    requires Planned(card, items) && KindsKnown(card, items, kinds)
    requires Reached(card, items, obs, disk, k, kinds, st)
    ensures k <= m <= |items|
    ensures forall i :: k <= i < m ==> ItemWell(card, items, obs, disk, i)
    ensures var (next, o) := RunFrom(card, false, items, obs, k, st);
            && next.sent == st.sent
            && (o.Continue? <==> m == |items|)
            && (o.Crash? <==> m < |items| && ItemBroken(card, items, obs, disk, m))
            && (o.Continue? ==> Reached(card, items, obs, disk, |items|, kinds, next))
            && (m < |items| ==> !ItemWell(card, items, obs, disk, m) && StoppedAt(card, items, obs, disk, m, next))
    decreases |items| - k
  {
    hide Step, ItemWell, ItemBroken, Reached, StoppedAt;
    if k == |items| {
      m := k;
    } else {
      StepReaches(card, items, obs, disk, k, kinds, st);
      var (next, o) := Step(card, false, st, items[k], obs(k));
      if o.Continue? {
        m := RunReaches(card, items, obs, disk, k + 1, kinds, next);
      } else {
        m := k;
      }
    }
  }

  // ------------------------------------------------------------ how a run ends

  /** Items and plan accepted, the programs on record, and a runner that has done nothing. */
  ghost predicate Accepted(card: Card, items: seq<Item>, st: State) {
    && ItemsOk(items) && Planned(card, items) && KindsKnown(card, items, st.bgkind)
    && st.bg == [] && st.readings == map[] && st.started == [] && st.sent == []
  }

  ghost predicate AllWell(card: Card, items: seq<Item>, obs: nat -> Obs, disk: set<string>) {
    forall i :: 0 <= i < |items| ==> ItemWell(card, items, obs, disk, i)
  }

  ghost predicate FirstUnwell(card: Card, items: seq<Item>, obs: nat -> Obs, disk: set<string>, m: nat) {
    m < |items| && !ItemWell(card, items, obs, disk, m)
    && forall i :: 0 <= i < m ==> ItemWell(card, items, obs, disk, i)
  }

  ghost predicate Written(lines: seq<Line>, writes: nat -> bool) { forall i :: 0 <= i < |lines| ==> writes(i) }

  /** The background cells in the table when the run ends at item `m`. */
  ghost function BgUpTo(card: Card, items: seq<Item>, obs: nat -> Obs, disk: set<string>, m: nat): seq<string>
    requires m < |items|
  {
    BgNamesOf(card, items[..Top(card, items, obs, disk, m)])
  }

  /** Every line of a stop can be written: its reason and the teardown of the groups `names`. */
  ghost predicate StopWritten(names: seq<string>, script: Script) {
    Written(StopLines(names, script.groups), script.stopWrites)
  }

  lemma ToldExactly(st: State, lines: seq<Line>, writes: nat -> bool)
    ensures var (t, ok) := Told(st, lines, writes);
            && (ok <==> Written(lines, writes))
            && t.started == st.started && t.bg == st.bg && t.disk == st.disk
            && (ok ==> t == st.(lines := st.lines + lines, sent := st.sent + Signals(lines)))
            && (lines != [] && !writes(0) ==> !ok && t.sent == st.sent)
  {
    assert lines[..|lines|] == lines && lines[..0] == [];
  }

  /** Where a run of an accepted list stands when its items are over. */
  lemma RunEnds(card: Card, items: seq<Item>, script: Script, st: State) returns (m: nat)
    requires Accepted(card, items, st)
    ensures m <= |items|
    ensures var (ran, o) := RunFrom(card, false, items, script.obs, 0, st);
            && ran.sent == [] && Records(card, st.disk, ran)
            && (o.Continue? <==> m == |items|)
            && (m == |items| ==> AllWell(card, items, script.obs, st.disk)
                                 && ran.started == NamesOf(items) && ran.bg == BgNamesOf(card, items))
            && (m < |items| ==>
                  var top := Top(card, items, script.obs, st.disk, m);
                  && FirstUnwell(card, items, script.obs, st.disk, m)
                  && (o.Crash? <==> ItemBroken(card, items, script.obs, st.disk, m))
                  && ran.started == NamesOf(items[..top]) && ran.bg == BgNamesOf(card, items[..top]))
  {
    hide ItemWell, ItemBroken, Top;
    m := RunReaches(card, items, script.obs, st.disk, 0, st.bgkind, st);
    assert items[..|items|] == items;
  }

  lemma OneFirstUnwell(card: Card, items: seq<Item>, obs: nat -> Obs, disk: set<string>, m: nat, n: nat)
    requires FirstUnwell(card, items, obs, disk, m)
    requires FirstUnwell(card, items, obs, disk, n)
    ensures m == n
  {}

  /** What the last waits and the last line ask of the transcript: when none is interrupted, that all
      of them can be written; otherwise also the stop that follows. */
  ghost predicate LastWritten(card: Card, items: seq<Item>, script: Script) {
    var names := BgNamesOf(card, items);
    var (lines, ok) := Finish(names, script.end);
    Written(lines, script.endWrites) && if ok then script.endWrites(|lines|) else StopWritten(names, script)
  }

  /** The exits of an accepted list under every host script.  It ends with 0 exactly when every item is
      well, no last wait is interrupted and the last lines are written.  It dies in a traceback exactly
      when the first item that is not well is broken or its stop cannot be written, or when all are well
      and the last lines, or the stop after an interrupted wait, cannot be written.  Otherwise it ends
      with 3. */
  lemma ReturnsExactly(card: Card, items: seq<Item>, script: Script, st: State)
    requires Accepted(card, items, st)
    ensures var final := Execute(card, false, items, script, st).1;
            && final in {Code(0), Code(3), Traceback}
            && (final == Code(0) <==>
                  && AllWell(card, items, script.obs, st.disk)
                  && Finish(BgNamesOf(card, items), script.end).1 && LastWritten(card, items, script))
            && (final == Traceback <==>
                  || (exists m :: && FirstUnwell(card, items, script.obs, st.disk, m)
                                  && (|| ItemBroken(card, items, script.obs, st.disk, m)
                                      || !StopWritten(BgUpTo(card, items, script.obs, st.disk, m), script)))
                  || (AllWell(card, items, script.obs, st.disk) && !LastWritten(card, items, script)))
  {
    hide ItemWell, ItemBroken, Told, Written, BgNamesOf, Top, RunFrom;
    var m := RunEnds(card, items, script, st);
    var (ran, o) := RunFrom(card, false, items, script.obs, 0, st);
    if m < |items| {
      ToldExactly(ran, StopLines(ran.bg, script.groups), script.stopWrites);
      assert !AllWell(card, items, script.obs, st.disk);
      forall n | FirstUnwell(card, items, script.obs, st.disk, n) ensures n == m {
        OneFirstUnwell(card, items, script.obs, st.disk, m, n);
      }
    } else {
      assert forall n :: !FirstUnwell(card, items, script.obs, st.disk, n);
      LastExactly(card, items, script, ran);
    }
  }

  lemma LastExactly(card: Card, items: seq<Item>, script: Script, ran: State)
    requires ran.bg == BgNamesOf(card, items)
    ensures var final := EndRun(ran, script).1;
            && final in {Code(0), Code(3), Traceback}
            && (final == Traceback <==> !LastWritten(card, items, script))
            && (final == Code(0) <==> Finish(ran.bg, script.end).1 && LastWritten(card, items, script))
  {
    hide Told, Written, BgNamesOf;
    var lines := Finish(ran.bg, script.end).0;
    ToldExactly(ran, lines, script.endWrites);
    var waited := Told(ran, lines, script.endWrites).0;
    ToldExactly(waited, StopLines(waited.bg, script.groups), script.stopWrites);
  }

  // ------------------------------------------------------------ what a run starts

  /** What the end of a run leaves of the items' work. */
  lemma Executed(card: Card, items: seq<Item>, script: Script, st: State)
    ensures var (ran, o) := RunFrom(card, false, items, script.obs, 0, st);
            var end := Execute(card, false, items, script, st).0;
            end.started == ran.started && end.bg == ran.bg && end.disk == ran.disk
  {
    hide Told, RunFrom, Finish, StopLines;
    var (ran, o) := RunFrom(card, false, items, script.obs, 0, st);
    ToldExactly(ran, StopLines(ran.bg, script.groups), script.stopWrites);
    var lines := Finish(ran.bg, script.end).0;
    ToldExactly(ran, lines, script.endWrites);
    var waited := Told(ran, lines, script.endWrites).0;
    ToldExactly(waited, StopLines(waited.bg, script.groups), script.stopWrites);
  }

  lemma StartedUnrecorded(card: Card, items: seq<Item>, obs: nat -> Obs, disk: set<string>, m: nat, n: string)
    requires FirstUnwell(card, items, obs, disk, m) || (m == |items| && AllWell(card, items, obs, disk))
    requires n in NamesOf(items[..if m < |items| then Top(card, items, obs, disk, m) else m])
    ensures n !in disk
  {
    var i := NamesFrom(items[..if m < |items| then Top(card, items, obs, disk, m) else m], n);
    if i < m {
      assert ItemWell(card, items, obs, disk, i);
      WellStarts(card[n], items[i].Reading?, n !in disk, obs(i));
    }
  }

  /** Each cell's command is started at most once, in item order, and only when the cell has no record;
      no record is lost, and every host cell that was started has one afterwards. */
  lemma StartsEachOnce(card: Card, items: seq<Item>, script: Script, st: State)
    requires Accepted(card, items, st)
    ensures var end := Execute(card, false, items, script, st).0;
            && NoRepeats(end.started)
            && (exists m :: 0 <= m <= |items| && end.started == NamesOf(items[..m]))
            && (forall n :: n in end.started ==> n !in st.disk)
            && Records(card, st.disk, end)
  {
    hide Top, ItemWell, ItemBroken, RunFrom, Execute;
    var m := RunEnds(card, items, script, st);
    Executed(card, items, script, st);
    var top := if m < |items| then Top(card, items, script.obs, st.disk, m) else m;
    assert items[..|items|] == items;
    NamesDistinct(items[..top]);
    forall n | n in NamesOf(items[..top]) ensures n !in st.disk {
      StartedUnrecorded(card, items, script.obs, st.disk, m, n);
    }
  }

  /** A cell is never run again: whatever items a later invocation over the same card names, and
      whatever the host does, no host cell the first one started is started by it, nor any CAP cell
      whose command left a record. */
  lemma NeverRunAgain(card: Card, items: seq<Item>, script: Script, st: State,
                      later: seq<Item>, laterScript: Script, laterSt: State, n: string)
    requires Accepted(card, items, st) && Accepted(card, later, laterSt)
    requires Execute(card, false, items, script, st).0.disk <= laterSt.disk
    requires n in Execute(card, false, items, script, st).0.started && n in card
    requires !card[n].kind.Cap? || n in Execute(card, false, items, script, st).0.disk
    ensures n !in Execute(card, false, later, laterScript, laterSt).0.started
  {
    hide Execute, Accepted;
    StartsEachOnce(card, items, script, st);
    StartsEachOnce(card, later, laterScript, laterSt);
  }

  // ------------------------------------------------------------ teardown

  lemma {:induction false} SigIntsExactly(names: seq<string>, groups: string -> Group, line: Line)
    ensures line in SigInts(names, groups) <==>
              line.SigInt? && line.name in names && groups(line.name).alive
  {
    if names != [] {
      SigIntsExactly(names[1..], groups, line);
      assert names == [names[0]] + names[1..];
    }
  }

  lemma {:induction false} SigKillsExactly(names: seq<string>, groups: string -> Group, line: Line)
    ensures line in SigKills(names, groups) <==>
              && (line.SigKill? || line.KillRefused? || line.GroupEnded?)
              && line.name in names && line in EndLines(line.name, groups(line.name))
  {
    if names != [] {
      SigKillsExactly(names[1..], groups, line);
      assert names == [names[0]] + names[1..];
    }
  }

  lemma {:induction false} SignalsExactly(lines: seq<Line>, n: string)
    ensures Interrupted(n) in Signals(lines) <==> SigInt(n) in lines
    ensures Killed(n) in Signals(lines) <==> SigKill(n) in lines
  {
    if lines != [] {
      var k := |lines| - 1;
      SignalsExactly(lines[..k], n);
      assert lines == lines[..k] + [lines[k]];
    }
  }

  /** Whether a group is gone after some signals: it was dead, it died within the grace of an interrupt,
      or it was killed and took the signal. */
  ghost predicate Gone(sent: seq<Signal>, n: string, g: Group) {
    !g.alive || (Interrupted(n) in sent && (!g.outlives || (Killed(n) in sent && !g.refuses)))
  }

  /** A group no signal of this user's ends. */
  ghost predicate Stays(g: Group) { g.alive && g.outlives && g.refuses }

  ghost predicate InterruptsFirst(sent: seq<Signal>) {
    forall i, j :: 0 <= i < |sent| && 0 <= j < |sent| && sent[i].Killed? && sent[j].Interrupted? ==> j < i
  }

  lemma {:induction false} SignalsConcat(a: seq<Line>, b: seq<Line>)
    ensures Signals(a + b) == Signals(a) + Signals(b)
  {
    hide Signals;
    if b == [] {
      assert a + b == a;
      NoSignals();
    } else {
      var k := |b| - 1;
      assert (a + b)[..|a| + k] == a + b[..k] && (a + b)[|a| + k] == b[k];
      SignalsConcat(a, b[..k]);
      SignalsLast(b);
      SignalsLast(a + b);
    }
  }

  lemma NoSignals()
    ensures Signals([]) == []
  {}

  lemma SignalsLast(lines: seq<Line>)
    requires lines != []
    ensures Signals(lines) == Signals(lines[..|lines| - 1]) + SignalOf(lines[|lines| - 1])
  {}

  lemma {:induction false} OneSort(lines: seq<Line>, kill: bool)
    requires forall line :: line in lines ==> if kill then !line.SigInt? else !line.SigKill?
    ensures forall x :: x in Signals(lines) ==> if kill then x.Killed? else x.Interrupted?
  {
    if lines != [] {
      var k := |lines| - 1;
      assert lines == lines[..k] + [lines[k]];
      OneSort(lines[..k], kill);
    }
  }

  /** One whole teardown: SIGINT goes to exactly the groups alive, SIGKILL to exactly those that outlive
      the grace, no SIGKILL before the last SIGINT, and a group is left only if it refuses. */
  lemma TeardownReaches(names: seq<string>, groups: string -> Group, n: string)
    requires n in names
    ensures var sent := Signals(StopLines(names, groups));
            && (Interrupted(n) in sent <==> groups(n).alive)
            && (Killed(n) in sent <==> groups(n).alive && groups(n).outlives)
            && (Gone(sent, n, groups(n)) <==> !Stays(groups(n)))
            && InterruptsFirst(sent)
  {
    hide SigInts, SigKills, Signals;
    var ints, kills := SigInts(names, groups), SigKills(names, groups);
    forall line ensures line in ints ==> line.SigInt? {
      SigIntsExactly(names, groups, line);
    }
    forall line ensures line in kills ==> !line.SigInt? {
      SigKillsExactly(names, groups, line);
    }
    SigIntsExactly(names, groups, SigInt(n));
    SigKillsExactly(names, groups, SigKill(n));
    SignalsExactly([Stopping] + ints + kills, n);
    SignalsConcat([Stopping] + ints, kills);
    OneSort([Stopping] + ints, false);
    OneSort(kills, true);
    var a, b := Signals([Stopping] + ints), Signals(kills);
    assert forall i :: 0 <= i < |a| ==> a[i] in a;
    assert forall i :: |a| <= i < |a + b| ==> (a + b)[i] in b;
  }

  /** The background cells whose command was started. */
  ghost predicate BgStartedBy(card: Card, started: seq<string>, n: string) {
    n in started && n in card && card[n].kind.HostBg?
  }

  lemma {:induction false} StartedAreBg(card: Card, items: seq<Item>, n: string)
    requires Planned(card, items)
    requires BgStartedBy(card, NamesOf(items), n)
    ensures n in BgNamesOf(card, items)
  {
    var i := NamesFrom(items, n);
    assert ItemPlanned(card, items, i);
    BgNamesMembers(card, items, n);
    assert StartsBg(card, items[i], n);
  }

  lemma PlannedPrefix(card: Card, items: seq<Item>, k: nat)
    requires Planned(card, items) && k <= |items|
    ensures Planned(card, items[..k])
  {
    forall i | 0 <= i < k ensures ItemPlanned(card, items[..k], i) {
      assert ItemPlanned(card, items, i);
      if items[i].Wait? {
        var j :| 0 <= j < i && StartsBg(card, items[j], items[i].name);
        assert items[..k][j] == items[j];
      }
    }
  }

  lemma {:induction false} FinishSendsNothing(names: seq<string>, end: string -> End)
    ensures Signals(Finish(names, end).0) == []
  {
    if names != [] {
      FinishSendsNothing(names[1..], end);
      var name := names[0];
      assert Signals([WaitingEnd(name)]) == [] by { assert [WaitingEnd(name)][..0] == []; }
      if end(name).ExitsWith? {
        var two := [WaitingEnd(name), WaitDone(name, end(name).rc)];
        assert two[..1] == [WaitingEnd(name)];
        SignalsConcat(two, Finish(names[1..], end).0);
      }
    }
  }

  /** A run that says no line of a stop: it dies at a broken item, or it comes to its last waits and none
      is interrupted, or a line of theirs cannot be written. */
  ghost predicate NoStop(card: Card, items: seq<Item>, script: Script, disk: set<string>) {
    || (exists m :: FirstUnwell(card, items, script.obs, disk, m) && ItemBroken(card, items, script.obs, disk, m))
    || (AllWell(card, items, script.obs, disk) && EndsUnstopped(BgNamesOf(card, items), script))
  }

  ghost predicate EndsUnstopped(names: seq<string>, script: Script) {
    var (lines, ok) := Finish(names, script.end);
    ok || !Written(lines, script.endWrites)
  }

  /** How many lines of a stop over `names` are written. */
  ghost function Torn(card: Card, items: seq<Item>, script: Script, disk: set<string>, names: seq<string>): (f: nat)
    ensures f <= |StopLines(names, script.groups)|
  {
    if NoStop(card, items, script, disk) then 0
    else FirstUnwritten(script.stopWrites, |StopLines(names, script.groups)|)
  }

  /** The part of the teardown that was carried out. */
  ghost function Done(card: Card, items: seq<Item>, script: Script, disk: set<string>, names: seq<string>): seq<Line> {
    StopLines(names, script.groups)[..Torn(card, items, script, disk, names)]
  }

  lemma SentByStop(ran: State, script: Script)
    requires ran.sent == []
    ensures var (end, final) := StopRun(ran, script);
            var lines := StopLines(ran.bg, script.groups);
            var f := FirstUnwritten(script.stopWrites, |lines|);
            && end.sent == Signals(lines[..f]) && end.bg == ran.bg
            && final == if f == |lines| then Code(3) else Traceback
  {
    hide Signals, StopLines, FirstUnwritten;
  }

  lemma SentByEnd(ran: State, script: Script)
    requires ran.sent == []
    ensures var (end, final) := EndRun(ran, script);
            var lines := StopLines(ran.bg, script.groups);
            var f := FirstUnwritten(script.stopWrites, |lines|);
            && end.bg == ran.bg
            && if EndsUnstopped(ran.bg, script) then end.sent == [] && final != Code(3)
               else end.sent == Signals(lines[..f]) && final == if f == |lines| then Code(3) else Traceback
  {
    hide Signals, StopLines, FirstUnwritten, Finish, StopRun;
    var lines := Finish(ran.bg, script.end).0;
    ToldExactly(ran, lines, script.endWrites);
    var f := FirstUnwritten(script.endWrites, |lines|);
    assert Signals(lines[..f]) == [] by {
      FinishSendsNothing(ran.bg, script.end);
      assert lines == lines[..f] + lines[f..];
      SignalsConcat(lines[..f], lines[f..]);
    }
    SentByStop(Told(ran, lines, script.endWrites).0, script);
  }

  /** Whatever happens, a run has sent the signals of exactly that part of one teardown that it could
      say; it ends with 3 exactly when that is the whole of it. */
  lemma SentExactly(card: Card, items: seq<Item>, script: Script, st: State)
    requires Accepted(card, items, st)
    ensures var (end, final) := Execute(card, false, items, script, st);
            && end.sent == Signals(Done(card, items, script, st.disk, end.bg))
            && (final == Code(3) <==> Done(card, items, script, st.disk, end.bg) == StopLines(end.bg, script.groups))
  {
    hide ItemWell, ItemBroken, Top, RunFrom, StopLines, Signals, StopRun, EndRun, FirstUnwritten;
    var m := RunEnds(card, items, script, st);
    var (ran, o) := RunFrom(card, false, items, script.obs, 0, st);
    var lines := StopLines(ran.bg, script.groups);
    assert lines[..|lines|] == lines && lines[..0] == [] && lines != [] by { StopBegins(ran.bg, script.groups); }
    NoSignals();
    SentByStop(ran, script);
    SentByEnd(ran, script);
    if m < |items| {
      assert !AllWell(card, items, script.obs, st.disk);
      forall n | FirstUnwell(card, items, script.obs, st.disk, n) ensures n == m {
        OneFirstUnwell(card, items, script.obs, st.disk, m, n);
      }
    } else {
      assert forall n :: !FirstUnwell(card, items, script.obs, st.disk, n);
    }
  }

  /** What any run leaves alive, the ways it can end in a traceback included: a group is left exactly when
      the stop did not come to interrupt it, or it outlived the grace and the stop did not come to kill
      it or it refused. */
  lemma LeftExactly(card: Card, items: seq<Item>, script: Script, st: State, n: string)
    requires Accepted(card, items, st)
    ensures var end := Execute(card, false, items, script, st).0;
            var done, g := Done(card, items, script, st.disk, end.bg), script.groups(n);
            !Gone(end.sent, n, g) <==>
              g.alive && (SigInt(n) !in done || (g.outlives && (SigKill(n) !in done || g.refuses)))
  {
    hide Execute, Done, Signals;
    SentExactly(card, items, script, st);
    SignalsExactly(Done(card, items, script, st.disk, Execute(card, false, items, script, st).0.bg), n);
  }

  /** The signals of a run that ends with 3 are those of one whole teardown. */
  lemma StopSends(card: Card, items: seq<Item>, script: Script, st: State)
    requires Accepted(card, items, st)
    requires Execute(card, false, items, script, st).1 == Code(3)
    ensures var end := Execute(card, false, items, script, st).0;
            end.sent == Signals(StopLines(end.bg, script.groups))
  {
    hide Execute, Done, Signals;
    SentExactly(card, items, script, st);
  }

  /** A stop that dies before its first signal: its reason cannot be written, or a group is alive and the
      line that announces its interrupt cannot. */
  ghost predicate Mute(names: seq<string>, script: Script) {
    !script.stopWrites(0) || ((exists n :: n in names && script.groups(n).alive) && !script.stopWrites(1))
  }

  lemma {:induction false} FirstSigInt(names: seq<string>, groups: string -> Group)
    ensures (exists n :: n in names && groups(n).alive) <==> SigInts(names, groups) != []
    ensures SigInts(names, groups) == [] ==> SigKills(names, groups) == []
    ensures SigInts(names, groups) != [] ==> SigInts(names, groups)[0].SigInt?
  {
    if names != [] {
      FirstSigInt(names[1..], groups);
      assert names == [names[0]] + names[1..];
    }
  }

  /** What the lines of a stop begin with. */
  lemma StopBegins(names: seq<string>, groups: string -> Group)
    ensures var lines := StopLines(names, groups);
            && lines != [] && lines[0] == Stopping
            && if exists n :: n in names && groups(n).alive then |lines| > 1 && lines[1].SigInt? else |lines| == 1
  {
    hide SigInts, SigKills;
    FirstSigInt(names, groups);
  }

  lemma FirstSignals(lines: seq<Line>, f: nat)
    requires f <= |lines| && lines != [] && lines[0] == Stopping && (|lines| > 1 ==> lines[1].SigInt?)
    ensures Signals(lines[..f]) == [] <==> f <= 1
  {
    hide Signals;
    NoSignals();
    if f == 1 {
      SignalsLast(lines[..1]);
      assert lines[..1][..0] == [];
    }
    if f > 1 {
      assert lines[1] in lines[..f] by { assert lines[..f][1] == lines[1]; }
      SignalsExactly(lines[..f], lines[1].name);
    }
  }

  lemma MuteExactly(ran: State, script: Script)
    requires ran.sent == []
    ensures var (end, final) := StopRun(ran, script);
            final == Traceback && end.sent == [] <==> Mute(ran.bg, script)
  {
    hide Signals, StopLines, StopRun;
    SentByStop(ran, script);
    var lines := StopLines(ran.bg, script.groups);
    StopBegins(ran.bg, script.groups);
    FirstSignals(lines, FirstUnwritten(script.stopWrites, |lines|));
  }

  /** When a run of an accepted list ends with 3, its last act is a whole teardown over every background
      cell whose command was started, its start signal seen or not: each such group is gone unless it
      outlives the grace and refuses the kill. */
  lemma StopLeavesNothing(card: Card, items: seq<Item>, script: Script, st: State, n: string)
    requires Accepted(card, items, st)
    requires Execute(card, false, items, script, st).1 == Code(3)
    requires BgStartedBy(card, Execute(card, false, items, script, st).0.started, n)
    ensures var sent := Execute(card, false, items, script, st).0.sent;
            && (Interrupted(n) in sent <==> script.groups(n).alive)
            && (Killed(n) in sent <==> script.groups(n).alive && script.groups(n).outlives)
            && (Gone(sent, n, script.groups(n)) <==> !Stays(script.groups(n)))
  {
    hide ItemWell, ItemBroken, Top, Told, Written, RunFrom;
    var m := RunEnds(card, items, script, st);
    var (ran, o) := RunFrom(card, false, items, script.obs, 0, st);
    Executed(card, items, script, st);
    var top := if m < |items| then Top(card, items, script.obs, st.disk, m) else m;
    assert items[..|items|] == items;
    PlannedPrefix(card, items, top);
    StartedAreBg(card, items[..top], n);
    TeardownReaches(ran.bg, script.groups, n);
    StopSends(card, items, script, st);
  }

  /** Exactly the runs that die in a traceback without a single signal, so that everything they started
      in the background is left as it is: at a broken item; in a stop that dies before its first signal;
      or at the end, when a line of the last waits, or the last line of all, cannot be written. */
  lemma TracebackLeavesAll(card: Card, items: seq<Item>, script: Script, st: State)
    requires Accepted(card, items, st)
    ensures var (end, final) := Execute(card, false, items, script, st);
            var (lines, ok) := Finish(BgNamesOf(card, items), script.end);
            final == Traceback && end.sent == [] <==>
              || (exists m :: && FirstUnwell(card, items, script.obs, st.disk, m)
                              && (|| ItemBroken(card, items, script.obs, st.disk, m)
                                  || Mute(BgUpTo(card, items, script.obs, st.disk, m), script)))
              || (&& AllWell(card, items, script.obs, st.disk)
                  && (|| !Written(lines, script.endWrites)
                      || (if ok then !script.endWrites(|lines|) else Mute(BgNamesOf(card, items), script))))
  {
    hide ItemWell, ItemBroken, Top, RunFrom, StopRun, EndRun, Mute, Written, BgNamesOf;
    var m := RunEnds(card, items, script, st);
    var (ran, o) := RunFrom(card, false, items, script.obs, 0, st);
    MuteExactly(ran, script);
    if m < |items| {
      assert !AllWell(card, items, script.obs, st.disk);
      forall n | FirstUnwell(card, items, script.obs, st.disk, n) ensures n == m {
        OneFirstUnwell(card, items, script.obs, st.disk, m, n);
      }
    } else {
      assert forall n :: !FirstUnwell(card, items, script.obs, st.disk, n);
      MuteEnd(ran, script);
    }
  }

  lemma MuteEnd(ran: State, script: Script)
    requires ran.sent == []
    ensures var (end, final) := EndRun(ran, script);
            var (lines, ok) := Finish(ran.bg, script.end);
            final == Traceback && end.sent == [] <==>
              || !Written(lines, script.endWrites)
              || (if ok then !script.endWrites(|lines|) else Mute(ran.bg, script))
  {
    hide Signals, StopLines, FirstUnwritten, Finish, StopRun, Mute;
    var lines := Finish(ran.bg, script.end).0;
    var waited := Told(ran, lines, script.endWrites).0;
    ToldExactly(ran, lines, script.endWrites);
    SentByEnd(ran, script);
    FinishSendsNothing(ran.bg, script.end);
    if waited.sent == [] {
      MuteExactly(waited, script);
    }
  }

  /** It happens: a background cell is started, then a CAP cell's command exits 0 and leaves `[1]` as its
      `.meta.json`.  The run dies with the background group alive and never signalled. */
  lemma RecordThatBreaks(base: Obs, script: Script)
    requires base == Obs(false, Opened, Spawned, Exited(0), true, [Poll(None, true, true, false)],
                         Gates.List([Gates.Num(false)]), "", true, false, Exited(0), base.writes)
    requires (forall i :: base.writes(i)) && forall i :: script.obs(i) == base
    ensures var card: Card := map["S" := Cell(HostBg, Some(""), Some(HostProbe)), "C" := Cell(Cap, Some(""), None)];
            var items, st := [Run("S"), Run("C")], Fresh({}).(bgkind := map["S" := HostProbe]);
            var (end, final) := Execute(card, false, items, script, st);
            && Accepted(card, items, st)
            && final == Traceback && end.started == ["S", "C"] && end.bg == ["S"] && end.sent == []
  {
    var card: Card := map["S" := Cell(HostBg, Some(""), Some(HostProbe)), "C" := Cell(Cap, Some(""), None)];
    var items, st := [Run("S"), Run("C")], Fresh({}).(bgkind := map["S" := HostProbe]);
    assert WaitStart(HostProbe, base.polls).Continue?;
    var (s1, o1) := Step(card, false, st, items[0], script.obs(0));
    assert o1 == Continue && s1.started == ["S"] && s1.bg == ["S"];
    var (s2, o2) := Step(card, false, s1, items[1], script.obs(1));
    assert o2 == Crash && s2.started == ["S", "C"];
    assert RunFrom(card, false, items, script.obs, 1, s1) == (s2, o2);
    assert RunFrom(card, false, items, script.obs, 0, st) == (s2, o2);
    forall i | 0 <= i < |items| ensures ItemPlanned(card, items, i) {}
  }

  // ------------------------------------------------------------ dry runs and unplanned items

  /** A dry run looks at nothing: it says one line an item, up to the first that cannot be written, and
      starts, records and signals nothing. */
  lemma {:induction false} DryStartsNothing(card: Card, items: seq<Item>, obs: nat -> Obs, k: nat, st: State)
    requires k <= |items| && Planned(card, items)
    ensures var (next, o) := RunFrom(card, true, items, obs, k, st);
            && next == st.(lines := next.lines)
            && (o.Continue? <==> forall i :: k <= i < |items| ==> obs(i).writes(0))
            && (o.Continue? || o.Stop?)
            && (o.Continue? ==>
                  next.lines == st.lines + seq(|items| - k, i requires 0 <= i < |items| - k => Dry(items[k + i])))
    decreases |items| - k
  {
    if k < |items| {
      var (next, o) := Step(card, true, st, items[k], obs(k));
      DryStep(card, items, st, k, obs(k));
      DryStartsNothing(card, items, obs, k + 1, next);
      hide Step, Planned;
      var m := |items| - k;
      assert st.lines + [Dry(items[k])] + seq(m - 1, i requires 0 <= i < m - 1 => Dry(items[k + 1 + i]))
          == st.lines + seq(m, i requires 0 <= i < m => Dry(items[k + i]));
    }
  }

  lemma DryStep(card: Card, items: seq<Item>, st: State, k: nat, ob: Obs)
    requires k < |items| && Planned(card, items)
    ensures Step(card, true, st, items[k], ob) == Closing(st, Dry(items[k]), ob.writes(0))
  {
    assert ItemPlanned(card, items, k);
  }

  /** Without the plan's refusal the runner could die on a lookup: a wait for a cell that nothing
      started. */
  lemma UnplannedWaitCrashes(script: Script, name: string, disk: set<string>)
    requires script.obs(0).writes(0)
    ensures var items := [Wait(name)];
            && ItemsOk(items) && !Planned(map[], items)
            && Execute(map[], false, items, script, Fresh(disk)).1 == Traceback
  {
    assert !ItemPlanned(map[], [Wait(name)], 0);
  }
}
