/** The card runner of `tools/cardrun.py`: argument refusals, the plan, the run, the start signal
    of a background cell, and the teardown.

    What the host does (a record already there, an exit code, a `.meta.json` of any shape, a transcript
    that cannot be written, a signal survived) is a script the run reads; every theorem is over every
    script. */
module Runner {
  import opened Common
  import Gates

  datatype Kind = Cap | Host | HostBg

  /** The background programs whose start signal the runner knows. */
  datatype Program = HostProbe | HostClock | Tcpdump

  /** A fenced cell: its kind, whether its command expands, and the program it would start. */
  datatype Cell = Cell(kind: Kind, command: Option<string>, program: Option<Program>)

  type Card = map<string, Cell>

  /** A command that holds a NUL is no argument a process can be given. */
  predicate Unrunnable(cell: Cell) { cell.command.Some? && '\0' in cell.command.value }

  datatype Item = Run(name: string) | Reading(name: string) | Wait(name: string)
                | Gate(name: string, gate: Gates.Kind) | Malformed

  // ------------------------------------------------------------ what the host answers

  datatype Open = Opened | AppearedSince | OpenFails
  datatype Spawn = Spawned | SpawnFails | SpawnInterrupted
  datatype Exec = Exited(rc: int) | ExecInterrupted

  /** One turn of the start loop: whether the leader has exited, whether time is left before the
      signal is looked for, whether it is seen, and whether the deadline has passed after. */
  datatype Poll = Poll(exited: Option<int>, timeLeft: bool, signalled: bool, late: bool)

  /** What the host answers to one item: whether somebody else's record is there, whether a CAP command
      leaves a record, what the `.meta.json` and the log hold when they are read, what a gate's pattern
      finds, and whether the item's n-th line can be written.  A poll script that runs out is an
      interrupt. */
  datatype Obs = Obs(appeared: bool, open: Open, spawn: Spawn, exec: Exec, recorded: bool, polls: seq<Poll>,
                     meta: Gates.Json, log: string, found: bool, gateInterrupted: bool, wait: Exec,
                     writes: nat -> bool)

  /** A process group when the run stops: alive then, alive when the grace is over, and whether it
      refuses this user's signals. */
  datatype Group = Group(alive: bool, outlives: bool, refuses: bool)

  datatype End = AlreadyExited | ExitsWith(rc: int) | EndInterrupted

  /** The answers to the items, to the last waits and to a teardown; `endWrites` and `stopWrites` say
      which lines of the last two can be written. */
  datatype Script = Script(obs: nat -> Obs, end: string -> End, groups: string -> Group,
                           endWrites: nat -> bool, stopWrites: nat -> bool)

  // ------------------------------------------------------------ the run as a function

  /** The transcript's lines.  `Ended` is the END line with the log's tail below it. */
  datatype Line =
    | Dry(item: Item)
    | Ran(name: string) | Ended(name: string, rc: int) | BgStarted(name: string)
    | ReadingNoted(name: string, rc: int)
    | Waiting(name: string) | WaitDone(name: string, rc: int)
    | GateOk(name: string) | GateSkipped(name: string)
    | Stopping | SigInt(name: string) | SigKill(name: string) | KillRefused(name: string)
    | GroupEnded(name: string)
    | WaitingEnd(name: string) | AllDone

  datatype Signal = Interrupted(name: string) | Killed(name: string)

  /** The runner's fields, and what it has done to the host: the cells whose command was handed to
      bash, in order; the cells that have a record; the signals sent. */
  datatype State = State(bg: seq<string>, bgkind: map<string, Program>, readings: map<string, int>,
                         lines: seq<Line>, started: seq<string>, disk: set<string>, sent: seq<Signal>)

  /** A runner that has done nothing yet, over the records of `disk`. */
  function Fresh(disk: set<string>): State { State([], map[], map[], [], [], disk, []) }

  /** How an item ends.  `Crash` is an exception the run does not catch: a lookup or an expansion that
      fails, a command that holds a NUL, a record that is no object. */
  datatype Outcome = Continue | Stop | Interrupt | Crash

  function Say(st: State, line: Line): State { st.(lines := st.lines + [line]) }

  /** A line at the end of an item.  One that cannot be written stops the run. */
  function Closing(st: State, line: Line, written: bool): (State, Outcome) {
    (Say(st, line), if written then Continue else Stop)
  }

  function Rc(st: State, name: string, rc: int, reading: bool, written: bool): (State, Outcome) {
    if rc == 0 then (st, Continue)
    else if reading then Closing(st.(readings := st.readings[name := rc]), ReadingNoted(name, rc), written)
    else (st, Stop)
  }

  /** The start loop of one background program. */
  function WaitStart(program: Program, polls: seq<Poll>): (o: Outcome)
    ensures !o.Crash?
  {
    if polls == [] then Interrupt
    else
      var p := polls[0];
      if p.exited.Some? then Stop
      else if program.HostClock? then
        if p.timeLeft && p.signalled then Continue else Stop
      else if p.signalled then Continue
      else if p.late then Stop
      else WaitStart(program, polls[1..])
  }

  /** A background cell handed to bash. */
  function Background(st: State, name: string, ob: Obs): (State, Outcome) {
    var inBg := st.(bg := st.bg + [name]);
    if name !in inBg.bgkind then (inBg, Crash)
    else
      var o := WaitStart(inBg.bgkind[name], ob.polls);
      if o.Continue? then Closing(inBg, BgStarted(name), ob.writes(1)) else (inBg, o)
  }

  /** A foreground cell handed to bash: a CAP cell's record is read before its end is told. */
  function Foreground(st: State, kind: Kind, name: string, reading: bool, ob: Obs): (State, Outcome) {
    match ob.exec
    case ExecInterrupted => (st, Interrupt)
    case Exited(rc) =>
      if kind.Cap? && Gates.Unusable(ob.meta) then (st, Crash)
      else
        var told := Say(st, Ended(name, rc));
        if !ob.writes(1) then (told, Stop) else Rc(told, name, rc, reading, ob.writes(2))
  }

  /** The command is handed to bash.  The host may fail before it looks at the command's characters; one
      with a NUL it would have taken is a `ValueError`, which the run does not catch. */
  function Launch(cell: Cell, st: State, name: string, reading: bool, ob: Obs): (State, Outcome) {
    var kind := cell.kind;
    match ob.spawn
    case SpawnFails => (st, Stop)
    case SpawnInterrupted => (st, Interrupt)
    case Spawned =>
      if Unrunnable(cell) then (st, Crash)
      else
        var begun := st.(started := st.started + [name],
                         disk := if kind.Cap? && ob.recorded then st.disk + {name} else st.disk);
        if kind.HostBg? then Background(begun, name, ob) else Foreground(begun, kind, name, reading, ob)
  }

  function RunCell(card: Card, dry: bool, st: State, name: string, reading: bool, ob: Obs): (State, Outcome) {
    if name !in card || card[name].command.None? then (st, Crash)
    else if dry then Closing(st, Dry(if reading then Reading(name) else Run(name)), ob.writes(0))
    else if name in st.disk || ob.appeared then (st, Stop)
    else
      var announced := Say(st, Ran(name));
      if !ob.writes(0) then (announced, Stop)
      else if card[name].kind.Cap? then Launch(card[name], announced, name, reading, ob)
      else if !ob.open.Opened? then (announced, Stop)
      else Launch(card[name], announced.(disk := announced.disk + {name}), name, reading, ob)
  }

  function AskGate(st: State, name: string, gate: Gates.Kind, ob: Obs): (State, Outcome) {
    if ob.gateInterrupted then (st, Interrupt)
    else
      match Gates.Ask(gate, ob.log, ob.meta, ob.found)
      case Holds => Closing(st, GateOk(name), ob.writes(0))
      case Fails => (st, Stop)
      case Breaks => (st, Crash)
  }

  function Step(card: Card, dry: bool, st: State, item: Item, ob: Obs): (State, Outcome) {
    match item
    case Malformed => (st, Crash)
    case Wait(name) =>
      if dry then Closing(st, Dry(item), ob.writes(0))
      else
        var waiting := Say(st, Waiting(name));
        if !ob.writes(0) then (waiting, Stop)
        else if name !in waiting.bg then (waiting, Crash)
        else (match ob.wait
              case Exited(rc) => Closing(waiting, WaitDone(name, rc), ob.writes(1))
              case ExecInterrupted => (waiting, Interrupt))
    case Gate(name, gate) =>
      if dry then Closing(st, Dry(item), ob.writes(0))
      else if name in st.readings then Closing(st, GateSkipped(name), ob.writes(0))
      else if name !in card then (st, Crash)
      else AskGate(st, name, gate, ob)
    case Run(name) => RunCell(card, dry, st, name, false, ob)
    case Reading(name) => RunCell(card, dry, st, name, true, ob)
  }

  function RunFrom(card: Card, dry: bool, items: seq<Item>, obs: nat -> Obs, k: nat, st: State): (State, Outcome)
    requires k <= |items|
    decreases |items| - k
  {
    if k == |items| then (st, Continue)
    else
      var (next, o) := Step(card, dry, st, items[k], obs(k));
      if o.Continue? then RunFrom(card, dry, items, obs, k + 1, next) else (next, o)
  }

  // ------------------------------------------------------------ lines one after another

  /** The first of `n` lines that cannot be written, or `n`. */
  function FirstUnwritten(writes: nat -> bool, n: nat): (f: nat)
    ensures f <= n && (f < n ==> !writes(f)) && forall i :: 0 <= i < f ==> writes(i)
  {
    if n == 0 then 0
    else
      var before := FirstUnwritten(writes, n - 1);
      if before < n - 1 then before else if writes(n - 1) then n else n - 1
  }

  /** The signal a line announces, sent once the line is written. */
  function SignalOf(line: Line): seq<Signal> {
    match line
    case SigInt(name) => [Interrupted(name)]
    case SigKill(name) => [Killed(name)]
    case _ => []
  }

  function Signals(lines: seq<Line>): seq<Signal> {
    if lines == [] then [] else Signals(lines[..|lines| - 1]) + SignalOf(lines[|lines| - 1])
  }

  /** Lines said in turn up to the first that cannot be written: that one is in the runner's own list
      and raises, so what it announces is not done and no line follows. */
  function Told(st: State, lines: seq<Line>, writes: nat -> bool): (State, bool) {
    var f := FirstUnwritten(writes, |lines|);
    (st.(lines := st.lines + lines[..if f < |lines| then f + 1 else f], sent := st.sent + Signals(lines[..f])),
     f == |lines|)
  }

  // ------------------------------------------------------------ the teardown and the end

  /** SIGINT to each group alive, in the order started. */
  function SigInts(names: seq<string>, groups: string -> Group): seq<Line> {
    if names == [] then []
    else (if groups(names[0]).alive then [SigInt(names[0])] else []) + SigInts(names[1..], groups)
  }

  /** The end of one group: SIGKILL if it was signalled and outlived the grace. */
  function EndLines(name: string, g: Group): seq<Line> {
    if !g.alive then []
    else if !g.outlives then [GroupEnded(name)]
    else if g.refuses then [SigKill(name), KillRefused(name), GroupEnded(name)]
    else [SigKill(name), GroupEnded(name)]
  }

  /** After the grace: SIGKILL to each signalled group that outlived it. */
  function SigKills(names: seq<string>, groups: string -> Group): seq<Line> {
    if names == [] then [] else EndLines(names[0], groups(names[0])) + SigKills(names[1..], groups)
  }

  /** What a stop says: its reason, then the teardown. */
  function StopLines(names: seq<string>, groups: string -> Group): seq<Line> {
    [Stopping] + SigInts(names, groups) + SigKills(names, groups)
  }

  /** The waits for the background cells at the end; false when one is interrupted. */
  function Finish(names: seq<string>, end: string -> End): (seq<Line>, bool) {
    if names == [] then ([], true)
    else
      match end(names[0])
      case EndInterrupted => ([WaitingEnd(names[0])], false)
      case AlreadyExited => Finish(names[1..], end)
      case ExitsWith(rc) =>
        var (rest, ok) := Finish(names[1..], end);
        ([WaitingEnd(names[0]), WaitDone(names[0], rc)] + rest, ok)
  }

  /** What `run` answers: an exit code, or the traceback it dies with. */
  datatype Final = Code(rc: int) | Traceback

  function StopRun(st: State, script: Script): (State, Final) {
    var (torn, written) := Told(st, StopLines(st.bg, script.groups), script.stopWrites);
    (torn, if written then Code(3) else Traceback)
  }

  function EndRun(st: State, script: Script): (State, Final) {
    var (lines, ok) := Finish(st.bg, script.end);
    var (waited, written) := Told(st, lines, script.endWrites);
    if !written then (waited, Traceback)
    else if !ok then StopRun(waited, script)
    else (Say(waited, AllDone), if script.endWrites(|lines|) then Code(0) else Traceback)
  }

  function Execute(card: Card, dry: bool, items: seq<Item>, script: Script, st: State): (State, Final) {
    var (ran, o) := RunFrom(card, dry, items, script.obs, 0, st);
    match o
    case Crash => (ran, Traceback)
    case Stop => StopRun(ran, script)
    case Interrupt => StopRun(ran, script)
    case Continue => EndRun(ran, script)
  }

  // ------------------------------------------------------------ what is refused before a run

  /** The command line: whether `--self-test`, `--card`, `--dry` and `--log` were given, and the items. */
  datatype Args = Args(selfTest: bool, card: bool, items: seq<Item>, dry: bool, log: bool)

  function CellName(item: Item): Option<string> {
    match item
    case Run(name) => Some(name)
    case Reading(name) => Some(name)
    case _ => None
  }

  /** Every item parses and no cell is named twice. */
  ghost predicate ItemsOk(items: seq<Item>) {
    && (forall i :: 0 <= i < |items| ==> !items[i].Malformed?)
    && forall i, j :: 0 <= i < j < |items| && CellName(items[i]).Some? ==>
         CellName(items[i]) != CellName(items[j])
  }

  ghost predicate ArgsOk(a: Args) {
    if a.selfTest then !a.card && !a.dry && !a.log && a.items == []
    else a.card && a.items != [] && (a.dry || a.log) && ItemsOk(a.items)
  }

  method RefuseArgs(a: Args) returns (ok: bool)
    ensures ok <==> ArgsOk(a)
  {
    if a.selfTest {
      return !(a.card || a.items != [] || a.dry || a.log);
    }
    if !a.card || a.items == [] || (!a.dry && !a.log) {
      return false;
    }
    var items := a.items;
    var seen: set<string> := {};
    for k := 0 to |items|
      invariant forall i :: 0 <= i < k ==> !items[i].Malformed?
      invariant forall i, j :: 0 <= i < j < k && CellName(items[i]).Some? ==>
                  CellName(items[i]) != CellName(items[j])
      invariant forall n :: n in seen <==> exists i :: 0 <= i < k && CellName(items[i]) == Some(n)
    {
      if items[k].Malformed? {
        return false;
      }
      if items[k].Run? || items[k].Reading? {
        if items[k].name in seen {
          return false;
        }
        seen := seen + {items[k].name};
      }
    }
    return true;
  }

  ghost predicate StartsBg(card: Card, item: Item, name: string) {
    item == Run(name) && name in card && card[name].kind.HostBg?
  }

  /** The plan's refusals, item by item. */
  ghost predicate ItemPlanned(card: Card, items: seq<Item>, i: nat)
    requires i < |items|
  {
    match items[i]
    case Malformed => false
    case Gate(name, _) => name in card
    case Wait(name) => exists j :: 0 <= j < i && StartsBg(card, items[j], name)
    case Run(name) => name in card && card[name].command.Some?
                      && (card[name].kind.HostBg? ==> card[name].program.Some?)
    case Reading(name) => name in card && card[name].command.Some? && !card[name].kind.HostBg?
  }

  ghost predicate Planned(card: Card, items: seq<Item>) {
    forall i :: 0 <= i < |items| ==> ItemPlanned(card, items, i)
  }

  /** Every background cell the items start has its program on record. */
  ghost predicate KindsKnown(card: Card, items: seq<Item>, kinds: map<string, Program>) {
    forall i :: 0 <= i < |items| && items[i].Run? && StartsBg(card, items[i], items[i].name) ==>
      items[i].name in kinds && card[items[i].name].program == Some(kinds[items[i].name])
  }

  // ------------------------------------------------------------ the runner

  /** `s1` is `s0` after the first `n` of some lines were said, all of them written. */
  ghost predicate SaidSoFar(s0: State, s1: State, all: seq<Line>, writes: nat -> bool, n: nat) {
    && n <= |all| && (forall i :: 0 <= i < n ==> writes(i))
    && s1 == s0.(lines := s0.lines + all[..n], sent := s0.sent + Signals(all[..n]))
  }

  lemma SaidNothing(s0: State, all: seq<Line>, writes: nat -> bool)
    ensures SaidSoFar(s0, s0, all, writes, 0)
  {
    assert all[..0] == [] && s0.lines + [] == s0.lines && s0.sent + [] == s0.sent;
  }

  lemma Nested<T>(a: seq<T>, b: seq<T>, c: seq<T>)
    ensures a + b + c == a + (b + c)
  {}

  lemma SignalsNext(all: seq<Line>, n: nat)
    requires n < |all|
    ensures Signals(all[..n + 1]) == Signals(all[..n]) + SignalOf(all[n])
  {
    assert all[..n + 1][..n] == all[..n];
  }

  /** One more line: written, it extends what was said; unwritten, it ends it. */
  lemma SaidOne(s0: State, s1: State, all: seq<Line>, writes: nat -> bool, n: nat)
    requires SaidSoFar(s0, s1, all, writes, n) && n < |all|
    ensures writes(n) ==> SaidSoFar(s0, Say(s1, all[n]).(sent := s1.sent + SignalOf(all[n])), all, writes, n + 1)
    ensures !writes(n) ==> Told(s0, all, writes) == (Say(s1, all[n]), false)
  {
    SignalsNext(all, n);
    hide Signals, SignalOf, FirstUnwritten;
    assert all[..n + 1] == all[..n] + [all[n]];
    Nested(s0.lines, all[..n], [all[n]]);
    Nested(s0.sent, Signals(all[..n]), SignalOf(all[n]));
    assert !writes(n) ==> FirstUnwritten(writes, |all|) == n;
  }

  lemma SaidAll(s0: State, s1: State, all: seq<Line>, writes: nat -> bool)
    requires SaidSoFar(s0, s1, all, writes, |all|)
    ensures Told(s0, all, writes) == (s1, true)
  {
    assert all[..|all|] == all;
  }

  class Runner {
    const card: Card
    const dry: bool
    var bg: seq<string>
    var bgkind: map<string, Program>
    var readings: map<string, int>
    var lines: seq<Line>
    /** The cells that have a record on disk. */
    var disk: set<string>
    ghost var started: seq<string>
    ghost var sent: seq<Signal>

    constructor (card: Card, dry: bool, records: set<string>)
      ensures this.card == card && this.dry == dry
      ensures Now() == Fresh(records)
    {
      this.card, this.dry := card, dry;
      bg, bgkind, readings, lines := [], map[], map[], [];
      started, disk, sent := [], records, [];
    }

    ghost function Now(): State
      reads this
    {
      State(bg, bgkind, readings, lines, started, disk, sent)
    }

    /** Every refusal that reads the card, before anything runs. */
    method Plan(items: seq<Item>) returns (ok: bool)
      modifies this`bgkind
      ensures ok <==> Planned(card, items)
      ensures ok ==> KindsKnown(card, items, bgkind)
      ensures forall n :: n in bgkind ==>
                (n in old(bgkind) && bgkind[n] == old(bgkind)[n])
                || exists i :: 0 <= i < |items| && StartsBg(card, items[i], n)
    {
      var startedNames: set<string> := {};
      for k := 0 to |items|
        invariant forall i :: 0 <= i < k ==> ItemPlanned(card, items, i)
        invariant forall n :: n in startedNames <==> exists i :: 0 <= i < k && StartsBg(card, items[i], n)
        invariant KindsKnown(card, items[..k], bgkind)
        invariant forall n :: n in bgkind ==>
                    (n in old(bgkind) && bgkind[n] == old(bgkind)[n])
                    || exists i :: 0 <= i < k && StartsBg(card, items[i], n)
      {
        assert Planned(card, items) ==> ItemPlanned(card, items, k);
        match items[k] {
          case Malformed => return false;
          case Gate(name, _) =>
            if name !in card {
              return false;
            }
          case Wait(name) =>
            if name !in startedNames {
              return false;
            }
          case Run(name) =>
            if name !in card || card[name].command.None? {
              return false;
            }
            if card[name].kind.HostBg? {
              if card[name].program.None? {
                return false;
              }
              bgkind := bgkind[name := card[name].program.value];
              startedNames := startedNames + {name};
            }
          case Reading(name) =>
            if name !in card || card[name].command.None? || card[name].kind.HostBg? {
              return false;
            }
        }
      }
      assert items[..|items|] == items;
      return true;
    }

    /** A line goes to the runner's own list, and then to the transcript if that can be written. */
    method SayLine(line: Line, writable: bool) returns (written: bool)
      modifies this`lines
      ensures Now() == Say(old(Now()), line) && written == writable
    {
      lines := lines + [line];
      written := writable;
    }

    method NoteRc(name: string, rc: int, reading: bool, writable: bool) returns (o: Outcome)
      modifies this
      ensures (Now(), o) == Rc(old(Now()), name, rc, reading, writable)
    {
      if rc == 0 {
        return Continue;
      }
      if reading {
        readings := readings[name := rc];
        var ok := SayLine(ReadingNoted(name, rc), writable);
        return if ok then Continue else Stop;
      }
      return Stop;
    }

    method AwaitStart(name: string, polls: seq<Poll>) returns (o: Outcome)
      requires name in bgkind
      ensures o == WaitStart(bgkind[name], polls)
    {
      var program := bgkind[name];
      var i := 0;
      while i < |polls|
        invariant 0 <= i <= |polls|
        invariant WaitStart(program, polls) == WaitStart(program, polls[i..])
      {
        var p := polls[i];
        assert polls[i..][1..] == polls[i + 1..];
        if p.exited.Some? {
          return Stop;
        }
        if program.HostClock? {
          return if p.timeLeft && p.signalled then Continue else Stop;
        }
        if p.signalled {
          return Continue;
        }
        if p.late {
          return Stop;
        }
        i := i + 1;
      }
      return Interrupt;
    }

    method StartBackground(name: string, ob: Obs) returns (o: Outcome)
      modifies this
      ensures (Now(), o) == Background(old(Now()), name, ob)
    {
      bg := bg + [name];
      if name !in bgkind {
        return Crash;
      }
      o := AwaitStart(name, ob.polls);
      if o.Continue? {
        var ok := SayLine(BgStarted(name), ob.writes(1));
        return if ok then Continue else Stop;
      }
    }

    method CallForeground(kind: Kind, name: string, reading: bool, ob: Obs) returns (o: Outcome)
      modifies this
      ensures (Now(), o) == Foreground(old(Now()), kind, name, reading, ob)
    {
      match ob.exec {
        case ExecInterrupted => return Interrupt;
        case Exited(rc) =>
          if kind.Cap? && Gates.Unusable(ob.meta) {
            return Crash;
          }
          var ok := SayLine(Ended(name, rc), ob.writes(1));
          if !ok {
            return Stop;
          }
          o := NoteRc(name, rc, reading, ob.writes(2));
      }
    }

    method Cell(name: string, reading: bool, ob: Obs) returns (o: Outcome)
      modifies this
      ensures (Now(), o) == RunCell(card, dry, old(Now()), name, reading, ob)
    {
      hide WaitStart, Background, Foreground;
      if name !in card || card[name].command.None? {
        return Crash;
      }
      var kind := card[name].kind;
      if dry {
        var ok := SayLine(Dry(if reading then Reading(name) else Run(name)), ob.writes(0));
        return if ok then Continue else Stop;
      }
      if name in disk || ob.appeared {
        return Stop;
      }
      var ok := SayLine(Ran(name), ob.writes(0));
      if !ok {
        return Stop;
      }
      if !kind.Cap? {
        if !ob.open.Opened? {
          return Stop;
        }
        disk := disk + {name};
      }
      match ob.spawn {
        case SpawnFails => return Stop;
        case SpawnInterrupted => return Interrupt;
        case Spawned =>
      }
      if Unrunnable(card[name]) {
        return Crash;
      }
      started := started + [name];
      if kind.Cap? && ob.recorded {
        disk := disk + {name};
      }
      if kind.HostBg? {
        o := StartBackground(name, ob);
      } else {
        o := CallForeground(kind, name, reading, ob);
      }
    }

    method Gate(name: string, gate: Gates.Kind, ob: Obs) returns (o: Outcome)
      modifies this
      ensures (Now(), o) == AskGate(old(Now()), name, gate, ob)
    {
      if ob.gateInterrupted {
        return Interrupt;
      }
      match Gates.Ask(gate, ob.log, ob.meta, ob.found) {
        case Breaks => return Crash;
        case Fails => return Stop;
        case Holds =>
          var ok := SayLine(GateOk(name), ob.writes(0));
          return if ok then Continue else Stop;
      }
    }

    method WaitFor(name: string, ob: Obs) returns (o: Outcome)
      requires !dry
      modifies this
      ensures (Now(), o) == Step(card, dry, old(Now()), Wait(name), ob)
    {
      var ok := SayLine(Waiting(name), ob.writes(0));
      if !ok {
        return Stop;
      }
      if name !in bg {
        return Crash;
      }
      match ob.wait {
        case ExecInterrupted => return Interrupt;
        case Exited(rc) =>
          ok := SayLine(WaitDone(name, rc), ob.writes(1));
          return if ok then Continue else Stop;
      }
    }

    method Item(item: Item, ob: Obs) returns (o: Outcome)
      modifies this
      ensures (Now(), o) == Step(card, dry, old(Now()), item, ob)
    {
      hide RunCell, AskGate;
      match item {
        case Malformed => return Crash;
        case Wait(name) =>
          if dry {
            var ok := SayLine(Dry(item), ob.writes(0));
            return if ok then Continue else Stop;
          }
          o := WaitFor(name, ob);
        case Gate(name, gate) =>
          if dry {
            var ok := SayLine(Dry(item), ob.writes(0));
            return if ok then Continue else Stop;
          }
          if name in readings {
            var ok := SayLine(GateSkipped(name), ob.writes(0));
            return if ok then Continue else Stop;
          }
          if name !in card {
            return Crash;
          }
          o := this.Gate(name, gate, ob);
        case Run(name) => o := Cell(name, false, ob);
        case Reading(name) => o := Cell(name, true, ob);
      }
    }

    /** The `n`-th of the lines `all`, and the signal it announces once it is written. */
    method Tell(line: Line, writes: nat -> bool, n: nat, ghost s0: State, ghost all: seq<Line>) returns (ok: bool)
      requires SaidSoFar(s0, Now(), all, writes, n) && n < |all| && all[n] == line
      modifies this`lines, this`sent
      ensures ok ==> SaidSoFar(s0, Now(), all, writes, n + 1)
      ensures !ok ==> (Now(), false) == Told(s0, all, writes)
    {
      SaidOne(s0, Now(), all, writes, n);
      ok := SayLine(line, writes(n));
      if ok {
        sent := sent + SignalOf(line);
      }
    }

    /** SIGINT to the groups alive: the lines `all` from `n` on, down to `after`. */
    method InterruptGroups(groups: string -> Group, writes: nat -> bool, n: nat, ghost s0: State,
                           ghost all: seq<Line>, ghost after: seq<Line>) returns (ok: bool, m: nat)
      requires SaidSoFar(s0, Now(), all, writes, n) && all[n..] == SigInts(bg, groups) + after
      modifies this`lines, this`sent
      ensures ok ==> SaidSoFar(s0, Now(), all, writes, m) && all[m..] == after
      ensures !ok ==> (Now(), false) == Told(s0, all, writes)
    {
      hide Told, SaidSoFar, SigInts;
      m := n;
      SaidBounds(s0, Now(), all, writes, m);
      assert bg[0..] == bg;
      for k := 0 to |bg|
        invariant SaidSoFar(s0, Now(), all, writes, m) && m <= |all|
        invariant all[m..] == SigInts(bg[k..], groups) + after
      {
        SigIntsStep(bg, k, groups);
        if groups(bg[k]).alive {
          assert all[m..][0] == SigInt(bg[k]);
          assert all[m..][1..] == all[m + 1..];
          ok := Tell(SigInt(bg[k]), writes, m, s0, all);
          if !ok {
            return;
          }
          m := m + 1;
        }
      }
      SigIntsNone(bg, groups);
      ok := true;
    }

    /** The end of one group: the lines `all` from `n` on, down to `after`. */
    method EndGroup(name: string, g: Group, writes: nat -> bool, n: nat, ghost s0: State, ghost all: seq<Line>,
                    ghost after: seq<Line>) returns (ok: bool, m: nat)
      requires SaidSoFar(s0, Now(), all, writes, n) && n <= |all| && all[n..] == EndLines(name, g) + after
      modifies this`lines, this`sent
      ensures ok ==> SaidSoFar(s0, Now(), all, writes, m) && m <= |all| && all[m..] == after
      ensures !ok ==> (Now(), false) == Told(s0, all, writes)
    {
      hide Told, SaidSoFar;
      m, ok := n, true;
      if !g.alive {
        return;
      }
      if g.outlives {
        assert all[m..][0] == SigKill(name) && all[m..][1..] == all[m + 1..];
        ok := Tell(SigKill(name), writes, m, s0, all);
        if !ok {
          return;
        }
        m := m + 1;
        if g.refuses {
          assert all[m..][0] == KillRefused(name) && all[m..][1..] == all[m + 1..];
          ok := Tell(KillRefused(name), writes, m, s0, all);
          if !ok {
            return;
          }
          m := m + 1;
        }
      }
      assert all[m..][0] == GroupEnded(name) && all[m..][1..] == all[m + 1..];
      ok := Tell(GroupEnded(name), writes, m, s0, all);
      m := m + 1;
    }

    method EndGroups(groups: string -> Group, writes: nat -> bool, n: nat, ghost s0: State, ghost all: seq<Line>)
      returns (ok: bool, m: nat)
      requires SaidSoFar(s0, Now(), all, writes, n) && n <= |all| && all[n..] == SigKills(bg, groups)
      modifies this`lines, this`sent
      ensures ok ==> SaidSoFar(s0, Now(), all, writes, m) && m == |all|
      ensures !ok ==> (Now(), false) == Told(s0, all, writes)
    {
      hide Told, SaidSoFar, SigKills, EndLines;
      m := n;
      assert bg[0..] == bg;
      for k := 0 to |bg|
        invariant SaidSoFar(s0, Now(), all, writes, m) && m <= |all|
        invariant all[m..] == SigKills(bg[k..], groups)
      {
        SigKillsStep(bg, k, groups);
        ok, m := EndGroup(bg[k], groups(bg[k]), writes, m, s0, all, SigKills(bg[k + 1..], groups));
        if !ok {
          return;
        }
      }
      SigKillsNone(bg, groups);
      ok := true;
    }

    /** The teardown, with the line that gives its reason. */
    method StopChildren(groups: string -> Group, writes: nat -> bool) returns (ok: bool)
      modifies this`lines, this`sent
      ensures (Now(), ok) == Told(old(Now()), StopLines(bg, groups), writes)
    {
      hide Told, SaidSoFar, SigInts, SigKills;
      ghost var s0, all := Now(), StopLines(bg, groups);
      SaidNothing(s0, all, writes);
      assert all[0] == Stopping && all[1..] == SigInts(bg, groups) + SigKills(bg, groups);
      ok := Tell(Stopping, writes, 0, s0, all);
      if !ok {
        return;
      }
      var m;
      ok, m := InterruptGroups(groups, writes, 1, s0, all, SigKills(bg, groups));
      if !ok {
        return;
      }
      SaidBounds(s0, Now(), all, writes, m);
      ok, m := EndGroups(groups, writes, m, s0, all);
      if ok {
        SaidAll(s0, Now(), all, writes);
      }
    }

    /** The last waits: whether every line was written, and whether none was interrupted. */
    method WaitForBackground(end: string -> End, writes: nat -> bool) returns (ok: bool, whole: bool, m: nat)
      modifies this`lines, this`sent
      ensures (Now(), ok) == Told(old(Now()), Finish(bg, end).0, writes)
      ensures ok ==> whole == Finish(bg, end).1 && m == |Finish(bg, end).0|
    {
      hide Told, SaidSoFar, Finish;
      ghost var s0, all := Now(), Finish(bg, end).0;
      SaidNothing(s0, all, writes);
      m := 0;
      assert bg[0..] == bg && all[0..] == all;
      for k := 0 to |bg|
        invariant SaidSoFar(s0, Now(), all, writes, m) && m <= |all|
        invariant all[m..] == Finish(bg[k..], end).0 && Finish(bg, end).1 == Finish(bg[k..], end).1
      {
        FinishStep(bg, k, end);
        match end(bg[k]) {
          case AlreadyExited =>
          case EndInterrupted =>
            assert all[m..][0] == WaitingEnd(bg[k]) && |all[m..]| == 1;
            ok := Tell(WaitingEnd(bg[k]), writes, m, s0, all);
            m := m + 1;
            if ok {
              SaidAll(s0, Now(), all, writes);
            }
            return ok, false, m;
          case ExitsWith(rc) =>
            assert all[m..][0] == WaitingEnd(bg[k]) && all[m..][1] == WaitDone(bg[k], rc);
            assert all[m..][2..] == all[m + 2..];
            ok := Tell(WaitingEnd(bg[k]), writes, m, s0, all);
            if !ok {
              return ok, false, m;
            }
            ok := Tell(WaitDone(bg[k], rc), writes, m + 1, s0, all);
            if !ok {
              return ok, false, m;
            }
            m := m + 2;
        }
      }
      FinishNone(bg, end);
      SaidAll(s0, Now(), all, writes);
      ok, whole := true, true;
    }

    method Halt(script: Script) returns (final: Final)
      modifies this`lines, this`sent
      ensures (Now(), final) == StopRun(old(Now()), script)
    {
      hide Told, StopLines;
      var ok := StopChildren(script.groups, script.stopWrites);
      final := if ok then Code(3) else Traceback;
    }

    method Go(items: seq<Item>, script: Script) returns (final: Final)
      modifies this
      ensures (Now(), final) == Execute(card, dry, items, script, old(Now()))
    {
      hide Step, StopRun, Told, Finish;
      ghost var st0 := Now();
      for k := 0 to |items|
        invariant RunFrom(card, dry, items, script.obs, 0, st0) == RunFrom(card, dry, items, script.obs, k, Now())
      {
        var o := Item(items[k], script.obs(k));
        match o {
          case Continue =>
          case Crash => return Traceback;
          case Stop =>
            final := Halt(script);
            return;
          case Interrupt =>
            final := Halt(script);
            return;
        }
      }
      var written, whole, m := WaitForBackground(script.end, script.endWrites);
      if !written {
        return Traceback;
      }
      if !whole {
        final := Halt(script);
        return;
      }
      var ok := SayLine(AllDone, script.endWrites(m));
      final := if ok then Code(0) else Traceback;
    }
  }

  // ------------------------------------------------------------ the lists of lines, one group at a time

  lemma SaidBounds(s0: State, s1: State, all: seq<Line>, writes: nat -> bool, n: nat)
    requires SaidSoFar(s0, s1, all, writes, n)
    ensures n <= |all|
  {}

  lemma SigIntsStep(bg: seq<string>, k: nat, groups: string -> Group)
    requires k < |bg|
    ensures SigInts(bg[k..], groups)
            == (if groups(bg[k]).alive then [SigInt(bg[k])] else []) + SigInts(bg[k + 1..], groups)
  {
    assert bg[k..][1..] == bg[k + 1..];
  }

  lemma SigIntsNone(bg: seq<string>, groups: string -> Group)
    ensures SigInts(bg[|bg|..], groups) == []
  {}

  lemma SigKillsStep(bg: seq<string>, k: nat, groups: string -> Group)
    requires k < |bg|
    ensures SigKills(bg[k..], groups) == EndLines(bg[k], groups(bg[k])) + SigKills(bg[k + 1..], groups)
  {
    assert bg[k..][1..] == bg[k + 1..];
  }

  lemma SigKillsNone(bg: seq<string>, groups: string -> Group)
    ensures SigKills(bg[|bg|..], groups) == []
  {}

  lemma FinishStep(bg: seq<string>, k: nat, end: string -> End)
    requires k < |bg|
    ensures var (lines, ok) := Finish(bg[k..], end);
            var (rest, restOk) := Finish(bg[k + 1..], end);
            match end(bg[k])
            case EndInterrupted => lines == [WaitingEnd(bg[k])] && !ok
            case AlreadyExited => lines == rest && ok == restOk
            case ExitsWith(rc) => lines == [WaitingEnd(bg[k]), WaitDone(bg[k], rc)] + rest && ok == restOk
  {
    assert bg[k..][1..] == bg[k + 1..];
  }

  lemma FinishNone(bg: seq<string>, end: string -> End)
    ensures Finish(bg[|bg|..], end) == ([], true)
  {}
}
