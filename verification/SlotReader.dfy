/** Which slot `rlxboot` booted (`tools/bootslot.py`): the reader that turns a console capture into
    facts, and the judge that compares them with what the run was expected to do. */
module SlotReader {
  import opened Common
  import opened SlotLines
  import opened Text

  // ------------------------------------------------------------ lines and searches

  const IS_CR: char -> bool := c => c == '\r'

  /** The capture's lines, every carriage return removed first. */
  function Lines(text: string): seq<string> { Text.Split(Text.Without(text, IS_CR)) }

  function BannerHere(s: string): Option<string> {
    match Lit(s, "RLXBOOT-V1 build=")
    case None => None
    case Some(rest) => (match HexDigits(rest, 8) case Some((h, _)) => Some(h) case None => None)
  }

  /** The build in the leftmost banner of a line. */
  function Banner(s: string): Option<string> {
    if BannerHere(s).Some? then BannerHere(s) else if s == "" then None else Banner(s[1..])
  }

  function IdHere(s: string): Option<string> {
    match Lit(s, "RLXFW-ID0=")
    case None => None
    case Some(rest) => if 8 <= |rest| && AllHex(rest[..8]) then Some(rest[..8]) else None
  }

  /** The leftmost kernel id in a line. */
  function Id(s: string): Option<string> {
    if IdHere(s).Some? then IdHere(s) else if s == "" then None else Id(s[1..])
  }

  /** What the reader takes from one line. */
  datatype Seen = Seen(row: Row, id: Option<string>)

  function SeeLine(s: string): Seen { Seen(RowOf(s), Id(s)) }

  function See(lines: seq<string>): (r: seq<Seen>)
    ensures |r| == |lines| && forall i :: 0 <= i < |r| ==> r[i] == SeeLine(lines[i])
  {
    seq(|lines|, i requires 0 <= i < |lines| => SeeLine(lines[i]))
  }

  // ------------------------------------------------------------ the pass over the lines

  datatype Choice = Booted(slot: Slot) | Halted

  datatype Copied = Copied(flash: nat, buf: nat, n: nat, dots: nat, spaced: bool)

  /** What the capture says of one slot. */
  datatype Side = Side(read: Option<Copied>, verdict: Option<Verdict>, stages: seq<Stage>)

  datatype Step = Reads(slot: Slot) | Verdicts(slot: Slot)

  datatype Scan = Scan(at: nat, a: Side, b: Side, last: Option<Slot>, order: seq<Step>,
                       keys: seq<bool>, froms: seq<string>, sources: seq<bool>,
                       slots: nat, halts: nat, boots: nat,
                       choice: Option<Choice>, choiceAt: nat, halt: Option<(string, string)>,
                       boot: Option<(string, string)>, bootAt: nat)
  {
    function Of(s: Slot): Side { if s == A then a else b }
  }

  const BLANK: Side := Side(None, None, [])

  const START: Scan := Scan(0, BLANK, BLANK, None, [], [], [], [], 0, 0, 0, None, 0, None, None, 0)

  function WithSide(st: Scan, s: Slot, side: Side): Scan {
    if s == A then st.(a := side) else st.(b := side)
  }

  /** One line.  A stage row belongs to the slot whose read came last, and a read starts its slot's
      stages afresh. */
  function Take(st: Scan, row: Row): Scan {
    match row
    case Read(s, flash, buf, n, dots, spaced) =>
      WithSide(st, s, Side(Some(Copied(flash, buf, n, dots, spaced)), st.Of(s).verdict, []))
        .(last := Some(s), order := st.order + [Reads(s)])
    case Judged(s, v) =>
      WithSide(st, s, st.Of(s).(verdict := Some(v))).(order := st.order + [Verdicts(s)])
    case Chosen(s) => st.(slots := st.slots + 1, choice := Some(Booted(s)), choiceAt := st.at)
    case Halt(ra, rb) =>
      st.(halts := st.halts + 1, choice := Some(Halted), choiceAt := st.at, halt := Some((ra, rb)))
    case Boot(load, entry) => st.(boots := st.boots + 1, boot := Some((load, entry)), bootAt := st.at)
    case Key(prod, _) => st.(keys := st.keys + [prod])
    case From(w) => st.(froms := st.froms + [w])
    case Source(slots) => st.(sources := st.sources + [slots])
    case Staged(stage) =>
      if st.last.Some? then
        WithSide(st, st.last.value, st.Of(st.last.value).(stages := st.Of(st.last.value).stages + [stage]))
      else st
    case Other => st
  }

  function TakeLine(st: Scan, row: Row): Scan { Take(st, row).(at := st.at + 1) }

  function ScanFrom(seen: seq<Seen>, st: Scan): (r: Scan)
    ensures r.at == st.at + |seen|
    decreases seen
  {
    if seen == [] then st else ScanFrom(seen[1..], TakeLine(st, seen[0].row))
  }

  /** The kernel ids of some lines, one a line. */
  function Ids(seen: seq<Seen>): (r: seq<string>) {
    if seen == [] then [] else (if seen[0].id.Some? then [seen[0].id.value] else []) + Ids(seen[1..])
  }

  // ------------------------------------------------------------ parse

  datatype Trouble =
    | NoBanner | ManyBanners | NoKey | ManyKeys | ManyFroms | SourceRows | RamSource
    | ManySlots | ManyHalts | ManyBoots | NoChoice | NoId | ManyIds
    | BadExpectation | NoVersion | NotAReason | BadWord | HaltWithManifest | SlotWithoutManifest | NoFrom

  datatype Facts = Facts(prod: bool, from: Option<string>, scan: Scan, choice: Choice, id: Option<string>)

  function ParseSeen(seen: seq<Seen>): Result<Facts, Trouble> {
    var st := ScanFrom(seen, START);
    if st.keys == [] then Refused(NoKey)
    else if |st.keys| > 1 then Refused(ManyKeys)
    else if |st.froms| > 1 then Refused(ManyFroms)
    else if |st.sources| != 1 then Refused(SourceRows)
    else if !st.sources[0] then Refused(RamSource)
    else if st.slots > 1 then Refused(ManySlots)
    else if st.halts > 1 then Refused(ManyHalts)
    else if st.boots > 1 then Refused(ManyBoots)
    else if st.choice.None? then Refused(NoChoice)
    else
      var from := if st.froms == [] then None else Some(st.froms[0]);
      if st.choice.value.Halted? then Ok(Facts(st.keys[0], from, st, Halted, None))
      else
        var ids := IdsAfter(seen, st);
        if ids == [] then Refused(NoId)
        else if |ids| > 1 then Refused(ManyIds)
        else Ok(Facts(st.keys[0], from, st, st.choice.value, Some(ids[0])))
  }

  /** The ids after the boot row, or after the choice when no boot row was printed. */
  function IdsAfter(seen: seq<Seen>, st: Scan): seq<string> {
    var start := if st.boot.Some? then st.bootAt else st.choiceAt;
    if start < |seen| then Ids(seen[start + 1..]) else []
  }

  function BannerCount(lines: seq<string>): (n: nat) {
    if lines == [] then 0 else (if Banner(lines[0]).Some? then 1 else 0) + BannerCount(lines[1..])
  }

  function AfterBanner(lines: seq<string>): seq<string> {
    if lines == [] then [] else if Banner(lines[0]).Some? then lines[1..] else AfterBanner(lines[1..])
  }

  function ParseLines(lines: seq<string>): Result<Facts, Trouble> {
    if BannerCount(lines) == 0 then Refused(NoBanner)
    else if BannerCount(lines) > 1 then Refused(ManyBanners)
    else ParseSeen(See(AfterBanner(lines)))
  }

  function Parse(text: string): Result<Facts, Trouble> { ParseLines(Lines(text)) }

  // ------------------------------------------------------------ expectations

  datatype Expect = AnyOk | OkVersion(version: nat) | AnyBad | BadFor(reason: string)

  const REASONS: seq<string> := [
    "ok", "short", "magic", "format", "header_len", "version", "payload_len", "flags", "reserved",
    "load_addr", "entry_addr", "dst_self", "dst_buf", "dst_loader", "truncated", "sig", "digest",
    "rollback", "flash_dst", "flash_match", "flash_form"]

  const OUT_OF_RANGE: string := "bad_reason"

  /** A pattern's `$` also stands before one last newline. */
  function Ended(s: string): string {
    if s != "" && s[|s| - 1] == '\n' then s[..|s| - 1] else s
  }

  function ParseOk(arg: string): Result<Expect, Trouble> {
    if arg != "" && AllDigits(arg) then Ok(OkVersion(ParseDec(arg)))
    else if IsReason(arg) then Refused(NoVersion)
    else Refused(BadExpectation)
  }

  function ParseBad(arg: string): Result<Expect, Trouble> {
    if arg != "" && AllDigits(arg) then Refused(NotAReason)
    else if !IsReason(arg) then Refused(BadExpectation)
    else if arg == "ok" || (arg !in REASONS && arg != OUT_OF_RANGE) then Refused(NotAReason)
    else Ok(BadFor(arg))
  }

  function ParseExpect(spec: string): Result<Expect, Trouble> {
    var s := Ended(spec);
    if s == "ok" then Ok(AnyOk)
    else if s == "bad" then Ok(AnyBad)
    else if Lit(s, "ok:").Some? then ParseOk(Lit(s, "ok:").value)
    else if Lit(s, "bad:").Some? then ParseBad(Lit(s, "bad:").value)
    else Refused(BadExpectation)
  }

  function LowerChar(c: char): (r: char)
    ensures IsHex(c) ==> IsLowerHex(r)
  {
    if 'A' <= c <= 'Z' then 'a' + (c - 'A') else c
  }

  function Lower(s: string): (r: string)
    ensures |r| == |s| && (AllHex(s) ==> AllLowerHex(r))
  {
    seq(|s|, i requires 0 <= i < |s| => LowerChar(s[i]))
  }

  /** An expected loader word, normalised to eight lower-case digits. */
  function ParseWord(spec: string): Result<string, Trouble> {
    var s := Ended(spec);
    var d := if Lit(s, "0x").Some? then Lit(s, "0x").value else s;
    if 1 <= |d| <= 8 && AllHex(d) then Ok(Hex(ParseHex(Lower(d)), 8)) else Refused(BadWord)
  }

  // ------------------------------------------------------------ judge

  /** The choice the slots' own verdicts imply: the higher accepted version, A on a tie. */
  function Implied(a: Side, b: Side): Choice {
    var okA := a.verdict.Some? && a.verdict.value.Accepted?;
    var okB := b.verdict.Some? && b.verdict.value.Accepted?;
    if okA && okB then Booted(if b.verdict.value.version > a.verdict.value.version then B else A)
    else if okA then Booted(A) else if okB then Booted(B) else Halted
  }

  datatype Want = Want(slot: Choice, a: Expect, b: Expect, manifest: Option<string>, allowDev: bool,
                       from: Option<string>)
  {
    function Of(s: Slot): Expect { if s == A then a else b }
  }

  datatype Check =
    | LoaderWord | KeyKind | Order | Layout(of: Slot) | Copy(of: Slot) | Stages(of: Slot) | VerdictOf(of: Slot)
    | D4 | HaltReasons | BootRowThere | Identity | WantedSlot

  datatype Finding = Finding(ok: bool, check: Check)

  predicate Matches(v: Option<Verdict>, e: Expect) {
    match e
    case AnyOk => v.Some? && v.value.Accepted?
    case OkVersion(n) => v == Some(Accepted(n))
    case AnyBad => v.Some? && v.value.Bad?
    case BadFor(r) => v == Some(Bad(r))
  }

  function VerRows(stages: seq<Stage>): seq<Stage> {
    if stages == [] then []
    else (if stages[0].Ver? then [stages[0]] else []) + VerRows(stages[1..])
  }

  /** An accepted slot printed its three stages and one version row, good, of the accepted version. */
  predicate StagesSupport(stages: seq<Stage>, version: nat) {
    HdrOk in stages && SigOk in stages && DigestOk in stages
    && |VerRows(stages)| == 1 && VerRows(stages)[0].Ver? && VerRows(stages)[0].ok
    && VerRows(stages)[0].cur == version
  }

  predicate LayoutRight(s: Slot, c: Copied) { c.flash == FlashOf(s) && c.buf == BufOf(s) }

  predicate CopyRight(c: Copied) { c.dots == c.n / TICK && c.spaced == (c.n >= TICK) }

  function ReasonOf(v: Option<Verdict>): Option<string> {
    match v
    case None => Some("")
    case Some(Bad(r)) => Some(r)
    case Some(Accepted(_)) => None
  }

  function SideFindings(s: Slot, side: Side, e: Expect): seq<Finding> {
    (if side.read.Some? then
       [Finding(LayoutRight(s, side.read.value), Layout(s)), Finding(CopyRight(side.read.value), Copy(s))]
     else [])
    + (if side.verdict.Some? && side.verdict.value.Accepted? then
         [Finding(StagesSupport(side.stages, side.verdict.value.version), Stages(s))]
       else [])
    + [Finding(Matches(side.verdict, e), VerdictOf(s))]
  }

  const IN_ORDER: seq<Step> := [Reads(A), Verdicts(A), Reads(B), Verdicts(B)]

  function Head(f: Facts, w: Want): seq<Finding> {
    (if w.from.Some? then [Finding(f.from == w.from, LoaderWord)] else [])
    + [Finding(f.prod || w.allowDev, KeyKind), Finding(f.scan.order == IN_ORDER, Order)]
  }

  function Tail(f: Facts, w: Want): seq<Finding> {
    [Finding(f.choice == Implied(f.scan.a, f.scan.b), D4)]
    + (if f.scan.halt.Some? then
         [Finding(ReasonOf(f.scan.a.verdict) == Some(f.scan.halt.value.0)
                  && ReasonOf(f.scan.b.verdict) == Some(f.scan.halt.value.1), HaltReasons)]
       else [])
    + (if f.choice.Booted? then
         [Finding(f.scan.boot.Some?, BootRowThere),
          Finding(f.id.Some? && w.manifest == Some(Lower(f.id.value)), Identity)]
       else [])
    + [Finding(f.choice == w.slot, WantedSlot)]
  }

  function Findings(f: Facts, w: Want): seq<Finding> {
    Head(f, w) + SideFindings(A, f.scan.a, w.a) + SideFindings(B, f.scan.b, w.b) + Tail(f, w)
  }

  predicate AllGood(fs: seq<Finding>) { forall i :: 0 <= i < |fs| ==> fs[i].ok }

  datatype Report = Report(pass: bool, findings: seq<Finding>)

  function Weigh(f: Facts, w: Want): Result<Report, Trouble> {
    if w.from.Some? && f.from.None? then Refused(NoFrom)
    else Ok(Report(AllGood(Findings(f, w)), Findings(f, w)))
  }

  function JudgeWant(text: string, w: Want): Result<Report, Trouble> {
    match Parse(text)
    case Refused(why) => Refused(why)
    case Ok(f) => Weigh(f, w)
  }

  /** The expectations as the command line gives them. */
  function Wanted(slot: Choice, a: string, b: string, manifest: Option<string>, allowDev: bool,
                  from: Option<string>): Result<Want, Trouble> {
    match ParseExpect(a) case Refused(why) => Refused(why) case Ok(ea) =>
    match ParseExpect(b) case Refused(why) => Refused(why) case Ok(eb) =>
    match (if from.None? then Ok("") else ParseWord(from.value)) case Refused(why) => Refused(why) case Ok(word) =>
      if slot.Halted? && manifest.Some? then Refused(HaltWithManifest)
      else if slot.Booted? && manifest.None? then Refused(SlotWithoutManifest)
      else Ok(Want(slot, ea, eb, manifest, allowDev, if from.None? then None else Some(word)))
  }

  function Judge(text: string, slot: Choice, a: string, b: string, manifest: Option<string>, allowDev: bool,
                 from: Option<string>): Result<Report, Trouble> {
    match Wanted(slot, a, b, manifest, allowDev, from)
    case Refused(why) => Refused(why)
    case Ok(w) => JudgeWant(text, w)
  }

  // ------------------------------------------------------------ the passes as the tool runs them

  method ScanLines(seen: seq<Seen>) returns (st: Scan)
    ensures st == ScanFrom(seen, START)
  {
    st := START;
    var i := 0;
    assert seen[0..] == seen;
    while i < |seen|
      invariant 0 <= i <= |seen| && st.at == i
      invariant ScanFrom(seen[i..], st) == ScanFrom(seen, START)
    {
      assert seen[i..][1..] == seen[i + 1..] && seen[i..][0] == seen[i];
      st := TakeLine(st, seen[i].row);
      i := i + 1;
    }
  }

  /** The one banner and the lines after it. */
  method FindBanner(lines: seq<string>) returns (count: nat, rest: seq<string>)
    ensures count == BannerCount(lines)
    ensures count == 1 ==> rest == AfterBanner(lines)
  {
    count, rest := 0, [];
    var i := |lines|;
    while i > 0
      invariant 0 <= i <= |lines|
      invariant count == BannerCount(lines[i..])
      invariant count >= 1 ==> rest == AfterBanner(lines[i..])
    {
      i := i - 1;
      assert lines[i..][1..] == lines[i + 1..] && lines[i..][0] == lines[i];
      if Banner(lines[i]).Some? {
        count, rest := count + 1, lines[i + 1..];
      }
    }
    assert lines[0..] == lines;
  }

  method ParseText(text: string) returns (r: Result<Facts, Trouble>)
    ensures r == Parse(text)
  {
    hide ScanFrom, Lines, BannerCount, AfterBanner;
    var count, rest := FindBanner(Lines(text));
    if count == 0 { return Refused(NoBanner); }
    if count > 1 { return Refused(ManyBanners); }
    var seen := See(rest);
    var st := ScanLines(seen);
    if st.keys == [] { return Refused(NoKey); }
    if |st.keys| > 1 { return Refused(ManyKeys); }
    if |st.froms| > 1 { return Refused(ManyFroms); }
    if |st.sources| != 1 { return Refused(SourceRows); }
    if !st.sources[0] { return Refused(RamSource); }
    if st.slots > 1 { return Refused(ManySlots); }
    if st.halts > 1 { return Refused(ManyHalts); }
    if st.boots > 1 { return Refused(ManyBoots); }
    if st.choice.None? { return Refused(NoChoice); }
    var from := if st.froms == [] then None else Some(st.froms[0]);
    if st.choice.value.Halted? { return Ok(Facts(st.keys[0], from, st, Halted, None)); }
    var ids := IdsAfter(seen, st);
    if ids == [] { return Refused(NoId); }
    if |ids| > 1 { return Refused(ManyIds); }
    return Ok(Facts(st.keys[0], from, st, st.choice.value, Some(ids[0])));
  }

  method JudgeCapture(text: string, w: Want) returns (r: Result<Report, Trouble>)
    ensures r == JudgeWant(text, w)
  {
    hide Parse, Findings;
    var f := ParseText(text);
    if f.Refused? { return Refused(f.why); }
    if w.from.Some? && f.value.from.None? { return Refused(NoFrom); }
    var res := Compare(f.value, w);
    var pass := true;
    for i := 0 to |res|
      invariant pass <==> AllGood(res[..i])
    {
      assert res[..i + 1] == res[..i] + [res[i]];
      AllGoodConcat(res[..i], [res[i]]);
      GoodOne(res[i]);
      pass := pass && res[i].ok;
    }
    assert res[..|res|] == res;
    return Ok(Report(pass, res));
  }

  method Compare(f: Facts, w: Want) returns (res: seq<Finding>)
    ensures res == Findings(f, w)
  {
    res := [];
    if w.from.Some? {
      res := res + [Finding(f.from == w.from, LoaderWord)];
    }
    res := res + [Finding(f.prod || w.allowDev, KeyKind), Finding(f.scan.order == IN_ORDER, Order)];
    ghost var head := res;
    var slots := [A, B];
    for k := 0 to 2
      invariant k == 0 ==> res == head
      invariant k == 1 ==> res == head + SideFindings(A, f.scan.a, w.a)
      invariant k == 2 ==> res == head + SideFindings(A, f.scan.a, w.a) + SideFindings(B, f.scan.b, w.b)
    {
      res := res + SideFindings(slots[k], f.scan.Of(slots[k]), w.Of(slots[k]));
    }
    res := res + Tail(f, w);
  }

  // ------------------------------------------------------------ what a PASS means

  /** Holds of every scan: what was read and judged is what the order lists, and a halt is the choice
      only with its reasons. */
  ghost predicate SideKept(order: seq<Step>, s: Slot, side: Side) {
    (side.read.Some? <==> Reads(s) in order) && (side.verdict.Some? <==> Verdicts(s) in order)
  }

  ghost predicate Kept(st: Scan) {
    && (forall s :: SideKept(st.order, s, st.Of(s)))
    && (st.halt.Some? <==> st.halts > 0)
    && (st.boot.Some? <==> st.boots > 0)
    && (st.choice == Some(Halted) ==> st.halt.Some?)
    && (st.boot.Some? ==> st.bootAt < st.at)
    && (st.choice.Some? ==> st.choiceAt < st.at)
  }

  /** One step more, and what it gives its own slot. */
  lemma SideGrows(order: seq<Step>, x: Step, s: Slot, before: Side, after: Side)
    requires SideKept(order, s, before)
    requires after.read.Some? <==> before.read.Some? || x == Reads(s)
    requires after.verdict.Some? <==> before.verdict.Some? || x == Verdicts(s)
    ensures SideKept(order + [x], s, after)
  {}

  lemma ReadKeeps(st: Scan, row: Row)
    requires Kept(st) && row.Read?
    ensures Kept(TakeLine(st, row))
  {
    hide SideKept;
    var next := TakeLine(st, row);
    forall s ensures SideKept(next.order, s, next.Of(s)) {
      SideGrows(st.order, Reads(row.slot), s, st.Of(s), next.Of(s));
    }
  }

  lemma VerdictKeeps(st: Scan, row: Row)
    requires Kept(st) && row.Judged?
    ensures Kept(TakeLine(st, row))
  {
    hide SideKept;
    var next := TakeLine(st, row);
    forall s ensures SideKept(next.order, s, next.Of(s)) {
      SideGrows(st.order, Verdicts(row.slot), s, st.Of(s), next.Of(s));
    }
  }

  lemma OtherKeeps(st: Scan, row: Row)
    requires Kept(st) && !row.Read? && !row.Judged?
    ensures Kept(TakeLine(st, row))
  {
    if row.Staged? {
      StagedKeeps(st, row);
    } else {
      ChoiceKeeps(st, row);
    }
  }

  /** Nothing a scan keeps depends on the stages. */
  lemma SidesKeep(st: Scan, t: Scan)
    requires Kept(st)
    requires t.order == st.order && t.at == st.at + 1
    requires t.a.read == st.a.read && t.a.verdict == st.a.verdict
    requires t.b.read == st.b.read && t.b.verdict == st.b.verdict
    requires t.halt.Some? <==> t.halts > 0
    requires t.boot.Some? <==> t.boots > 0
    requires t.choice == Some(Halted) ==> t.halt.Some?
    requires t.boot.Some? ==> t.bootAt < t.at
    requires t.choice.Some? ==> t.choiceAt < t.at
    ensures Kept(t)
  {
    assert st.Of(A) == st.a && st.Of(B) == st.b;
  }

  lemma StagedKeeps(st: Scan, row: Row)
    requires Kept(st) && row.Staged?
    ensures Kept(TakeLine(st, row))
  {
    var t := TakeLine(st, row);
    assert t == st.(a := t.a, b := t.b, at := st.at + 1);
    SidesKeep(st, t);
  }

  lemma ChoiceKeeps(st: Scan, row: Row)
    requires Kept(st) && !row.Read? && !row.Judged? && !row.Staged?
    ensures Kept(TakeLine(st, row))
  {
    SidesKeep(st, TakeLine(st, row));
  }

  lemma {:induction false} ScanKeeps(seen: seq<Seen>, st: Scan)
    requires Kept(st)
    ensures Kept(ScanFrom(seen, st))
    decreases seen
  {
    hide Kept, TakeLine;
    if seen != [] {
      var row := seen[0].row;
      if row.Read? {
        ReadKeeps(st, row);
      } else if row.Judged? {
        VerdictKeeps(st, row);
      } else {
        OtherKeeps(st, row);
      }
      ScanKeeps(seen[1..], TakeLine(st, seen[0].row));
    }
  }

  /** `s` is the slot to boot: accepted, and no accepted slot has a higher version, nor an equal one
      before it. */
  ghost predicate Wins(st: Scan, s: Slot) {
    && st.Of(s).verdict.Some? && st.Of(s).verdict.value.Accepted?
    && forall t :: t != s && st.Of(t).verdict.Some? && st.Of(t).verdict.value.Accepted? ==>
         st.Of(t).verdict.value.version < st.Of(s).verdict.value.version
         || (s == A && st.Of(t).verdict.value.version == st.Of(s).verdict.value.version)
  }

  ghost predicate SlotRight(st: Scan, s: Slot, e: Expect) {
    && st.Of(s).read.Some? && LayoutRight(s, st.Of(s).read.value) && CopyRight(st.Of(s).read.value)
    && Matches(st.Of(s).verdict, e)
    && (st.Of(s).verdict.value.Accepted? ==> StagesSupport(st.Of(s).stages, st.Of(s).verdict.value.version))
  }

  /** A capture that chose `s`: the winner, no halt row, a boot row, and one kernel id after it, the
      manifest's. */
  ghost predicate BootedRight(seen: seq<Seen>, f: Facts, s: Slot, w: Want) {
    && Wins(f.scan, s) && f.scan.halts == 0 && f.scan.boots == 1
    && f.scan.bootAt < |seen| && exists id :: Ids(seen[f.scan.bootAt + 1..]) == [id] && w.manifest == Some(Lower(id))
  }

  /** A capture that halted: both slots refused, with the reasons the halt row repeats. */
  ghost predicate HaltedRight(f: Facts) {
    exists ra, rb :: f.scan.a.verdict == Some(Bad(ra)) && f.scan.b.verdict == Some(Bad(rb))
                     && f.scan.halt == Some((ra, rb))
  }

  ghost predicate Right(seen: seq<Seen>, f: Facts, w: Want) {
    && (w.from.Some? ==> f.from == w.from)
    && (f.prod || w.allowDev)
    && f.scan.order == IN_ORDER
    && (forall s :: SlotRight(f.scan, s, w.Of(s)))
    && f.choice == w.slot
    && (f.choice.Halted? ==> HaltedRight(f))
    && (forall s :: f.choice == Booted(s) ==> BootedRight(seen, f, s, w))
  }

  lemma AllGoodConcat(a: seq<Finding>, b: seq<Finding>)
    ensures AllGood(a + b) <==> AllGood(a) && AllGood(b)
  {
    assert AllGood(a + b) ==> forall i :: 0 <= i < |b| ==> b[i] == (a + b)[|a| + i];
    assert AllGood(a + b) ==> forall i :: 0 <= i < |a| ==> a[i] == (a + b)[i];
  }

  lemma GoodOne(x: Finding)
    ensures AllGood([x]) <==> x.ok
  {
    assert [x][0] == x;
  }

  lemma NoneIsGood()
    ensures AllGood([])
  {}

  lemma GoodHead(f: Facts, w: Want)
    ensures AllGood(Head(f, w)) <==>
            (w.from.Some? ==> f.from == w.from) && (f.prod || w.allowDev) && f.scan.order == IN_ORDER
  {
    var h := Head(f, w);
    if w.from.Some? {
      assert h == [Finding(f.from == w.from, LoaderWord), Finding(f.prod || w.allowDev, KeyKind),
                   Finding(f.scan.order == IN_ORDER, Order)];
      assert AllGood(h) ==> h[0].ok && h[1].ok && h[2].ok;
    } else {
      assert h == [Finding(f.prod || w.allowDev, KeyKind), Finding(f.scan.order == IN_ORDER, Order)];
      assert AllGood(h) ==> h[0].ok && h[1].ok;
    }
  }

  lemma GoodSide(st: Scan, s: Slot, e: Expect)
    requires st.Of(s).read.Some?
    ensures AllGood(SideFindings(s, st.Of(s), e)) <==> SlotRight(st, s, e)
  {
    hide AllGood, StagesSupport;
    var side := st.Of(s);
    var x, y := Finding(LayoutRight(s, side.read.value), Layout(s)), Finding(CopyRight(side.read.value), Copy(s));
    var z := Finding(Matches(side.verdict, e), VerdictOf(s));
    var mid := if side.verdict.Some? && side.verdict.value.Accepted? then
                 [Finding(StagesSupport(side.stages, side.verdict.value.version), Stages(s))] else [];
    assert SideFindings(s, side, e) == [x] + [y] + mid + [z];
    AllGoodConcat([x] + [y] + mid, [z]);
    AllGoodConcat([x] + [y], mid);
    AllGoodConcat([x], [y]);
    GoodOne(x);
    GoodOne(y);
    GoodOne(z);
    if mid != [] {
      GoodOne(mid[0]);
    } else {
      NoneIsGood();
    }
  }

  lemma ImpliedExactly(st: Scan)
    ensures forall s :: Implied(st.a, st.b) == Booted(s) <==> Wins(st, s)
  {
    forall s
      ensures Implied(st.a, st.b) == Booted(s) <==> Wins(st, s)
    {
      assert st.Of(A) == st.a && st.Of(B) == st.b;
      if Wins(st, s) {
        var t := if s == A then B else A;
        assert t != s;
      }
    }
  }

  predicate ReasonsRepeat(f: Facts) {
    f.scan.halt.Some? ==>
      ReasonOf(f.scan.a.verdict) == Some(f.scan.halt.value.0) && ReasonOf(f.scan.b.verdict) == Some(f.scan.halt.value.1)
  }

  predicate KernelNamed(f: Facts, w: Want) {
    f.choice.Booted? ==> f.scan.boot.Some? && f.id.Some? && w.manifest == Some(Lower(f.id.value))
  }

  lemma GoodTail(f: Facts, w: Want)
    ensures AllGood(Tail(f, w)) <==>
            f.choice == Implied(f.scan.a, f.scan.b) && ReasonsRepeat(f) && KernelNamed(f, w) && f.choice == w.slot
  {
    hide AllGood, Implied, Lower, ReasonOf;
    var d := Finding(f.choice == Implied(f.scan.a, f.scan.b), D4);
    var k := Finding(f.choice == w.slot, WantedSlot);
    var h := if f.scan.halt.Some? then
               [Finding(ReasonOf(f.scan.a.verdict) == Some(f.scan.halt.value.0)
                        && ReasonOf(f.scan.b.verdict) == Some(f.scan.halt.value.1), HaltReasons)]
             else [];
    var x := Finding(f.scan.boot.Some?, BootRowThere);
    var y := Finding(f.id.Some? && w.manifest == Some(Lower(f.id.value)), Identity);
    var b := if f.choice.Booted? then [x, y] else [];
    assert Tail(f, w) == [d] + h + b + [k];
    AllGoodConcat([d] + h + b, [k]);
    AllGoodConcat([d] + h, b);
    AllGoodConcat([d], h);
    AllGoodConcat([x], [y]);
    assert [x] + [y] == [x, y];
    GoodOne(d);
    GoodOne(k);
    GoodOne(x);
    GoodOne(y);
    NoneIsGood();
    if f.scan.halt.Some? {
      GoodOne(h[0]);
    }
  }

  lemma GoodChoice(seen: seq<Seen>, f: Facts, w: Want)
    requires ParseSeen(seen) == Ok(f) && Kept(f.scan) && f.scan.at == |seen|
    requires f.scan.a.verdict.Some? && f.scan.b.verdict.Some?
    ensures f.choice == Implied(f.scan.a, f.scan.b) && ReasonsRepeat(f) && KernelNamed(f, w) <==>
            && (f.choice.Halted? ==> HaltedRight(f))
            && forall s :: f.choice == Booted(s) ==> BootedRight(seen, f, s, w)
  {
    hide Ids, Lower, ScanFrom;
    assert f.scan == ScanFrom(seen, START);
    ImpliedExactly(f.scan);
    match f.choice
    case Halted =>
    case Booted(s) =>
      assert IdsAfter(seen, f.scan) == [f.id.value];
      if BootedRight(seen, f, s, w) {
        assert f.scan.Of(s).verdict.value.Accepted?;
      }
  }

  predicate Passes(text: string, w: Want) { JudgeWant(text, w).Ok? && JudgeWant(text, w).value.pass }

  lemma BothSlots(st: Scan, w: Want)
    ensures SlotRight(st, A, w.a) && SlotRight(st, B, w.b) <==> forall s :: SlotRight(st, s, w.Of(s))
  {
    hide SlotRight;
    assert w.Of(A) == w.a && w.Of(B) == w.b;
  }

  lemma FindingsExactly(seen: seq<Seen>, f: Facts, w: Want)
    requires ParseSeen(seen) == Ok(f) && f.scan == ScanFrom(seen, START)
    ensures AllGood(Findings(f, w)) <==> Right(seen, f, w)
  {
    hide AllGood, Head, Tail, SideFindings, ScanFrom, SlotRight, HaltedRight, BootedRight, ParseSeen;
    StartKept();
    ScanKeeps(seen, START);
    var h, a, b, t := Head(f, w), SideFindings(A, f.scan.a, w.a), SideFindings(B, f.scan.b, w.b), Tail(f, w);
    AllGoodConcat(h + a + b, t);
    AllGoodConcat(h + a, b);
    AllGoodConcat(h, a);
    GoodHead(f, w);
    GoodTail(f, w);
    BothSlots(f.scan, w);
    if f.scan.order == IN_ORDER {
      InOrderKnown(f.scan);
      assert f.scan.Of(A) == f.scan.a && f.scan.Of(B) == f.scan.b;
      GoodSide(f.scan, A, w.a);
      GoodSide(f.scan, B, w.b);
      GoodChoice(seen, f, w);
    }
  }

  /** A capture passes exactly when it can be parsed and everything it says is right. */
  lemma PassExactly(text: string, w: Want)
    ensures Passes(text, w) <==>
            Parse(text).Ok? && Right(See(AfterBanner(Lines(text))), Parse(text).value, w)
  {
    hide Lines, AllGood, Findings, ScanFrom, SlotRight, HaltedRight, BootedRight;
    if Parse(text).Ok? {
      FindingsExactly(See(AfterBanner(Lines(text))), Parse(text).value, w);
    }
  }

  lemma StartKept()
    ensures Kept(START)
  {}

  lemma InOrderKnown(st: Scan)
    requires Kept(st) && st.order == IN_ORDER
    ensures st.a.read.Some? && st.b.read.Some? && st.a.verdict.Some? && st.b.verdict.Some?
  {
    assert IN_ORDER[0] == Reads(A) && IN_ORDER[1] == Verdicts(A) && IN_ORDER[2] == Reads(B)
           && IN_ORDER[3] == Verdicts(B);
    assert st.Of(A) == st.a && st.Of(B) == st.b;
  }

  // ------------------------------------------------------------ what does not matter

  lemma {:induction false} BannerCountConcat(x: seq<string>, y: seq<string>)
    requires forall i :: 0 <= i < |x| ==> Banner(x[i]).None?
    ensures BannerCount(x + y) == BannerCount(y) && AfterBanner(x + y) == AfterBanner(y)
  {
    hide Banner;
    if x == [] {
      assert x + y == y;
    } else {
      assert (x + y)[1..] == x[1..] + y && (x + y)[0] == x[0];
      BannerCountConcat(x[1..], y);
    }
  }

  /** Whole lines put before a capture change nothing, as long as none of them holds a banner. */
  lemma EarlierLinesIgnored(p: string, text: string)
    requires forall i :: 0 <= i < |Lines(p)| ==> Banner(Lines(p)[i]).None?
    ensures Parse(p + "\n" + text) == Parse(text)
    ensures forall w :: JudgeWant(p + "\n" + text, w) == JudgeWant(text, w)
  {
    hide Banner, ParseSeen, See, Weigh;
    Text.WithoutConcat(p + "\n", text, IS_CR);
    Text.WithoutConcat(p, "\n", IS_CR);
    Text.WithoutNone("\n", IS_CR);
    Text.SplitAtNewline(Text.Without(p, IS_CR), Text.Without(text, IS_CR));
    BannerCountConcat(Lines(p), Lines(text));
  }

  /** `s` with `n[i]` carriage returns put before its character `i`, and the last `n` after its end. */
  function Sprinkle(s: string, n: seq<nat>): string
    requires |n| == |s| + 1
  {
    Repeat('\r', n[0]) + if s == "" then "" else [s[0]] + Sprinkle(s[1..], n[1..])
  }

  lemma {:induction false} SprinkleDrops(s: string, n: seq<nat>)
    requires |n| == |s| + 1
    ensures Text.Without(Sprinkle(s, n), IS_CR) == Text.Without(s, IS_CR)
  {
    var t := if s == "" then "" else [s[0]] + Sprinkle(s[1..], n[1..]);
    Text.WithoutConcat(Repeat('\r', n[0]), t, IS_CR);
    Text.WithoutAll(Repeat('\r', n[0]), IS_CR);
    if s != "" {
      SprinkleDrops(s[1..], n[1..]);
      assert t[1..] == Sprinkle(s[1..], n[1..]);
    }
  }

  /** Carriage returns change nothing wherever they are put. */
  lemma ReturnsIgnored(text: string, n: seq<nat>)
    requires |n| == |text| + 1
    ensures Parse(Sprinkle(text, n)) == Parse(text)
    ensures forall w :: JudgeWant(Sprinkle(text, n), w) == JudgeWant(text, w)
  {
    hide ParseLines, Weigh;
    SprinkleDrops(text, n);
  }
}
