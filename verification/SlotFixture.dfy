/** The captures `tools/bootslot.py` prints for its controls, and the exact condition under which the
    judge passes one: the printer and the reader are each other's partner. */
module SlotFixture {
  import opened Common
  import opened SlotLines
  import opened SlotReader
  import opened Text

  // ------------------------------------------------------------ printing

  /** One slot's lines: what was copied, what it announced, and the version its stages report. */
  datatype Printed = Printed(slot: Slot, verdict: Verdict, n: nat, dots: nat, ctr: nat, cur: nat)

  function Stages(p: Printed): seq<string> {
    match p.verdict
    case Accepted(_) => [MARK + "HDR ok", MARK + "SIG ok", MARK + "DIGEST ok", MARK + VerText(p.cur, p.ctr)]
    case Bad(r) =>
      if r == "sig" then [MARK + "HDR ok", MARK + "SIG bad"]
      else if r == "digest" then [MARK + "HDR ok", MARK + "SIG ok", MARK + "DIGEST bad"]
      else [MARK + ("HDR bad=" + r)]
  }

  function SlotText(p: Printed): seq<string> {
    [MARK + ReadText(p.slot, p.n, p.dots)] + Stages(p) + [MARK + VerdictText(p.slot, p.verdict)]
  }

  /** A whole run: what stands before the banner, the loader words, the key, both slots, perhaps a slot
      row that does not belong there, the choice, the boot row and the kernel ids after it, and how
      many carriage returns end a line. */
  datatype Fixture = Fixture(pre: seq<string>, froms: seq<string>, prod: bool, key: string, flash: bool,
                             a: Printed, b: Printed, stray: Option<Slot>, choice: Choice, boot: bool,
                             id: string, ids: nat, crs: nat)

  /** What stands after the last `=` of a slot's verdict line. */
  function VerdictTail(v: Verdict): string { match v case Accepted(n) => Dec(n) case Bad(r) => r }

  const LINUX: string := "Linux version 2.6.30.9 (fixture)"
  const RUNNING: string := "rlxfw: init running, RLXFW-R3-RUNG1-OK"
  const ENTRY: string := "80500000"

  function Ending(f: Fixture): seq<string> { [LINUX] + Repeat("RLXFW-ID0=" + f.id, f.ids) + [RUNNING, "/ # "] }

  function ChosenText(s: Slot): string { MARK + (if s == A then "SLOT A" else "SLOT B") }

  function Stray(f: Fixture): seq<string> { if f.stray.Some? then [ChosenText(f.stray.value)] else [] }

  function Choosing(f: Fixture): seq<string> {
    match f.choice
    case Halted =>
      [MARK + HaltText(VerdictTail(f.a.verdict), VerdictTail(f.b.verdict)), "refuse-action halt"]
    case Booted(s) =>
      [ChosenText(s)]
      + (if f.boot then [MARK + BootText(ENTRY, ENTRY)] else []) + Ending(f)
  }

  function FromLines(froms: seq<string>): (r: seq<string>)
    ensures |r| == |froms| && forall i :: 0 <= i < |r| ==> r[i] == MARK + ("FROM " + (froms[i] + ""))
  {
    seq(|froms|, i requires 0 <= i < |froms| => MARK + ("FROM " + (froms[i] + "")))
  }

  function Opening(f: Fixture): seq<string> {
    FromLines(f.froms) + [MARK + KeyText(f.prod, f.key), MARK + (if f.flash then "CTRSRC flash" else "CTRSRC ram")]
  }

  function AfterBannerText(f: Fixture): seq<string> {
    Opening(f) + SlotText(f.a) + SlotText(f.b) + Stray(f) + Choosing(f)
  }

  const BUILD: string := "6b1dc4fd"
  const BANNER: string := "RLXBOOT-V1 build=" + BUILD

  const REBOOT: string := "Reboot Result from Watchdog Timeout!"
  const BOOTING: string := "Booting..."

  function Earlier(f: Fixture): seq<string> { [REBOOT] + [BOOTING] + f.pre }

  function Join(lines: seq<string>, crs: nat): string {
    if lines == [] then "" else lines[0] + (Repeat('\r', crs) + "\n") + Join(lines[1..], crs)
  }

  function Capture(f: Fixture): string { Join(Earlier(f) + [BANNER] + AfterBannerText(f), f.crs) }

  predicate PlainChar(c: char) { c != '\n' && c != '\r' }

  predicate Plain(s: string) { forall i :: 0 <= i < |s| ==> PlainChar(s[i]) }

  ghost predicate WellFormed(f: Fixture) {
    && (forall i :: 0 <= i < |f.pre| ==> Plain(f.pre[i]) && Banner(f.pre[i]).None?)
    && (forall i :: 0 <= i < |f.froms| ==> |f.froms[i]| == 8 && AllLowerHex(f.froms[i]))
    && |f.key| == 64 && AllLowerHex(f.key) && |f.id| == 8 && AllHex(f.id)
    && (f.a.verdict.Bad? ==> IsReason(f.a.verdict.reason))
    && (f.b.verdict.Bad? ==> IsReason(f.b.verdict.reason))
  }

  // ------------------------------------------------------------ lines without a banner or an id

  predicate TameChar(c: char) { ' ' <= c <= '~' && c != 'V' && c != 'W' }

  /** Printable, and without the letters only a banner and an id need. */
  predicate Tame(s: string) { forall i :: 0 <= i < |s| ==> TameChar(s[i]) }

  lemma TameConcat(a: string, b: string)
    requires Tame(a) && Tame(b)
    ensures Tame(a + b)
  {}

  lemma BannerStarts(s: string)
    ensures BannerHere(s).Some? ==> |s| > 9 && s[8] == 'V' && s[9] == '1'
  {
    var p := "RLXBOOT-V1 build=";
    assert p <= s ==> s[8] == p[8] && s[9] == p[9];
  }

  lemma {:induction false} NoBanner(s: string)
    requires forall i :: 0 <= i < |s| - 1 && s[i] == 'V' ==> s[i + 1] != '1'
    ensures Banner(s).None?
  {
    hide BannerHere;
    BannerStarts(s);
    if s != "" {
      NoBanner(s[1..]);
    }
  }

  lemma IdStarts(s: string)
    ensures IdHere(s).Some? ==> 'W' in s && '=' in s
  {
    var p := "RLXFW-ID0=";
    assert p <= s ==> s[4] == p[4] && s[9] == p[9];
  }

  lemma {:induction false} NoId(s: string)
    requires 'W' !in s || '=' !in s
    ensures Id(s).None?
  {
    hide IdHere;
    IdStarts(s);
    if s != "" {
      NoId(s[1..]);
    }
  }

  /** A line that reads as `seen` and holds neither a line break nor a banner. */
  ghost predicate ReadsAs(line: string, seen: Seen) {
    Plain(line) && Banner(line).None? && SeeLine(line) == seen
  }

  function Quiet(row: Row): Seen { Seen(row, None) }

  lemma TameReads(s: string)
    requires Tame(s)
    ensures ReadsAs(s, Quiet(RowOf(s)))
  {
    hide RowOf;
    assert forall i :: 0 <= i < |s| ==> TameChar(s[i]);
    NoBanner(s);
    NoId(s);
  }

  lemma TameBody(body: string)
    requires Tame(body)
    ensures ReadsAs(MARK + body, Quiet(BodyRow(body)))
  {
    hide BodyRow, Lit;
    assert Tame(MARK);
    TameConcat(MARK, body);
    TameReads(MARK + body);
    LitBack(MARK, body);
  }

  /** Verdict and version rows have their `V` before an `E`. */
  lemma VBody(body: string, t: string)
    requires body == "VE" + t && Tame(t)
    ensures ReadsAs(MARK + body, Quiet(BodyRow(body)))
  {
    hide BodyRow, Lit, Banner, Id;
    var s := MARK + body;
    assert Tame(MARK);
    forall i | 0 <= i < |s|
      ensures PlainChar(s[i]) && s[i] != 'W' && (s[i] == 'V' ==> i == 8)
    {
      if i >= 10 {
        assert s[i] == t[i - 10];
        assert TameChar(t[i - 10]);
      } else if i < 8 {
        assert s[i] == MARK[i];
        assert TameChar(MARK[i]);
      } else {
        assert s[i] == "VE"[i - 8];
      }
    }
    assert s[9] == 'E';
    NoBanner(s);
    NoId(s);
    LitBack(MARK, body);
  }

  lemma TameParts(s: string)
    ensures AllDigits(s) || AllLowerHex(s) || AllHex(s) || AllDots(s) || IsReason(s) ==> Tame(s)
  {}

  // ------------------------------------------------------------ what the printed lines read as

  ghost predicate AllRead(lines: seq<string>, seen: seq<Seen>) {
    |lines| == |seen| && forall i :: 0 <= i < |lines| ==> ReadsAs(lines[i], seen[i])
  }

  lemma AllReadConcat(l1: seq<string>, s1: seq<Seen>, l2: seq<string>, s2: seq<Seen>)
    requires AllRead(l1, s1) && AllRead(l2, s2)
    ensures AllRead(l1 + l2, s1 + s2)
  {
    hide ReadsAs;
  }

  function ReadRowOf(p: Printed): Row {
    Read(p.slot, FlashOf(p.slot), BufOf(p.slot), p.n, if p.n >= TICK then p.dots else 0, p.n >= TICK)
  }

  function StageSeen(p: Printed): seq<Seen> {
    match p.verdict
    case Accepted(_) =>
      [Quiet(Staged(HdrOk)), Quiet(Staged(SigOk)), Quiet(Staged(DigestOk)), Quiet(Staged(Ver(p.cur, p.ctr, true)))]
    case Bad(r) =>
      if r == "sig" then [Quiet(Staged(HdrOk)), Quiet(Other)]
      else if r == "digest" then [Quiet(Staged(HdrOk)), Quiet(Staged(SigOk)), Quiet(Other)]
      else [Quiet(Other)]
  }

  function SlotSeen(p: Printed): seq<Seen> {
    [Quiet(ReadRowOf(p))] + StageSeen(p) + [Quiet(Judged(p.slot, p.verdict))]
  }

  lemma ReadLine(p: Printed)
    ensures ReadsAs(MARK + ReadText(p.slot, p.n, p.dots), Quiet(ReadRowOf(p)))
  {
    hide BodyRow, Hex, Dec, ReadsAs, Dots, IsReason;
    ReadBack(p.slot, p.n, p.dots);
    var f, b, d, t := Hex(FlashOf(p.slot), 8), Hex(BufOf(p.slot), 8), Dec(p.n), ReadTailText(p.n, p.dots);
    TameParts(f);
    TameParts(b);
    TameParts(d);
    TameParts(Dots(p.dots));
    assert Tame(" ");
    assert Tame(t);
    TameConcat(d, t);
    TameConcat(" n=", d + t);
    TameConcat(b, " n=" + (d + t));
    TameConcat(" buf=", b + (" n=" + (d + t)));
    TameConcat(f, " buf=" + (b + (" n=" + (d + t))));
    TameConcat(" flash=", f + (" buf=" + (b + (" n=" + (d + t)))));
    TameConcat(SlotName(p.slot), " flash=" + (f + (" buf=" + (b + (" n=" + (d + t))))));
    TameConcat("READ ", SlotName(p.slot) + (" flash=" + (f + (" buf=" + (b + (" n=" + (d + t)))))));
    TameBody(ReadText(p.slot, p.n, p.dots));
  }

  lemma TameVerdict(v: Verdict)
    requires v.Bad? ==> IsReason(v.reason)
    ensures Tame(VerdictRest(v))
  {
    hide Dec;
    match v
    case Accepted(n) =>
      TameParts(Dec(n));
      assert Dec(n) + "" == Dec(n);
      TameConcat(" ok ver=", Dec(n) + "");
    case Bad(r) =>
      TameParts(r);
      TameConcat(" bad=", r);
  }

  lemma VerdictLine(s: Slot, v: Verdict)
    requires v.Bad? ==> IsReason(v.reason)
    ensures ReadsAs(MARK + VerdictText(s, v), Quiet(Judged(s, v)))
  {
    hide BodyRow, ReadsAs, VerdictRest, IsReason;
    VerdictBack(s, v);
    TameVerdict(v);
    var t := SlotName(s) + VerdictRest(v);
    TameConcat(SlotName(s), VerdictRest(v));
    TameConcat("RDICT ", t);
    assert "VERDICT " + t == "VE" + ("RDICT " + t);
    VBody(VerdictText(s, v), "RDICT " + t);
  }

  lemma VerLine(cur: nat, ctr: nat)
    ensures ReadsAs(MARK + VerText(cur, ctr), Quiet(Staged(Ver(cur, ctr, true))))
  {
    hide BodyRow, Dec, ReadsAs;
    VerBack(cur, ctr);
    TameParts(Dec(cur));
    TameParts(Dec(ctr));
    var t := Dec(ctr) + " ok";
    TameConcat(Dec(ctr), " ok");
    TameConcat(" ctr=", t);
    TameConcat(Dec(cur), " ctr=" + t);
    TameConcat("R cur=", Dec(cur) + (" ctr=" + t));
    assert "VER cur=" + (Dec(cur) + (" ctr=" + t)) == "VE" + ("R cur=" + (Dec(cur) + (" ctr=" + t)));
    VBody(VerText(cur, ctr), "R cur=" + (Dec(cur) + (" ctr=" + t)));
  }

  lemma StageLines(p: Printed)
    requires p.verdict.Bad? ==> IsReason(p.verdict.reason)
    ensures AllRead(Stages(p), StageSeen(p))
  {
    hide BodyRow, ReadsAs;
    StageRows();
    TameBody("HDR ok");
    TameBody("SIG ok");
    TameBody("DIGEST ok");
    TameBody("SIG bad");
    TameBody("DIGEST bad");
    match p.verdict
    case Accepted(_) => VerLine(p.cur, p.ctr);
    case Bad(r) =>
      FailedRows(r);
      TameParts(r);
      TameConcat("HDR bad=", r);
      TameBody("HDR bad=" + r);
  }

  lemma SlotTextReads(p: Printed)
    requires p.verdict.Bad? ==> IsReason(p.verdict.reason)
    ensures AllRead(SlotText(p), SlotSeen(p))
  {
    hide ReadsAs, ReadText, VerdictText, Stages, StageSeen;
    ReadLine(p);
    StageLines(p);
    VerdictLine(p.slot, p.verdict);
    AllReadConcat([MARK + ReadText(p.slot, p.n, p.dots)], [Quiet(ReadRowOf(p))], Stages(p), StageSeen(p));
    AllReadConcat([MARK + ReadText(p.slot, p.n, p.dots)] + Stages(p), [Quiet(ReadRowOf(p))] + StageSeen(p),
                  [MARK + VerdictText(p.slot, p.verdict)], [Quiet(Judged(p.slot, p.verdict))]);
  }

  function FromSeen(froms: seq<string>): (r: seq<Seen>)
    ensures |r| == |froms| && forall i :: 0 <= i < |r| ==> r[i] == Quiet(From(froms[i]))
  {
    seq(|froms|, i requires 0 <= i < |froms| => Quiet(From(froms[i])))
  }

  function OpeningSeen(f: Fixture): seq<Seen> {
    FromSeen(f.froms) + [Quiet(Key(f.prod, f.key)), Quiet(Source(f.flash))]
  }

  lemma OpeningReads(f: Fixture)
    requires WellFormed(f)
    ensures AllRead(Opening(f), OpeningSeen(f))
  {
    hide BodyRow, ReadsAs, KeyText;
    forall i | 0 <= i < |f.froms|
      ensures ReadsAs(FromLines(f.froms)[i], FromSeen(f.froms)[i])
    {
      var w := f.froms[i];
      FromBack(w);
      TameParts(w);
      assert w + "" == w;
      TameConcat("FROM ", w + "");
      TameBody("FROM " + (w + ""));
    }
    KeyBack(f.prod, f.key);
    KeyTame(f.prod, f.key);
    TameBody(KeyText(f.prod, f.key));
    WordRows();
    TameBody("CTRSRC flash");
    TameBody("CTRSRC ram");
    AllReadConcat(FromLines(f.froms), FromSeen(f.froms),
                  [MARK + KeyText(f.prod, f.key), MARK + (if f.flash then "CTRSRC flash" else "CTRSRC ram")],
                  [Quiet(Key(f.prod, f.key)), Quiet(Source(f.flash))]);
  }

  lemma KeyTame(prod: bool, key: string)
    requires AllLowerHex(key)
    ensures Tame(KeyText(prod, key))
  {
    TameParts(key);
    assert key + "" == key;
    TameConcat(if prod then "prod " else "dev ", key + "");
    TameConcat("KEY ", (if prod then "prod " else "dev ") + (key + ""));
  }

  // ------------------------------------------------------------ the choice and what follows

  function IdSeen(f: Fixture): Seen { Seen(Other, Some(f.id)) }

  function EndingSeen(f: Fixture): seq<Seen> {
    [Quiet(Other)] + Repeat(IdSeen(f), f.ids) + [Quiet(Other), Quiet(Other)]
  }

  function HaltRowOf(a: Verdict, b: Verdict): Row {
    if a.Bad? && b.Bad? then Halt(a.reason, b.reason) else Other
  }

  function ChoosingSeen(f: Fixture): seq<Seen> {
    match f.choice
    case Halted => [Quiet(HaltRowOf(f.a.verdict, f.b.verdict)), Quiet(Other)]
    case Booted(s) =>
      [Quiet(Chosen(s))] + (if f.boot then [Quiet(Boot(ENTRY, ENTRY))] else []) + EndingSeen(f)
  }

  lemma OtherLine(s: string, k: nat)
    requires k < 8 && k < |s| && s[k] != MARK[k] && Tame(s)
    ensures ReadsAs(s, Quiet(Other))
  {
    LitNot(s, MARK, k);
    TameReads(s);
  }

  predicate WordChar(c: char) { ' ' <= c <= '~' && c != 'V' && c != '=' }

  lemma WordsLine(s: string)
    requires forall i :: 0 <= i < |s| ==> WordChar(s[i])
    requires s != "" && s[0] != 'R'
    ensures ReadsAs(s, Quiet(Other))
  {
    hide Banner, Id;
    NoBanner(s);
    NoId(s);
    LitNot(s, MARK, 0);
  }

  lemma RunningLine()
    ensures ReadsAs(RUNNING, Quiet(Other))
  {
    hide ReadsAs;
    WordsLine(RUNNING);
  }

  lemma IdLine(id: string)
    requires |id| == 8 && AllHex(id)
    ensures ReadsAs("RLXFW-ID0=" + id, Seen(Other, Some(id)))
  {
    hide Banner;
    var s := "RLXFW-ID0=" + id;
    forall i | 0 <= i < |s|
      ensures PlainChar(s[i]) && s[i] != 'V'
    {
      if i >= 10 {
        assert s[i] == id[i - 10] && IsHex(id[i - 10]);
      }
    }
    NoBanner(s);
    assert s[3] == 'F';
    LitNot(s, MARK, 3);
    LitBack("RLXFW-ID0=", id);
    assert id[..8] == id;
  }

  lemma EndingReads(f: Fixture)
    requires WellFormed(f)
    ensures AllRead(Ending(f), EndingSeen(f))
  {
    hide ReadsAs;
    OtherLine(LINUX, 0);
    RunningLine();
    OtherLine("/ # ", 0);
    IdLine(f.id);
    var ids, seen := Repeat("RLXFW-ID0=" + f.id, f.ids), Repeat(IdSeen(f), f.ids);
    AllReadConcat([LINUX], [Quiet(Other)], ids, seen);
    AllReadConcat([LINUX] + ids, [Quiet(Other)] + seen, [RUNNING, "/ # "], [Quiet(Other), Quiet(Other)]);
  }

  lemma TailKind(v: Verdict)
    requires v.Bad? ==> IsReason(v.reason)
    ensures Tame(VerdictTail(v))
    ensures v.Bad? ==> IsReason(VerdictTail(v))
    ensures v.Accepted? ==> VerdictTail(v) != "" && IsDigit(VerdictTail(v)[0])
  {
    hide Dec;
    TameParts(VerdictTail(v));
  }

  lemma HaltLine(a: Verdict, b: Verdict)
    requires a.Bad? ==> IsReason(a.reason)
    requires b.Bad? ==> IsReason(b.reason)
    ensures ReadsAs(MARK + HaltText(VerdictTail(a), VerdictTail(b)), Quiet(HaltRowOf(a, b)))
  {
    hide BodyRow, ReadsAs, IsReason, VerdictTail;
    var ra, rb := VerdictTail(a), VerdictTail(b);
    TailKind(a);
    TailKind(b);
    HaltBack(ra, rb);
    VerdictTailBad(a);
    VerdictTailBad(b);
    TameConcat(" B=", rb);
    TameConcat(ra, " B=" + rb);
    TameConcat("HALT A=", ra + (" B=" + rb));
    TameBody(HaltText(ra, rb));
  }

  lemma VerdictTailBad(v: Verdict)
    ensures v.Bad? ==> VerdictTail(v) == v.reason
  {}

  lemma BootLine()
    ensures ReadsAs(MARK + BootText(ENTRY, ENTRY), Quiet(Boot(ENTRY, ENTRY)))
  {
    hide BodyRow, ReadsAs;
    BootBack(ENTRY, ENTRY);
    assert Tame(ENTRY + "");
    TameConcat(" entry=", ENTRY + "");
    TameConcat(ENTRY, " entry=" + (ENTRY + ""));
    TameConcat("BOOT load=", ENTRY + (" entry=" + (ENTRY + "")));
    TameBody(BootText(ENTRY, ENTRY));
  }

  lemma ChoosingReads(f: Fixture)
    requires WellFormed(f)
    ensures AllRead(Choosing(f), ChoosingSeen(f))
  {
    hide ReadsAs, Ending, EndingSeen, HaltText, VerdictTail, BootText, BodyRow;
    match f.choice
    case Halted =>
      HaltLine(f.a.verdict, f.b.verdict);
      OtherLine("refuse-action halt", 0);
    case Booted(s) =>
      WordRows();
      TameBody("SLOT A");
      TameBody("SLOT B");
      BootLine();
      EndingReads(f);
      var l1, s1 := [ChosenText(s)], [Quiet(Chosen(s))];
      var l2 := if f.boot then [MARK + BootText(ENTRY, ENTRY)] else [];
      var s2 := if f.boot then [Quiet(Boot(ENTRY, ENTRY))] else [];
      AllReadConcat(l1, s1, l2, s2);
      AllReadConcat(l1 + l2, s1 + s2, Ending(f), EndingSeen(f));
  }

  function StraySeen(f: Fixture): seq<Seen> { if f.stray.Some? then [Quiet(Chosen(f.stray.value))] else [] }

  lemma StrayReads(f: Fixture)
    ensures AllRead(Stray(f), StraySeen(f))
  {
    hide ReadsAs, BodyRow;
    WordRows();
    TameBody("SLOT A");
    TameBody("SLOT B");
  }

  function BodySeen(f: Fixture): seq<Seen> {
    OpeningSeen(f) + SlotSeen(f.a) + SlotSeen(f.b) + StraySeen(f) + ChoosingSeen(f)
  }

  lemma BodyReads(f: Fixture)
    requires WellFormed(f)
    ensures AllRead(AfterBannerText(f), BodySeen(f))
  {
    hide AllRead, Opening, OpeningSeen, SlotText, SlotSeen, Stray, StraySeen, Choosing, ChoosingSeen;
    StrayReads(f);
    OpeningReads(f);
    SlotTextReads(f.a);
    SlotTextReads(f.b);
    ChoosingReads(f);
    AllReadConcat(Opening(f), OpeningSeen(f), SlotText(f.a), SlotSeen(f.a));
    AllReadConcat(Opening(f) + SlotText(f.a), OpeningSeen(f) + SlotSeen(f.a), SlotText(f.b), SlotSeen(f.b));
    AllReadConcat(Opening(f) + SlotText(f.a) + SlotText(f.b), OpeningSeen(f) + SlotSeen(f.a) + SlotSeen(f.b),
                  Stray(f), StraySeen(f));
    AllReadConcat(Opening(f) + SlotText(f.a) + SlotText(f.b) + Stray(f),
                  OpeningSeen(f) + SlotSeen(f.a) + SlotSeen(f.b) + StraySeen(f), Choosing(f), ChoosingSeen(f));
  }

  // ------------------------------------------------------------ the whole capture

  /** Lines without line breaks, each ended by carriage returns and a newline, are read back as they
      are, with the empty line after the last. */
  lemma {:induction false} JoinedLines(lines: seq<string>, n: nat)
    requires forall i :: 0 <= i < |lines| ==> Plain(lines[i])
    ensures Lines(Join(lines, n)) == lines + [""]
  {
    if lines == [] {
      Text.WithoutNone("", IS_CR);
      Text.EmptyText();
      assert lines + [""] == [""];
    } else {
      assert lines + [""] == [lines[0]] + (lines[1..] + [""]);
      var rest := Join(lines[1..], n);
      var l := lines[0];
      Text.WithoutConcat(l + (Repeat('\r', n) + "\n"), rest, IS_CR);
      Text.WithoutConcat(l, Repeat('\r', n) + "\n", IS_CR);
      Text.WithoutConcat(Repeat('\r', n), "\n", IS_CR);
      Text.WithoutAll(Repeat('\r', n), IS_CR);
      PlainStays(l);
      Text.WithoutNone("\n", IS_CR);
      var w := Text.Without(rest, IS_CR);
      assert "" + "\n" == ['\n'];
      assert Text.Without(l + (Repeat('\r', n) + "\n") + rest, IS_CR) == l + ['\n'] + w;
      Text.SplitLine(l, w);
      JoinedLines(lines[1..], n);
    }
  }

  lemma PlainStays(l: string)
    requires Plain(l)
    ensures Text.Without(l, IS_CR) == l && '\n' !in l
  {
    forall i | 0 <= i < |l| ensures !IS_CR(l[i]) && l[i] != '\n' {
      assert PlainChar(l[i]);
    }
    Text.WithoutNone(l, IS_CR);
  }

  lemma {:induction false} NoBannerAfter(lines: seq<string>)
    requires forall i :: 0 <= i < |lines| ==> Banner(lines[i]).None?
    ensures BannerCount(lines) == 0
  {
    hide Banner;
    if lines != [] {
      NoBannerAfter(lines[1..]);
    }
  }

  lemma BannerLine()
    ensures Banner(BANNER).Some? && Plain(BANNER)
  {
    BannerBack(BUILD);
    hide Banner;
    assert Plain("RLXBOOT-V1 build=") && Plain(BUILD);
  }

  lemma BannerBack(h: string)
    requires |h| == 8 && AllLowerHex(h)
    ensures Banner("RLXBOOT-V1 build=" + h) == Some(h)
  {
    hide Lit, HexDigits;
    LitBack("RLXBOOT-V1 build=", h);
    assert h + "" == h;
    HexDigitsBack(h, "");
  }

  function CaptureSeen(f: Fixture): seq<Seen> { BodySeen(f) + [Quiet(Other)] }

  lemma SeeAll(lines: seq<string>, seen: seq<Seen>)
    requires AllRead(lines, seen)
    ensures See(lines) == seen
  {
    assert forall i :: 0 <= i < |lines| ==> ReadsAs(lines[i], seen[i]);
  }

  lemma EmptyLine()
    ensures AllRead([""], [Quiet(Other)])
  {
    assert Tame("");
    TameReads("");
  }

  predicate BootChar(c: char) { ' ' <= c <= '~' && c != 'V' }

  lemma BootWords(s: string)
    requires forall i :: 0 <= i < |s| ==> BootChar(s[i])
    ensures Plain(s) && Banner(s).None?
  {
    hide Banner;
    NoBanner(s);
  }

  lemma EarlierPlain(f: Fixture)
    requires WellFormed(f)
    ensures forall i :: 0 <= i < |Earlier(f)| ==> Plain(Earlier(f)[i]) && Banner(Earlier(f)[i]).None?
  {
    hide Banner, Plain;
    BootLines();
  }

  lemma BootLines()
    ensures Plain(REBOOT) && Banner(REBOOT).None? && Plain(BOOTING) && Banner(BOOTING).None?
  {
    hide Banner, Plain;
    BootWords(BOOTING);
    BootWords(REBOOT);
  }

  /** A printed capture has one banner, and after it the reader sees exactly the rows printed. */
  lemma CaptureReads(f: Fixture)
    requires WellFormed(f)
    ensures See(AfterBanner(Lines(Capture(f)))) == CaptureSeen(f)
    ensures Parse(Capture(f)) == ParseSeen(CaptureSeen(f))
  {
    hide BodySeen, AfterBannerText, ReadsAs, Banner, Plain, Earlier, Join, Lines, ParseSeen;
    var early, body := Earlier(f), AfterBannerText(f);
    BodyReads(f);
    EmptyLine();
    AllReadConcat(body, BodySeen(f), [""], [Quiet(Other)]);
    SeeAll(body + [""], CaptureSeen(f));
    AllReadPlain(body + [""], CaptureSeen(f));
    BannerLine();
    EarlierPlain(f);
    var all := early + [BANNER] + body;
    assert forall i :: 0 <= i < |body| ==> (body + [""])[i] == body[i];
    assert forall i :: 0 <= i < |all| ==> Plain(all[i]);
    JoinedLines(all, f.crs);
    assert all + [""] == early + ([BANNER] + (body + [""]));
    BannerCountConcat(early, [BANNER] + (body + [""]));
    assert ([BANNER] + (body + [""]))[1..] == body + [""];
    NoBannerAfter(body + [""]);
  }

  lemma AllReadPlain(lines: seq<string>, seen: seq<Seen>)
    requires AllRead(lines, seen)
    ensures forall i :: 0 <= i < |lines| ==> Plain(lines[i]) && Banner(lines[i]).None?
  {
    assert forall i :: 0 <= i < |lines| ==> ReadsAs(lines[i], seen[i]);
  }

  // ------------------------------------------------------------ the scan of a printed capture

  lemma {:induction false} ScanConcat(x: seq<Seen>, y: seq<Seen>, st: Scan)
    ensures ScanFrom(x + y, st) == ScanFrom(y, ScanFrom(x, st))
    decreases x
  {
    hide TakeLine;
    if x == [] {
      assert x + y == y;
    } else {
      assert (x + y)[1..] == x[1..] + y && (x + y)[0] == x[0];
      ScanConcat(x[1..], y, TakeLine(st, x[0].row));
    }
  }

  lemma {:induction false} ScanOthers(x: seq<Seen>, st: Scan)
    requires forall i :: 0 <= i < |x| ==> x[i].row == Other
    ensures ScanFrom(x, st) == st.(at := st.at + |x|)
    decreases x
  {
    if x != [] {
      ScanOthers(x[1..], st.(at := st.at + 1));
    }
  }

  lemma {:induction false} ScanFroms(froms: seq<string>, st: Scan)
    ensures ScanFrom(FromSeen(froms), st) == st.(at := st.at + |froms|, froms := st.froms + froms)
    decreases froms
  {
    if froms != [] {
      assert FromSeen(froms)[1..] == FromSeen(froms[1..]);
      ScanFroms(froms[1..], st.(at := st.at + 1, froms := st.froms + [froms[0]]));
      assert st.froms + [froms[0]] + froms[1..] == st.froms + froms;
    } else {
      assert st.froms + froms == st.froms;
    }
  }

  lemma ScanOne(x: Seen, st: Scan)
    ensures ScanFrom([x], st) == TakeLine(st, x.row)
  {
    assert [x][1..] == [];
  }

  function OpeningScan(f: Fixture): Scan {
    START.(at := |f.froms| + 2, froms := f.froms, keys := [f.prod], sources := [f.flash])
  }

  lemma ScanOpening(f: Fixture)
    ensures ScanFrom(OpeningSeen(f), START) == OpeningScan(f)
  {
    hide ScanFrom;
    var k, c := Quiet(Key(f.prod, f.key)), Quiet(Source(f.flash));
    ScanFroms(f.froms, START);
    assert [] + f.froms == f.froms;
    var st := START.(at := |f.froms|, froms := f.froms);
    ScanConcat(FromSeen(f.froms), [k, c], START);
    assert [k, c] == [k] + [c];
    ScanConcat([k], [c], st);
    ScanOne(k, st);
    ScanOne(c, TakeLine(st, k.row));
  }

  function StageList(p: Printed): seq<Stage> {
    match p.verdict
    case Accepted(_) => [HdrOk, SigOk, DigestOk, Ver(p.cur, p.ctr, true)]
    case Bad(r) => if r == "sig" then [HdrOk] else if r == "digest" then [HdrOk, SigOk] else []
  }

  function SideOf(p: Printed): Side {
    Side(Some(Copied(FlashOf(p.slot), BufOf(p.slot), p.n, if p.n >= TICK then p.dots else 0, p.n >= TICK)),
         Some(p.verdict), StageList(p))
  }

  function AfterSlot(p: Printed, st: Scan): Scan {
    WithSide(st, p.slot, SideOf(p))
      .(last := Some(p.slot), order := st.order + [Reads(p.slot)] + [Verdicts(p.slot)], at := st.at + |SlotSeen(p)|)
  }

  /** Rows of stages, or of nothing, go to the slot last read. */
  lemma {:induction false} ScanStages(x: seq<Seen>, stages: seq<Stage>, s: Slot, st: Scan)
    requires st.last == Some(s)
    requires |stages| <= |x| && forall i :: 0 <= i < |stages| ==> x[i].row == Staged(stages[i])
    requires forall i :: |stages| <= i < |x| ==> x[i].row == Other
    ensures ScanFrom(x, st)
            == WithSide(st, s, st.Of(s).(stages := st.Of(s).stages + stages)).(at := st.at + |x|)
    decreases x
  {
    if stages == [] {
      ScanOthers(x, st);
      assert st.Of(s).stages + stages == st.Of(s).stages;
    } else {
      var nxt := TakeLine(st, x[0].row);
      ScanStages(x[1..], stages[1..], s, nxt);
      assert st.Of(s).stages + [stages[0]] + stages[1..] == st.Of(s).stages + stages;
    }
  }

  lemma ScanSlot(p: Printed, st: Scan)
    ensures ScanFrom(SlotSeen(p), st) == AfterSlot(p, st)
  {
    hide ScanFrom, StageSeen, StageList;
    var r, x, v := Quiet(ReadRowOf(p)), StageSeen(p), Quiet(Judged(p.slot, p.verdict));
    ScanConcat([r] + x, [v], st);
    ScanConcat([r], x, st);
    ScanOne(r, st);
    var st1 := TakeLine(st, r.row);
    StagesLineUp(p);
    ScanStages(x, StageList(p), p.slot, st1);
    assert [] + StageList(p) == StageList(p);
    var st2 := ScanFrom(x, st1);
    ScanOne(v, st2);
  }

  lemma StagesLineUp(p: Printed)
    ensures |StageList(p)| <= |StageSeen(p)|
    ensures forall i :: 0 <= i < |StageList(p)| ==> StageSeen(p)[i].row == Staged(StageList(p)[i])
    ensures forall i :: |StageList(p)| <= i < |StageSeen(p)| ==> StageSeen(p)[i].row == Other
  {}

  function AfterChoice(f: Fixture, st: Scan): Scan {
    match f.choice
    case Halted =>
      (match HaltRowOf(f.a.verdict, f.b.verdict)
       case Halt(ra, rb) =>
         st.(halts := st.halts + 1, choice := Some(Halted), choiceAt := st.at, halt := Some((ra, rb)), at := st.at + 2)
       case _ => st.(at := st.at + 2))
    case Booted(s) =>
      var st1 := st.(slots := st.slots + 1, choice := Some(Booted(s)), choiceAt := st.at);
      (if f.boot then st1.(boots := st.boots + 1, boot := Some((ENTRY, ENTRY)), bootAt := st.at + 1) else st1)
        .(at := st.at + |ChoosingSeen(f)|)
  }

  lemma ScanChoosing(f: Fixture, st: Scan)
    ensures ScanFrom(ChoosingSeen(f), st) == AfterChoice(f, st)
  {
    hide ScanFrom, EndingSeen;
    match f.choice
    case Halted =>
      var h := Quiet(HaltRowOf(f.a.verdict, f.b.verdict));
      ScanConcat([h], [Quiet(Other)], st);
      assert ChoosingSeen(f) == [h] + [Quiet(Other)];
      ScanOne(h, st);
      ScanOne(Quiet(Other), TakeLine(st, h.row));
    case Booted(s) =>
      var c := Quiet(Chosen(s));
      var b := if f.boot then [Quiet(Boot(ENTRY, ENTRY))] else [];
      ScanConcat([c] + b, EndingSeen(f), st);
      ScanConcat([c], b, st);
      ScanOne(c, st);
      var st1 := TakeLine(st, c.row);
      if f.boot {
        ScanOne(b[0], st1);
      } else {
        ScanOthers(b, st1);
      }
      EndingQuiet(f);
      ScanOthers(EndingSeen(f), ScanFrom(b, st1));
  }

  lemma EndingQuiet(f: Fixture)
    ensures forall i :: 0 <= i < |EndingSeen(f)| ==> EndingSeen(f)[i].row == Other
  {}

  function AfterStray(f: Fixture, st: Scan): Scan {
    if f.stray.Some? then
      st.(slots := st.slots + 1, choice := Some(Booted(f.stray.value)), choiceAt := st.at, at := st.at + 1)
    else st
  }

  lemma ScanStray(f: Fixture, st: Scan)
    ensures ScanFrom(StraySeen(f), st) == AfterStray(f, st)
  {
    hide ScanFrom;
    if f.stray.Some? {
      ScanOne(Quiet(Chosen(f.stray.value)), st);
    } else {
      ScanOthers([], st);
    }
  }

  function BeforeChoice(f: Fixture): Scan {
    AfterStray(f, AfterSlot(f.b, AfterSlot(f.a, OpeningScan(f))))
  }

  function ScanOf(f: Fixture): Scan {
    var st := AfterChoice(f, BeforeChoice(f));
    st.(at := st.at + 1)
  }

  lemma ScanCapture(f: Fixture)
    ensures ScanFrom(CaptureSeen(f), START) == ScanOf(f)
  {
    hide ScanFrom, OpeningSeen, SlotSeen, StraySeen, ChoosingSeen, AfterSlot, AfterStray, AfterChoice, OpeningScan;
    var o, a, b, x, c, e := OpeningSeen(f), SlotSeen(f.a), SlotSeen(f.b), StraySeen(f), ChoosingSeen(f), [Quiet(Other)];
    ScanConcat(o + a + b + x + c, e, START);
    ScanConcat(o + a + b + x, c, START);
    ScanConcat(o + a + b, x, START);
    ScanConcat(o + a, b, START);
    ScanConcat(o, a, START);
    ScanOpening(f);
    ScanSlot(f.a, OpeningScan(f));
    ScanSlot(f.b, AfterSlot(f.a, OpeningScan(f)));
    ScanStray(f, AfterSlot(f.b, AfterSlot(f.a, OpeningScan(f))));
    ScanChoosing(f, BeforeChoice(f));
    ScanOne(Quiet(Other), AfterChoice(f, BeforeChoice(f)));
  }

  // ------------------------------------------------------------ what is parsed, and when it passes

  lemma IdsStep(x: seq<Seen>)
    requires x != []
    ensures Ids(x) == (if x[0].id.Some? then [x[0].id.value] else []) + Ids(x[1..])
  {}

  lemma NoIds()
    ensures Ids([]) == []
  {}

  lemma {:induction false} IdsConcat(x: seq<Seen>, y: seq<Seen>)
    ensures Ids(x + y) == Ids(x) + Ids(y)
  {
    hide Ids;
    NoIds();
    if x == [] {
      assert x + y == y;
    } else {
      assert (x + y)[1..] == x[1..] + y && (x + y)[0] == x[0];
      IdsStep(x);
      IdsStep(x + y);
      IdsConcat(x[1..], y);
    }
  }

  lemma {:induction false} IdsRepeat(x: Seen, n: nat)
    requires x.id.Some?
    ensures Ids(Repeat(x, n)) == Repeat(x.id.value, n)
  {
    if n > 0 {
      assert Repeat(x, n)[1..] == Repeat(x, n - 1);
      IdsRepeat(x, n - 1);
      assert Repeat(x.id.value, n) == [x.id.value] + Repeat(x.id.value, n - 1);
    }
  }

  lemma EndingIds(f: Fixture)
    ensures Ids(EndingSeen(f) + [Quiet(Other)]) == Repeat(f.id, f.ids)
  {
    var q := Quiet(Other);
    IdsConcat([q] + Repeat(IdSeen(f), f.ids) + [q, q], [q]);
    IdsConcat([q] + Repeat(IdSeen(f), f.ids), [q, q]);
    IdsConcat([q], Repeat(IdSeen(f), f.ids));
    IdsRepeat(IdSeen(f), f.ids);
    assert Ids([q]) == [];
    assert [q, q] == [q] + [q];
    IdsConcat([q], [q]);
    assert [] + Repeat(f.id, f.ids) + [] + [] == Repeat(f.id, f.ids);
  }

  /** Where the choice begins. */
  function Before(f: Fixture): seq<Seen> { OpeningSeen(f) + SlotSeen(f.a) + SlotSeen(f.b) + StraySeen(f) }

  lemma BeforeLength(f: Fixture)
    ensures |Before(f)| == BeforeChoice(f).at
  {
    hide OpeningSeen, SlotSeen, SideOf;
    OpeningLength(f);
  }

  lemma StartAt(f: Fixture)
    requires f.choice.Booted?
    ensures ScanOf(f).choiceAt == |Before(f)|
    ensures f.boot ==> ScanOf(f).bootAt == |Before(f)| + 1
  {
    hide Before, BeforeChoice, ChoosingSeen;
    BeforeLength(f);
  }

  lemma CutAfter(a: seq<Seen>, b: seq<Seen>, n: nat)
    requires n == |a|
    ensures (a + b)[n..] == b
  {}

  lemma Regroup(a: seq<Seen>, c: seq<Seen>, e: seq<Seen>, q: seq<Seen>)
    ensures a + (c + e) + q == (a + c) + (e + q)
  {}

  /** After the boot row, or after the choice when there is none, stands the ending. */
  lemma AfterStart(f: Fixture, start: nat)
    requires f.choice.Booted?
    requires start == if f.boot then ScanOf(f).bootAt else ScanOf(f).choiceAt
    ensures start < |CaptureSeen(f)| && CaptureSeen(f)[start + 1..] == EndingSeen(f) + [Quiet(Other)]
  {
    StartAt(f);
    hide OpeningSeen, SlotSeen, EndingSeen, StraySeen, ScanOf;
    var a, e, q := Before(f), EndingSeen(f), [Quiet(Other)];
    var c := [Quiet(Chosen(f.choice.slot))] + (if f.boot then [Quiet(Boot(ENTRY, ENTRY))] else []);
    assert CaptureSeen(f) == a + (c + e) + q;
    Regroup(a, c, e, q);
    CutAfter(a + c, e + q, start + 1);
  }

  lemma OpeningLength(f: Fixture)
    ensures |OpeningSeen(f)| == |f.froms| + 2
  {}

  /** The parse of a printed capture: one accepted answer, with every fact as printed. */
  function Parsed(f: Fixture): Facts {
    Facts(f.prod, if f.froms == [] then None else Some(f.froms[0]), ScanOf(f), f.choice,
          if f.choice.Booted? then Some(f.id) else None)
  }

  predicate Parses(f: Fixture) {
    && f.flash && |f.froms| <= 1
    && if f.choice.Booted? then f.stray.None? && f.ids == 1 else f.a.verdict.Bad? && f.b.verdict.Bad?
  }

  lemma ChoiceKeeps(f: Fixture, st: Scan)
    ensures var t := AfterChoice(f, AfterStray(f, st));
            t.keys == st.keys && t.froms == st.froms && t.sources == st.sources && t.order == st.order
            && t.a == st.a && t.b == st.b
  {
    hide ChoosingSeen;
  }

  lemma ScanFacts(f: Fixture)
    ensures var st := ScanOf(f);
            && st.keys == [f.prod] && st.froms == f.froms && st.sources == [f.flash]
            && st.order == [Reads(f.a.slot), Verdicts(f.a.slot), Reads(f.b.slot), Verdicts(f.b.slot)]
            && (f.a.slot == A && f.b.slot == B ==> st.a == SideOf(f.a) && st.b == SideOf(f.b))
  {
    hide SideOf, SlotSeen, ChoosingSeen, AfterStray, AfterChoice;
    ChoiceKeeps(f, AfterSlot(f.b, AfterSlot(f.a, OpeningScan(f))));
  }

  lemma ScanChoice(f: Fixture)
    ensures var st := ScanOf(f);
            && (st.slots <= 1 <==> f.choice.Halted? || f.stray.None?) && st.halts <= 1 && st.boots <= 1
            && (f.choice.Booted? ==> st.choice == Some(f.choice) && st.halts == 0 && st.halt.None?)
            && (f.choice.Booted? ==> (st.boot.Some? <==> f.boot) && (st.boots == 1 <==> f.boot))
            && (f.choice.Halted? && f.a.verdict.Bad? && f.b.verdict.Bad? ==>
                  st.choice == Some(Halted) && st.halt == Some((f.a.verdict.reason, f.b.verdict.reason)))
            && (f.choice.Halted? && !(f.a.verdict.Bad? && f.b.verdict.Bad?) ==>
                  st.boot.None?
                  && (if f.stray.None? then st.choice.None?
                      else st.choice == Some(Booted(f.stray.value)) && st.choiceAt + 4 == st.at))
  {
    hide SideOf, SlotSeen, ChoosingSeen;
  }

  /** A printed capture is refused exactly when it has two loader words, reads no slot, halts although
      a slot was accepted, or shows no kernel id or several; else every fact is recovered. */
  lemma CaptureParses(f: Fixture)
    requires WellFormed(f)
    ensures Parse(Capture(f)).Ok? <==> Parses(f)
    ensures Parses(f) ==> Parse(Capture(f)) == Ok(Parsed(f))
  {
    hide Capture, CaptureSeen, ScanFrom, ScanOf, SideOf, SlotSeen, ChoosingSeen, Ids, EndingSeen, Parse;
    CaptureReads(f);
    ScanCapture(f);
    ScanFacts(f);
    ScanChoice(f);
    var seen, st := CaptureSeen(f), ScanOf(f);
    if f.choice.Booted? {
      AfterStart(f, if f.boot then st.bootAt else st.choiceAt);
      EndingIds(f);
      assert IdsAfter(seen, st) == Repeat(f.id, f.ids);
    } else if f.stray.Some? && !(f.a.verdict.Bad? && f.b.verdict.Bad?) {
      AfterUnreadHalt(f);
    }
  }

  /** After a stray slot row and a halt row that cannot be read stands no kernel id. */
  lemma AfterUnreadHalt(f: Fixture)
    requires f.choice.Halted? && f.stray.Some? && !(f.a.verdict.Bad? && f.b.verdict.Bad?)
    ensures IdsAfter(CaptureSeen(f), ScanOf(f)) == []
  {
    hide OpeningSeen, SlotSeen, SideOf;
    OpeningLength(f);
    var q := Quiet(Other);
    assert ChoosingSeen(f) == [q, q];
    var before := OpeningSeen(f) + SlotSeen(f.a) + SlotSeen(f.b) + StraySeen(f);
    assert CaptureSeen(f) == before + [q, q, q];
    assert ScanOf(f).choiceAt + 1 == |before|;
    assert CaptureSeen(f)[ScanOf(f).choiceAt + 1..] == [q] + ([q] + [q]);
    IdsConcat([q], [q] + [q]);
    IdsConcat([q], [q]);
    assert Ids([q]) == [];
  }

  predicate Consistent(p: Printed, e: Expect) {
    && (p.n >= TICK ==> p.dots == p.n / TICK)
    && Matches(Some(p.verdict), e)
    && (p.verdict.Accepted? ==> p.cur == p.verdict.version)
  }

  function Best(a: Verdict, b: Verdict): Choice {
    if a.Accepted? && (b.Accepted? ==> b.version <= a.version) then Booted(A)
    else if b.Accepted? then Booted(B)
    else Halted
  }

  /** The printed run is what was expected, and agrees with itself. */
  predicate Agreed(f: Fixture, w: Want) {
    && Parses(f)
    && (w.from.Some? ==> f.froms == [w.from.value]) && (f.prod || w.allowDev)
    && f.a.slot == A && f.b.slot == B && Consistent(f.a, w.a) && Consistent(f.b, w.b)
    && f.choice == Best(f.a.verdict, f.b.verdict) && f.choice == w.slot
    && (f.choice.Booted? ==> f.boot && w.manifest == Some(Lower(f.id)))
  }

  lemma VerRowsStep(x: Stage, rest: seq<Stage>)
    ensures VerRows([x] + rest) == (if x.Ver? then [x] else []) + VerRows(rest)
  {
    assert ([x] + rest)[1..] == rest;
  }

  lemma StagesAgree(p: Printed)
    requires p.verdict.Accepted?
    ensures StagesSupport(StageList(p), p.verdict.version) <==> p.cur == p.verdict.version
  {
    hide VerRows;
    var v := Ver(p.cur, p.ctr, true);
    var l := [HdrOk] + ([SigOk] + ([DigestOk] + ([v] + [])));
    assert StageList(p) == l;
    assert l[0] == HdrOk && l[1] == SigOk && l[2] == DigestOk;
    VerRowsStep(HdrOk, [SigOk] + ([DigestOk] + ([v] + [])));
    VerRowsStep(SigOk, [DigestOk] + ([v] + []));
    VerRowsStep(DigestOk, [v] + []);
    VerRowsStep(v, []);
    assert VerRows([]) == [] by { NoVerRows(); }
    assert VerRows(l) == [v];
  }

  lemma NoVerRows()
    ensures VerRows([]) == []
  {}

  lemma SideAgrees(f: Fixture, p: Printed, e: Expect)
    requires f.a.slot == A && f.b.slot == B && (p == f.a || p == f.b)
    ensures SlotRight(ScanOf(f), p.slot, e) <==> Consistent(p, e)
  {
    hide ScanOf, StagesSupport, StageList;
    ScanFacts(f);
    assert ScanOf(f).Of(p.slot) == SideOf(p);
    if p.verdict.Accepted? {
      StagesAgree(p);
    }
  }

  lemma BootAgrees(f: Fixture, w: Want)
    requires WellFormed(f) && f.a.slot == A && f.b.slot == B && Parses(f) && f.choice.Booted?
    ensures BootedRight(CaptureSeen(f), Parsed(f), f.choice.slot, w) <==>
            f.choice == Best(f.a.verdict, f.b.verdict) && f.boot && w.manifest == Some(Lower(f.id))
  {
    hide ScanOf, CaptureSeen, Ids, Implied, Wins, Lower, EndingSeen;
    ScanFacts(f);
    ScanChoice(f);
    ImpliedExactly(ScanOf(f));
    assert Implied(ScanOf(f).a, ScanOf(f).b) == Best(f.a.verdict, f.b.verdict) by { BestImplied(f.a, f.b); }
    if f.boot {
      AfterStart(f, ScanOf(f).bootAt);
      EndingIds(f);
      assert Repeat(f.id, 1) == [f.id];
      assert Ids(CaptureSeen(f)[ScanOf(f).bootAt + 1..]) == [f.id];
    }
  }

  lemma BestImplied(a: Printed, b: Printed)
    ensures Implied(SideOf(a), SideOf(b)) == Best(a.verdict, b.verdict)
  {}

  lemma HaltAgrees(f: Fixture)
    requires f.a.slot == A && f.b.slot == B && Parses(f) && f.choice.Halted?
    ensures HaltedRight(Parsed(f)) && f.choice == Best(f.a.verdict, f.b.verdict)
  {
    hide ScanOf;
    ScanFacts(f);
    ScanChoice(f);
  }

  lemma RightAgrees(f: Fixture, w: Want)
    requires WellFormed(f) && Parses(f)
    ensures Right(CaptureSeen(f), Parsed(f), w) <==> Agreed(f, w)
  {
    hide ScanOf, CaptureSeen, SlotRight, Consistent, HaltedRight, BootedRight, Best;
    ScanFacts(f);
    var o := [Reads(f.a.slot), Verdicts(f.a.slot), Reads(f.b.slot), Verdicts(f.b.slot)];
    assert o == IN_ORDER ==> o[0] == IN_ORDER[0] && o[2] == IN_ORDER[2];
    if f.a.slot == A && f.b.slot == B {
      SideAgrees(f, f.a, w.a);
      SideAgrees(f, f.b, w.b);
      BothSlots(ScanOf(f), w);
      if f.choice.Booted? {
        BootAgrees(f, w);
      } else {
        HaltAgrees(f);
      }
    }
  }

  /** The judge passes a printed capture exactly when the run it prints is the expected one and agrees
      with itself. */
  lemma FixturePasses(f: Fixture, w: Want)
    requires WellFormed(f)
    ensures Passes(Capture(f), w) <==> Agreed(f, w)
  {
    hide Capture, Passes, Right, Agreed, Parsed, CaptureSeen;
    PassExactly(Capture(f), w);
    CaptureParses(f);
    CaptureReads(f);
    if Parses(f) {
      RightAgrees(f, w);
    } else {
      assert !Agreed(f, w) by { NotParsed(f, w); }
    }
  }

  lemma NotParsed(f: Fixture, w: Want)
    ensures Agreed(f, w) ==> Parses(f)
  {}

  /** A slot row printed before a halt that the verdicts support is not noticed; before a slot it is
      refused. */
  lemma StraySlotRow(f: Fixture, s: Slot, w: Want)
    requires WellFormed(f)
    ensures f.choice.Halted? ==>
              (Passes(Capture(f.(stray := Some(s))), w) <==> Passes(Capture(f.(stray := None)), w))
    ensures f.choice.Booted? ==> Parse(Capture(f.(stray := Some(s)))).Refused?
  {
    hide Capture, Passes, Parse;
    FixturePasses(f.(stray := Some(s)), w);
    FixturePasses(f.(stray := None), w);
    CaptureParses(f.(stray := Some(s)));
  }

  // ------------------------------------------------------------ expectations

  function PrintExpect(e: Expect): string {
    match e
    case AnyOk => "ok"
    case OkVersion(n) => "ok:" + Dec(n)
    case AnyBad => "bad"
    case BadFor(r) => "bad:" + r
  }

  /** A reason the payload prints with a refusal. */
  predicate Printable(r: string) { IsReason(r) && r != "ok" && (r in REASONS || r == OUT_OF_RANGE) }

  /** Every printed expectation is read back, and a reason is accepted only when the payload prints it. */
  lemma ExpectationReadBack(e: Expect)
    ensures !e.BadFor? ==> ParseExpect(PrintExpect(e)) == Ok(e)
    ensures e.BadFor? && Plain(e.reason) ==> (ParseExpect(PrintExpect(e)) == Ok(e) <==> Printable(e.reason))
  {
    var s := PrintExpect(e);
    match e
    case AnyOk =>
    case AnyBad =>
      LitNot("bad", "ok:", 0);
    case OkVersion(n) =>
      LitBack("ok:", Dec(n));
      DecParses(n);
      assert s[2] == ':' && IsDigit(s[|s| - 1]);
    case BadFor(r) =>
      LitBack("bad:", r);
      assert s[0] == 'b' && s[3] == ':';
      LitNot(s, "ok:", 0);
      if Plain(r) {
        assert r != "" ==> s[|s| - 1] == r[|r| - 1] && PlainChar(r[|r| - 1]);
      }
  }

  lemma {:induction false} HexOfParse(h: string)
    requires AllLowerHex(h)
    ensures Hex(ParseHex(h), |h|) == h
  {
    if h != "" {
      var k := |h| - 1;
      HexOfParse(h[..k]);
      assert AllLowerHex(h[..k]);
      assert ParseHex(h) / 16 == ParseHex(h[..k]) && ParseHex(h) % 16 == DigitValue(h[k]);
      assert h[..k] + [h[k]] == h;
    }
  }

  /** A loader word printed by the board is an expectation of itself, with or without `0x`. */
  lemma WordReadBack(w: string)
    requires |w| == 8 && AllLowerHex(w)
    ensures ParseWord(w) == Ok(w) && ParseWord("0x" + w) == Ok(w)
  {
    HexOfParse(w);
    assert forall i :: 0 <= i < |w| ==> IsLowerHex(w[i]);
    assert Lower(w) == w;
    assert Lit(w, "0x").None? by { LitNot(w, "0x", 1); }
    LitBack("0x", w);
    assert ("0x" + w)[|"0x" + w| - 1] == w[7];
    assert Ended(w) == w && Ended("0x" + w) == "0x" + w;
  }

  /** An expectation that can be written on the command line. */
  ghost predicate Writable(e: Expect) { e.BadFor? ==> Plain(e.reason) && Printable(e.reason) }

  /** From the command line to the verdict: with the expectations written out, the tool passes a
      printed capture exactly when the run agrees, and no manifest was given for a halt. */
  lemma CommandPasses(f: Fixture, w: Want)
    requires WellFormed(f) && Writable(w.a) && Writable(w.b)
    requires w.from.Some? ==> |w.from.value| == 8 && AllLowerHex(w.from.value)
    ensures var r := Judge(Capture(f), w.slot, PrintExpect(w.a), PrintExpect(w.b), w.manifest, w.allowDev, w.from);
            r.Ok? && r.value.pass <==> Agreed(f, w) && (w.slot.Halted? ==> w.manifest.None?)
  {
    hide Capture, ParseExpect, PrintExpect, ParseWord, Parses, Consistent, Best, JudgeWant;
    ExpectationReadBack(w.a);
    ExpectationReadBack(w.b);
    if w.from.Some? {
      WordReadBack(w.from.value);
    }
    FixturePasses(f, w);
  }
}
