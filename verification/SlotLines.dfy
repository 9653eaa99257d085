/** The lines `rlxboot` prints, as `tools/bootslot.py` reads and its fixtures print them: numbers,
    the line patterns, and the round trip of every printed line. */
module SlotLines {
  import opened Common
  import opened Text

  // ------------------------------------------------------------ numbers

  function DigitChar(d: nat): char
    requires d < 16
    ensures IsLowerHex(DigitChar(d)) && (d < 10 ==> IsDigit(DigitChar(d)))
  {
    if d < 10 then '0' + d as char else 'a' + (d - 10) as char
  }

  function DigitValue(c: char): nat
    requires IsLowerHex(c)
  {
    if IsDigit(c) then (c as int) - ('0' as int) else (c as int) - ('a' as int) + 10
  }

  /** A number in base `b`, without leading zeros. */
  function Dec(n: nat): (s: string)
    ensures s != "" && AllDigits(s)
  {
    if n < 10 then [DigitChar(n)] else Dec(n / 10) + [DigitChar(n % 10)]
  }

  function ParseDec(s: string): nat
    requires AllDigits(s)
  {
    if s == "" then 0 else ParseDec(s[..|s| - 1]) * 10 + DigitValue(s[|s| - 1])
  }

  lemma {:induction false} DecParses(n: nat)
    ensures ParseDec(Dec(n)) == n
  {
    if n >= 10 {
      DecParses(n / 10);
      assert Dec(n)[..|Dec(n)| - 1] == Dec(n / 10);
    }
  }

  /** The last `k` hexadecimal digits of `n`. */
  function Hex(n: nat, k: nat): (s: string)
    ensures |s| == k && AllLowerHex(s)
  {
    if k == 0 then "" else Hex(n / 16, k - 1) + [DigitChar(n % 16)]
  }

  function ParseHex(s: string): nat
    requires AllLowerHex(s)
  {
    if s == "" then 0 else ParseHex(s[..|s| - 1]) * 16 + DigitValue(s[|s| - 1])
  }

  function Pow16(k: nat): nat { if k == 0 then 1 else 16 * Pow16(k - 1) }

  lemma {:induction false} HexParses(n: nat, k: nat)
    requires n < Pow16(k)
    ensures ParseHex(Hex(n, k)) == n
  {
    if k > 0 {
      HexParses(n / 16, k - 1);
      assert Hex(n, k)[..k - 1] == Hex(n / 16, k - 1);
    }
  }

  // ------------------------------------------------------------ reading a line from the left

  /** What is left of `s` after `p`. */
  function Lit(s: string, p: string): Option<string> {
    if p <= s then Some(s[|p|..]) else None
  }

  lemma LitBack(p: string, rest: string)
    ensures Lit(p + rest, p) == Some(rest)
  {
    assert (p + rest)[..|p|] == p;
  }

  function DigitCount(s: string): (n: nat)
    ensures n <= |s| && (n < |s| ==> !IsDigit(s[n]))
    ensures forall i :: 0 <= i < n ==> IsDigit(s[i])
  {
    if s != "" && IsDigit(s[0]) then 1 + DigitCount(s[1..]) else 0
  }

  /** A run of decimal digits, all that there are: its value and the rest. */
  function Number(s: string): Option<(nat, string)> {
    var n := DigitCount(s);
    if n == 0 then None else Some((ParseDec(s[..n]), s[n..]))
  }

  lemma {:induction false} DigitCountIs(d: string, rest: string)
    requires AllDigits(d) && (rest == "" || !IsDigit(rest[0]))
    ensures DigitCount(d + rest) == |d|
  {
    if d == "" {
      assert d + rest == rest;
    } else {
      assert (d + rest)[1..] == d[1..] + rest;
      DigitCountIs(d[1..], rest);
    }
  }

  lemma NumberBack(n: nat, rest: string)
    requires rest == "" || !IsDigit(rest[0])
    ensures Number(Dec(n) + rest) == Some((n, rest))
  {
    DigitCountIs(Dec(n), rest);
    DecParses(n);
    assert (Dec(n) + rest)[..|Dec(n)|] == Dec(n);
  }

  /** `k` lower-case hexadecimal digits and the rest. */
  function HexDigits(s: string, k: nat): Option<(string, string)> {
    if k <= |s| && AllLowerHex(s[..k]) then Some((s[..k], s[k..])) else None
  }

  lemma HexDigitsBack(h: string, rest: string)
    requires AllLowerHex(h)
    ensures HexDigits(h + rest, |h|) == Some((h, rest))
  {
    assert (h + rest)[..|h|] == h;
  }

  // ------------------------------------------------------------ the rows

  datatype Slot = A | B

  function SlotName(s: Slot): string { if s == A then "A" else "B" }

  function SlotAt(s: string): Option<(Slot, string)> {
    if s == "" then None
    else if s[0] == 'A' then Some((A, s[1..]))
    else if s[0] == 'B' then Some((B, s[1..]))
    else None
  }

  lemma SlotBack(x: Slot, rest: string)
    ensures SlotAt(SlotName(x) + rest) == Some((x, rest))
  {
    assert (SlotName(x) + rest)[1..] == rest;
  }

  datatype Verdict = Accepted(version: nat) | Bad(reason: string)

  datatype Stage = HdrOk | SigOk | DigestOk | Ver(cur: nat, ctr: nat, ok: bool)

  datatype Row =
    | Read(slot: Slot, flash: nat, buf: nat, n: nat, dots: nat, spaced: bool)
    | Judged(slot: Slot, verdict: Verdict)
    | Chosen(slot: Slot)
    | Halt(a: string, b: string)
    | Boot(load: string, entry: string)
    | Key(prod: bool, hex: string)
    | From(word: string)
    | Source(slots: bool)
    | Staged(stage: Stage)
    | Other

  predicate IsReason(s: string) {
    s != "" && forall i :: 0 <= i < |s| ==> 'a' <= s[i] <= 'z' || s[i] == '_'
  }

  predicate AllDots(s: string) { forall i :: 0 <= i < |s| ==> s[i] == '.' }

  function ReadTail(slot: Slot, flash: string, buf: string, n: nat, rest: string): Row
    requires AllLowerHex(flash) && AllLowerHex(buf)
  {
    if rest == "" then Read(slot, ParseHex(flash), ParseHex(buf), n, 0, false)
    else if rest[0] == ' ' && AllDots(rest[1..]) then Read(slot, ParseHex(flash), ParseHex(buf), n, |rest| - 1, true)
    else Other
  }

  function ReadRow(s: string): Row {
    match SlotAt(s) case None => Other case Some((slot, s1)) =>
    match Lit(s1, " flash=") case None => Other case Some(s2) =>
    match HexDigits(s2, 8) case None => Other case Some((flash, s3)) =>
    match Lit(s3, " buf=") case None => Other case Some(s4) =>
    match HexDigits(s4, 8) case None => Other case Some((buf, s5)) =>
    match Lit(s5, " n=") case None => Other case Some(s6) =>
    match Number(s6) case None => Other case Some((n, rest)) =>
      ReadTail(slot, flash, buf, n, rest)
  }

  function VerdictRow(s: string): Row {
    match SlotAt(s) case None => Other case Some((slot, s1)) =>
    match Lit(s1, " ok ver=")
    case Some(s2) =>
      (match Number(s2)
       case Some((v, rest)) => if rest == "" then Judged(slot, Accepted(v)) else Other
       case None => Other)
    case None =>
      match Lit(s1, " bad=")
      case Some(r) => if IsReason(r) then Judged(slot, Bad(r)) else Other
      case None => Other
  }

  function VerRow(s: string): Row {
    match Number(s) case None => Other case Some((cur, s1)) =>
    match Lit(s1, " ctr=") case None => Other case Some(s2) =>
    match Number(s2) case None => Other case Some((ctr, s3)) =>
      if s3 == " ok" then Staged(Ver(cur, ctr, true))
      else if s3 == " bad" then Staged(Ver(cur, ctr, false))
      else Other
  }

  function ReasonCount(s: string): (n: nat)
    ensures n <= |s| && (n < |s| ==> !('a' <= s[n] <= 'z' || s[n] == '_'))
    ensures forall i :: 0 <= i < n ==> 'a' <= s[i] <= 'z' || s[i] == '_'
  {
    if s != "" && ('a' <= s[0] <= 'z' || s[0] == '_') then 1 + ReasonCount(s[1..]) else 0
  }

  function HaltRow(s: string): Row {
    var n := ReasonCount(s);
    match Lit(s[n..], " B=")
    case Some(b) => if n > 0 && IsReason(b) then Halt(s[..n], b) else Other
    case None => Other
  }

  function BootRow(s: string): Row {
    match HexDigits(s, 8) case None => Other case Some((load, s1)) =>
    match Lit(s1, " entry=") case None => Other case Some(s2) =>
    match HexDigits(s2, 8) case None => Other case Some((entry, rest)) =>
      if rest == "" then Boot(load, entry) else Other
  }

  function KeyHex(prod: bool, s: string): Row {
    match HexDigits(s, 64)
    case Some((h, rest)) => if rest == "" then Key(prod, h) else Other
    case None => Other
  }

  function KeyRow(s: string): Row {
    match Lit(s, "prod ")
    case Some(r) => KeyHex(true, r)
    case None => (match Lit(s, "dev ") case Some(r) => KeyHex(false, r) case None => Other)
  }

  function FromRow(s: string): Row {
    match HexDigits(s, 8)
    case Some((w, rest)) => if rest == "" then From(w) else Other
    case None => Other
  }

  /** The row a body after `RLXBOOT-` is.  The patterns' first letters tell them apart. */
  function BodyRow(s: string): Row {
    if Lit(s, "READ ").Some? then ReadRow(Lit(s, "READ ").value)
    else if Lit(s, "VERDICT ").Some? then VerdictRow(Lit(s, "VERDICT ").value)
    else if Lit(s, "VER cur=").Some? then VerRow(Lit(s, "VER cur=").value)
    else if s == "SLOT A" then Chosen(A)
    else if s == "SLOT B" then Chosen(B)
    else if Lit(s, "HALT A=").Some? then HaltRow(Lit(s, "HALT A=").value)
    else if Lit(s, "BOOT load=").Some? then BootRow(Lit(s, "BOOT load=").value)
    else if Lit(s, "KEY ").Some? then KeyRow(Lit(s, "KEY ").value)
    else if Lit(s, "FROM ").Some? then FromRow(Lit(s, "FROM ").value)
    else if s == "CTRSRC flash" then Source(true)
    else if s == "CTRSRC ram" then Source(false)
    else if s == "HDR ok" then Staged(HdrOk)
    else if s == "SIG ok" then Staged(SigOk)
    else if s == "DIGEST ok" then Staged(DigestOk)
    else Other
  }

  /** A text that differs from `p` at place `k`, or ends there, does not start with it. */
  lemma LitNot(s: string, p: string, k: nat)
    requires k < |p| && (k < |s| ==> s[k] != p[k])
    ensures Lit(s, p).None?
  {
  }

  lemma AsRead(t: string)
    ensures BodyRow("READ " + t) == ReadRow(t)
  {
    hide ReadRow, VerdictRow, VerRow, HaltRow, BootRow, KeyRow, FromRow;
    LitBack("READ ", t);
  }

  lemma AsVerdict(t: string)
    ensures BodyRow("VERDICT " + t) == VerdictRow(t)
  {
    hide ReadRow, VerdictRow, VerRow, HaltRow, BootRow, KeyRow, FromRow;
    LitBack("VERDICT ", t);
    var s := "VERDICT " + t;
    assert s[0] == 'V';
    LitNot(s, "READ ", 0);
  }

  lemma AsVer(t: string)
    ensures BodyRow("VER cur=" + t) == VerRow(t)
  {
    hide ReadRow, VerdictRow, VerRow, HaltRow, BootRow, KeyRow, FromRow;
    LitBack("VER cur=", t);
    var s := "VER cur=" + t;
    assert s[0] == 'V' && s[3] == ' ';
    LitNot(s, "READ ", 0);
    LitNot(s, "VERDICT ", 3);
  }

  lemma NotEarly(s: string)
    requires s != "" && s[0] != 'R' && s[0] != 'V'
    ensures Lit(s, "READ ").None? && Lit(s, "VERDICT ").None? && Lit(s, "VER cur=").None?
  {
    LitNot(s, "READ ", 0);
    LitNot(s, "VERDICT ", 0);
    LitNot(s, "VER cur=", 0);
  }

  lemma AsHalt(t: string)
    ensures BodyRow("HALT A=" + t) == HaltRow(t)
  {
    hide ReadRow, VerdictRow, VerRow, HaltRow, BootRow, KeyRow, FromRow, Lit;
    LitBack("HALT A=", t);
    var s := "HALT A=" + t;
    assert s[0] == 'H';
    NotEarly(s);
  }

  lemma AsBoot(t: string)
    ensures BodyRow("BOOT load=" + t) == BootRow(t)
  {
    hide ReadRow, VerdictRow, VerRow, HaltRow, BootRow, KeyRow, FromRow, Lit;
    LitBack("BOOT load=", t);
    var s := "BOOT load=" + t;
    assert s[0] == 'B';
    NotEarly(s);
    LitNot(s, "HALT A=", 0);
  }

  lemma AsKey(t: string)
    ensures BodyRow("KEY " + t) == KeyRow(t)
  {
    hide ReadRow, VerdictRow, VerRow, HaltRow, BootRow, KeyRow, FromRow, Lit;
    LitBack("KEY ", t);
    var s := "KEY " + t;
    assert s[0] == 'K';
    NotEarly(s);
    LitNot(s, "HALT A=", 0);
    LitNot(s, "BOOT load=", 0);
  }

  lemma AsFrom(t: string)
    ensures BodyRow("FROM " + t) == FromRow(t)
  {
    hide ReadRow, VerdictRow, VerRow, HaltRow, BootRow, KeyRow, FromRow, Lit;
    LitBack("FROM ", t);
    var s := "FROM " + t;
    assert s[0] == 'F';
    NotEarly(s);
    LitNot(s, "HALT A=", 0);
    LitNot(s, "BOOT load=", 0);
    LitNot(s, "KEY ", 0);
  }

  const MARK: string := "RLXBOOT-"

  function RowOf(line: string): Row {
    match Lit(line, MARK)
    case Some(body) => BodyRow(body)
    case None => Other
  }

  // ------------------------------------------------------------ printing

  const TICK: nat := 0x1_0000

  function FlashOf(s: Slot): nat { if s == A then 0x0007_0000 else 0x0019_0000 }

  function BufOf(s: Slot): nat { if s == A then 0x8100_0000 else 0x8120_0000 }

  function Dots(n: nat): (s: string)
    ensures |s| == n && AllDots(s)
  {
    Repeat('.', n)
  }

  function ReadTailText(n: nat, dots: nat): string {
    if n >= TICK then " " + Dots(dots) else ""
  }

  function ReadText(s: Slot, n: nat, dots: nat): string {
    "READ " + (SlotName(s) + (" flash=" + (Hex(FlashOf(s), 8) + (" buf=" + (Hex(BufOf(s), 8)
    + (" n=" + (Dec(n) + ReadTailText(n, dots))))))))
  }

  function VerdictRest(v: Verdict): string {
    match v case Accepted(n) => " ok ver=" + (Dec(n) + "") case Bad(r) => " bad=" + r
  }

  function VerdictText(s: Slot, v: Verdict): string {
    "VERDICT " + (SlotName(s) + VerdictRest(v))
  }

  function VerText(cur: nat, ctr: nat): string {
    "VER cur=" + (Dec(cur) + (" ctr=" + (Dec(ctr) + " ok")))
  }

  lemma Pow16Eight()
    ensures Pow16(8) == 0x1_0000_0000
  {
    assert Pow16(2) == 256;
    assert Pow16(4) == 0x1_0000;
    assert Pow16(6) == 0x100_0000;
  }

  /** A read row is read back whole: addresses, length, and the dots it printed. */
  lemma ReadBack(s: Slot, n: nat, dots: nat)
    ensures BodyRow(ReadText(s, n, dots))
            == Read(s, FlashOf(s), BufOf(s), n, if n >= TICK then dots else 0, n >= TICK)
  {
    hide Hex, Dec, BodyRow, Dots, ParseHex, HexDigits, Number, SlotAt, Lit;
    Pow16Eight();
    HexParses(FlashOf(s), 8);
    HexParses(BufOf(s), 8);
    var flash, buf, t8 := Hex(FlashOf(s), 8), Hex(BufOf(s), 8), ReadTailText(n, dots);
    var t7 := Dec(n) + t8;
    var t6 := " n=" + t7;
    var t5 := buf + t6;
    var t4 := " buf=" + t5;
    var t3 := flash + t4;
    var t2 := " flash=" + t3;
    var t1 := SlotName(s) + t2;
    AsRead(t1);
    assert ReadText(s, n, dots) == "READ " + t1;
    SlotBack(s, t2);
    LitBack(" flash=", t3);
    HexDigitsBack(flash, t4);
    LitBack(" buf=", t5);
    HexDigitsBack(buf, t6);
    LitBack(" n=", t7);
    NumberBack(n, t8);
    assert n >= TICK ==> t8[1..] == Dots(dots) && t8[0] == ' ';
    assert ReadTail(s, flash, buf, n, t8).Read?;
  }

  lemma VerdictBack(s: Slot, v: Verdict)
    requires v.Bad? ==> IsReason(v.reason)
    ensures BodyRow(VerdictText(s, v)) == Judged(s, v)
  {
    var t2 := VerdictRest(v);
    hide BodyRow, Dec, Number, SlotAt, Lit;
    AsVerdict(SlotName(s) + t2);
    SlotBack(s, t2);
    if v.Accepted? {
      LitBack(" ok ver=", Dec(v.version) + "");
      NumberBack(v.version, "");
    } else {
      LitBack(" bad=", v.reason);
      assert t2[1] == 'b';
      LitNot(t2, " ok ver=", 1);
    }
  }

  lemma VerBack(cur: nat, ctr: nat)
    ensures BodyRow(VerText(cur, ctr)) == Staged(Ver(cur, ctr, true))
  {
    var t3 := Dec(ctr) + " ok";
    var t2 := " ctr=" + t3;
    hide BodyRow, Dec, Number, Lit;
    AsVer(Dec(cur) + t2);
    NumberBack(cur, t2);
    LitBack(" ctr=", t3);
    NumberBack(ctr, " ok");
  }

  lemma {:induction false} ReasonCountIs(r: string, rest: string)
    requires forall i :: 0 <= i < |r| ==> 'a' <= r[i] <= 'z' || r[i] == '_'
    requires rest == "" || !('a' <= rest[0] <= 'z' || rest[0] == '_')
    ensures ReasonCount(r + rest) == |r|
  {
    if r == "" {
      assert r + rest == rest;
    } else {
      assert (r + rest)[1..] == r[1..] + rest;
      ReasonCountIs(r[1..], rest);
    }
  }

  function HaltText(a: string, b: string): string { "HALT A=" + (a + (" B=" + b)) }

  /** A halt row with two reasons is read back; with an accepted slot's number in it, it is no row. */
  lemma HaltBack(a: string, b: string)
    ensures IsReason(a) && IsReason(b) ==> BodyRow(HaltText(a, b)) == Halt(a, b)
    ensures a != "" && IsDigit(a[0]) ==> BodyRow(HaltText(a, b)) == Other
    ensures IsReason(a) && b != "" && IsDigit(b[0]) ==> BodyRow(HaltText(a, b)) == Other
  {
    var t := " B=" + b;
    hide BodyRow, Lit;
    AsHalt(a + t);
    if a != "" && IsDigit(a[0]) {
      assert ReasonCount(a + t) == 0;
      assert HaltRow(a + t) == Other;
    } else if IsReason(a) {
      ReasonCountIs(a, t);
      assert (a + t)[..|a|] == a && (a + t)[|a|..] == t;
      LitBack(" B=", b);
    }
  }

  function BootText(load: string, entry: string): string { "BOOT load=" + (load + (" entry=" + (entry + ""))) }

  lemma BootBack(load: string, entry: string)
    requires |load| == |entry| == 8 && AllLowerHex(load) && AllLowerHex(entry)
    ensures BodyRow(BootText(load, entry)) == Boot(load, entry)
  {
    var t2 := " entry=" + (entry + "");
    hide BodyRow, Lit, HexDigits;
    AsBoot(load + t2);
    HexDigitsBack(load, t2);
    LitBack(" entry=", entry + "");
    HexDigitsBack(entry, "");
  }

  function KeyText(prod: bool, h: string): string { "KEY " + ((if prod then "prod " else "dev ") + (h + "")) }

  lemma KeyBack(prod: bool, h: string)
    requires |h| == 64 && AllLowerHex(h)
    ensures BodyRow(KeyText(prod, h)) == Key(prod, h)
  {
    var t := (if prod then "prod " else "dev ") + (h + "");
    hide BodyRow, Lit, HexDigits;
    AsKey(t);
    LitBack(if prod then "prod " else "dev ", h + "");
    if !prod {
      assert t[0] == 'd';
      LitNot(t, "prod ", 0);
    }
    HexDigitsBack(h, "");
  }

  lemma FromBack(w: string)
    requires |w| == 8 && AllLowerHex(w)
    ensures BodyRow("FROM " + (w + "")) == From(w)
  {
    hide BodyRow, Lit, HexDigits;
    AsFrom(w + "");
    HexDigitsBack(w, "");
  }

  /** A text whose first letter starts none of the patterns with a tail is an exact word or nothing. */
  lemma NotTailed(s: string, k: nat)
    requires s != "" && s[0] !in {'R', 'V', 'B', 'K', 'F'}
    requires k < 2 && k < |s| && s[k] != "HA"[k]
    ensures Lit(s, "READ ").None? && Lit(s, "VERDICT ").None? && Lit(s, "VER cur=").None?
    ensures Lit(s, "HALT A=").None? && Lit(s, "BOOT load=").None? && Lit(s, "KEY ").None? && Lit(s, "FROM ").None?
  {
    hide Lit;
    NotEarly(s);
    LitNot(s, "HALT A=", k);
    LitNot(s, "BOOT load=", 0);
    LitNot(s, "KEY ", 0);
    LitNot(s, "FROM ", 0);
  }

  /** Rows that report a failed stage say nothing. */
  lemma FailedRows(r: string)
    ensures BodyRow("HDR bad=" + r) == BodyRow("SIG bad") == BodyRow("DIGEST bad") == Other
  {
    hide ReadRow, VerdictRow, VerRow, HaltRow, BootRow, KeyRow, FromRow, Lit;
    var h := "HDR bad=" + r;
    assert h[0] == 'H' && h[1] == 'D' && h[4] == 'b';
    NotTailed(h, 1);
    NotTailed("SIG bad", 0);
    NotTailed("DIGEST bad", 0);
  }

  lemma StageRows()
    ensures BodyRow("HDR ok") == Staged(HdrOk) && BodyRow("SIG ok") == Staged(SigOk)
    ensures BodyRow("DIGEST ok") == Staged(DigestOk)
  {
    hide ReadRow, VerdictRow, VerRow, HaltRow, BootRow, KeyRow, FromRow, Lit;
    NotTailed("HDR ok", 1);
    NotTailed("SIG ok", 0);
    NotTailed("DIGEST ok", 0);
  }

  lemma WordRows()
    ensures BodyRow("SLOT A") == Chosen(A) && BodyRow("SLOT B") == Chosen(B)
    ensures BodyRow("CTRSRC flash") == Source(true) && BodyRow("CTRSRC ram") == Source(false)
  {
    hide ReadRow, VerdictRow, VerRow, HaltRow, BootRow, KeyRow, FromRow, Lit;
    NotTailed("SLOT A", 0);
    NotTailed("SLOT B", 0);
    NotTailed("CTRSRC flash", 0);
    NotTailed("CTRSRC ram", 0);
  }
}
