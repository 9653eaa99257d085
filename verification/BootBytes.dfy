/** The byte accounting of a boot capture in `tools/bootbytes.py`: the marks of a capture, the
    constant that is left, and the counted terms taken out of it. */
module BootBytes {
  import opened Common
  import opened Text

  const ESC: char := '\U{1b}'
  const CARET: string := ['^', '[']
  const RAW: string := [ESC]
  const REPLY: string := "\r\nsh: : not found\r\n# "
  const PREFIX: string := "RLXFW-"
  const FIELD: string := "tmpReg[0x"

  // ------------------------------------------------------------ lines

  predicate NoBreaks(s: string) { forall i :: 0 <= i < |s| ==> !IsBreak(s[i]) }

  /** The length of the first line, its ending included: LF, CR LF, or a CR alone. */
  function FirstLine(b: string): (n: nat)
    requires b != ""
    ensures 1 <= n <= |b|
  {
    if b[0] == '\n' then 1
    else if b[0] == '\r' then (if |b| > 1 && b[1] == '\n' then 2 else 1)
    else if |b| == 1 then 1
    else 1 + FirstLine(b[1..])
  }

  /** The lines of a capture with their endings. */
  function Lines(b: string): seq<string> {
    if b == "" then [] else [b[..FirstLine(b)]] + Lines(b[FirstLine(b)..])
  }

  function Total(lines: seq<string>): nat {
    if lines == [] then 0 else |lines[0]| + Total(lines[1..])
  }

  lemma {:induction false} LinesKeepBytes(b: string)
    ensures Total(Lines(b)) == |b|
  {
    if b != "" {
      LinesKeepBytes(b[FirstLine(b)..]);
    }
  }

  /** `v` begins a line when it follows `u`. */
  ghost predicate Boundary(u: string, v: string) {
    u == "" || u[|u| - 1] == '\n' || (u[|u| - 1] == '\r' && (v == "" || v[0] != '\n'))
  }

  lemma {:induction false} FirstLineKept(u: string, v: string)
    requires u != "" && Boundary(u, v)
    ensures FirstLine(u + v) == FirstLine(u)
    ensures Boundary(u[FirstLine(u)..], v)
  {
    if !IsBreak(u[0]) {
      assert (u + v)[1..] == u[1..] + v;
      FirstLineKept(u[1..], v);
      assert u[FirstLine(u)..] == u[1..][FirstLine(u[1..])..];
    } else {
      var rest := u[FirstLine(u)..];
      assert rest != "" ==> rest[|rest| - 1] == u[|u| - 1];
    }
  }

  lemma LinesStep(b: string)
    requires b != ""
    ensures Lines(b) == [b[..FirstLine(b)]] + Lines(b[FirstLine(b)..])
  {
    hide FirstLine;
  }

  lemma NoLines()
    ensures Lines("") == []
  {}

  lemma {:induction false} LinesSplit(u: string, v: string)
    requires Boundary(u, v)
    ensures Lines(u + v) == Lines(u) + Lines(v)
    decreases |u|
  {
    hide Lines, FirstLine;
    NoLines();
    if u == "" {
      assert u + v == v;
    } else {
      var n := FirstLine(u);
      FirstLineKept(u, v);
      assert (u + v)[..n] == u[..n] && (u + v)[n..] == u[n..] + v;
      LinesStep(u + v);
      LinesStep(u);
      LinesSplit(u[n..], v);
    }
  }

  // ------------------------------------------------------------ marks

  predicate IsTagChar(c: char) {
    'A' <= c <= 'Z' || 'a' <= c <= 'z' || '0' <= c <= '9' || c == '_' || c == '-'
  }

  predicate IsTag(s: string) { s != "" && forall i :: 0 <= i < |s| ==> IsTagChar(s[i]) }

  predicate IsUpperHex(s: string) {
    forall i :: 0 <= i < |s| ==> '0' <= s[i] <= '9' || 'A' <= s[i] <= 'F'
  }

  datatype Mark = Mark(tag: string, valued: bool)

  function Cost(m: Mark): nat {
    (if m.valued then 17 else 8) + |m.tag|
  }

  /** The mark a whole line is, if it is one. */
  function MarkLine(line: string): Option<Mark> {
    var n := |line| - 2;
    if n < 6 || line[..6] != PREFIX || line[n] != '\r' || line[n + 1] != '\n' then None
    else
      var body := line[6..n];
      var v := |body| - 9;
      if IsTag(body) then Some(Mark(body, false))
      else if v > 0 && body[v] == '=' && IsUpperHex(body[v + 1..]) && IsTag(body[..v]) then Some(Mark(body[..v], true))
      else None
  }

  /** Every mark line is exactly as long as the model says. */
  lemma MarkLength(line: string)
    ensures MarkLine(line).Some? ==> |line| == Cost(MarkLine(line).value)
  {
  }

  function MarksOf(lines: seq<string>): seq<Mark> {
    if lines == [] then []
    else (if MarkLine(lines[0]).Some? then [MarkLine(lines[0]).value] else []) + MarksOf(lines[1..])
  }

  /** The marks of a capture, in order.  The assertion in the loop is the tool's own. */
  method MarksIn(blob: string) returns (out: seq<Mark>)
    ensures out == MarksOf(Lines(blob))
  {
    out := [];
    var lines := Lines(blob);
    for k := 0 to |lines|
      invariant out + MarksOf(lines[k..]) == MarksOf(lines)
    {
      var m := MarkLine(lines[k]);
      assert lines[k..][1..] == lines[k + 1..];
      if m.Some? {
        MarkLength(lines[k]);
        assert |lines[k]| == Cost(m.value);
        out := out + [m.value];
      }
    }
    assert lines[|lines|..] == [];
  }

  function SumCost(marks: seq<Mark>): nat {
    if marks == [] then 0 else Cost(marks[0]) + SumCost(marks[1..])
  }

  function RawConst(blob: string, marks: seq<Mark>): int {
    |blob| - SumCost(marks)
  }

  /** The capture's constant over its own marks. */
  function Raw(blob: string): int {
    RawConst(blob, MarksOf(Lines(blob)))
  }

  function NonMarks(lines: seq<string>): seq<string> {
    if lines == [] then [] else (if MarkLine(lines[0]).None? then [lines[0]] else []) + NonMarks(lines[1..])
  }

  lemma {:induction false} SumCostSplit(a: seq<Mark>, b: seq<Mark>)
    ensures SumCost(a + b) == SumCost(a) + SumCost(b)
  {
    if a == [] {
      assert a + b == b;
    } else {
      assert (a + b)[1..] == a[1..] + b;
      SumCostSplit(a[1..], b);
    }
  }

  lemma {:induction false} MarksConcat(a: seq<string>, b: seq<string>)
    ensures MarksOf(a + b) == MarksOf(a) + MarksOf(b)
  {
    hide MarksOf;
    NoMarks();
    if a == [] {
      assert a + b == b;
    } else {
      assert (a + b)[1..] == a[1..] + b && (a + b)[0] == a[0];
      MarksStep(a + b);
      MarksStep(a);
      MarksConcat(a[1..], b);
    }
  }

  lemma NoMarks()
    ensures MarksOf([]) == []
  {}

  lemma MarksStep(lines: seq<string>)
    requires lines != []
    ensures var first := if MarkLine(lines[0]).Some? then [MarkLine(lines[0]).value] else [];
            MarksOf(lines) == first + MarksOf(lines[1..])
  {
    hide MarkLine;
  }

  lemma {:induction false} TotalSplits(lines: seq<string>)
    ensures Total(lines) == Total(NonMarks(lines)) + SumCost(MarksOf(lines))
  {
    if lines != [] {
      TotalSplits(lines[1..]);
      MarkLength(lines[0]);
      if MarkLine(lines[0]).Some? {
        assert MarksOf(lines) == [MarkLine(lines[0]).value] + MarksOf(lines[1..]);
        assert NonMarks(lines) == NonMarks(lines[1..]);
      } else {
        assert NonMarks(lines) == [lines[0]] + NonMarks(lines[1..]);
        assert MarksOf(lines) == MarksOf(lines[1..]);
      }
    }
  }

  /** Conservation: the constant is the total length of the lines that are no mark. */
  lemma RawIsNonMarks(blob: string)
    ensures Raw(blob) == Total(NonMarks(Lines(blob)))
  {
    LinesKeepBytes(blob);
    TotalSplits(Lines(blob));
  }

  predicate IsMarkChar(c: char) { IsTagChar(c) || c == '=' }

  /** Before its ending, a mark line holds only tag characters and the equals sign. */
  lemma MarkChars(line: string)
    requires MarkLine(line).Some?
    ensures |line| >= 8 && forall i :: 0 <= i < |line| - 2 ==> IsMarkChar(line[i])
  {
    var n := |line| - 2;
    var body, m := line[6..n], MarkLine(line).value;
    var v := |body| - 9;
    assert PREFIX == ['R', 'L', 'X', 'F', 'W', '-'];
    forall i | 0 <= i < n ensures IsMarkChar(line[i]) {
      if i < 6 {
        assert line[i] == line[..6][i];
      } else {
        assert line[i] == body[i - 6];
        if m.valued && i - 6 < v {
          assert body[i - 6] == body[..v][i - 6];
        } else if m.valued && i - 6 > v {
          assert body[i - 6] == body[v + 1..][i - 6 - v - 1];
        }
      }
    }
  }

  lemma LineAlone(line: string)
    requires line != "" && MarkLine(line).Some?
    ensures Lines(line) == [line]
  {
    var n := |line| - 2;
    MarkChars(line);
    assert line == line[..n] + "\r\n";
    FirstLineIs(line[..n], "\r\n", "");
    assert line[..n] + "\r\n" + "" == line;
    assert line[|line|..] == "";
  }

  /** A stretch without breaks and a line ending make the first line. */
  lemma {:induction false} FirstLineIs(body: string, end: string, rest: string)
    requires NoBreaks(body)
    requires end == "\n" || end == "\r\n" || (end == "\r" && (rest == "" || rest[0] != '\n'))
    ensures FirstLine(body + end + rest) == |body| + |end|
    decreases body
  {
    var b := body + end + rest;
    if body != "" {
      assert b[1..] == body[1..] + end + rest;
      FirstLineIs(body[1..], end, rest);
    } else {
      assert b == end + rest;
    }
  }

  /** Inserting a well-formed mark line where a line begins leaves the constant alone. */
  lemma InsertMark(u: string, mark: string, v: string)
    requires Boundary(u, v) && MarkLine(mark).Some?
    ensures Raw(u + mark + v) == Raw(u + v)
  {
    LineAlone(mark);
    MarkBegins(mark);
    hide Lines, MarksOf, SumCost, Boundary, Cost;
    assert u + mark + v == u + (mark + v);
    BoundaryMark(u, v, mark);
    LinesSplit(u, mark + v);
    LinesSplit(mark, v);
    LinesSplit(u, v);
    MarksConcat(Lines(u), Lines(v));
    MarksConcat(Lines(u), [mark] + Lines(v));
    MarksConcat([mark], Lines(v));
    MarksOne(mark);
    var m := MarkLine(mark).value;
    SumCostSplit(MarksOf(Lines(u)), MarksOf(Lines(v)));
    SumCostSplit(MarksOf(Lines(u)), [m] + MarksOf(Lines(v)));
    SumCostSplit([m], MarksOf(Lines(v)));
    MarkLength(mark);
  }

  lemma MarkBegins(mark: string)
    requires MarkLine(mark).Some?
    ensures mark != "" && mark[0] == 'R'
  {
    assert mark[0] == PREFIX[0];
  }

  /** A mark may stand wherever a line begins, and a line begins after it. */
  lemma BoundaryMark(u: string, v: string, mark: string)
    requires Boundary(u, v) && mark != "" && mark[0] == 'R'
    ensures Boundary(u, mark + v)
  {}

  lemma MarksOne(mark: string)
    requires MarkLine(mark).Some?
    ensures MarksOf([mark]) == [MarkLine(mark).value] && SumCost([MarkLine(mark).value]) == Cost(MarkLine(mark).value)
  {
    hide MarkLine;
    NoMarks();
    MarksStep([mark]);
  }

  // ------------------------------------------------------------ counting and removing

  /** Occurrences of `p`, from the left, not overlapping. */
  function Count(p: string, s: string): nat
    requires p != ""
    decreases |s|
  {
    if s == "" then 0 else if p <= s then 1 + Count(p, s[|p|..]) else Count(p, s[1..])
  }

  /** The text with those occurrences taken out. */
  function Remove(p: string, s: string): string
    requires p != ""
    decreases |s|
  {
    if s == "" then "" else if p <= s then Remove(p, s[|p|..]) else [s[0]] + Remove(p, s[1..])
  }

  lemma PrefixStops(p: string, s: string, n: nat)
    requires p <= s && n < |s| && s[n] !in p
    ensures |p| <= n
  {
    assert forall i :: 0 <= i < |p| ==> p[i] == s[i];
  }

  lemma PrefixHas(p: string, s: string, c: char)
    requires c in p
    ensures p <= s ==> c in s
  {
  }

  /** A character that is not in the pattern separates: no occurrence crosses it. */
  lemma {:induction false} Separates(p: string, u: string, c: char, v: string)
    requires p != "" && c !in p
    ensures Count(p, u + [c] + v) == Count(p, u) + Count(p, v)
    ensures Remove(p, u + [c] + v) == Remove(p, u) + [c] + Remove(p, v)
    decreases |u|
  {
    var s := u + [c] + v;
    if u == "" {
      assert s == [c] + v;
      assert !(p <= s);
      assert s[1..] == v;
    } else if p <= s {
      PrefixStops(p, s, |u|);
      assert p <= u;
      assert s[|p|..] == u[|p|..] + [c] + v;
      Separates(p, u[|p|..], c, v);
    } else {
      assert !(p <= u);
      assert s[1..] == u[1..] + [c] + v;
      Separates(p, u[1..], c, v);
      assert [s[0]] + (Remove(p, u[1..]) + [c] + Remove(p, v)) == ([u[0]] + Remove(p, u[1..])) + [c] + Remove(p, v);
    }
  }

  /** Where the pattern's first character does not occur, nothing is counted or removed. */
  lemma {:induction false} Skips(p: string, u: string, v: string)
    requires p != "" && p[0] !in u
    ensures Count(p, u + v) == Count(p, v)
    ensures Remove(p, u + v) == u + Remove(p, v)
    decreases |u|
  {
    if u == "" {
      assert u + v == v;
      assert u + Remove(p, v) == Remove(p, v);
    } else {
      assert (u + v)[0] == u[0] && (u + v)[1..] == u[1..] + v;
      Skips(p, u[1..], v);
      assert [u[0]] + (u[1..] + Remove(p, v)) == u + Remove(p, v);
    }
  }

  /** A text that lacks one of the pattern's characters holds no occurrence. */
  lemma {:induction false} NotThere(p: string, s: string, c: char)
    requires c in p && c !in s
    ensures Count(p, s) == 0
    decreases |s|
  {
    if s != "" {
      PrefixHas(p, s, c);
      NotThere(p, s[1..], c);
    }
  }

  function Copies(p: string, n: nat): (r: string)
    ensures |r| == n * |p|
  {
    if n == 0 then "" else p + Copies(p, n - 1)
  }

  lemma {:induction false} Repeated(p: string, n: nat, v: string)
    requires p != ""
    ensures Count(p, Copies(p, n) + v) == n + Count(p, v)
    ensures Remove(p, Copies(p, n) + v) == Remove(p, v)
    decreases n
  {
    if n == 0 {
      assert Copies(p, n) + v == v;
    } else {
      var s := Copies(p, n) + v;
      assert s == p + (Copies(p, n - 1) + v);
      assert s[|p|..] == Copies(p, n - 1) + v;
      Repeated(p, n - 1, v);
    }
  }

  // ------------------------------------------------------------ the counted terms

  function HexRun(s: string, i: nat): (e: nat)
    requires i <= |s|
    ensures i <= e <= |s| && (forall k :: i <= k < e ==> IsHex(s[k])) && (e < |s| ==> !IsHex(s[e]))
    decreases |s| - i
  {
    if i < |s| && IsHex(s[i]) then HexRun(s, i + 1) else i
  }

  /** The length of the vendor field `tmpReg[0x<hex>]` at the start of `s`, or 0. */
  function FieldLength(s: string): (n: nat)
    ensures n <= |s| && (n > 0 ==> n > |FIELD| + 1)
  {
    if FIELD <= s then
      var e := HexRun(s, |FIELD|);
      if e > |FIELD| && e < |s| && s[e] == ']' then e + 1 else 0
    else 0
  }

  /** The digits beyond the first, over every vendor field. */
  function VarWidthExcess(s: string): nat
    decreases |s|
  {
    if s == "" then 0
    else
      var n := FieldLength(s);
      if n > 0 then (n - |FIELD| - 2) + VarWidthExcess(s[n..]) else VarWidthExcess(s[1..])
  }

  function EchoExcess(s: string): nat {
    2 * Count(CARET, s) + Count(RAW, s)
  }

  function BareText(s: string): string {
    Remove(RAW, Remove(CARET, s))
  }

  function ReplyExcess(s: string): nat {
    |REPLY| * Count(REPLY, BareText(s))
  }

  function Normalised(s: string): int {
    Raw(s) - VarWidthExcess(s) - EchoExcess(s) - ReplyExcess(s)
  }

  /** `Normalised` with the echo term, or the reply term, put back. */
  function WithoutEcho(s: string): int { Normalised(s) + EchoExcess(s) }

  function WithoutReply(s: string): int { Normalised(s) + ReplyExcess(s) }

  // ------------------------------------------------------------ the vendor field's digits

  predicate IsDigits(d: string) { d != "" && AllHex(d) }

  function VendorField(d: string): string {
    FIELD + d + "]"
  }

  lemma {:induction false} HexRunIs(s: string, i: nat, e: nat)
    requires i <= e < |s| && (forall k :: i <= k < e ==> IsHex(s[k])) && !IsHex(s[e])
    ensures HexRun(s, i) == e
    decreases e - i
  {
    if i < e {
      HexRunIs(s, i + 1, e);
    }
  }

  lemma FieldLengthIs(d: string, v: string)
    requires IsDigits(d)
    ensures FieldLength(VendorField(d) + v) == |FIELD| + |d| + 1
  {
    var s := VendorField(d) + v;
    var e := |FIELD| + |d|;
    assert s[..|FIELD|] == FIELD;
    assert forall k :: |FIELD| <= k < e ==> s[k] == d[k - |FIELD|];
    assert s[e] == ']';
    HexRunIs(s, |FIELD|, e);
  }

  /** No field holds a `t` after its first character. */
  lemma FieldHasOneT(s: string, i: nat)
    requires 0 < i < FieldLength(s)
    ensures s[i] != 't'
  {
    if i < |FIELD| {
      assert s[i] == FIELD[i];
      assert FIELD == ['t', 'm', 'p', 'R', 'e', 'g', '[', '0', 'x'];
    }
  }

  /** A field is known by its own characters. */
  lemma FieldIsOwn(s: string, u: string)
    requires FieldLength(s) <= |u| && s[..FieldLength(s)] == u[..FieldLength(s)]
    ensures FieldLength(s) > 0 ==> FieldLength(u) == FieldLength(s)
  {
    var n := FieldLength(s);
    if n > 0 {
      assert forall k :: 0 <= k < n ==> s[..n][k] == s[k] && u[..n][k] == u[k];
      HexRunIs(u, |FIELD|, n - 1);
    }
  }

  /** Of two texts, one of which begins the other, both begin with the same field if the longer one's
      ends within the shorter. */
  lemma SameField(u: string, w: string)
    requires FieldLength(u + w) <= |u|
    ensures FieldLength(u + w) == FieldLength(u)
  {
    var s := u + w;
    hide FieldLength;
    assert forall n :: 0 <= n <= |u| ==> s[..n] == u[..n];
    FieldIsOwn(s, u);
    FieldIsOwn(u, s);
  }

  lemma FieldLengthLocal(u: string, v: string)
    requires u != "" && v != "" && v[0] == 't'
    ensures FieldLength(u + v) == FieldLength(u)
  {
    var s := u + v;
    var n := FieldLength(s);
    assert s[|u|] == 't';
    if n > |u| {
      FieldHasOneT(s, |u|);
    }
    SameField(u, v);
  }

  lemma {:induction false} VarWidthSplit(u: string, v: string)
    requires v != "" && v[0] == 't'
    ensures VarWidthExcess(u + v) == VarWidthExcess(u) + VarWidthExcess(v)
    decreases |u|
  {
    if u == "" {
      assert u + v == v;
    } else {
      FieldLengthLocal(u, v);
      var n := FieldLength(u);
      if n > 0 {
        assert (u + v)[n..] == u[n..] + v;
        VarWidthSplit(u[n..], v);
      } else {
        assert (u + v)[1..] == u[1..] + v;
        VarWidthSplit(u[1..], v);
      }
    }
  }

  lemma VarWidthOfField(u: string, d: string, v: string)
    requires IsDigits(d)
    ensures VarWidthExcess(u + VendorField(d) + v) == VarWidthExcess(u) + (|d| - 1) + VarWidthExcess(v)
  {
    var f := VendorField(d) + v;
    assert u + VendorField(d) + v == u + f;
    assert f[0] == FIELD[0] == 't';
    VarWidthSplit(u, f);
    FieldLengthIs(d, v);
    assert f[|FIELD| + |d| + 1..] == v;
  }

  /** What is counted around a field's digits does not depend on them. */
  lemma CountAround(p: string, left: string, d: string, v: string, odd: char)
    requires p != "" && 'x' !in p && ']' !in p && odd in p && odd !in d
    ensures Count(p, left + ['x'] + (d + [']'] + v)) == Count(p, left) + Count(p, v)
  {
    Separates(p, left, 'x', d + [']'] + v);
    Separates(p, d, ']', v);
    NotThere(p, d, odd);
  }

  lemma FieldParts(u: string, d: string, v: string)
    ensures u + VendorField(d) + v == u + "tmpReg[0" + ['x'] + (d + [']'] + v)
  {
    assert FIELD == "tmpReg[0" + ['x'];
  }

  lemma FieldCarets(u: string, d: string, v: string)
    requires IsDigits(d)
    ensures EchoExcess(u + VendorField(d) + v) == EchoExcess(u + "tmpReg[0") + EchoExcess(v)
  {
    assert '^' in CARET && ESC in RAW && '^' !in d && ESC !in d;
    FieldParts(u, d, v);
    CountAround(CARET, u + "tmpReg[0", d, v, '^');
    CountAround(RAW, u + "tmpReg[0", d, v, ESC);
  }

  lemma FieldBare(u: string, d: string, v: string)
    requires IsDigits(d)
    ensures BareText(u + VendorField(d) + v) == BareText(u + "tmpReg[0") + ['x'] + d + [']'] + BareText(v)
  {
    var left := u + "tmpReg[0";
    FieldParts(u, d, v);
    RemoveAround(CARET, left, d, v);
    RemoveAround(RAW, Remove(CARET, left), d, Remove(CARET, v));
    var after := Remove(CARET, left) + ['x'] + (d + [']'] + Remove(CARET, v));
    assert Remove(CARET, u + VendorField(d) + v) == after;
    assert BareText(left) + ['x'] + (d + [']'] + BareText(v)) == BareText(left) + ['x'] + d + [']'] + BareText(v);
  }

  lemma RemoveAround(p: string, left: string, d: string, v: string)
    requires p == CARET || p == RAW
    requires IsDigits(d)
    ensures Remove(p, left + ['x'] + (d + [']'] + v)) == Remove(p, left) + ['x'] + (d + [']'] + Remove(p, v))
  {
    Separates(p, left, 'x', d + [']'] + v);
    Separates(p, d, ']', v);
    Skips(p, d, "");
    assert d + "" == d;
    assert Remove(p, "") == "";
  }

  lemma FieldReply(u: string, d: string, v: string)
    requires IsDigits(d)
    ensures ReplyExcess(u + VendorField(d) + v)
            == ReplyExcess(u + "tmpReg[0") + ReplyExcess(v)
  {
    hide BareText, VendorField, Count;
    FieldBare(u, d, v);
    var a, b := BareText(u + "tmpReg[0"), BareText(v);
    ReplyAlphabet();
    assert '\r' !in d;
    assert a + ['x'] + d + [']'] + b == a + ['x'] + (d + [']'] + b);
    CountAround(REPLY, a, d, b, '\r');
  }

  lemma ReplyAlphabet()
    ensures 'x' !in REPLY && ']' !in REPLY && 'K' !in REPLY && '\r' in REPLY && 'h' in REPLY
  {
    assert REPLY == ['\r', '\n', 's', 'h', ':', ' ', ':', ' ', 'n', 'o', 't', ' ', 'f', 'o', 'u', 'n', 'd',
                     '\r', '\n', '#', ' '];
    assert REPLY[0] == '\r' && REPLY[3] == 'h';
  }

  // ------------------------------------------------------------ marks around the field

  lemma {:induction false} FirstLineOpen(x: string, v: string)
    requires NoBreaks(x)
    ensures v != "" ==> FirstLine(x + v) == |x| + FirstLine(v)
    ensures v == "" && x != "" ==> FirstLine(x) == |x|
    decreases |x|
  {
    if x != "" {
      assert (x + v)[1..] == x[1..] + v;
      FirstLineOpen(x[1..], v);
    } else {
      assert x + v == v;
    }
  }

  /** The text after the first line of `v`, empty when there is none. */
  ghost function Rest(v: string): string {
    if v == "" then "" else v[FirstLine(v)..]
  }

  lemma OddIsNoMark(line: string, i: nat)
    requires i < |line| && !IsMarkChar(line[i]) && !IsBreak(line[i])
    ensures MarkLine(line).None?
  {
    if MarkLine(line).Some? {
      MarkChars(line);
      assert false;
    }
  }

  /** A line that begins with a stretch no mark could hold is no mark: only what follows it is. */
  lemma OpenLineMarks(x: string, i: nat, v: string)
    requires NoBreaks(x) && i < |x| && !IsMarkChar(x[i])
    ensures MarksOf(Lines(x + v)) == MarksOf(Lines(Rest(v)))
  {
    hide Lines, MarksOf, FirstLine, MarkLine;
    var s := x + v;
    var n := FirstLine(s);
    FirstLineOpen(x, v);
    if v == "" {
      assert s == x;
    }
    var line := s[..n];
    assert n >= |x| && line[i] == x[i];
    OddIsNoMark(line, i);
    assert s[n..] == Rest(v);
    LinesStep(s);
    assert Lines(s)[1..] == Lines(s[n..]);
    MarksStep(Lines(s));
    assert [] + MarksOf(Lines(s[n..])) == MarksOf(Lines(s[n..]));
  }

  /** Whatever stands in a line's bracketed stretch, the marks are the same. */
  lemma {:induction false} MarksAround(u: string, x: string, y: string, i: nat, j: nat, v: string)
    requires NoBreaks(x) && i < |x| && !IsMarkChar(x[i])
    requires NoBreaks(y) && j < |y| && !IsMarkChar(y[j])
    ensures MarksOf(Lines(u + x + v)) == MarksOf(Lines(u + y + v))
    decreases |u|
  {
    hide Lines, MarksOf, FirstLine, IsMarkChar, IsBreak;
    if NoBreaks(u) {
      LineAroundMarks(u, x, i, v);
      LineAroundMarks(u, y, j, v);
    } else {
      var n := FirstLine(u);
      assert x[0] != '\n' && y[0] != '\n' by { BreakIsNone(x); BreakIsNone(y); }
      MarksPastLine(u, x, v);
      MarksPastLine(u, y, v);
      MarksAround(u[n..], x, y, i, j, v);
    }
  }

  lemma BreakIsNone(x: string)
    requires x != "" && NoBreaks(x)
    ensures x[0] != '\n'
  {}

  lemma LineAroundMarks(u: string, x: string, i: nat, v: string)
    requires NoBreaks(u) && NoBreaks(x) && i < |x| && !IsMarkChar(x[i])
    ensures MarksOf(Lines(u + x + v)) == MarksOf(Lines(Rest(v)))
  {
    hide Lines, MarksOf, IsMarkChar, IsBreak;
    assert (u + x)[|u| + i] == x[i];
    OpenLineMarks(u + x, |u| + i, v);
  }

  lemma MarksPastLine(u: string, x: string, v: string)
    requires !NoBreaks(u) && x != "" && x[0] != '\n'
    ensures MarksOf(Lines(u + x + v))
            == MarksOf([u[..FirstLine(u)]]) + MarksOf(Lines(u[FirstLine(u)..] + x + v))
  {
    var n := FirstLine(u);
    EndedFirstLine(u, x + v);
    assert u + x + v == u + (x + v);
    LinesFirst(u, x + v, n);
    assert u[n..] + (x + v) == u[n..] + x + v;
  }

  lemma LinesFirst(u: string, w: string, n: nat)
    requires u != "" && n == FirstLine(u) && FirstLine(u + w) == n
    ensures Lines(u + w) == [u[..n]] + Lines(u[n..] + w)
    ensures MarksOf(Lines(u + w)) == MarksOf([u[..n]]) + MarksOf(Lines(u[n..] + w))
  {
    assert (u + w)[..n] == u[..n] && (u + w)[n..] == u[n..] + w;
    MarksConcat([u[..n]], Lines(u[n..] + w));
  }

  /** A first line that ends stays the first line, whatever other than LF follows. */
  lemma {:induction false} EndedFirstLine(u: string, w: string)
    requires u != "" && !NoBreaks(u) && (w == "" || w[0] != '\n')
    ensures FirstLine(u + w) == FirstLine(u)
    decreases |u|
  {
    if !IsBreak(u[0]) {
      assert (u + w)[1..] == u[1..] + w;
      assert !NoBreaks(u[1..]);
      EndedFirstLine(u[1..], w);
    }
  }

  /** Replacing a vendor field's digits by any others leaves the normalised constant alone. */
  lemma DigitsDoNotCount(u: string, d: string, e: string, v: string)
    requires IsDigits(d) && IsDigits(e)
    ensures Normalised(u + VendorField(d) + v) == Normalised(u + VendorField(e) + v)
  {
    VarWidthOfField(u, d, v);
    VarWidthOfField(u, e, v);
    FieldCarets(u, d, v);
    FieldCarets(u, e, v);
    FieldReply(u, d, v);
    FieldReply(u, e, v);
    FieldShape(d);
    FieldShape(e);
    MarksAround(u, VendorField(d), VendorField(e), 6, 6, v);
  }

  lemma FieldShape(d: string)
    requires IsDigits(d)
    ensures NoBreaks(VendorField(d)) && |VendorField(d)| > 6 && VendorField(d)[6] == '['
    ensures |VendorField(d)| == |FIELD| + |d| + 1
  {
    assert FIELD == ['t', 'm', 'p', 'R', 'e', 'g', '[', '0', 'x'];
    var f := VendorField(d);
    forall i | 0 <= i < |f| ensures !IsBreak(f[i]) {
      assert f[i] == if i < |FIELD| then FIELD[i] else if i < |FIELD| + |d| then d[i - |FIELD|] else ']';
    }
  }

  // ------------------------------------------------------------ the echo term is exact

  const JUMP_ECHO: string := "J 80500000"
  const JUMP: string := "---Jump to address=80500000"
  const INIT_LINE: string := "rlxfw: init running, RLXFW-R3-RUNG1-O"

  /** The loader's lines and the two marks: what comes before the first echo. */
  function Head(): string {
    JUMP_ECHO + "\n" + ("\r" + (JUMP + "\n" + ("\r" + ("RLXFW-B00\r\n" + "RLXFW-B10\r\n"))))
  }

  /** The reply of the shell to `k` escapes, when the capture runs that far. */
  function Tail(k: nat, full: bool): string {
    if full then "\r\nsh: " + Copies(RAW, k) + ": not found\r\n# " else ""
  }

  /** Init's first line, the extra bytes, and the shell's prompt. */
  function Middle(extra: string): string {
    INIT_LINE + ['K'] + ("\r\n" + extra + "# ")
  }

  /** A boot whose console echoed `k` escapes, two before init's first line and the rest at the
      shell's prompt; `full` runs on to the shell's reply. */
  function Fixture(k: nat, full: bool, extra: string): string
    requires k >= 2
  {
    Head() + (Copies(CARET, 2) + (Middle(extra) + (Copies(CARET, k - 2) + Tail(k, full))))
  }

  /** Bytes that are neither a line ending nor an echo of an escape. */
  ghost predicate Ordinary(extra: string) {
    forall i :: 0 <= i < |extra| ==> !IsBreak(extra[i]) && extra[i] != '^' && extra[i] != ESC
  }

  /** A text none of whose characters starts an echo. */
  ghost predicate Quiet(s: string) {
    forall i :: 0 <= i < |s| ==> s[i] != '^' && s[i] != ESC
  }

  predicate LetterlessChar(c: char) { c != '^' && c != ESC && c != ']' && c != 'h' }

  /** Quiet, without the end of a vendor field and without the letter `h`. */
  ghost predicate Letterless(s: string) { forall i :: 0 <= i < |s| ==> LetterlessChar(s[i]) }

  lemma LetterlessIs(s: string)
    requires Letterless(s)
    ensures Quiet(s) && ']' !in s && 'h' !in s
  {
    assert forall i :: 0 <= i < |s| ==> LetterlessChar(s[i]);
  }

  lemma LetterlessConcat(a: string, b: string)
    requires Letterless(a) && Letterless(b)
    ensures Letterless(a + b)
  {}

  lemma JumpWords()
    ensures Letterless(JUMP_ECHO) && Letterless(JUMP)
  {}

  lemma MarkWords()
    ensures Letterless("RLXFW-B00\r\n") && Letterless("RLXFW-B10\r\n") && Letterless("\n") && Letterless("\r")
  {}

  lemma HeadPlain()
    ensures Letterless(Head()) && Quiet(Head()) && ']' !in Head() && 'h' !in Head()
  {
    JumpWords();
    MarkWords();
    hide Letterless;
    var marks := "RLXFW-B00\r\n" + "RLXFW-B10\r\n";
    LetterlessConcat("RLXFW-B00\r\n", "RLXFW-B10\r\n");
    LetterlessConcat("\r", marks);
    LetterlessConcat(JUMP + "\n", "\r" + marks);
    LetterlessConcat(JUMP, "\n");
    LetterlessConcat("\r", JUMP + "\n" + ("\r" + marks));
    LetterlessConcat(JUMP_ECHO, "\n");
    LetterlessConcat(JUMP_ECHO + "\n", "\r" + (JUMP + "\n" + ("\r" + marks)));
    LetterlessIs(Head());
  }

  lemma InitWords()
    ensures Letterless(INIT_LINE)
  {}

  lemma InitPlain()
    ensures Quiet(INIT_LINE) && ']' !in INIT_LINE && 'h' !in INIT_LINE
  {
    InitWords();
    hide Letterless;
    LetterlessIs(INIT_LINE);
  }

  lemma QuietConcat(a: string, b: string)
    requires Quiet(a) && Quiet(b)
    ensures Quiet(a + b)
  {
  }

  lemma MiddleQuiet(extra: string)
    requires Ordinary(extra)
    ensures Quiet(Middle(extra))
  {
    InitPlain();
    assert Quiet(['K']) && Quiet("\r\n") && Quiet("# ");
    QuietConcat("\r\n", extra);
    QuietConcat("\r\n" + extra, "# ");
    QuietConcat(INIT_LINE, ['K']);
    QuietConcat(INIT_LINE + ['K'], "\r\n" + extra + "# ");
  }

  lemma {:induction false} RepeatChars(p: string, n: nat, i: nat)
    requires i < |Copies(p, n)|
    ensures Copies(p, n)[i] in p
  {
    if i >= |p| {
      RepeatChars(p, n - 1, i - |p|);
    }
  }

  lemma CaretsAround(head: string, mid: string, t: string, k: nat)
    requires k >= 2 && '^' !in head && '^' !in mid && '^' !in t
    ensures var f := head + (Copies(CARET, 2) + (mid + (Copies(CARET, k - 2) + t)));
            Count(CARET, f) == k && Remove(CARET, f) == head + (mid + t)
  {
    hide Count, Remove, Copies;
    assert t + "" == t;
    Skips(CARET, t, "");
    var x := Copies(CARET, k - 2) + t;
    Repeated(CARET, k - 2, t);
    Skips(CARET, mid, x);
    Repeated(CARET, 2, mid + x);
    Skips(CARET, head, Copies(CARET, 2) + (mid + x));
    NothingLeft();
  }

  lemma NothingLeft()
    ensures Count(CARET, "") == 0 && Remove(CARET, "") == ""
  {}

  lemma QuietCaret(s: string)
    requires Quiet(s)
    ensures '^' !in s
  {}

  /** The carets are counted exactly, and removing them leaves the rest. */
  lemma FixtureCarets(k: nat, full: bool, extra: string)
    requires k >= 2 && Ordinary(extra)
    ensures Count(CARET, Fixture(k, full, extra)) == k
    ensures Remove(CARET, Fixture(k, full, extra)) == Head() + (Middle(extra) + Tail(k, full))
  {
    hide Head, Middle, Tail, Quiet, Count, Remove, Copies;
    HeadPlain();
    MiddleQuiet(extra);
    TailCarets(k, full);
    QuietCaret(Head());
    QuietCaret(Middle(extra));
    CaretsAround(Head(), Middle(extra), Tail(k, full), k);
  }

  lemma TailCarets(k: nat, full: bool)
    ensures '^' !in Tail(k, full) && ']' !in Tail(k, full)
    ensures |Tail(k, full)| == if full then |REPLY| + k else 0
  {
    if full {
      var a, r, b := "\r\nsh: ", Copies(RAW, k), ": not found\r\n# ";
      assert Quiet(a) && ']' !in a && Quiet(b) && ']' !in b;
      forall i | 0 <= i < |r| ensures r[i] == ESC {
        RepeatChars(RAW, k, i);
      }
    }
  }

  lemma RawAround(q: string, a: string, b: string, k: nat)
    requires ESC !in q && ESC !in a && ESC !in b
    ensures Count(RAW, q + (a + (Copies(RAW, k) + b))) == k
    ensures Remove(RAW, q + (a + (Copies(RAW, k) + b))) == q + (a + b)
  {
    assert b + "" == b;
    Skips(RAW, b, "");
    Repeated(RAW, k, b);
    Skips(RAW, a, Copies(RAW, k) + b);
    Skips(RAW, q, a + (Copies(RAW, k) + b));
  }

  lemma ReplyHalves()
    ensures "\r\nsh: " + ": not found\r\n# " == REPLY
    ensures ESC !in "\r\nsh: " && ESC !in ": not found\r\n# "
  {
  }

  /** The raw escapes are counted exactly, and removing them makes the tail the bare reply. */
  lemma RawEscapes(q: string, k: nat, full: bool)
    requires ESC !in q
    ensures Count(RAW, q + Tail(k, full)) == if full then k else 0
    ensures Remove(RAW, q + Tail(k, full)) == q + if full then REPLY else ""
  {
    if full {
      var a, b := "\r\nsh: ", ": not found\r\n# ";
      assert Tail(k, full) == a + (Copies(RAW, k) + b);
      ReplyHalves();
      RawAround(q, a, b, k);
    } else {
      Skips(RAW, q, "");
    }
  }

  lemma CaretsNoEscape(n: nat)
    ensures ESC !in Copies(CARET, n)
  {
    var c := Copies(CARET, n);
    forall i | 0 <= i < |c| ensures c[i] != ESC { RepeatChars(CARET, n, i); }
  }

  lemma EscapesAround(head: string, mid: string, c2: string, ck: string, k: nat, full: bool)
    requires ESC !in head && ESC !in mid && ESC !in c2 && ESC !in ck
    ensures Count(RAW, head + (c2 + (mid + (ck + Tail(k, full))))) == if full then k else 0
    ensures Remove(RAW, head + (mid + Tail(k, full))) == head + mid + if full then REPLY else ""
  {
    hide Count, Remove, Tail;
    var t := Tail(k, full);
    var q := head + (c2 + (mid + ck));
    assert head + (c2 + (mid + (ck + t))) == q + t;
    RawEscapes(q, k, full);
    assert head + (mid + t) == (head + mid) + t;
    RawEscapes(head + mid, k, full);
  }

  lemma QuietEscape(s: string)
    requires Quiet(s)
    ensures ESC !in s
  {}

  lemma FixtureEscapes(k: nat, full: bool, extra: string)
    requires k >= 2 && Ordinary(extra)
    ensures Count(RAW, Fixture(k, full, extra)) == if full then k else 0
    ensures BareText(Fixture(k, full, extra)) == Head() + Middle(extra) + if full then REPLY else ""
  {
    hide Head, Middle, Tail, Copies, Remove, Count, Quiet;
    HeadPlain();
    MiddleQuiet(extra);
    QuietEscape(Head());
    QuietEscape(Middle(extra));
    FixtureCarets(k, full, extra);
    CaretsNoEscape(2);
    CaretsNoEscape(k - 2);
    EscapesAround(Head(), Middle(extra), Copies(CARET, 2), Copies(CARET, k - 2), k, full);
  }

  lemma PrefixDiffers(p: string, s: string, i: nat)
    requires i < |p| && i < |s| && p[i] != s[i]
    ensures !(p <= s)
  {
  }

  /** The reply cannot begin at the line break before the extra bytes. */
  lemma ReplyNotEarlier(extra: string, more: string)
    requires Ordinary(extra)
    requires more == "" || more == REPLY
    ensures !(REPLY <= "\r\n" + extra + "# " + more)
  {
    var s, n := "\r\n" + extra + "# " + more, |extra|;
    assert |REPLY| == 21 && REPLY[17] == '\r' && forall i :: 2 <= i <= 17 ==> REPLY[i] != '#';
    if n > 15 {
      assert s[17] == extra[15];
      PrefixDiffers(REPLY, s, 17);
    } else {
      assert s[n + 2] == '#';
      PrefixDiffers(REPLY, s, n + 2);
    }
  }

  lemma MiddleParts(head: string, extra: string, more: string)
    ensures head + Middle(extra) + more == (head + INIT_LINE) + ['K'] + ("\r\n" + extra + "# " + more)
  {
  }

  /** After the line break nothing of the reply is left but what `more` brings. */
  lemma ReplyAfterBreak(extra: string, more: string)
    requires Ordinary(extra) && (more == "" || more == REPLY)
    ensures Count(REPLY, "\r\n" + extra + "# " + more) == Count(REPLY, more)
  {
    var tail := "\r\n" + extra + "# " + more;
    ReplyNotEarlier(extra, more);
    var u := "\n" + extra + "# ";
    forall i | 0 <= i < |u| ensures u[i] != '\r' {
      if 1 <= i < |u| - 2 {
        assert u[i] == extra[i - 1] && !IsBreak(extra[i - 1]);
      }
    }
    assert tail[1..] == u + more;
    CountPast(REPLY, tail);
    hide Count;
    ReplyAlphabet();
    Skips(REPLY, u, more);
  }

  lemma CountPast(p: string, s: string)
    requires p != "" && s != "" && !(p <= s)
    ensures Count(p, s) == Count(p, s[1..])
  {}

  lemma CountReply(more: string)
    requires more == "" || more == REPLY
    ensures Count(REPLY, more) == if more == "" then 0 else 1
  {
    assert REPLY[|REPLY|..] == "";
  }

  lemma ReplyCount(extra: string, more: string)
    requires Ordinary(extra) && (more == "" || more == REPLY)
    ensures Count(REPLY, Head() + Middle(extra) + more) == if more == "" then 0 else 1
  {
    hide Count, Head, Middle;
    ReplyAlphabet();
    HeadPlain();
    InitPlain();
    var tail := "\r\n" + extra + "# " + more;
    MiddleParts(Head(), extra, more);
    Separates(REPLY, Head() + INIT_LINE, 'K', tail);
    NotThere(REPLY, Head() + INIT_LINE, 'h');
    ReplyAfterBreak(extra, more);
    CountReply(more);
  }

  lemma {:induction false} NoFieldEnd(s: string)
    requires ']' !in s
    ensures VarWidthExcess(s) == 0
    decreases |s|
  {
    if s != "" {
      NoFieldEnd(s[1..]);
    }
  }

  /** A line of its own, then the marks of what follows. */
  lemma LineOff(body: string, end: string, rest: string)
    requires NoBreaks(body)
    requires end == "\n" || end == "\r\n" || (end == "\r" && (rest == "" || rest[0] != '\n'))
    ensures MarksOf(Lines(body + end + rest)) == MarksOf([body + end]) + MarksOf(Lines(rest))
  {
    var s := body + end + rest;
    FirstLineIs(body, end, rest);
    assert s[..|body| + |end|] == body + end && s[|body| + |end|..] == rest;
    MarksConcat([body + end], Lines(rest));
  }

  lemma PlainLine(body: string, i: nat, rest: string)
    requires NoBreaks(body) && i < |body| && !IsMarkChar(body[i])
    ensures MarksOf(Lines(body + "\n" + rest)) == MarksOf(Lines(rest))
  {
    LineOff(body, "\n", rest);
    OddIsNoMark(body + "\n", i);
    assert MarksOf([body + "\n"]) == [];
  }

  lemma LoneReturn(rest: string)
    requires rest != "" && rest[0] != '\n'
    ensures MarksOf(Lines("\r" + rest)) == MarksOf(Lines(rest))
  {
    assert "" + "\r" + rest == "\r" + rest && "" + "\r" == "\r";
    LineOff("", "\r", rest);
    assert MarksOf(["\r"]) == [];
  }

  lemma BareMark(tag: string, rest: string)
    requires IsTag(tag)
    ensures MarksOf(Lines(PREFIX + tag + "\r\n" + rest)) == [Mark(tag, false)] + MarksOf(Lines(rest))
  {
    var body := PREFIX + tag;
    assert PREFIX == ['R', 'L', 'X', 'F', 'W', '-'];
    forall i | 0 <= i < |body| ensures !IsBreak(body[i]) {
      assert body[i] == if i < 6 then PREFIX[i] else tag[i - 6];
    }
    LineOff(body, "\r\n", rest);
    var line := body + "\r\n";
    assert line[..6] == PREFIX && line[6..|line| - 2] == tag;
    assert MarksOf([line]) == [Mark(tag, false)];
  }

  /** The head holds two marks and nothing else that counts. */
  lemma HeadMarks(rest: string)
    ensures MarksOf(Lines(Head() + rest)) == [Mark("B00", false)] + ([Mark("B10", false)] + MarksOf(Lines(rest)))
  {
    var r5 := PREFIX + "B10" + "\r\n" + rest;
    var r4 := PREFIX + "B00" + "\r\n" + r5;
    HeadParts(rest);
    JumpChars();
    hide Head, Lines, MarksOf;
    var r2 := JUMP + "\n" + ("\r" + r4);
    BareMark("B10", rest);
    BareMark("B00", r5);
    LoneReturn(r4);
    PlainLine(JUMP, 7, "\r" + r4);
    LoneReturn(r2);
    PlainLine(JUMP_ECHO, 1, "\r" + r2);
  }

  lemma JumpChars()
    ensures NoBreaks(JUMP) && |JUMP| > 7 && JUMP[7] == ' ' && JUMP[0] == '-'
    ensures NoBreaks(JUMP_ECHO) && |JUMP_ECHO| > 1 && JUMP_ECHO[1] == ' '
  {
  }

  lemma HeadParts(rest: string)
    ensures Head() + rest ==
            JUMP_ECHO + "\n" + ("\r" + (JUMP + "\n" +
              ("\r" + (PREFIX + "B00" + "\r\n" + (PREFIX + "B10" + "\r\n" + rest)))))
  {
    assert "RLXFW-B00\r\n" == PREFIX + "B00" + "\r\n" && "RLXFW-B10\r\n" == PREFIX + "B10" + "\r\n";
  }

  /** From the first echo on there is no mark. */
  lemma EchoMarks(k: nat, full: bool, extra: string)
    requires k >= 2 && Ordinary(extra)
    ensures MarksOf(Lines(Copies(CARET, 2) + (Middle(extra) + (Copies(CARET, k - 2) + Tail(k, full))))) == []
  {
    CaretsNoBreak(2);
    CaretsNoBreak(k - 2);
    InitNoBreak();
    TailMarks(k, full);
    hide Tail, Copies, Lines, MarksOf, Middle, Rest;
    var ck, t := Copies(CARET, k - 2), Tail(k, full);
    EchoLine(Copies(CARET, 2), extra, ck + t);
    PromptLine(extra, ck, t);
  }

  lemma EchoLine(c2: string, extra: string, more: string)
    requires NoBreaks(c2) && c2 != "" && c2[0] == '^' && NoBreaks(INIT_LINE)
    ensures MarksOf(Lines(c2 + (Middle(extra) + more))) == MarksOf(Lines(extra + "# " + more))
  {
    var x, w := c2 + INIT_LINE + ['K'], extra + "# " + more;
    assert c2 + (Middle(extra) + more) == x + ("\r\n" + w);
    hide Lines, MarksOf;
    OpenLineMarks(x, 0, "\r\n" + w);
    assert ("\r\n" + w)[2..] == w;
  }

  lemma PromptLine(extra: string, ck: string, t: string)
    requires Ordinary(extra) && NoBreaks(ck)
    ensures MarksOf(Lines(extra + "# " + (ck + t))) == MarksOf(Lines(Rest(t)))
  {
    hide Lines, MarksOf;
    var y := extra + "# " + ck;
    assert extra + "# " + (ck + t) == y + t && y[|extra|] == '#';
    OpenLineMarks(y, |extra|, t);
  }

  lemma CaretsNoBreak(n: nat)
    ensures NoBreaks(Copies(CARET, n))
    ensures n > 0 ==> Copies(CARET, n) != "" && Copies(CARET, n)[0] == '^'
  {
    var c := Copies(CARET, n);
    forall i | 0 <= i < |c| ensures !IsBreak(c[i]) { RepeatChars(CARET, n, i); }
  }

  lemma InitNoBreak()
    ensures NoBreaks(INIT_LINE)
  {
  }

  lemma TailMarks(k: nat, full: bool)
    ensures MarksOf(Lines(Rest(Tail(k, full)))) == []
  {
    if full {
      var r := Copies(RAW, k);
      forall i | 0 <= i < |r| ensures r[i] == ESC { RepeatChars(RAW, k, i); }
      var z := "sh: " + r + ": not found";
      assert Tail(k, true) == "\r\n" + (z + ("\r\n" + "# "));
      ReplyLine(z);
    }
  }

  lemma ReplyLine(z: string)
    requires NoBreaks(z) && |z| > 2 && z[2] == ':'
    ensures MarksOf(Lines(Rest("\r\n" + (z + ("\r\n" + "# "))))) == []
  {
    hide MarksOf, Lines;
    RestPast("# ");
    RestPast(z + ("\r\n" + "# "));
    OpenLineMarks(z, 2, "\r\n" + "# ");
    PromptAlone();
  }

  lemma RestPast(w: string)
    ensures Rest("\r\n" + w) == w
  {
    assert ("\r\n" + w)[2..] == w;
  }

  lemma PromptAlone()
    ensures MarksOf(Lines("# ")) == []
  {
    assert "# " + "" == "# ";
    OpenLineMarks("# ", 0, "");
  }

  /** With the echo and reply terms the constant does not depend on how many escapes were typed nor
      on whether the capture ran on to the shell's reply, and ordinary bytes move it by exactly
      their number, less what the vendor fields among them are counted for. */
  lemma EchoTermExact(k: nat, full: bool, extra: string)
    requires k >= 2 && Ordinary(extra)
    ensures Normalised(Fixture(k, full, extra)) == |Head()| + |Middle("")| + |extra| - VarWidthExcess(extra) - 22
  {
    var s := Fixture(k, full, extra);
    FixtureCarets(k, full, extra);
    FixtureEscapes(k, full, extra);
    ReplyCount(extra, if full then REPLY else "");
    HeadMarks(Copies(CARET, 2) + (Middle(extra) + (Copies(CARET, k - 2) + Tail(k, full))));
    EchoMarks(k, full, extra);
    FixtureFields(k, full, extra);
    FixtureLength(k, full, extra);
    FixtureArithmetic(s, k, full, extra);
  }

  /** A character no vendor field can hold. */
  predicate OutsideField(c: char) { !IsHex(c) && c != ']' && c !in FIELD }

  lemma FieldChars(s: string, i: nat)
    requires i < FieldLength(s)
    ensures !OutsideField(s[i])
  {
    if i < |FIELD| {
      assert s[i] == FIELD[i];
    }
  }

  /** A field does not reach across such a character. */
  lemma FieldLengthStops(u: string, c: char, v: string)
    requires OutsideField(c)
    ensures FieldLength(u + ([c] + v)) == FieldLength(u)
  {
    var s := u + ([c] + v);
    var n := FieldLength(s);
    assert s[|u|] == c;
    if n > |u| {
      FieldChars(s, |u|);
    }
    SameField(u, [c] + v);
  }

  /** So the fields on its two sides are counted apart. */
  lemma {:induction false} VarWidthSeparates(u: string, c: char, v: string)
    requires OutsideField(c)
    ensures VarWidthExcess(u + ([c] + v)) == VarWidthExcess(u) + VarWidthExcess(v)
    decreases |u|
  {
    var s := u + ([c] + v);
    FieldLengthStops(u, c, v);
    hide FieldLength;
    if u == "" {
      assert s == [c] + v && s[1..] == v;
      NoFieldInNothing();
    } else {
      var n := FieldLength(u);
      if n > 0 {
        assert s[n..] == u[n..] + ([c] + v);
        VarWidthSeparates(u[n..], c, v);
      } else {
        assert s[1..] == u[1..] + ([c] + v);
        VarWidthSeparates(u[1..], c, v);
      }
    }
  }

  lemma NoFieldInNothing()
    ensures FieldLength("") == 0
  {}

  /** Only the extra bytes can hold vendor fields. */
  lemma FixtureFields(k: nat, full: bool, extra: string)
    requires k >= 2
    ensures VarWidthExcess(Fixture(k, full, extra)) == VarWidthExcess(extra)
  {
    var c2, ck, t := Copies(CARET, 2), Copies(CARET, k - 2), Tail(k, full);
    HeadPlain();
    InitPlain();
    TailCarets(k, full);
    forall i | 0 <= i < |c2| ensures c2[i] != ']' { RepeatChars(CARET, 2, i); }
    forall i | 0 <= i < |ck| ensures ck[i] != ']' { RepeatChars(CARET, k - 2, i); }
    FixtureAround(extra, Head(), c2, ck, t);
    hide Head, Middle, Tail, Copies;
    var before, after := Head() + c2 + INIT_LINE + "K\r", " " + ck + t;
    assert ']' !in before && ']' !in after;
    NoFieldEnd(before);
    NoFieldEnd(after);
    assert OutsideField('\n') && OutsideField('#');
    VarWidthSeparates(before, '\n', extra + (['#'] + after));
    VarWidthSeparates(extra, '#', after);
  }

  lemma FixtureAround(extra: string, head: string, c2: string, ck: string, t: string)
    ensures head + (c2 + (Middle(extra) + (ck + t)))
            == head + c2 + INIT_LINE + "K\r" + (['\n'] + (extra + (['#'] + (" " + ck + t))))
  {
    var m := "\r\n" + extra + "# ";
    assert ['K'] + m == "K\r" + (['\n'] + (extra + (['#'] + " ")));
  }

  lemma FixtureLength(k: nat, full: bool, extra: string)
    requires k >= 2
    ensures |Fixture(k, full, extra)|
            == |Head()| + |Middle("")| + |extra| + 2 * k + if full then |REPLY| + k else 0
  {
    TailCarets(k, full);
    assert |Middle(extra)| == |Middle("")| + |extra|;
    assert |CARET| == 2;
  }

  lemma FixtureArithmetic(s: string, k: nat, full: bool, extra: string)
    requires k >= 2
    requires |s| == |Head()| + |Middle("")| + |extra| + 2 * k + if full then |REPLY| + k else 0
    requires MarksOf(Lines(s)) == [Mark("B00", false)] + ([Mark("B10", false)] + [])
    requires VarWidthExcess(s) == VarWidthExcess(extra)
    requires Count(CARET, s) == k && Count(RAW, s) == if full then k else 0
    requires Count(REPLY, BareText(s)) == if full then 1 else 0
    ensures Normalised(s) == |Head()| + |Middle("")| + |extra| - VarWidthExcess(extra) - 22
  {
    hide Head, Middle, Lines, MarksOf, Count, BareText, VarWidthExcess, SumCost, Cost;
    TwoMarks();
    assert Raw(s) == |s| - 22;
  }

  lemma OneCost(m: Mark)
    ensures SumCost([m]) == Cost(m) && SumCost([]) == 0
  {
    assert [m][1..] == [];
  }

  lemma TwoMarks()
    ensures SumCost([Mark("B00", false)] + ([Mark("B10", false)] + [])) == 22
  {
    var b00, b10 := Mark("B00", false), Mark("B10", false);
    assert |"B00"| == 3 && |"B10"| == 3;
    assert Cost(b00) == 11 && Cost(b10) == 11;
    hide SumCost, Cost;
    OneCost(b00);
    OneCost(b10);
    SumCostSplit([b10], []);
    SumCostSplit([b00], [b10] + []);
  }

  /** Without the echo term each escape more costs three bytes where the shell replied and two where
      the capture stops at the echo; without the reply term the two shapes lie one reply apart. */
  lemma TermsDoTheWork(k: nat, full: bool, extra: string)
    requires k >= 2 && Ordinary(extra)
    ensures WithoutEcho(Fixture(k + 1, full, extra)) - WithoutEcho(Fixture(k, full, extra)) == if full then 3 else 2
    ensures WithoutReply(Fixture(k, true, extra)) - WithoutReply(Fixture(k, false, extra)) == |REPLY|
  {
    hide Fixture, Normalised, Count, BareText, Head, Middle;
    EchoTermExact(k, full, extra);
    EchoTermExact(k + 1, full, extra);
    EchoTermExact(k, true, extra);
    EchoTermExact(k, false, extra);
    FixtureCarets(k, full, extra);
    FixtureCarets(k + 1, full, extra);
    FixtureEscapes(k, full, extra);
    FixtureEscapes(k + 1, full, extra);
    FixtureEscapes(k, true, extra);
    FixtureEscapes(k, false, extra);
    ReplyCount(extra, REPLY);
    ReplyCount(extra, "");
    assert Head() + Middle(extra) + "" == Head() + Middle(extra);
  }
}
