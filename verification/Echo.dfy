/** The echo matcher and the field reader of `tools/capfield.py`. */
module Echo {
  import opened Common
  import opened Text

  /** The text without CR and LF. */
  function Bare(s: string): string { Without(s, IsBreak) }

  lemma BareNext(s: string, i: nat)
    requires i < |s|
    ensures Bare(s[..i + 1]) == Bare(s[..i]) + if IsBreak(s[i]) then "" else [s[i]]
  {
    assert s[..i + 1] == s[..i] + [s[i]];
    WithoutConcat(s[..i], [s[i]], IsBreak);
    assert [s[i]][1..] == "";
  }

  lemma {:induction false} BareGrows(s: string, i: nat, j: nat)
    requires i <= j <= |s|
    ensures Bare(s[..i]) <= Bare(s[..j])
    decreases j
  {
    if i < j {
      BareGrows(s, i, j - 1);
      BareNext(s, j - 1);
    }
  }

  /** `e` is the first index by which the log, breaks aside, has shown exactly `sent`. */
  ghost predicate EndsEcho(log: string, sent: string, e: nat) {
    && sent != "" && e <= |log|
    && Bare(log[..e]) == sent
    && forall k :: 0 <= k < e ==> |Bare(log[..k])| < |sent|
  }

  /** Where the echo ends, if the log begins with one. */
  ghost function EndOf(log: string, sent: string): (r: Option<nat>)
    ensures forall e: nat :: r == Some(e) <==> EndsEcho(log, sent, e)
  {
    if e: nat :| EndsEcho(log, sent, e) then Some(e) else None
  }

  lemma {:induction false} BareHasNone(s: string)
    ensures forall i :: 0 <= i < |Bare(s)| ==> !IsBreak(Bare(s)[i])
  {
    if s != "" {
      BareHasNone(s[1..]);
      assert Bare(s) == (if IsBreak(s[0]) then "" else [s[0]]) + Bare(s[1..]);
    }
  }

  /** A log that begins with an echo begins with the command, breaks aside, and the command has none. */
  lemma EchoBegins(log: string, sent: string)
    ensures EndOf(log, sent).Some? ==> sent != "" && Bare(sent) == sent && sent <= Bare(log)
  {
    if e: nat :| EndsEcho(log, sent, e) {
      BareHasNone(log[..e]);
      WithoutNone(sent, IsBreak);
      BareGrows(log, e, |log|);
      assert log[..|log|] == log;
    }
  }

  /** One past the echoed command, or nothing when the log does not begin with it. */
  method EchoEnd(log: string, sent: string) returns (r: Option<nat>)
    ensures r == EndOf(log, sent)
    ensures r.Some? <==> sent != "" && Bare(sent) == sent && sent <= Bare(log)
  {
    EchoBegins(log, sent);
    hide EndOf;
    if sent == "" {
      return None;
    }
    var i, j := 0, 0;
    while i < |log| && j < |sent|
      invariant 0 <= i <= |log| && 0 <= j <= |sent|
      invariant Bare(log[..i]) == sent[..j] && Bare(sent[..j]) == sent[..j]
      invariant forall k :: 0 <= k < i ==> |Bare(log[..k])| < |sent|
    {
      var c := log[i];
      BareNext(log, i);
      if c == '\r' || c == '\n' {
        i := i + 1;
        continue;
      }
      if c != sent[j] {
        Mismatch(log, sent, i, j);
        return None;
      }
      BareNext(sent, j);
      i := i + 1;
      j := j + 1;
    }
    assert log[..|log|] == log && sent[..|sent|] == sent;
    if j < |sent| {
      return None;
    }
    BareGrows(log, i, |log|);
    return Some(i);
  }

  /** A character that differs from the command's next ends all hope of a match. */
  lemma Mismatch(log: string, sent: string, i: nat, j: nat)
    requires i < |log| && j < |sent| && !IsBreak(log[i]) && log[i] != sent[j]
    requires Bare(log[..i]) == sent[..j]
    ensures !(sent <= Bare(log))
  {
    BareNext(log, i);
    BareGrows(log, i + 1, |log|);
    assert log[..|log|] == log;
    assert Bare(log[..i + 1])[j] == log[i];
  }

  /** The end of an echo is unique. */
  lemma EchoEndUnique(log: string, sent: string, e: nat, f: nat)
    requires EndsEcho(log, sent, e) && EndsEcho(log, sent, f)
    ensures e == f
  {
  }

  // ------------------------------------------------------------ the fields after it

  predicate StartsName(c: char) { 'a' <= c <= 'z' }

  predicate InName(c: char) { 'a' <= c <= 'z' || '0' <= c <= '9' || c == '_' }

  /** A line of the form `name value`, both without blanks. */
  predicate IsField(line: string, space: char -> bool, n: nat) {
    && 0 < n < |line| - 1
    && StartsName(line[0]) && (forall i :: 0 < i < n ==> InName(line[i]))
    && line[n] == ' '
    && forall i :: n < i < |line| ==> !space(line[i])
  }

  function FieldAt(line: string, space: char -> bool, n: nat): Option<(string, string)>
    decreases |line| - n
  {
    if n >= |line| then None
    else if line[n] == ' ' then
      if IsField(line, space, n) then Some((line[..n], line[n + 1..])) else None
    else FieldAt(line, space, n + 1)
  }

  function Field(raw: string, space: char -> bool): Option<(string, string)> {
    FieldAt(Strip(raw, space), space, 0)
  }

  type Table = map<string, seq<string>>

  function AddField(t: Table, f: Option<(string, string)>): Table {
    if f.None? then t
    else t[f.value.0 := (if f.value.0 in t then t[f.value.0] else []) + [f.value.1]]
  }

  /** Every line break as one newline. */
  function Normalize(s: string): string {
    if s == "" then ""
    else if s[0] == '\r' then ['\n'] + Normalize(if |s| > 1 && s[1] == '\n' then s[2..] else s[1..])
    else [s[0]] + Normalize(s[1..])
  }

  function FieldsFrom(lines: seq<string>, space: char -> bool, t: Table): Table {
    if lines == [] then t else FieldsFrom(lines[1..], space, AddField(t, Field(lines[0], space)))
  }

  /** The fields of a capture's body, in order. */
  function FieldsOf(body: string, space: char -> bool): Table {
    FieldsFrom(Split(Normalize(body)), space, map[])
  }

  /** What is read of a log: the fields after its echo, or of all of it when it begins with none, and
      whether it did. */
  ghost function Reading(log: string, sent: string, space: char -> bool): (Table, bool) {
    match EndOf(log, sent)
    case Some(e) => (FieldsOf(log[e..], space), true)
    case None => (FieldsOf(log, space), false)
  }

  method Fields(log: string, sent: string, space: char -> bool) returns (out: Table, matched: bool)
    ensures (out, matched) == Reading(log, sent, space)
    ensures matched <==> sent != "" && Bare(sent) == sent && sent <= Bare(log)
  {
    var end := EchoEnd(log, sent);
    var body := if end.Some? then log[end.value..] else log;
    matched := end.Some?;
    out := map[];
    var lines := Split(Normalize(body));
    for k := 0 to |lines|
      invariant FieldsOf(body, space) == FieldsFrom(lines[k..], space, out)
    {
      assert lines[k..][1..] == lines[k + 1..];
      out := AddField(out, Field(lines[k], space));
    }
  }

  /** Rewrapping the echo, that is adding or removing CR and LF anywhere before its last character,
      moves its end and changes nothing that is read. */
  lemma RewrapKeepsFields(log: string, sent: string, e: nat, echo: string, space: char -> bool)
    requires EndsEcho(log, sent, e)
    requires Bare(echo) == sent && !IsBreak(echo[|echo| - 1])
    ensures EndsEcho(echo + log[e..], sent, |echo|)
    ensures Reading(echo + log[e..], sent, space) == Reading(log, sent, space)
  {
    hide FieldsOf;
    var log' := echo + log[e..];
    assert log'[..|echo|] == echo;
    assert log'[|echo|..] == log[e..];
    var n := |echo| - 1;
    BareNext(log', n);
    forall k | 0 <= k < |echo| ensures |Bare(log'[..k])| < |sent| {
      BareGrows(log', k, n);
    }
    assert EndsEcho(log', sent, |echo|);
    assert EndOf(log', sent) == Some(|echo|) && EndOf(log, sent) == Some(e);
  }

  /** In particular breaks may be inserted at any place before the echo's last character. */
  lemma InsertedBreaks(log: string, sent: string, e: nat, p: nat, breaks: string, space: char -> bool)
    requires EndsEcho(log, sent, e) && p < e
    requires forall i :: 0 <= i < |breaks| ==> IsBreak(breaks[i])
    ensures var log' := log[..p] + breaks + log[p..];
            EndsEcho(log', sent, e + |breaks|) && Reading(log', sent, space) == Reading(log, sent, space)
  {
    hide Reading;
    var log' := log[..p] + breaks + log[p..];
    var echo := log[..p] + breaks + log[p..e];
    assert log[..e] == log[..p] + log[p..e];
    WithoutConcat(log[..p], log[p..e], IsBreak);
    WithoutConcat(log[..p] + breaks, log[p..e], IsBreak);
    WithoutConcat(log[..p], breaks, IsBreak);
    WithoutAll(breaks, IsBreak);
    assert Bare(log[..p]) + "" == Bare(log[..p]);
    EchoEndsOnText(log, sent, e);
    assert log' == echo + log[e..];
    assert echo[|echo| - 1] == log[e - 1];
    RewrapKeepsFields(log, sent, e, echo, space);
  }

  /** An echo ends on a character of the command, never on a break. */
  lemma EchoEndsOnText(log: string, sent: string, e: nat)
    requires EndsEcho(log, sent, e)
    ensures e > 0 && !IsBreak(log[e - 1])
  {
    assert Bare(log[..0]) == "";
    BareNext(log, e - 1);
  }
}
