/** The gates of `tools/cardrun.py`: what each asks of a cell's log and of its `.meta.json`, and when
    reading the latter ends in an exception nobody catches. */
module Gates {
  import opened Common
  import opened Text

  // ------------------------------------------------------------ what a `.meta.json` may hold

  /** A loaded JSON value; the items of an object are in the order of the loaded dictionary. */
  datatype Json =
    | Null | Bool(b: bool) | Num(zero: bool) | Str(text: string) | List(items: seq<Json>)
    | Obj(fields: seq<(string, Json)>)

  predicate Truthy(j: Json) {
    match j
    case Null => false
    case Bool(b) => b
    case Num(zero) => !zero
    case Str(t) => t != ""
    case List(items) => items != []
    case Obj(fields) => fields != []
  }

  /** `dict.get`: the value under a key, null when there is none. */
  function Get(fields: seq<(string, Json)>, key: string): Json {
    if fields == [] then Null else if fields[0].0 == key then fields[0].1 else Get(fields[1..], key)
  }

  predicate HasKey(fields: seq<(string, Json)>, key: string) {
    exists i :: 0 <= i < |fields| && fields[i].0 == key
  }

  /** A value whose `.get` is asked for, after `or {}`: no fields when it is falsy, and nothing when it
      is not an object. */
  function Fields(j: Json): Option<seq<(string, Json)>> {
    if !Truthy(j) then Some([]) else if j.Obj? then Some(j.fields) else None
  }

  /** A value that is neither falsy nor an object. */
  predicate Unusable(j: Json) { Truthy(j) && !j.Obj? }

  predicate Contains(s: string, p: string) {
    p <= s || (s != "" && Contains(s[1..], p))
  }

  const UNTIL: string := "--until matched"
  const WATCHDOG: string := "Reboot Result from Watchdog Timeout!"
  const PROMPT: string := "<RealTek>"

  /** `UNTIL in (reason or "")`: nothing when the value is a number or true, which hold nothing. */
  function Matched(reason: Json): Option<bool> {
    if !Truthy(reason) then Some(false)
    else
      match reason
      case Str(t) => Some(Contains(t, UNTIL))
      case List(items) => Some(Str(UNTIL) in items)
      case Obj(fields) => Some(HasKey(fields, UNTIL))
      case _ => None
  }

  // ------------------------------------------------------------ the gates

  datatype Kind = Until | Prompt | Caught | HpStop | Grep

  datatype Verdict = Holds | Fails | Breaks

  function When(b: bool): Verdict { if b then Holds else Fails }

  /** Whether one of the carriage returns sent saw the prompt: the first that did ends the search, and
      one whose record is no object breaks it. */
  function PromptSeen(sent: seq<(string, Json)>): Verdict {
    if sent == [] then Fails
    else
      match Fields(sent[0].1)
      case None => Breaks
      case Some(f) => if Truthy(Get(f, "prompt_seen")) then Holds else PromptSeen(sent[1..])
  }

  predicate EndsWith(s: string, p: string) { |p| <= |s| && s[|s| - |p|..] == p }

  function LastLine(s: string): string {
    var lines := Split(s);
    lines[|lines| - 1]
  }

  /** The verdict over the log's text, without carriage returns, and the loaded record; `found` is what
      the pattern of a `grep=` gate answers. */
  function Ask(kind: Kind, text: string, meta: Json, found: bool): Verdict {
    match kind
    case HpStop => When(Contains(" " + LastLine(Strip(text, IsSpace)) + " ", " stop "))
    case Grep => When(found)
    case Until =>
      (match Fields(meta) case None => Breaks case Some(m) =>
       match Matched(Get(m, "stop_reason")) case None => Breaks case Some(b) => When(b))
    case Prompt =>
      (match Fields(meta) case None => Breaks case Some(m) =>
       match Matched(Get(m, "stop_reason")) case None => Breaks case Some(b) =>
         When(b && Contains(text, WATCHDOG) && EndsWith(StripRight(text, IsSpace), PROMPT)))
    case Caught =>
      (match Fields(meta) case None => Breaks case Some(m) =>
       match Fields(Get(m, "cr")) case None => Breaks case Some(sent) =>
         var seen := PromptSeen(sent);
         if seen.Breaks? then Breaks else When(seen.Holds? && Contains(text, PROMPT)))
  }

  /** A carriage return whose record says that the prompt was seen. */
  predicate Saw(j: Json) { j.Obj? && Truthy(Get(j.fields, "prompt_seen")) }

  /** Record `i` is the kind looked for, and none before it is of the other kind. */
  ghost predicate HitAt(sent: seq<(string, Json)>, hit: Json -> bool, other: Json -> bool, i: nat) {
    i < |sent| && hit(sent[i].1) && forall j :: 0 <= j < i ==> !other(sent[j].1)
  }

  ghost predicate HitFirst(sent: seq<(string, Json)>, hit: Json -> bool, other: Json -> bool) {
    exists i :: HitAt(sent, hit, other, i)
  }

  /** A record that is no object, before any that saw the prompt. */
  ghost predicate BreakFirst(sent: seq<(string, Json)>) { HitFirst(sent, Unusable, Saw) }

  /** A record that saw the prompt, before any that is no object. */
  ghost predicate SawFirst(sent: seq<(string, Json)>) { HitFirst(sent, Saw, Unusable) }

  lemma HitAtNext(x: (string, Json), rest: seq<(string, Json)>, hit: Json -> bool, other: Json -> bool, i: nat)
    ensures HitAt([x] + rest, hit, other, i + 1) <==> !other(x.1) && HitAt(rest, hit, other, i)
  {
    var sent := [x] + rest;
    assert sent[0] == x && forall j :: 0 <= j < |rest| ==> sent[j + 1] == rest[j];
    if HitAt(sent, hit, other, i + 1) {
      forall j | 0 <= j < i ensures !other(rest[j].1) {
        assert sent[j + 1] == rest[j];
      }
    }
    if !other(x.1) && HitAt(rest, hit, other, i) {
      forall j | 0 <= j < i + 1 ensures !other(sent[j].1) {
        if j > 0 {
          assert sent[j] == rest[j - 1];
        }
      }
    }
  }

  lemma HitFirstStep(x: (string, Json), rest: seq<(string, Json)>, hit: Json -> bool, other: Json -> bool)
    ensures HitFirst([x] + rest, hit, other) <==> hit(x.1) || (!other(x.1) && HitFirst(rest, hit, other))
  {
    var sent := [x] + rest;
    assert HitAt(sent, hit, other, 0) <==> hit(x.1);
    hide HitAt;
    if i: nat :| HitAt(sent, hit, other, i) && i > 0 {
      HitAtNext(x, rest, hit, other, i - 1);
    }
    if !other(x.1) && HitFirst(rest, hit, other) {
      var i :| HitAt(rest, hit, other, i);
      HitAtNext(x, rest, hit, other, i);
    }
  }

  lemma {:induction false} PromptSeenExactly(sent: seq<(string, Json)>)
    ensures PromptSeen(sent).Breaks? <==> BreakFirst(sent)
    ensures PromptSeen(sent).Holds? <==> SawFirst(sent)
  {
    if sent != [] {
      PromptSeenExactly(sent[1..]);
      assert sent == [sent[0]] + sent[1..];
      HitFirstStep(sent[0], sent[1..], Unusable, Saw);
      HitFirstStep(sent[0], sent[1..], Saw, Unusable);
      hide HitFirst;
    }
  }

  /** A value that cannot be searched for a text: a number other than zero, or true. */
  predicate Unsearchable(j: Json) { (j.Num? && !j.zero) || (j.Bool? && j.b) }

  function FieldOf(meta: Json, key: string): Json { if meta.Obj? then Get(meta.fields, key) else Null }

  /** Exactly the records on which a gate breaks: one that is no object, a stop reason that cannot be
      searched, and, for `caught`, carriage returns that are no object or hold a record that is none
      before one that saw the prompt.  `hpstop` and `grep=` read no record and never break. */
  lemma BreaksExactly(kind: Kind, text: string, meta: Json, found: bool)
    ensures Ask(kind, text, meta, found).Breaks? <==>
            && (kind.Until? || kind.Prompt? || kind.Caught?)
            && (|| Unusable(meta)
                || (!kind.Caught? && Unsearchable(FieldOf(meta, "stop_reason")))
                || (kind.Caught? && var cr := FieldOf(meta, "cr");
                    Unusable(cr) || (cr.Obj? && BreakFirst(cr.fields))))
  {
    hide Contains, Strip, StripRight, Split, EndsWith, PromptSeen;
    var cr := FieldOf(meta, "cr");
    if cr.Obj? {
      PromptSeenExactly(cr.fields);
    }
    assert PromptSeen([]).Fails? by { PromptSeenExactly([]); }
    assert meta == Obj([]) ==> FieldOf(meta, "cr") == Get([], "cr") == Null && Get([], "stop_reason") == Null;
  }

  /** What a passing `prompt` gate means, and that it is a passing `until` gate. */
  lemma PromptIsUntil(text: string, meta: Json, found: bool)
    ensures Ask(Prompt, text, meta, found).Holds? <==>
            && Ask(Until, text, meta, found).Holds?
            && Contains(text, WATCHDOG) && EndsWith(StripRight(text, IsSpace), PROMPT)
    ensures Ask(Prompt, text, meta, found).Breaks? <==> Ask(Until, text, meta, found).Breaks?
  {
    hide Contains, StripRight, EndsWith, Matched, Fields;
  }
}
