/** Which program a simple command runs: `unwrap` of `tools/cardrun.py`, which takes keywords and
    the `timeout` and `sudo` wrappers off the front, and the round trip from a list of arguments
    through quoting, lexing, splitting and unwrapping back to that list. */
module Unwrap {
  import opened Common
  import opened Shell
  import opened Text

  const LEAD_KEYWORDS: set<string> := {"!", "{", "do", "then", "else", "elif", "if", "while", "until", "time"}
  const NO_PROGRAM: set<string> := {"done", "fi", "}", "esac", "in", "for", "select", "[["}
  const UNPARSED: set<string> := {"case", "function", "coproc"}
  const SUDO_ARG: set<string> := {"-u", "-g", "-C", "-D", "-R", "-T", "-U", "-p", "-r", "-t", "--user",
    "--group", "--prompt", "--close-from", "--chdir", "--chroot", "--command-timeout", "--other-user",
    "--role", "--type"}

  predicate IsLead(w: Word) { !w.quoted && w.text in LEAD_KEYWORDS }

  predicate NamesNoProgram(t: string) { t in NO_PROGRAM }

  predicate IsUnparsed(t: string) { t in UNPARSED }

  datatype Wrapper = Timeout | Sudo

  datatype Note = Program | KeywordOnly | NotParsed | TimeoutBare | SudoBare

  datatype Unwrapped = Unwrapped(argv: seq<Word>, wrappers: seq<Wrapper>, note: Note)

  /** `w` is what is left of `whole` after some words were taken off its front. */
  ghost predicate IsSuffix(w: seq<Word>, whole: seq<Word>) {
    |w| <= |whole| && w == whole[|whole| - |w|..]
  }

  lemma SuffixTwice(a: seq<Word>, b: seq<Word>, c: seq<Word>)
    requires IsSuffix(a, b) && IsSuffix(b, c)
    ensures IsSuffix(a, c)
  {
  }

  function DropAssigns(w: seq<Word>): (r: seq<Word>)
    ensures IsSuffix(r, w)
    ensures r != [] ==> !IsAssign(r[0].raw)
  {
    if w != [] && IsAssign(w[0].raw) then DropAssigns(w[1..]) else w
  }

  /** Leading keywords, each with the assignments after it, and `time`'s `-p`. */
  function DropLead(w: seq<Word>): (r: seq<Word>)
    ensures IsSuffix(r, w)
    ensures r != [] ==> !IsLead(r[0])
    decreases |w|
  {
    if w != [] && IsLead(w[0]) then
      var rest := AfterLead(w);
      SuffixTwice(DropLead(rest), rest, w);
      DropLead(rest)
    else w
  }

  /** What follows a keyword, its assignments and `time`'s `-p`. */
  function AfterLead(w: seq<Word>): (r: seq<Word>)
    requires w != []
    ensures |r| < |w| && IsSuffix(r, w)
  {
    var rest := if w[0].text == "time" && |w| > 1 && w[1].text == "-p" then w[2..] else w[1..];
    SuffixTwice(DropAssigns(rest), rest, w);
    DropAssigns(rest)
  }

  predicate IsOption(t: string) { t != "" && t[0] == '-' && t != "-" }

  predicate TimeoutTakesArg(t: string) { t in {"-s", "-k", "--signal", "--kill-after"} }

  /** Digits, an optional fraction, an optional unit. */
  predicate IsDuration(t: string) {
    var n := if t != "" && t[|t| - 1] in "smhd" then |t| - 1 else |t|;
    || IsNumber(t[..n])
    || exists p :: 0 <= p < n && t[p] == '.' && IsNumber(t[..p]) && IsNumber(t[p + 1..n])
  }

  /** The index after `timeout`'s options from `j`. */
  function AfterOptions(w: seq<Word>, j: nat, takesArg: string -> bool): (r: nat)
    ensures j <= r
    decreases |w| - j
  {
    if j >= |w| || !IsOption(w[j].text) then j
    else if w[j].text == "--" then j + 1
    else AfterOptions(w, if takesArg(w[j].text) then j + 2 else j + 1, takesArg)
  }

  method SkipOptions(w: seq<Word>, takesArg: string -> bool) returns (j: nat)
    requires w != []
    ensures j == AfterOptions(w, 1, takesArg)
  {
    j := 1;
    while j < |w| && IsOption(w[j].text)
      invariant AfterOptions(w, 1, takesArg) == AfterOptions(w, j, takesArg)
      decreases |w| - j
    {
      if w[j].text == "--" {
        return j + 1;
      }
      j := if takesArg(w[j].text) then j + 2 else j + 1;
    }
  }

  function AfterTimeout(w: seq<Word>): (r: Option<seq<Word>>)
    requires w != []
    ensures r.Some? ==> r.value != [] && |r.value| < |w| && IsSuffix(r.value, w)
  {
    var j := AfterOptions(w, 1, TimeoutTakesArg);
    if j >= |w| || !IsDuration(w[j].text) || j + 1 == |w| then None else Some(w[j + 1..])
  }

  predicate SudoTakesArg(t: string) { t in SUDO_ARG }

  function AfterSudo(w: seq<Word>): (r: Option<seq<Word>>)
    requires w != []
    ensures r.Some? ==> r.value != [] && |r.value| < |w| && IsSuffix(r.value, w)
  {
    var j := AfterOptions(w, 1, SudoTakesArg);
    if j >= |w| then None
    else
      var rest := DropAssigns(w[j..]);
      SuffixTwice(rest, w[j..], w);
      if rest == [] then None else Some(rest)
  }

  method StripTimeout(w: seq<Word>) returns (r: Option<seq<Word>>)
    requires w != []
    ensures r == AfterTimeout(w)
  {
    var j := SkipOptions(w, TimeoutTakesArg);
    return if j >= |w| || !IsDuration(w[j].text) || j + 1 == |w| then None else Some(w[j + 1..]);
  }

  method StripSudo(w: seq<Word>) returns (r: Option<seq<Word>>)
    requires w != []
    ensures r == AfterSudo(w)
  {
    var j := SkipOptions(w, SudoTakesArg);
    if j >= |w| {
      return None;
    }
    var rest := w[j..];
    while rest != [] && IsAssign(rest[0].raw)
      invariant DropAssigns(rest) == DropAssigns(w[j..])
      decreases |rest|
    {
      rest := rest[1..];
    }
    return if rest == [] then None else Some(rest);
  }

  function UnwrapFrom(w: seq<Word>, wrappers: seq<Wrapper>): Unwrapped
    decreases |w|
  {
    var v := DropLead(w);
    if v == [] then Unwrapped([], wrappers, KeywordOnly)
    else if v[0].quoted then Unwrapped(v, wrappers, Program)
    else if NamesNoProgram(v[0].text) then Unwrapped([], wrappers, KeywordOnly)
    else if IsUnparsed(v[0].text) then Unwrapped([], wrappers, NotParsed)
    else if v[0].text == "timeout" then
      match AfterTimeout(v)
      case None => Unwrapped([], wrappers, TimeoutBare)
      case Some(rest) => UnwrapFrom(rest, wrappers + [Timeout])
    else if v[0].text == "sudo" then
      match AfterSudo(v)
      case None => Unwrapped([], wrappers, SudoBare)
      case Some(rest) => UnwrapFrom(rest, wrappers + [Sudo])
    else Unwrapped(v, wrappers, Program)
  }

  method Unwrap(words: seq<Word>) returns (r: Unwrapped)
    ensures r == UnwrapFrom(words, [])
  {
    var w, wrappers: seq<Wrapper> := words, [];
    while true
      invariant UnwrapFrom(words, []) == UnwrapFrom(w, wrappers)
      decreases |w|
    {
      ghost var w0 := w;
      while w != [] && IsLead(w[0])
        invariant DropLead(w0) == DropLead(w)
        invariant |w| <= |w0|
        decreases |w|
      {
        ghost var at := w;
        var keyword := w[0].text;
        w := w[1..];
        if keyword == "time" && w != [] && w[0].text == "-p" {
          w := w[1..];
        }
        ghost var rest := w;
        assert rest == if at[0].text == "time" && |at| > 1 && at[1].text == "-p" then at[2..] else at[1..];
        while w != [] && IsAssign(w[0].raw)
          invariant DropAssigns(rest) == DropAssigns(w)
          invariant |w| <= |rest|
          decreases |w|
        {
          w := w[1..];
        }
      }
      assert w == DropLead(w0);
      if w == [] {
        return Unwrapped([], wrappers, KeywordOnly);
      }
      if !w[0].quoted {
        if NamesNoProgram(w[0].text) {
          return Unwrapped([], wrappers, KeywordOnly);
        }
        if IsUnparsed(w[0].text) {
          return Unwrapped([], wrappers, NotParsed);
        }
        if w[0].text == "timeout" {
          var rest := StripTimeout(w);
          if rest.None? {
            return Unwrapped([], wrappers, TimeoutBare);
          }
          wrappers := wrappers + [Timeout];
          w := rest.value;
          continue;
        }
        if w[0].text == "sudo" {
          var rest := StripSudo(w);
          if rest.None? {
            return Unwrapped([], wrappers, SudoBare);
          }
          wrappers := wrappers + [Sudo];
          w := rest.value;
          continue;
        }
      }
      return Unwrapped(w, wrappers, Program);
    }
  }

  /** A word no unwrapping would take away: quoted, or no keyword and no wrapper. */
  ghost predicate StartsProgram(w: Word) {
    w.quoted || (w.text !in LEAD_KEYWORDS && !NamesNoProgram(w.text) && !IsUnparsed(w.text)
                 && w.text != "timeout" && w.text != "sudo")
  }

  lemma LeadIsSuffix(w: seq<Word>)
    ensures IsSuffix(DropLead(w), w)
  {}

  lemma WrapperNames()
    ensures !NamesNoProgram("timeout") && !IsUnparsed("timeout") && !NamesNoProgram("sudo") && !IsUnparsed("sudo")
  {}

  lemma UnwrapTimeout(w: seq<Word>, wrappers: seq<Wrapper>)
    requires var v := DropLead(w); v != [] && !v[0].quoted && v[0].text == "timeout" && AfterTimeout(v).Some?
    ensures UnwrapFrom(w, wrappers) == UnwrapFrom(AfterTimeout(DropLead(w)).value, wrappers + [Timeout])
  {
    WrapperNames();
    hide AfterTimeout, DropLead, NamesNoProgram, IsUnparsed;
  }

  lemma UnwrapSudo(w: seq<Word>, wrappers: seq<Wrapper>)
    requires var v := DropLead(w); v != [] && !v[0].quoted && v[0].text == "sudo" && AfterSudo(v).Some?
    ensures UnwrapFrom(w, wrappers) == UnwrapFrom(AfterSudo(DropLead(w)).value, wrappers + [Sudo])
  {
    WrapperNames();
    hide AfterSudo, DropLead, NamesNoProgram, IsUnparsed;
  }

  /** The answers that need no further unwrapping. */
  lemma UnwrapStops(w: seq<Word>, wrappers: seq<Wrapper>)
    requires var v := DropLead(w);
             v == [] || v[0].quoted
             || ((v[0].text == "timeout" ==> AfterTimeout(v).None?) && (v[0].text == "sudo" ==> AfterSudo(v).None?))
    ensures var r := UnwrapFrom(w, wrappers);
            && (r.note.Program? <==> r.argv != []) && (r.argv == [] || r.argv == DropLead(w))
            && (r.argv != [] ==> StartsProgram(r.argv[0])) && r.wrappers == wrappers
  {
    hide AfterTimeout, AfterSudo, DropLead, NamesNoProgram, IsUnparsed;
  }

  /** A program is a non-empty suffix of the words that starts with no keyword and no wrapper;
      every other answer has no words. */
  lemma {:induction false} UnwrapLeavesProgram(w: seq<Word>, wrappers: seq<Wrapper>)
    ensures var r := UnwrapFrom(w, wrappers);
            && (r.note.Program? <==> r.argv != [])
            && IsSuffix(r.argv, w)
            && (r.argv != [] ==> StartsProgram(r.argv[0]))
            && wrappers <= r.wrappers
    decreases |w|
  {
    hide UnwrapFrom, AfterTimeout, AfterSudo, DropLead, StartsProgram;
    var v := DropLead(w);
    LeadIsSuffix(w);
    if v == [] || v[0].quoted {
      UnwrapStops(w, wrappers);
    } else if v[0].text == "timeout" && AfterTimeout(v).Some? {
      UnwrapTimeout(w, wrappers);
      UnwrapLeavesProgram(AfterTimeout(v).value, wrappers + [Timeout]);
      SuffixTwice(UnwrapFrom(w, wrappers).argv, AfterTimeout(v).value, v);
      SuffixTwice(UnwrapFrom(w, wrappers).argv, v, w);
    } else if v[0].text == "sudo" && AfterSudo(v).Some? {
      UnwrapSudo(w, wrappers);
      UnwrapLeavesProgram(AfterSudo(v).value, wrappers + [Sudo]);
      SuffixTwice(UnwrapFrom(w, wrappers).argv, AfterSudo(v).value, v);
      SuffixTwice(UnwrapFrom(w, wrappers).argv, v, w);
    } else {
      UnwrapStops(w, wrappers);
    }
  }

  /** Unwrapping a program again changes nothing. */
  lemma UnwrapIdempotent(w: seq<Word>, wrappers: seq<Wrapper>)
    requires UnwrapFrom(w, wrappers).note.Program?
    ensures UnwrapFrom(UnwrapFrom(w, wrappers).argv, []) == Unwrapped(UnwrapFrom(w, wrappers).argv, [], Program)
  {
    UnwrapLeavesProgram(w, wrappers);
  }

  // ------------------------------------------------------------ the round trip

  /** `t` in single quotes, each quote in it written as a closing quote, an escaped one, and an
      opening one. */
  function Quote(t: string): (q: string)
    ensures |q| >= 2 && q[0] == '\''
    decreases |t|
  {
    match Find(t, '\'', 0)
    case None => ['\''] + t + ['\'']
    case Some(k) => ['\''] + t[..k] + ['\'', '\\', '\''] + Quote(t[k + 1..])
  }

  /** The characters a backslash takes the meaning of inside double quotes. */
  predicate IsSpecial(c: char) { c in "$`\"\\" }

  /** How one character is written inside double quotes. */
  function Inner(c: char): string { if IsSpecial(c) then ['\\', c] else [c] }

  function DoubleBody(t: string): string {
    if t == "" then "" else Inner(t[0]) + DoubleBody(t[1..])
  }

  /** `t` in double quotes. */
  function DoubleQuote(t: string): string { ['"'] + (DoubleBody(t) + ['"']) }

  /** `t` with a backslash before every character. */
  function Escapes(t: string): string { if t == "" then "" else ['\\', t[0]] + Escapes(t[1..]) }

  datatype Style = Single | Double | Backslash

  /** An argument and the way it is written; with nothing to escape it is two single quotes. */
  datatype Arg = Arg(text: string, style: Style)

  function Written(a: Arg): (q: string)
    ensures q != "" && (q[0] == '\'' || q[0] == '"' || q[0] == '\\')
  {
    match a.style
    case Single => Quote(a.text)
    case Double => DoubleQuote(a.text)
    case Backslash => if a.text == "" then Quote("") else Escapes(a.text)
  }

  function Line(args: seq<Arg>): string
    requires args != []
  {
    if |args| == 1 then Written(args[0]) else Written(args[0]) + ([' '] + Line(args[1..]))
  }

  function QuotedWord(a: Arg): Word {
    Word(a.text, Written(a), true, false, false, false)
  }

  /** The text of `s` from `i` on. */
  ghost predicate Ahead(s: string, i: nat, t: string) {
    i + |t| == |s| && forall k :: 0 <= k < |t| ==> s[i + k] == t[k]
  }

  lemma AheadAt(s: string, i: nat, t: string, k: nat)
    requires Ahead(s, i, t) && k < |t|
    ensures i + k < |s| && s[i + k] == t[k]
  {}

  lemma AheadSkip(s: string, i: nat, a: string, b: string)
    requires Ahead(s, i, a + b)
    ensures Ahead(s, i + |a|, b)
  {
    forall k | 0 <= k < |b| ensures s[i + |a| + k] == b[k] {
      AheadAt(s, i, a + b, |a| + k);
    }
  }

  lemma AheadText(s: string, i: nat, a: string, b: string)
    requires Ahead(s, i, a + b)
    ensures i + |a| <= |s| && s[i..i + |a|] == a
  {
    forall k | 0 <= k < |a| ensures s[i..i + |a|][k] == a[k] {
      AheadAt(s, i, a + b, k);
    }
  }

  lemma AheadFirst(s: string, i: nat, a: string, b: string)
    requires Ahead(s, i, a + b) && a != ""
    ensures i < |s| && s[i] == a[0]
  {
    AheadAt(s, i, a + b, 0);
  }

  lemma AheadWhole(s: string)
    ensures Ahead(s, 0, s)
  {}

  lemma {:induction false} FindFirst(s: string, c: char, from: nat, e: nat)
    requires from <= e < |s| && s[e] == c
    requires forall k :: from <= k < e ==> s[k] != c
    ensures Find(s, c, from) == Some(e)
    decreases e - from
  {
    if from < e {
      FindFirst(s, c, from + 1, e);
    }
  }

  lemma QuotedPieceAt(s: string, i: nat, e: nat)
    requires i < e < |s| && s[i] == '\'' && s[e] == '\''
    requires forall k :: i < k < e ==> s[k] != '\''
    ensures PieceAt(s, i) == Some(Ok(Piece(Parts(s[i + 1..e], "", true, false, false), e + 1)))
  {
    FindFirst(s, '\'', i + 1, e);
  }

  lemma EscapedPieceAt(s: string, i: nat)
    requires i + 1 < |s| && s[i] == '\\'
    ensures PieceAt(s, i) == Some(Ok(Piece(Parts([s[i + 1]], "", true, false, false), i + 2)))
  {
  }

  lemma WordEndsAt(s: string, i: nat)
    requires i >= |s| || s[i] == ' '
    ensures PartsFrom(s, i) == Ok(Piece(NOTHING, i))
  {
  }

  lemma PartsStep(s: string, i: nat, p: Piece, rest: Piece)
    requires i < |s| && PieceAt(s, i) == Some(Ok(p)) && PartsFrom(s, p.end) == Ok(rest)
    ensures PartsFrom(s, i) == Ok(Piece(Join(p.parts, rest.parts), rest.end))
  {
  }

  ghost function Quoted(t: string): Parts {
    Parts(t, "", true, false, false)
  }

  lemma NoQuoteIn(s: string, i: nat, e: nat, a: string)
    requires i <= e <= |s| && s[i..e] == a && '\'' !in a
    ensures forall k :: i <= k < e ==> s[k] != '\''
  {
    assert forall k :: i <= k < e ==> s[k] == s[i..e][k - i];
  }

  /** A run in quotes, without quotes in it, scanned as the start of a word. */
  lemma QuotedStep(s: string, i: nat, a: string, rest: string, q: Piece)
    requires '\'' !in a && Ahead(s, i, ['\''] + (a + (['\''] + rest)))
    requires PartsFrom(s, i + |a| + 2) == Ok(q)
    ensures PartsFrom(s, i) == Ok(Piece(Join(Quoted(a), q.parts), q.end))
  {
    hide PieceAt, PartsFrom, Join;
    var e := i + 1 + |a|;
    QuotesAround(s, i, a, rest);
    QuotedPieceAt(s, i, e);
    PartsStep(s, i, Piece(Quoted(a), e + 1), q);
  }

  lemma QuotesAround(s: string, i: nat, a: string, rest: string)
    requires '\'' !in a && Ahead(s, i, ['\''] + (a + (['\''] + rest)))
    ensures var e := i + 1 + |a|;
            e < |s| && s[i] == '\'' && s[e] == '\'' && s[i + 1..e] == a && forall k :: i < k < e ==> s[k] != '\''
  {
    hide Ahead;
    AheadFirst(s, i, ['\''], a + (['\''] + rest));
    AheadSkip(s, i, ['\''], a + (['\''] + rest));
    AheadText(s, i + 1, a, ['\''] + rest);
    AheadSkip(s, i + 1, a, ['\''] + rest);
    AheadFirst(s, i + 1 + |a|, ['\''], rest);
    NoQuoteIn(s, i + 1, i + 1 + |a|, a);
  }

  lemma EscapedStep(s: string, i: nat, c: char, rest: string, q: Piece)
    requires Ahead(s, i, ['\\', c] + rest)
    requires PartsFrom(s, i + 2) == Ok(q)
    ensures PartsFrom(s, i) == Ok(Piece(Join(Quoted([c]), q.parts), q.end))
  {
    var t := ['\\', c] + rest;
    AheadAt(s, i, t, 0);
    AheadAt(s, i, t, 1);
    hide PartsFrom, PieceAt;
    EscapedPieceAt(s, i);
    PartsStep(s, i, Piece(Quoted([c]), i + 2), q);
  }

  lemma Nest(a: string, b: string, c: string, d: string)
    ensures a + b + c + d == a + (b + (c + d))
  {
  }

  lemma NestFour(a: string, b: string, c: string, d: string, e: string, rest: string)
    ensures a + b + (c + d) + e + rest == a + (b + (c + (d + (e + rest))))
  {
  }

  lemma QuoteWithout(t: string, rest: string)
    requires Find(t, '\'', 0).None?
    ensures '\'' !in t && |Quote(t)| == |t| + 2
    ensures Quote(t) + rest == ['\''] + (t + (['\''] + rest))
  {
    assert t == t[0..];
    Nest(['\''], t, ['\''], rest);
  }

  lemma QuoteStep(t: string, k: nat)
    requires Find(t, '\'', 0) == Some(k)
    ensures Quote(t) == ['\''] + t[..k] + ['\'', '\\', '\''] + Quote(t[k + 1..])
  {}

  lemma QuoteWith(t: string, k: nat, rest: string)
    requires Find(t, '\'', 0) == Some(k)
    ensures '\'' !in t[..k] && t == t[..k] + ("'" + t[k + 1..])
    ensures |Quote(t)| == k + 4 + |Quote(t[k + 1..])|
    ensures Quote(t) + rest == ['\''] + (t[..k] + (['\''] + (['\\', '\''] + (Quote(t[k + 1..]) + rest))))
  {
    hide Quote;
    QuoteStep(t, k);
    assert t[0..k] == t[..k];
    assert ['\'', '\\', '\''] == ['\''] + ['\\', '\''];
    NestFour(['\''], t[..k], ['\''], ['\\', '\''], Quote(t[k + 1..]), rest);
  }

  /** Scanning a quoted argument gives back the argument. */
  lemma {:induction false} QuoteScans(s: string, i: nat, t: string, rest: string)
    requires Ahead(s, i, Quote(t) + rest)
    requires rest == "" || rest[0] == ' '
    ensures PartsFrom(s, i) == Ok(Piece(Quoted(t), i + |Quote(t)|))
    decreases |t|
  {
    hide Quote, PartsFrom, Find, Ahead;
    match Find(t, '\'', 0) {
      case None =>
        QuoteWithout(t, rest);
        AheadSkip(s, i, Quote(t), rest);
        var e := i + |t| + 2;
        WordEndsAhead(s, e, rest);
        QuotedStep(s, i, t, rest, Piece(NOTHING, e));
        JoinNothing(Quoted(t));
      case Some(k) =>
        QuoteWith(t, k, rest);
        ScansPastQuote(s, i, t, k, rest);
        QuoteScans(s, i + k + 4, t[k + 1..], rest);
        QuoteAround(s, i, t, k, rest);
    }
  }

  lemma QuoteAround(s: string, i: nat, t: string, k: nat, rest: string)
    requires k < |t| && '\'' !in t[..k] && t == t[..k] + ("'" + t[k + 1..])
    requires |Quote(t)| == k + 4 + |Quote(t[k + 1..])|
    requires Ahead(s, i, ['\''] + (t[..k] + (['\''] + (['\\', '\''] + (Quote(t[k + 1..]) + rest)))))
    requires Ahead(s, i + k + 2, ['\\', '\''] + (Quote(t[k + 1..]) + rest))
    requires PartsFrom(s, i + k + 4) == Ok(Piece(Quoted(t[k + 1..]), i + k + 4 + |Quote(t[k + 1..])|))
    ensures PartsFrom(s, i) == Ok(Piece(Quoted(t), i + |Quote(t)|))
  {
    hide Quote, PartsFrom, Find;
    var tail := Quote(t[k + 1..]) + rest;
    var q := Piece(Quoted(t[k + 1..]), i + |Quote(t)|);
    EscapedStep(s, i + k + 2, '\'', tail, q);
    QuotedStep(s, i, t[..k], ['\\', '\''] + tail, Piece(Join(Quoted("'"), q.parts), q.end));
    var nothing: string := "" + ("" + "");
    assert nothing == "";
    assert Join(Quoted(t[..k]), Join(Quoted("'"), q.parts)) == Quoted(t);
  }

  lemma ScansPastQuote(s: string, i: nat, t: string, k: nat, rest: string)
    requires Ahead(s, i, Quote(t) + rest) && Find(t, '\'', 0) == Some(k)
    ensures Ahead(s, i + k + 2, ['\\', '\''] + (Quote(t[k + 1..]) + rest))
    ensures Ahead(s, i + k + 4, Quote(t[k + 1..]) + rest)
  {
    QuoteWith(t, k, rest);
    hide Quote, Find;
    var tail := Quote(t[k + 1..]) + rest;
    AheadSkip(s, i, ['\''], t[..k] + (['\''] + (['\\', '\''] + tail)));
    AheadSkip(s, i + 1, t[..k], ['\''] + (['\\', '\''] + tail));
    AheadSkip(s, i + 1 + k, ['\''], ['\\', '\''] + tail);
    AheadSkip(s, i + 2 + k, ['\\', '\''], tail);
  }

  // ------------------------------------------------------------ double quotes and backslashes

  function Inside(t: string): Parts { Parts(t, "", false, false, false) }

  lemma DoubleEnds(s: string, j: nat)
    requires j < |s| && s[j] == '"'
    ensures DoubleFrom(s, j) == Ok(Piece(NOTHING, j))
  {}

  /** One character inside double quotes, escaped exactly when it is special. */
  lemma DoubleStep(s: string, j: nat, c: char, p: Piece)
    requires if IsSpecial(c) then j + 1 < |s| && s[j] == '\\' && s[j + 1] == c else j < |s| && s[j] == c
    requires DoubleFrom(s, if IsSpecial(c) then j + 2 else j + 1) == Ok(p)
    ensures DoubleFrom(s, j) == Ok(Piece(Join(Inside([c]), p.parts), p.end))
  {}

  lemma JoinInside(c: char, t: string)
    ensures Join(Inside([c]), Inside(t)) == Inside([c] + t)
  {
    assert "" + "" == "";
  }

  lemma DoubleBodyStep(t: string, more: string)
    requires t != ""
    ensures DoubleBody(t) + more == Inner(t[0]) + (DoubleBody(t[1..]) + more)
    ensures |DoubleBody(t)| == |Inner(t[0])| + |DoubleBody(t[1..])|
  {
    NestThree(Inner(t[0]), DoubleBody(t[1..]), more);
  }

  lemma NestThree(a: string, b: string, c: string)
    ensures (a + b) + c == a + (b + c)
  {}

  lemma DoubleBodyEmpty(more: string)
    ensures DoubleBody("") == "" && DoubleBody("") + more == more
  {}

  lemma InnerAhead(s: string, j: nat, c: char, more: string)
    requires Ahead(s, j, Inner(c) + more)
    ensures if IsSpecial(c) then j + 1 < |s| && s[j] == '\\' && s[j + 1] == c else j < |s| && s[j] == c
    ensures Ahead(s, j + |Inner(c)|, more)
  {
    AheadAt(s, j, Inner(c) + more, 0);
    if IsSpecial(c) {
      AheadAt(s, j, Inner(c) + more, 1);
    }
    AheadSkip(s, j, Inner(c), more);
  }

  /** What is left of a string in double quotes after `t` was read from `j`. */
  ghost predicate ReadsInside(s: string, j: nat, t: string, e: nat) {
    DoubleFrom(s, j) == Ok(Piece(Inside(t), e))
  }

  lemma ReadsNothing(s: string, j: nat, rest: string)
    requires Ahead(s, j, ['"'] + rest)
    ensures ReadsInside(s, j, "", j)
  {
    AheadFirst(s, j, ['"'], rest);
    DoubleEnds(s, j);
  }

  lemma ReadsNext(s: string, j: nat, c: char, t: string, more: string, e: nat)
    requires Ahead(s, j, Inner(c) + more) && ReadsInside(s, j + |Inner(c)|, t, e)
    ensures ReadsInside(s, j, [c] + t, e)
  {
    hide DoubleFrom, IsSpecial, Ahead, Inner, Join;
    InnerAhead(s, j, c, more);
    InnerLength(c);
    DoubleStep(s, j, c, Piece(Inside(t), e));
    JoinInside(c, t);
  }

  lemma {:induction false} DoubleScans(s: string, j: nat, t: string, rest: string)
    requires Ahead(s, j, DoubleBody(t) + (['"'] + rest))
    ensures ReadsInside(s, j, t, j + |DoubleBody(t)|)
    ensures Ahead(s, j + |DoubleBody(t)|, ['"'] + rest)
    decreases |t|
  {
    var close := ['"'] + rest;
    DoubleBodyEmpty(close);
    hide DoubleBody, Inner, ReadsInside, Ahead;
    if t == "" {
      ReadsNothing(s, j, rest);
    } else {
      var c, tail := t[0], t[1..];
      DoubleBodyStep(t, close);
      InnerAhead(s, j, c, DoubleBody(tail) + close);
      DoubleScans(s, j + |Inner(c)|, tail, rest);
      ReadsNext(s, j, c, tail, DoubleBody(tail) + close, j + |DoubleBody(t)|);
      assert [c] + tail == t;
    }
  }

  lemma InnerLength(c: char)
    ensures |Inner(c)| == if IsSpecial(c) then 2 else 1
  {}

  lemma DoublePieceAt(s: string, i: nat, t: string, e: nat)
    requires i < |s| && s[i] == '"' && ReadsInside(s, i + 1, t, e)
    ensures PieceAt(s, i) == Some(Ok(Piece(Quoted(t), e + 1)))
  {
    hide DoubleFrom, Find, CloseParen, PlaceholderEnd;
  }

  lemma DoubleAround(s: string, i: nat, body: string, rest: string)
    requires Ahead(s, i, ['"'] + (body + ['"']) + rest)
    ensures i < |s| && s[i] == '"' && Ahead(s, i + 1, body + (['"'] + rest))
  {
    assert ['"'] + (body + ['"']) + rest == ['"'] + (body + (['"'] + rest));
    hide Ahead;
    AheadFirst(s, i, ['"'], body + (['"'] + rest));
    AheadSkip(s, i, ['"'], body + (['"'] + rest));
  }

  /** A word ends where its text does, at a blank or at the line's end. */
  lemma WordEndsAhead(s: string, i: nat, rest: string)
    requires Ahead(s, i, rest) && (rest == "" || rest[0] == ' ')
    ensures PartsFrom(s, i) == Ok(Piece(NOTHING, i))
  {
    if rest != "" {
      AheadAt(s, i, rest, 0);
    }
    WordEndsAt(s, i);
  }

  /** Scanning an argument in double quotes gives back the argument. */
  lemma DoubleQuoteScans(s: string, i: nat, t: string, rest: string)
    requires Ahead(s, i, DoubleQuote(t) + rest)
    requires rest == "" || rest[0] == ' '
    ensures PartsFrom(s, i) == Ok(Piece(Quoted(t), i + |DoubleQuote(t)|))
  {
    var body := DoubleBody(t);
    hide PieceAt, PartsFrom, DoubleBody, Ahead, ReadsInside;
    DoubleAround(s, i, body, rest);
    DoubleScans(s, i + 1, t, rest);
    var e := i + 1 + |body|;
    AheadSkip(s, e, ['"'], rest);
    DoublePieceAt(s, i, t, e);
    WordEndsAhead(s, e + 1, rest);
    PartsStep(s, i, Piece(Quoted(t), e + 1), Piece(NOTHING, e + 1));
    JoinNothing(Quoted(t));
  }

  /** Scanning an argument with every character escaped gives back the argument. */
  lemma {:induction false} EscapesScan(s: string, i: nat, t: string, rest: string)
    requires t != "" && Ahead(s, i, Escapes(t) + rest)
    requires rest == "" || rest[0] == ' '
    ensures PartsFrom(s, i) == Ok(Piece(Quoted(t), i + |Escapes(t)|))
    decreases |t|
  {
    hide PartsFrom, Ahead;
    var c, more := t[0], Escapes(t[1..]);
    assert Escapes(t) + rest == ['\\', c] + (more + rest);
    AheadSkip(s, i, ['\\', c], more + rest);
    assert [c] + t[1..] == t;
    if |t| == 1 {
      assert more + rest == rest;
      WordEndsAhead(s, i + 2, rest);
      EscapedStep(s, i, c, more + rest, Piece(NOTHING, i + 2));
      JoinNothing(Quoted([c]));
    } else {
      EscapesScan(s, i + 2, t[1..], rest);
      EscapedStep(s, i, c, more + rest, Piece(Quoted(t[1..]), i + 2 + |more|));
      JoinQuoted(c, t[1..]);
    }
  }

  lemma JoinQuoted(c: char, t: string)
    ensures Join(Quoted([c]), Quoted(t)) == Quoted([c] + t)
  {
    assert "" + "" == "";
  }

  /** Scanning a written argument gives back the argument. */
  lemma WrittenScans(s: string, i: nat, a: Arg, rest: string)
    requires Ahead(s, i, Written(a) + rest)
    requires rest == "" || rest[0] == ' '
    ensures PartsFrom(s, i) == Ok(Piece(Quoted(a.text), i + |Written(a)|))
  {
    hide PartsFrom, Quote, DoubleQuote, Escapes;
    match a.style
    case Single => QuoteScans(s, i, a.text, rest);
    case Double => DoubleQuoteScans(s, i, a.text, rest);
    case Backslash =>
      if a.text == "" {
        QuoteScans(s, i, "", rest);
      } else {
        EscapesScan(s, i, a.text, rest);
      }
  }

  lemma WrittenAhead(s: string, i: nat, a: Arg, rest: string)
    requires Ahead(s, i, Written(a) + rest)
    ensures i < |s| && (s[i] == '\'' || s[i] == '"' || s[i] == '\\')
    ensures i + |Written(a)| <= |s| && s[i..i + |Written(a)|] == Written(a) && Ahead(s, i + |Written(a)|, rest)
  {
    var w := Written(a);
    assert w != "" && (w[0] == '\'' || w[0] == '"' || w[0] == '\\');
    hide Written, Ahead;
    AheadFirst(s, i, w, rest);
    AheadText(s, i, w, rest);
    AheadSkip(s, i, w, rest);
  }

  lemma WrittenSkips(s: string, i: nat, a: Arg, rest: string)
    requires Ahead(s, i, Written(a) + rest)
    ensures Ahead(s, i + |Written(a)|, rest)
  {
    hide Written, Ahead;
    AheadSkip(s, i, Written(a), rest);
  }

  /** A written argument is one word token. */
  lemma WrittenIsToken(s: string, i: nat, a: Arg, rest: string)
    requires Ahead(s, i, Written(a) + rest)
    requires rest == "" || rest[0] == ' '
    ensures i < |s| && !IsBlank(s[i]) && s[i] != '#'
    ensures TokenAt(s, i) == Ok(WordTok(QuotedWord(a), i, i + |Written(a)|))
    ensures Ahead(s, i + |Written(a)|, rest)
  {
    hide Written, PartsFrom, TokenAt, Ahead, Globs;
    WrittenScans(s, i, a, rest);
    WrittenAhead(s, i, a, rest);
    WordTokenAt(s, i);
    NoGlobs();
  }

  lemma NoGlobs()
    ensures !Globs("")
  {}

  lemma WordTokenAt(s: string, i: nat)
    requires i < |s| && (s[i] == '\'' || s[i] == '"' || s[i] == '\\') && PartsFrom(s, i).Ok?
    ensures TokenAt(s, i) == Ok(WordTok(WordOf(s, i, PartsFrom(s, i).value), i, PartsFrom(s, i).value.end))
  {
  }

  ghost predicate AreQuoted(toks: seq<Token>, args: seq<Arg>) {
    |toks| == |args| && forall k :: 0 <= k < |args| ==> toks[k].WordTok? && toks[k].word == QuotedWord(args[k])
  }

  lemma LexToken(s: string, i: nat, t: Token, rest: seq<Token>)
    requires i < |s| && !IsBlank(s[i]) && s[i] != '#' && TokenAt(s, i) == Ok(t) && LexFrom(s, t.end) == Ok(rest)
    ensures LexFrom(s, i) == Ok([t] + rest)
  {
  }

  lemma LexEnd(s: string, i: nat)
    requires i >= |s|
    ensures LexFrom(s, i) == Ok([])
  {
  }

  lemma LexBlank(s: string, i: nat)
    requires i < |s| && s[i] == ' '
    ensures LexFrom(s, i) == LexFrom(s, i + 1)
  {
  }

  lemma LineStep(args: seq<Arg>)
    requires |args| > 1
    ensures Line(args) == Written(args[0]) + ([' '] + Line(args[1..]))
  {
    hide Written;
  }

  /** A written argument, and the tokens of what follows it. */
  lemma ArgLexes(s: string, i: nat, a: Arg, rest: string, tail: seq<Token>)
    requires Ahead(s, i, Written(a) + rest) && (rest == "" || rest[0] == ' ')
    requires LexFrom(s, i + |Written(a)|) == Ok(tail)
    ensures LexFrom(s, i) == Ok([ArgToken(i, a)] + tail)
  {
    hide Written, LexFrom, TokenAt, Ahead;
    WrittenIsToken(s, i, a, rest);
    LexToken(s, i, WordTok(QuotedWord(a), i, i + |Written(a)|), tail);
  }

  lemma BlankAhead(s: string, e: nat, more: string)
    requires Ahead(s, e, [' '] + more)
    ensures Ahead(s, e + 1, more) && LexFrom(s, e) == LexFrom(s, e + 1)
  {
    hide LexFrom, Ahead;
    AheadFirst(s, e, [' '], more);
    AheadSkip(s, e, [' '], more);
    LexBlank(s, e);
  }

  lemma EndAhead(s: string, e: nat)
    requires Ahead(s, e, "")
    ensures LexFrom(s, e) == Ok([])
  {
    LexEnd(s, e);
  }

  lemma AreQuotedNext(i: nat, tail: seq<Token>, args: seq<Arg>)
    requires args != [] && AreQuoted(tail, args[1..])
    ensures AreQuoted([ArgToken(i, args[0])] + tail, args)
  {
    hide Written;
    var toks := [ArgToken(i, args[0])] + tail;
    forall k | 0 <= k < |args| ensures toks[k].WordTok? && toks[k].word == QuotedWord(args[k]) {
      assert k > 0 ==> toks[k] == tail[k - 1] && args[k] == args[1..][k - 1];
    }
  }

  /** Tokens from `i` on that are the written arguments. */
  ghost predicate LexesTo(s: string, i: nat, toks: seq<Token>, args: seq<Arg>) {
    LexFrom(s, i) == Ok(toks) && AreQuoted(toks, args)
  }

  lemma LastLexes(s: string, i: nat, a: Arg)
    requires Ahead(s, i, Written(a))
    ensures LexesTo(s, i, [ArgToken(i, a)], [a])
  {
    hide *;
    assert Written(a) + "" == Written(a);
    WrittenSkips(s, i, a, "");
    EndAhead(s, i + |Written(a)|);
    ArgLexes(s, i, a, "", []);
    assert [ArgToken(i, a)] + [] == [ArgToken(i, a)];
    OneQuoted(i, a);
    BothLex(s, i, [ArgToken(i, a)], [a]);
  }

  lemma BothLex(s: string, i: nat, toks: seq<Token>, args: seq<Arg>)
    requires LexFrom(s, i) == Ok(toks) && AreQuoted(toks, args)
    ensures LexesTo(s, i, toks, args)
  {
    hide LexFrom, AreQuoted;
  }

  lemma OneQuoted(i: nat, a: Arg)
    ensures AreQuoted([ArgToken(i, a)], [a])
  {}

  lemma NextLexes(s: string, i: nat, args: seq<Arg>, more: string, tail: seq<Token>)
    requires args != [] && Ahead(s, i, Written(args[0]) + ([' '] + more))
    requires LexesTo(s, i + |Written(args[0])| + 1, tail, args[1..])
    ensures LexesTo(s, i, [ArgToken(i, args[0])] + tail, args)
  {
    LexesApart(s, i + |Written(args[0])| + 1, tail, args[1..]);
    hide *;
    var a := args[0];
    WrittenSkips(s, i, a, [' '] + more);
    BlankAhead(s, i + |Written(a)|, more);
    ArgLexes(s, i, a, [' '] + more, tail);
    AreQuotedNext(i, tail, args);
    BothLex(s, i, [ArgToken(i, a)] + tail, args);
  }

  lemma LexesApart(s: string, i: nat, toks: seq<Token>, args: seq<Arg>)
    requires LexesTo(s, i, toks, args)
    ensures LexFrom(s, i) == Ok(toks) && AreQuoted(toks, args)
  {
    hide LexFrom, AreQuoted;
  }

  /** The tokens of a line of written arguments that begins at `i`. */
  ghost function LineTokens(i: nat, args: seq<Arg>): seq<Token>
    requires args != []
    decreases args
  {
    var t := ArgToken(i, args[0]);
    if |args| == 1 then [t] else [t] + LineTokens(t.end + 1, args[1..])
  }

  ghost function ArgToken(i: nat, a: Arg): Token { WordTok(QuotedWord(a), i, i + |Written(a)|) }

  lemma LineTokensStep(i: nat, args: seq<Arg>)
    requires |args| > 1
    ensures LineTokens(i, args) == [ArgToken(i, args[0])] + LineTokens(ArgToken(i, args[0]).end + 1, args[1..])
  {
    hide ArgToken;
  }

  lemma LineAhead(s: string, i: nat, args: seq<Arg>)
    requires |args| > 1 && Ahead(s, i, Line(args))
    ensures Ahead(s, i, Written(args[0]) + ([' '] + Line(args[1..])))
    ensures Ahead(s, i + |Written(args[0])| + 1, Line(args[1..]))
  {
    LineStep(args);
    hide *;
    var w, more := Written(args[0]), Line(args[1..]);
    AheadSkip(s, i, w, [' '] + more);
    AheadSkip(s, i + |w|, [' '], more);
  }

  lemma BaseLexes(s: string, i: nat, args: seq<Arg>)
    requires |args| == 1 && Ahead(s, i, Line(args))
    ensures LexesTo(s, i, LineTokens(i, args), args)
  {
    hide Written, Ahead, LexesTo, ArgToken;
    LastLexes(s, i, args[0]);
    assert [args[0]] == args;
  }

  lemma ArgTokenEnd(i: nat, a: Arg)
    ensures ArgToken(i, a).end == i + |Written(a)|
  {}

  lemma {:induction false} LineLexes(s: string, i: nat, args: seq<Arg>)
    requires args != [] && Ahead(s, i, Line(args))
    ensures LexesTo(s, i, LineTokens(i, args), args)
    decreases |args|
  {
    hide *;
    if |args| == 1 {
      BaseLexes(s, i, args);
    } else {
      LineAhead(s, i, args);
      LineTokensStep(i, args);
      ArgTokenEnd(i, args[0]);
      var e := i + |Written(args[0])|;
      LineLexes(s, e + 1, args[1..]);
      NextLexes(s, i, args, Line(args[1..]), LineTokens(e + 1, args[1..]));
    }
  }

  ghost function QuotedWords(args: seq<Arg>): seq<Word> {
    seq(|args|, k requires 0 <= k < |args| => QuotedWord(args[k]))
  }

  /** Quoted words are neither numbers nor assignments: all of them are words of one command. */
  lemma {:induction false} QuotedAreWords(toks: seq<Token>, args: seq<Arg>, before: seq<Word>)
    requires AreQuoted(toks, args)
    ensures CommandsFrom(toks, Simple(before, [], [])) == Ok(Flush(Simple(before + QuotedWords(args), [], [])))
    decreases |toks|
  {
    if toks == [] {
      assert before + QuotedWords(args) == before;
    } else {
      var w := toks[0].word;
      assert !IsAssign(w.raw) && w.raw == Written(args[0]);
      assert !IoNumberFirst(toks);
      QuotedAreWords(toks[1..], args[1..], before + [w]);
      assert before + [w] + QuotedWords(args[1..]) == before + QuotedWords(args);
    }
  }

  /** A quoted program is left as it is. */
  lemma QuotedUnwraps(args: seq<Arg>)
    requires args != []
    ensures UnwrapFrom(QuotedWords(args), []) == Unwrapped(QuotedWords(args), [], Program)
  {
    hide Written;
    assert QuotedWords(args)[0].quoted;
  }

  /** Any non-empty list of arguments, each in single quotes, double quotes or backslashes, joined with
      blanks, is read back as one command without assignments or redirections, whose program is exactly
      that list. */
  lemma ArgumentsRoundTrip(args: seq<Arg>)
    requires args != []
    ensures LexFrom(Line(args), 0).Ok?
    ensures CommandsFrom(LexFrom(Line(args), 0).value, EMPTY) == Ok([Simple(QuotedWords(args), [], [])])
    ensures UnwrapFrom(QuotedWords(args), []) == Unwrapped(QuotedWords(args), [], Program)
    ensures forall k :: 0 <= k < |args| ==> QuotedWords(args)[k].text == args[k].text
  {
    QuotedTexts(args);
    WholeLineLexes(args);
    hide *;
    OneCommand(LineTokens(0, args), args);
    QuotedUnwraps(args);
  }

  lemma WholeLineLexes(args: seq<Arg>)
    requires args != []
    ensures LexFrom(Line(args), 0) == Ok(LineTokens(0, args)) && AreQuoted(LineTokens(0, args), args)
  {
    hide *;
    AheadWhole(Line(args));
    LineLexes(Line(args), 0, args);
    LexesApart(Line(args), 0, LineTokens(0, args), args);
  }

  lemma OneCommand(toks: seq<Token>, args: seq<Arg>)
    requires args != [] && AreQuoted(toks, args)
    ensures CommandsFrom(toks, EMPTY) == Ok([Simple(QuotedWords(args), [], [])])
  {
    QuotedTexts(args);
    assert EMPTY == Simple([], [], []);
    hide *;
    var words := QuotedWords(args);
    QuotedAreWords(toks, args, []);
    assert [] + words == words;
    FlushWords(words);
  }

  lemma QuotedTexts(args: seq<Arg>)
    ensures |QuotedWords(args)| == |args| && forall k :: 0 <= k < |args| ==> QuotedWords(args)[k].text == args[k].text
  {}

  lemma FlushWords(words: seq<Word>)
    requires words != []
    ensures Flush(Simple(words, [], [])) == [Simple(words, [], [])]
  {}
}
