/** The one-pass macro expander of `tools/cardrun.py`: what it splits a command into, what it refuses,
    and that a body is put in as it is. */
module Macros {
  import opened Common
  import opened Text

  predicate IsNameChar(c: char) { 'A' <= c <= 'Z' || '0' <= c <= '9' }

  /** The characters that may not touch a macro's name: word characters, the ASCII ones here, `/`, `.`
      and `-`. */
  predicate Touches(c: char) {
    IsNameChar(c) || 'a' <= c <= 'z' || c == '_' || c == '/' || c == '.' || c == '-'
  }

  predicate IsOperator(c: char) { c == ';' || c == '&' || c == '|' || c == '<' || c == '>' || c == '(' || c == ')' }

  predicate IsOperatorWord(w: string) { forall i :: 0 <= i < |w| ==> IsOperator(w[i]) }

  /** A macro takes an argument when it has a parameter. */
  datatype Macro = Macro(param: Option<string>, body: string)

  type Table = map<string, Macro>

  predicate IsName(name: string) { name != "" && forall i :: 0 <= i < |name| ==> IsNameChar(name[i]) }

  /** A list of the names to look for, in the order they are tried. */
  ghost predicate Lists(names: seq<string>, table: Table) {
    forall x :: (x in names <==> x in table) && (x in table ==> IsName(x))
  }

  // ------------------------------------------------------------ finding a name

  predicate Occurs(s: string, p: nat, name: string) {
    && p + |name| <= |s| && s[p..p + |name|] == name
    && (p == 0 || !Touches(s[p - 1]))
    && (p + |name| == |s| || !Touches(s[p + |name|]))
  }

  function FirstOf(s: string, p: nat, names: seq<string>): (r: Option<string>)
    ensures r.Some? ==> r.value in names && Occurs(s, p, r.value)
    ensures r.None? ==> forall x :: x in names ==> !Occurs(s, p, x)
  {
    if names == [] then None
    else if Occurs(s, p, names[0]) then Some(names[0])
    else FirstOf(s, p, names[1..])
  }

  /** The first place at or after `i` where a name stands, and the first of the names that stands there. */
  function Search(s: string, names: seq<string>, i: nat): (r: Option<(nat, string)>)
    requires i <= |s|
    ensures r.Some? ==> i <= r.value.0 <= r.value.0 + |r.value.1| <= |s| && r.value.1 in names
    ensures r.Some? ==> Occurs(s, r.value.0, r.value.1)
    ensures r.Some? ==> forall q, x :: i <= q < r.value.0 && x in names ==> !Occurs(s, q, x)
    ensures r.None? ==> forall q, x :: i <= q <= |s| && x in names ==> !Occurs(s, q, x)
    decreases |s| - i
  {
    var f := FirstOf(s, i, names);
    if f.Some? then Some((i, f.value))
    else if i == |s| then None
    else Search(s, names, i + 1)
  }

  lemma CharInName(s: string, p: nat, y: string, k: nat)
    requires IsName(y) && Occurs(s, p, y) && k < |y|
    ensures p + k < |s| && Touches(s[p + k])
  {
    assert s[p + k] == s[p..p + |y|][k];
  }

  lemma NotLonger(s: string, p: nat, x: string, y: string)
    requires IsName(y) && Occurs(s, p, x) && Occurs(s, p, y)
    ensures |y| <= |x|
  {
    if |x| < |y| {
      CharInName(s, p, y, |x|);
    }
  }

  /** Two names never stand at the same place: a name fills the whole run of characters around it. */
  lemma OneNameAt(s: string, p: nat, x: string, y: string)
    requires IsName(x) && IsName(y) && Occurs(s, p, x) && Occurs(s, p, y)
    ensures x == y
  {
    NotLonger(s, p, x, y);
    NotLonger(s, p, y, x);
  }

  // ------------------------------------------------------------ splitting a command

  function BlanksEnd(s: string, i: nat): (e: nat)
    requires i <= |s|
    ensures i <= e <= |s| && (e < |s| ==> !IsBlank(s[e])) && forall k :: i <= k < e ==> IsBlank(s[k])
    decreases |s| - i
  {
    if i < |s| && IsBlank(s[i]) then BlanksEnd(s, i + 1) else i
  }

  function WordEnd(s: string, i: nat): (e: nat)
    requires i <= |s|
    ensures i <= e <= |s| && (e < |s| ==> IsSpace(s[e])) && forall k :: i <= k < e ==> !IsSpace(s[k])
    decreases |s| - i
  {
    if i < |s| && !IsSpace(s[i]) then WordEnd(s, i + 1) else i
  }

  /** The argument after `j`: at least one blank, then a word. */
  function Argument(s: string, j: nat): (r: Option<(nat, nat)>)
    requires j <= |s|
    ensures r.Some? ==> j < r.value.0 < r.value.1 <= |s|
  {
    var a := BlanksEnd(s, j);
    var e := WordEnd(s, a);
    if j < a < e then Some((a, e)) else None
  }

  datatype Piece = Gap(text: string) | Use(name: string, blanks: string, arg: string)

  datatype Trouble = SpansLines(name: string) | NeedsArgument(name: string)

  datatype Taken = Taken(blanks: string, arg: string, end: nat)

  /** What a macro takes with it when its name ends at `j`. */
  function Take(s: string, name: string, m: Macro, j: nat): (r: Result<Taken, Trouble>)
    requires j <= |s|
    ensures r.Ok? ==> j <= r.value.end <= |s|
    ensures r.Ok? ==> '\n' !in m.body && (m.param.None? ==> r.value.blanks == r.value.arg == "")
    ensures r.Ok? && m.param.Some? ==> r.value.blanks != "" && r.value.arg != "" && !IsOperatorWord(r.value.arg)
  {
    if '\n' in m.body then Refused(SpansLines(name))
    else if m.param.None? then Ok(Taken("", "", j))
    else
      var a := Argument(s, j);
      if a.None? || IsOperatorWord(s[a.value.0..a.value.1]) then Refused(NeedsArgument(name))
      else Ok(Taken(s[j..a.value.0], s[a.value.0..a.value.1], a.value.1))
  }

  /** What a macro takes is the command after its name. */
  lemma TakeReads(s: string, name: string, m: Macro, j: nat)
    requires j <= |s| && Take(s, name, m, j).Ok?
    ensures var t := Take(s, name, m, j).value;
            t.blanks + t.arg == s[j..t.end] && t.end == j + |t.blanks| + |t.arg|
  {}

  /** The command from `i` on, as text left alone and macros used. */
  function Pieces(s: string, table: Table, names: seq<string>, i: nat): Result<seq<Piece>, Trouble>
    requires i <= |s| && Lists(names, table)
    decreases |s| - i
  {
    var found := Search(s, names, i);
    if found.None? then Ok([Gap(s[i..])])
    else
      var (p, name) := found.value;
      assert IsName(name);
      var t := Take(s, name, table[name], p + |name|);
      if t.Refused? then Refused(t.why)
      else After([Gap(s[i..p]), Use(name, t.value.blanks, t.value.arg)], Pieces(s, table, names, t.value.end))
  }

  function After(head: seq<Piece>, rest: Result<seq<Piece>, Trouble>): Result<seq<Piece>, Trouble> {
    match rest case Refused(why) => Refused(why) case Ok(ps) => Ok(head + ps)
  }

  /** `body` with every `mark` in it replaced by `arg`, from the left. */
  function Substitute(body: string, mark: string, arg: string): string
    requires mark != ""
    decreases |body|
  {
    if |body| < |mark| then body
    else if body[..|mark|] == mark then arg + Substitute(body[|mark|..], mark, arg)
    else [body[0]] + Substitute(body[1..], mark, arg)
  }

  function BodyOf(m: Macro, arg: string): string {
    if m.param.Some? then Substitute(m.body, "<" + m.param.value + ">", arg) else m.body
  }

  function Rendered(p: Piece, table: Table): string {
    match p
    case Gap(t) => t
    case Use(name, _, arg) => if name in table then BodyOf(table[name], arg) else name
  }

  function Render(ps: seq<Piece>, table: Table): string {
    if ps == [] then "" else Rendered(ps[0], table) + Render(ps[1..], table)
  }

  function Expansion(s: string, table: Table, names: seq<string>): Result<string, Trouble>
    requires Lists(names, table)
  {
    match Pieces(s, table, names, 0)
    case Refused(why) => Refused(why)
    case Ok(ps) => Ok(Render(ps, table))
  }

  lemma {:induction false} RenderConcat(a: seq<Piece>, b: seq<Piece>, table: Table)
    ensures Render(a + b, table) == Render(a, table) + Render(b, table)
  {
    if a == [] {
      assert a + b == b;
    } else {
      assert (a + b)[1..] == a[1..] + b;
      RenderConcat(a[1..], b, table);
    }
  }

  lemma RenderPair(x: Piece, y: Piece, table: Table)
    ensures Render([x, y], table) == Rendered(x, table) + Rendered(y, table)
  {
    assert [x, y][1..] == [y] && [y][1..] == [];
    assert Render([y], table) == Rendered(y, table) + Render([], table);
  }

  /** The pass as the tool runs it. */
  method Expand(s: string, table: Table, names: seq<string>) returns (r: Result<string, Trouble>)
    requires Lists(names, table)
    ensures r == Expansion(s, table, names)
  {
    hide Render, Rendered, Search, Take, Occurs, BodyOf;
    if |table| == 0 {
      NothingListed(s, table, names);
      return Ok(s);
    }
    var out, i := "", 0;
    ghost var done: seq<Piece> := [];
    RenderNone(table);
    AfterNone(Pieces(s, table, names, 0));
    while true
      invariant i <= |s| && out == Render(done, table)
      invariant Pieces(s, table, names, 0) == After(done, Pieces(s, table, names, i))
      decreases |s| - i
    {
      var found := Search(s, names, i);
      if found.None? {
        RenderOne(s[i..], table);
        RenderConcat(done, [Gap(s[i..])], table);
        return Ok(out + s[i..]);
      }
      var (p, name) := found.value;
      var mac := table[name];
      var taken := Take(s, name, mac, p + |name|);
      if taken.Refused? {
        return Refused(taken.why);
      }
      var Taken(blanks, arg, end) := taken.value;
      ghost var two := [Gap(s[i..p]), Use(name, blanks, arg)];
      assert IsName(name);
      AfterAfter(done, two, Pieces(s, table, names, end));
      RenderConcat(done, two, table);
      RenderUse(s[i..p], name, blanks, arg, table);
      out := out + s[i..p] + BodyOf(mac, arg);
      done := done + two;
      i := end;
    }
  }

  lemma AfterAfter(a: seq<Piece>, b: seq<Piece>, rest: Result<seq<Piece>, Trouble>)
    ensures After(a, After(b, rest)) == After(a + b, rest)
  {
    assert rest.Ok? ==> a + (b + rest.value) == a + b + rest.value;
  }

  lemma AfterNone(rest: Result<seq<Piece>, Trouble>)
    ensures After([], rest) == rest
  {
    assert rest.Ok? ==> [] + rest.value == rest.value;
  }

  lemma RenderNone(table: Table)
    ensures Render([], table) == ""
  {}

  lemma RenderOne(t: string, table: Table)
    ensures Render([Gap(t)], table) == t
  {
    assert [Gap(t)][1..] == [];
  }

  lemma RenderUse(t: string, name: string, blanks: string, arg: string, table: Table)
    requires name in table
    ensures Render([Gap(t), Use(name, blanks, arg)], table) == t + BodyOf(table[name], arg)
  {
    RenderPair(Gap(t), Use(name, blanks, arg), table);
  }

  lemma SomeName(names: seq<string>, table: Table)
    requires Lists(names, table)
    ensures |names| > 0 ==> |table| > 0
  {
    if |names| > 0 {
      assert names[0] in table.Keys;
    }
  }

  lemma NothingListed(s: string, table: Table, names: seq<string>)
    requires Lists(names, table) && |table| == 0
    ensures Expansion(s, table, names) == Ok(s)
  {
    SomeName(names, table);
    RenderOne(s, table);
    assert s[0..] == s;
  }

  // ------------------------------------------------------------ what the pass does

  function Source(ps: seq<Piece>): string {
    if ps == [] then ""
    else Written(ps[0]) + Source(ps[1..])
  }

  function Written(p: Piece): string { match p case Gap(t) => t case Use(name, blanks, arg) => name + blanks + arg }

  lemma SourceTwo(x: Piece, y: Piece, rest: seq<Piece>)
    ensures Source([x, y] + rest) == Written(x) + (Written(y) + Source(rest))
  {
    var ps := [x, y] + rest;
    assert ps[1..] == [y] + rest && ps[1..][1..] == rest;
    assert Source(ps[1..]) == Written(y) + Source(rest);
  }

  /** Piece by piece from `at`: a gap holds no name, and a use stands where its name does, with an
      argument exactly when the macro has a parameter. */
  ghost predicate Placed(ps: seq<Piece>, s: string, table: Table, at: nat) {
    ps == [] ||
    (match ps[0]
     case Gap(t) =>
       (forall q, x :: at <= q < at + |t| && x in table ==> !Occurs(s, q, x)) && Placed(ps[1..], s, table, at + |t|)
     case Use(name, blanks, arg) =>
       && name in table && Occurs(s, at, name) && '\n' !in table[name].body
       && (table[name].param.None? ==> blanks == "" && arg == "")
       && (table[name].param.Some? ==> blanks != "" && arg != "" && !IsOperatorWord(arg))
       && Placed(ps[1..], s, table, at + |name| + |blanks| + |arg|))
  }

  lemma PlacedTwo(t: string, name: string, blanks: string, arg: string, rest: seq<Piece>, s: string,
                  table: Table, at: nat)
    requires forall q, x :: at <= q < at + |t| && x in table ==> !Occurs(s, q, x)
    requires name in table && Occurs(s, at + |t|, name) && '\n' !in table[name].body
    requires table[name].param.None? ==> blanks == "" && arg == ""
    requires table[name].param.Some? ==> blanks != "" && arg != "" && !IsOperatorWord(arg)
    requires Placed(rest, s, table, at + |t| + |name| + |blanks| + |arg|)
    ensures Placed([Gap(t), Use(name, blanks, arg)] + rest, s, table, at)
  {
    hide Occurs, IsOperatorWord;
    var ps := [Gap(t), Use(name, blanks, arg)] + rest;
    assert ps[1..] == [Use(name, blanks, arg)] + rest && ps[1..][1..] == rest;
    assert Placed(ps[1..], s, table, at + |t|);
  }

  lemma PlacedGap(t: string, s: string, table: Table, at: nat)
    requires forall q, x :: at <= q < at + |t| && x in table ==> !Occurs(s, q, x)
    ensures Placed([Gap(t)], s, table, at) && Source([Gap(t)]) == t
  {
    assert [Gap(t)][1..] == [];
  }

  /** One use: its gap, its name and what it takes with it are the command up to where the rest starts. */
  lemma SourceStep(s: string, i: nat, p: nat, name: string, t: Taken, rest: seq<Piece>)
    requires i <= p && p + |name| <= t.end <= |s| && s[p..p + |name|] == name
    requires s[p + |name|..t.end] == t.blanks + t.arg && Source(rest) == s[t.end..]
    ensures Source([Gap(s[i..p]), Use(name, t.blanks, t.arg)] + rest) == s[i..]
    ensures t.end == p + |name| + |t.blanks| + |t.arg|
  {
    hide Source;
    var j := p + |name|;
    assert |s[j..t.end]| == |t.blanks + t.arg|;
    SourceTwo(Gap(s[i..p]), Use(name, t.blanks, t.arg), rest);
    Cut4(s, i, p, j, t.end);
    Regroup(name, t.blanks, t.arg, s[t.end..]);
  }

  lemma Regroup(a: string, b: string, c: string, d: string)
    ensures a + b + c + d == a + (b + c) + d
  {}

  lemma Cut4(s: string, i: nat, p: nat, j: nat, e: nat)
    requires i <= p <= j <= e <= |s|
    ensures s[i..] == s[i..p] + (s[p..j] + s[j..e] + s[e..])
  {}

  lemma OccursReads(s: string, p: nat, name: string)
    requires Occurs(s, p, name)
    ensures p + |name| <= |s| && s[p..p + |name|] == name
  {}

  /** The pieces are the command, in order and whole: gaps without a macro's name in them, and uses. */
  lemma {:induction false} PiecesCover(s: string, table: Table, names: seq<string>, i: nat)
    requires i <= |s| && Lists(names, table)
    ensures var r := Pieces(s, table, names, i);
            r.Ok? ==> Source(r.value) == s[i..] && Placed(r.value, s, table, i)
    decreases |s| - i
  {
    hide Search, Take, IsOperatorWord, Placed, Source, Occurs;
    var found := Search(s, names, i);
    if found.None? {
      PlacedGap(s[i..], s, table, i);
    } else if Pieces(s, table, names, i).Ok? {
      var (p, name) := found.value;
      assert IsName(name);
      var t := Take(s, name, table[name], p + |name|).value;
      PiecesCover(s, table, names, t.end);
      var rest := Pieces(s, table, names, t.end).value;
      assert s[p..p + |name|] == name by {
        assert Occurs(s, p, name);
        OccursReads(s, p, name);
      }
      TakeReads(s, name, table[name], p + |name|);
      SourceStep(s, i, p, name, t, rest);
      PlacedTwo(s[i..p], name, t.blanks, t.arg, rest, s, table, i);
    }
  }

  lemma SearchNoLater(s: string, table: Table, v: seq<string>, w: seq<string>, i: nat)
    requires i <= |s| && Lists(v, table) && Lists(w, table)
    ensures var f, g := Search(s, v, i), Search(s, w, i);
            f.Some? ==> g.Some? && g.value.0 <= f.value.0
  {
    hide Occurs;
    var f := Search(s, v, i);
    assert f.Some? ==> f.value.1 in w;
  }

  lemma SearchSame(s: string, table: Table, v: seq<string>, w: seq<string>, i: nat)
    requires i <= |s| && Lists(v, table) && Lists(w, table)
    ensures Search(s, v, i) == Search(s, w, i)
  {
    hide Occurs, Search;
    SearchNoLater(s, table, v, w, i);
    SearchNoLater(s, table, w, v, i);
    var f, g := Search(s, v, i), Search(s, w, i);
    if f.Some? {
      assert IsName(f.value.1) && IsName(g.value.1);
      OneNameAt(s, f.value.0, f.value.1, g.value.1);
    }
  }

  /** The order in which the names are tried does not matter. */
  lemma {:induction false} OrderDoesNotMatter(s: string, table: Table, v: seq<string>, w: seq<string>, i: nat)
    requires i <= |s| && Lists(v, table) && Lists(w, table)
    ensures Pieces(s, table, v, i) == Pieces(s, table, w, i)
    decreases |s| - i
  {
    hide Search, Take, Occurs;
    SearchSame(s, table, v, w, i);
    var f := Search(s, v, i);
    if f.Some? {
      var (p, name) := f.value;
      assert IsName(name);
      var t := Take(s, name, table[name], p + |name|);
      if t.Ok? {
        OrderDoesNotMatter(s, table, v, w, t.value.end);
      }
    }
  }

  /** A command is left whole exactly when no name stands in it. */
  lemma LeftAlone(s: string, table: Table, names: seq<string>)
    requires Lists(names, table)
    ensures Pieces(s, table, names, 0) == Ok([Gap(s)]) <==>
            forall q, x :: 0 <= q <= |s| && x in table ==> !Occurs(s, q, x)
    ensures Pieces(s, table, names, 0) == Ok([Gap(s)]) ==> Expansion(s, table, names) == Ok(s)
  {
    hide Take;
    assert s[0..] == s;
    RenderOne(s, table);
    var found := Search(s, names, 0);
    if found.Some? {
      assert Occurs(s, found.value.0, found.value.1);
    }
  }
}
