/** The shell reading of `tools/cardrun.py`: the lexer, the splitter into simple commands, and the
    removal of keywords and wrappers in front of a program. */
module Shell {
  import opened Common
  import opened Text

  datatype Refusal = UnclosedParen | UnclosedQuote | UnclosedDouble | UnclosedBrace | UnclosedTick
                   | ProcessSubstitution | NoTarget

  type Answer<T> = Result<T, Refusal>

  // ------------------------------------------------------------ characters

  predicate IsAlpha(c: char) { 'a' <= c <= 'z' || 'A' <= c <= 'Z' }

  predicate EndsWord(c: char) { IsBlank(c) || c == '\n' || IsOp1(c) }

  /** The first `c` at or after `from`. */
  function Find(s: string, c: char, from: nat): (r: Option<nat>)
    ensures r.Some? ==> from <= r.value < |s| && s[r.value] == c
    ensures r.Some? ==> forall k :: from <= k < r.value ==> s[k] != c
    ensures r.None? ==> forall k :: from <= k < |s| ==> s[k] != c
    decreases |s| - from
  {
    if from >= |s| then None
    else if s[from] == c then Some(from)
    else Find(s, c, from + 1)
  }

  predicate StartsAt(s: string, p: string, i: nat) {
    i + |p| <= |s| && s[i..i + |p|] == p
  }

  predicate IsNameChar(c: char) { IsAlpha(c) || IsDigit(c) || c == '_' || c == '-' }

  /** The end of the run of name characters from `i`. */
  function NameEnd(s: string, i: nat): (e: nat)
    requires i <= |s|
    ensures i <= e <= |s|
    decreases |s| - i
  {
    if i < |s| && IsNameChar(s[i]) then NameEnd(s, i + 1) else i
  }

  /** The end of the placeholder `<name>` at `i`, if one is there. */
  function PlaceholderEnd(s: string, i: nat): (e: Option<nat>)
    ensures e.Some? ==> i + 2 < e.value <= |s| && s[i] == '<'
  {
    if i + 1 < |s| && s[i] == '<' && IsAlpha(s[i + 1]) then
      var close := NameEnd(s, i + 2);
      if close < |s| && s[close] == '>' then Some(close + 1) else None
    else None
  }

  // ------------------------------------------------------------ operators

  /** `&>>` `<<<` `<<-` */
  predicate IsOp3(x: char, y: char, z: char) {
    (x == '&' && y == '>' && z == '>') || (x == '<' && y == '<' && (z == '<' || z == '-'))
  }

  /** `&&` `&>` `||` `|&` `;;` `>>` `>&` `>|` `<<` `<>` `<&` */
  predicate IsOp2(x: char, y: char) {
    || (x == '&' && (y == '&' || y == '>'))
    || (x == '|' && (y == '|' || y == '&'))
    || (x == ';' && y == ';')
    || (x == '>' && (y == '>' || y == '&' || y == '|'))
    || (x == '<' && (y == '<' || y == '>' || y == '&'))
  }

  /** `;` `&` `|` `(` `)` `<` `>` */
  predicate IsOp1(x: char) {
    x == ';' || x == '&' || x == '|' || x == '(' || x == ')' || x == '<' || x == '>'
  }

  predicate IsOp(op: string) {
    || (|op| == 3 && IsOp3(op[0], op[1], op[2]))
    || (|op| == 2 && IsOp2(op[0], op[1]))
    || (|op| == 1 && IsOp1(op[0]))
  }

  /** The redirections are the operators that hold `<` or `>`. */
  predicate IsRedir(op: string) {
    IsOp(op) && (op[0] == '<' || op[0] == '>' || (|op| >= 2 && op[1] == '>'))
  }

  /** The operator at `i`: the longest that the text there begins with. */
  function OpAt(s: string, i: nat): (op: Option<string>)
    ensures op.Some? ==> IsOp(op.value) && StartsAt(s, op.value, i)
    ensures forall other :: IsOp(other) && StartsAt(s, other, i) ==> op.Some? && |other| <= |op.value|
  {
    assert forall other :: IsOp(other) && StartsAt(s, other, i) ==>
      forall k :: 0 <= k < |other| ==> other[k] == s[i + k];
    if i + 3 <= |s| && IsOp3(s[i], s[i + 1], s[i + 2]) then Some(s[i..i + 3])
    else if i + 2 <= |s| && IsOp2(s[i], s[i + 1]) then Some(s[i..i + 2])
    else if i + 1 <= |s| && IsOp1(s[i]) then Some(s[i..i + 1])
    else None
  }

  /** A character that can end a word without being blank or newline starts an operator. */
  lemma WordEndIsOp(s: string, i: nat)
    requires i < |s| && EndsWord(s[i]) && !IsBlank(s[i]) && s[i] != '\n'
    ensures OpAt(s, i).Some?
  {
  }

  // ------------------------------------------------------------ the pieces of a word

  /** What a piece, or a whole word, contributes: its text without quotes, the part of it that was
      unquoted, and whether anything was quoted, expands, or is a placeholder. */
  datatype Parts = Parts(text: string, bare: string, quoted: bool, expands: bool, placeholder: bool)

  const NOTHING := Parts("", "", false, false, false)

  function Join(a: Parts, b: Parts): Parts {
    Parts(a.text + b.text, a.bare + b.bare, a.quoted || b.quoted, a.expands || b.expands,
          a.placeholder || b.placeholder)
  }

  datatype Piece = Piece(parts: Parts, end: nat)

  /** The index after the `)` that closes the `(` opened `depth` deep before `j`. */
  function CloseParen(s: string, j: nat, depth: int): (r: Answer<nat>)
    ensures r.Ok? ==> j < r.value <= |s| && s[r.value - 1] == ')'
    decreases |s| - j
  {
    if j >= |s| then Refused(UnclosedParen)
    else if s[j] == '\\' then CloseParen(s, j + 2, depth)
    else if s[j] == '\'' || s[j] == '"' then
      var k := Find(s, s[j], j + 1);
      if k.None? then Refused(UnclosedParen) else CloseParen(s, k.value + 1, depth)
    else if s[j] == '(' then CloseParen(s, j + 1, depth + 1)
    else if s[j] == ')' then
      if depth - 1 == 0 then Ok(j + 1) else CloseParen(s, j + 1, depth - 1)
    else CloseParen(s, j + 1, depth)
  }

  /** The rest of a double-quoted string from `j`: its parts, and the index of the closing quote. */
  function DoubleFrom(s: string, j: nat): (r: Answer<Piece>)
    ensures r.Ok? ==> j <= r.value.end < |s| && s[r.value.end] == '"'
    decreases |s| - j
  {
    if j >= |s| then Refused(UnclosedDouble)
    else if s[j] == '"' then Ok(Piece(NOTHING, j))
    else
      var escape := s[j] == '\\' && j + 1 < |s| && s[j + 1] in "$`\"\\";
      var c := if escape then s[j + 1] else s[j];
      var expands := !escape && (s[j] == '$' || s[j] == '`');
      match DoubleFrom(s, if escape then j + 2 else j + 1)
      case Refused(e) => Refused(e)
      case Ok(p) => Ok(Piece(Join(Parts([c], "", false, expands, false), p.parts), p.end))
  }

  function Expansion(s: string, i: nat, end: nat): Piece
    requires i <= end <= |s|
  {
    Piece(Parts(s[i..end], s[i..end], false, true, false), end)
  }

  /** The piece at `i`, or nothing where the word ends. */
  function PieceAt(s: string, i: nat): (r: Option<Answer<Piece>>)
    requires i < |s|
    ensures r.Some? && r.value.Ok? ==> i < r.value.value.end <= |s| + 1
    ensures r.Some? && r.value.Ok? && r.value.value.end == |s| + 1 ==> i == |s| - 1 && s[i] == '\\'
    ensures r.None? ==> EndsWord(s[i])
    ensures !EndsWord(s[i]) ==> r.Some?
  {
    var c := s[i];
    if c == '<' then
      match PlaceholderEnd(s, i)
      case None => None
      case Some(e) => Some(Ok(Piece(Parts(s[i..e], s[i..e], false, false, true), e)))
    else if EndsWord(c) then None
    else if c == '\'' then
      match Find(s, '\'', i + 1)
      case None => Some(Refused(UnclosedQuote))
      case Some(j) => Some(Ok(Piece(Parts(s[i + 1..j], "", true, false, false), j + 1)))
    else if c == '"' then
      match DoubleFrom(s, i + 1)
      case Refused(e) => Some(Refused(e))
      case Ok(p) => Some(Ok(Piece(p.parts.(quoted := true), p.end + 1)))
    else if c == '\\' then
      var escaped := if i + 1 < |s| then [s[i + 1]] else "";
      Some(Ok(Piece(Parts(escaped, "", true, false, false), i + 2)))
    else if c == '$' && i + 1 < |s| && s[i + 1] == '(' then
      match CloseParen(s, i + 1, 0)
      case Refused(e) => Some(Refused(e))
      case Ok(j) => Some(Ok(Expansion(s, i, j)))
    else if c == '$' && i + 1 < |s| && s[i + 1] == '{' then
      match Find(s, '}', i)
      case None => Some(Refused(UnclosedBrace))
      case Some(j) => Some(Ok(Expansion(s, i, j + 1)))
    else if c == '`' then
      match Find(s, '`', i + 1)
      case None => Some(Refused(UnclosedTick))
      case Some(j) => Some(Ok(Expansion(s, i, j + 1)))
    else Some(Ok(Piece(Parts([c], [c], false, c == '$', false), i + 1)))
  }

  /** The pieces from `i` to the end of the word, joined. */
  function PartsFrom(s: string, i: nat): (r: Answer<Piece>)
    ensures r.Ok? ==> i <= r.value.end <= (if i <= |s| + 1 then |s| + 1 else i)
    ensures r.Ok? && i <= |s| && r.value.end == |s| + 1 ==> s != "" && s[|s| - 1] == '\\'
    ensures r.Ok? && r.value.end < |s| ==> EndsWord(s[r.value.end])
    decreases |s| - i
  {
    if i >= |s| then Ok(Piece(NOTHING, i))
    else
      match PieceAt(s, i)
      case None => Ok(Piece(NOTHING, i))
      case Some(Refused(e)) => Refused(e)
      case Some(Ok(p)) =>
        match PartsFrom(s, p.end)
        case Refused(e) => Refused(e)
        case Ok(rest) => Ok(Piece(Join(p.parts, rest.parts), rest.end))
  }

  datatype Word = Word(text: string, raw: string, quoted: bool, expands: bool, globs: bool, placeholder: bool)

  predicate ListBetween(b: string, i: nat, j: nat)
    requires i < j < |b|
  {
    && b[i] == '{' && b[j] == '}'
    && (forall k :: i < k < j ==> b[k] != '{' && b[k] != '}')
    && exists k :: i < k < j && (b[k] == ',' || (b[k] == '.' && k + 1 < j && b[k + 1] == '.'))
  }

  /** The unquoted part holds a pattern character, a brace list, or begins with a tilde. */
  predicate Globs(b: string) {
    || (exists i :: 0 <= i < |b| && b[i] in "*?[")
    || (exists i, j :: 0 <= i < j < |b| && ListBetween(b, i, j))
    || (b != "" && b[0] == '~')
  }

  function Upto(s: string, i: nat, end: nat): string
    requires i <= |s| && i <= end
  {
    if end <= |s| then s[i..end] else s[i..]
  }

  function WordOf(s: string, start: nat, p: Piece): Word
    requires start <= |s| && start <= p.end
  {
    Word(p.parts.text, Upto(s, start, p.end), p.parts.quoted, p.parts.expands, Globs(p.parts.bare),
         p.parts.placeholder)
  }

  // ------------------------------------------------------------ the scanning loops

  method ScanParen(s: string, i: nat) returns (r: Answer<nat>)
    ensures r == CloseParen(s, i, 0)
  {
    var depth: int, j: nat := 0, i;
    while j < |s|
      invariant CloseParen(s, i, 0) == CloseParen(s, j, depth)
      decreases |s| - j
    {
      var c := s[j];
      if c == '\\' {
        j := j + 2;
        continue;
      }
      if c == '\'' || c == '"' {
        var k := Find(s, c, j + 1);
        if k.None? {
          return Refused(UnclosedParen);
        }
        j := k.value + 1;
        continue;
      }
      if c == '(' {
        depth := depth + 1;
      } else if c == ')' {
        depth := depth - 1;
        if depth == 0 {
          return Ok(j + 1);
        }
      }
      j := j + 1;
    }
    return Refused(UnclosedParen);
  }

  lemma JoinAssociative(a: Parts, b: Parts, c: Parts)
    ensures Join(Join(a, b), c) == Join(a, Join(b, c))
  {
    assert (a.text + b.text) + c.text == a.text + (b.text + c.text);
    assert (a.bare + b.bare) + c.bare == a.bare + (b.bare + c.bare);
  }

  lemma JoinNothing(a: Parts)
    ensures Join(NOTHING, a) == a && Join(a, NOTHING) == a
  {
    assert "" + a.text == a.text == a.text + "";
    assert "" + a.bare == a.bare == a.bare + "";
  }

  /** An answer with more parts put in front. */
  ghost function Prefixed(a: Parts, r: Answer<Piece>): Answer<Piece> {
    match r
    case Refused(e) => Refused(e)
    case Ok(p) => Ok(Piece(Join(a, p.parts), p.end))
  }

  lemma PrefixedTwice(a: Parts, b: Parts, r: Answer<Piece>)
    ensures Prefixed(Join(a, b), r) == Prefixed(a, Prefixed(b, r))
  {
    if r.Ok? {
      JoinAssociative(a, b, r.value.parts);
    }
  }

  method ScanDouble(s: string, i: nat) returns (r: Answer<Piece>)
    ensures r == DoubleFrom(s, i)
  {
    var j, parts := i, NOTHING;
    if DoubleFrom(s, i).Ok? { JoinNothing(DoubleFrom(s, i).value.parts); }
    while j < |s|
      invariant DoubleFrom(s, i) == Prefixed(parts, DoubleFrom(s, j))
      decreases |s| - j
    {
      if s[j] == '"' {
        JoinNothing(parts);
        return Ok(Piece(parts, j));
      }
      var one: Parts;
      ghost var at := j;
      if s[j] == '\\' && j + 1 < |s| && s[j + 1] in "$`\"\\" {
        one := Parts([s[j + 1]], "", false, false, false);
        j := j + 2;
      } else {
        one := Parts([s[j]], "", false, s[j] == '$' || s[j] == '`', false);
        j := j + 1;
      }
      assert DoubleFrom(s, at) == Prefixed(one, DoubleFrom(s, j));
      PrefixedTwice(parts, one, DoubleFrom(s, j));
      parts := Join(parts, one);
    }
    return Refused(UnclosedDouble);
  }

  method ScanPiece(s: string, i: nat) returns (r: Option<Answer<Piece>>)
    requires i < |s|
    ensures r == PieceAt(s, i)
  {
    if s[i] == '"' {
      var p := ScanDouble(s, i + 1);
      match p {
        case Refused(e) => return Some(Refused(e));
        case Ok(q) => return Some(Ok(Piece(q.parts.(quoted := true), q.end + 1)));
      }
    }
    if s[i] == '$' && i + 1 < |s| && s[i + 1] == '(' {
      var j := ScanParen(s, i + 1);
      match j {
        case Refused(e) => return Some(Refused(e));
        case Ok(end) => return Some(Ok(Expansion(s, i, end)));
      }
    }
    return PieceAt(s, i);
  }

  /** One shell word from `start`, and the index after it. */
  method ScanWord(s: string, start: nat) returns (r: Answer<(Word, nat)>)
    requires start <= |s|
    ensures PartsFrom(s, start).Refused? ==> r == Refused(PartsFrom(s, start).why)
    ensures PartsFrom(s, start).Ok? ==>
              r == Ok((WordOf(s, start, PartsFrom(s, start).value), PartsFrom(s, start).value.end))
  {
    var i, parts := start, NOTHING;
    if PartsFrom(s, start).Ok? { JoinNothing(PartsFrom(s, start).value.parts); }
    while i < |s|
      invariant start <= i <= |s| + 1
      invariant PartsFrom(s, start) == Prefixed(parts, PartsFrom(s, i))
      decreases |s| - i
    {
      var piece := ScanPiece(s, i);
      if piece.None? {
        break;
      }
      match piece.value {
        case Refused(e) => return Refused(e);
        case Ok(p) =>
          assert PartsFrom(s, i) == Prefixed(p.parts, PartsFrom(s, p.end));
          PrefixedTwice(parts, p.parts, PartsFrom(s, p.end));
          parts := Join(parts, p.parts);
          i := p.end;
      }
    }
    assert PartsFrom(s, i) == Ok(Piece(NOTHING, i));
    JoinNothing(parts);
    var bare := Globs(parts.bare);
    return Ok((Word(parts.text, Upto(s, start, i), parts.quoted, parts.expands, bare, parts.placeholder), i));
  }

  // ------------------------------------------------------------ the lexer

  datatype Token =
    | WordTok(word: Word, start: nat, end: nat)
    | OpTok(op: string, start: nat, end: nat)
    | RedirTok(op: string, start: nat, end: nat)

  /** Where the comment that starts at `i` ends: at a newline, or with the text. */
  function CommentEnd(s: string, i: nat): (e: nat)
    requires i < |s|
    ensures i <= e <= |s| && (e < |s| ==> s[e] == '\n')
    ensures forall k :: i <= k < e ==> s[k] != '\n'
  {
    match Find(s, '\n', i)
    case None => |s|
    case Some(newline) => newline
  }

  /** The token at `i`: a newline, a placeholder word, an operator or redirection, or a word. */
  function TokenAt(s: string, i: nat): (r: Answer<Token>)
    requires i < |s| && !IsBlank(s[i]) && s[i] != '#'
    ensures r.Ok? ==> r.value.start == i && i < r.value.end <= |s| + 1
    ensures r.Ok? && r.value.end == |s| + 1 ==> r.value.WordTok? && s[|s| - 1] == '\\'
  {
    var op := OpAt(s, i);
    if s[i] == '\n' then Ok(OpTok("\n", i, i + 1))
    else if PlaceholderEnd(s, i).None? && op.Some? then
      var o := op.value;
      if (o == "<" || o == ">") && i + 1 < |s| && s[i + 1] == '(' then Refused(ProcessSubstitution)
      else if IsRedir(o) then Ok(RedirTok(o, i, i + |o|))
      else Ok(OpTok(o, i, i + |o|))
    else
      WordProgress(s, i);
      match PartsFrom(s, i)
      case Refused(e) => Refused(e)
      case Ok(p) => Ok(WordTok(WordOf(s, i, p), i, p.end))
  }

  /** Where no operator starts, a word has at least one character. */
  lemma WordProgress(s: string, i: nat)
    requires i < |s| && !IsBlank(s[i]) && s[i] != '\n'
    requires PlaceholderEnd(s, i).Some? || OpAt(s, i).None?
    ensures PartsFrom(s, i).Ok? ==> PartsFrom(s, i).value.end > i
  {
    if EndsWord(s[i]) && PlaceholderEnd(s, i).None? {
      WordEndIsOp(s, i);
    }
  }

  function LexFrom(s: string, i: nat): Answer<seq<Token>>
    decreases |s| - i
  {
    if i >= |s| then Ok([])
    else if IsBlank(s[i]) then LexFrom(s, i + 1)
    else if s[i] == '#' then
      var e := CommentEnd(s, i);
      assert e > i;
      LexFrom(s, e)
    else
      match TokenAt(s, i)
      case Refused(e) => Refused(e)
      case Ok(t) =>
        match LexFrom(s, t.end)
        case Refused(e) => Refused(e)
        case Ok(rest) => Ok([t] + rest)
  }

  /** An answer with more tokens put in front. */
  ghost function After(toks: seq<Token>, r: Answer<seq<Token>>): Answer<seq<Token>> {
    match r
    case Refused(e) => Refused(e)
    case Ok(rest) => Ok(toks + rest)
  }

  lemma AfterTwice(toks: seq<Token>, t: Token, r: Answer<seq<Token>>)
    ensures After(toks + [t], r) == After(toks, After([t], r))
  {
    if r.Ok? {
      assert toks + [t] + r.value == toks + ([t] + r.value);
    }
  }

  method ScanToken(s: string, i: nat) returns (r: Answer<Token>)
    requires i < |s| && !IsBlank(s[i]) && s[i] != '#'
    ensures r == TokenAt(s, i)
  {
    if s[i] == '\n' {
      return Ok(OpTok("\n", i, i + 1));
    }
    var op := OpAt(s, i);
    if PlaceholderEnd(s, i).None? && op.Some? {
      var o := op.value;
      if (o == "<" || o == ">") && i + 1 < |s| && s[i + 1] == '(' {
        return Refused(ProcessSubstitution);
      }
      return Ok(if IsRedir(o) then RedirTok(o, i, i + |o|) else OpTok(o, i, i + |o|));
    }
    var w := ScanWord(s, i);
    match w {
      case Refused(e) => return Refused(e);
      case Ok(pair) => return Ok(WordTok(pair.0, i, pair.1));
    }
  }

  /** The tokens of `s`. */
  method Lex(s: string) returns (r: Answer<seq<Token>>)
    ensures r == LexFrom(s, 0)
  {
    var toks: seq<Token>, i: nat := [], 0;
    if LexFrom(s, 0).Ok? { assert [] + LexFrom(s, 0).value == LexFrom(s, 0).value; }
    while i < |s|
      invariant LexFrom(s, 0) == After(toks, LexFrom(s, i))
      decreases |s| - i
    {
      var c := s[i];
      if c == ' ' || c == '\t' {
        i := i + 1;
        continue;
      }
      if c == '#' {
        var j := Find(s, '\n', i);
        i := if j.None? then |s| else j.value;
        continue;
      }
      var t := ScanToken(s, i);
      match t {
        case Refused(e) => return Refused(e);
        case Ok(tok) =>
          AfterTwice(toks, tok, LexFrom(s, tok.end));
          toks := toks + [tok];
          i := tok.end;
      }
    }
    assert toks + [] == toks;
    return Ok(toks);
  }

  // ------------------------------------------------------------ what the tokens cover

  /** Between tokens there are only blanks and comments, a comment running to its line's end. */
  ghost predicate IsGap(s: string, a: nat, b: nat)
    decreases b - a
  {
    && a <= b <= |s|
    && (a == b
        || (IsBlank(s[a]) && IsGap(s, a + 1, b))
        || (s[a] == '#' && exists e :: a < e <= b && '\n' !in s[a..e] && (e == |s| || s[e] == '\n') && IsGap(s, e, b)))
  }

  /** A token stands for the characters under it. */
  ghost predicate Stands(s: string, t: Token)
    requires t.start <= |s| && t.start <= t.end
  {
    match t
    case WordTok(w, start, end) => w.raw == Upto(s, start, end) && (end < |s| ==> EndsWord(s[end]))
    case OpTok(op, start, end) => end <= |s| && op == s[start..end] && (op == "\n" || IsOp(op)) && !IsRedir(op)
    case RedirTok(op, start, end) => end <= |s| && op == s[start..end] && IsOp(op) && IsRedir(op)
  }

  /** The tokens, in order and apart, with the gaps between them, make up the text from `i` on. */
  ghost predicate Covers(s: string, i: nat, toks: seq<Token>)
    decreases |toks|
  {
    if toks == [] then i > |s| || IsGap(s, i, |s|)
    else
      var t := toks[0];
      && i <= t.start < t.end <= |s| + 1 && t.start < |s|
      && IsGap(s, i, t.start)
      && Stands(s, t)
      && (t.end == |s| + 1 ==> t.WordTok? && s[|s| - 1] == '\\')
      && Covers(s, t.end, toks[1..])
  }

  /** The lexer refuses, or its tokens cover the whole text. */
  lemma {:induction false} LexCovers(s: string, i: nat)
    requires LexFrom(s, i).Ok?
    ensures Covers(s, i, LexFrom(s, i).value)
    decreases |s| - i
  {
    if i < |s| {
      if IsBlank(s[i]) {
        LexCovers(s, i + 1);
        GapGrows(s, i, i + 1, LexFrom(s, i + 1).value);
      } else if s[i] == '#' {
        var e := CommentEnd(s, i);
        LexCovers(s, e);
        GapGrows(s, i, e, LexFrom(s, e).value);
      } else {
        var t := TokenAt(s, i).value;
        LexCovers(s, t.end);
        assert LexFrom(s, i).value[1..] == LexFrom(s, t.end).value;
        TokenStands(s, i);
      }
    }
  }

  lemma TokenStands(s: string, i: nat)
    requires i < |s| && !IsBlank(s[i]) && s[i] != '#' && TokenAt(s, i).Ok?
    ensures Stands(s, TokenAt(s, i).value)
  {
    assert s[i] == '\n' ==> s[i..i + 1] == "\n";
  }

  /** A blank or a comment in front of covered text is part of its first gap. */
  lemma GapGrows(s: string, i: nat, e: nat, toks: seq<Token>)
    requires i < e <= |s| && Covers(s, e, toks)
    requires (IsBlank(s[i]) && e == i + 1)
             || (s[i] == '#' && '\n' !in s[i..e] && (e == |s| || s[e] == '\n'))
    ensures Covers(s, i, toks)
  {
    var b := if toks == [] then |s| else toks[0].start;
    assert IsGap(s, e, b);
    assert IsGap(s, i, b);
  }

  /** Covering tokens do not overlap and come in the order of the text. */
  lemma {:induction false} CoveredFrom(s: string, i: nat, toks: seq<Token>, b: nat)
    requires Covers(s, i, toks) && b < |toks|
    ensures i <= toks[b].start < toks[b].end <= |s| + 1
    decreases b
  {
    if b > 0 {
      CoveredFrom(s, toks[0].end, toks[1..], b - 1);
    }
  }

  lemma {:induction false} CoveredInOrder(s: string, i: nat, toks: seq<Token>, a: nat, b: nat)
    requires Covers(s, i, toks) && a < b < |toks|
    ensures toks[a].end <= toks[b].start
    decreases a
  {
    var rest := toks[1..];
    assert rest[b - 1] == toks[b];
    if a > 0 {
      assert rest[a - 1] == toks[a];
      CoveredInOrder(s, toks[0].end, rest, a - 1, b - 1);
    } else {
      CoveredFrom(s, toks[0].end, rest, b - 1);
    }
  }

  // ------------------------------------------------------------ simple commands

  datatype Simple = Simple(words: seq<Word>, assigns: seq<Word>, redirs: seq<(string, Word)>)

  const EMPTY := Simple([], [], [])

  function Flush(c: Simple): seq<Simple> {
    if c == EMPTY then [] else [c]
  }

  predicate IsNumber(s: string) { s != "" && AllDigits(s) }

  /** The text begins with a shell name and `=`. */
  predicate IsAssign(raw: string) {
    raw != "" && (IsAlpha(raw[0]) || raw[0] == '_')
    && exists e :: 1 <= e < |raw| && raw[e] == '='
                   && forall i :: 1 <= i < e ==> IsAlpha(raw[i]) || IsDigit(raw[i]) || raw[i] == '_'
  }

  /** A digit glued to a redirection is the redirection's, not a word. */
  predicate IoNumberFirst(toks: seq<Token>) {
    && |toks| >= 2 && toks[0].WordTok? && toks[1].RedirTok?
    && toks[1].start == toks[0].end && IsNumber(toks[0].word.raw)
  }

  function AddWord(c: Simple, w: Word): Simple {
    if c.words == [] && IsAssign(w.raw) then c.(assigns := c.assigns + [w]) else c.(words := c.words + [w])
  }

  function CommandsFrom(toks: seq<Token>, c: Simple): Answer<seq<Simple>>
    decreases |toks|
  {
    if toks == [] then Ok(Flush(c))
    else
      match toks[0]
      case OpTok(_, _, _) =>
        (match CommandsFrom(toks[1..], EMPTY)
         case Refused(e) => Refused(e)
         case Ok(rest) => Ok(Flush(c) + rest))
      case RedirTok(op, _, _) =>
        if |toks| < 2 || !toks[1].WordTok? then Refused(NoTarget)
        else CommandsFrom(toks[2..], c.(redirs := c.redirs + [(op, toks[1].word)]))
      case WordTok(w, _, _) =>
        if IoNumberFirst(toks) then CommandsFrom(toks[1..], c)
        else CommandsFrom(toks[1..], AddWord(c, w))
  }

  ghost function AfterCommands(out: seq<Simple>, r: Answer<seq<Simple>>): Answer<seq<Simple>> {
    match r
    case Refused(e) => Refused(e)
    case Ok(rest) => Ok(out + rest)
  }

  lemma AfterCommandsTwice(a: seq<Simple>, b: seq<Simple>, r: Answer<seq<Simple>>)
    ensures AfterCommands(a + b, r) == AfterCommands(a, AfterCommands(b, r))
  {
    if r.Ok? {
      assert (a + b) + r.value == a + (b + r.value);
    }
  }

  /** The simple commands of `cmd`. */
  method SimpleCommands(cmd: string) returns (r: Answer<seq<Simple>>)
    ensures LexFrom(cmd, 0).Refused? ==> r == Refused(LexFrom(cmd, 0).why)
    ensures LexFrom(cmd, 0).Ok? ==> r == CommandsFrom(LexFrom(cmd, 0).value, EMPTY)
  {
    var lexed := Lex(cmd);
    if lexed.Refused? {
      return Refused(lexed.why);
    }
    var toks := lexed.value;
    var out: seq<Simple>, c := [], EMPTY;
    var i := 0;
    assert toks[0..] == toks;
    AfterNothing(CommandsFrom(toks, EMPTY));
    while i < |toks|
      invariant 0 <= i <= |toks|
      invariant CommandsFrom(toks, EMPTY) == AfterCommands(out, CommandsFrom(toks[i..], c))
      decreases |toks| - i
    {
      assert toks[i..][0] == toks[i] && toks[i..][1..] == toks[i + 1..];
      match toks[i] {
        case OpTok(_, _, _) =>
          AfterCommandsTwice(out, Flush(c), CommandsFrom(toks[i + 1..], EMPTY));
          if c != EMPTY {
            out := out + [c];
          } else {
            assert out + [] == out;
          }
          c := EMPTY;
          i := i + 1;
        case RedirTok(op, _, _) =>
          if i + 1 >= |toks| || !toks[i + 1].WordTok? {
            return Refused(NoTarget);
          }
          assert toks[i..][1] == toks[i + 1] && toks[i..][2..] == toks[i + 2..];
          c := c.(redirs := c.redirs + [(op, toks[i + 1].word)]);
          i := i + 2;
        case WordTok(w, _, end) =>
          var ioNumber := i + 1 < |toks| && toks[i + 1].RedirTok? && toks[i + 1].start == end && IsNumber(w.raw);
          assert ioNumber == IoNumberFirst(toks[i..]);
          if !ioNumber {
            if c.words == [] && IsAssign(w.raw) {
              c := c.(assigns := c.assigns + [w]);
            } else {
              c := c.(words := c.words + [w]);
            }
          }
          i := i + 1;
      }
    }
    return Ok(out + Flush(c));
  }

  lemma AfterNothing(r: Answer<seq<Simple>>)
    ensures AfterCommands([], r) == r
  {
    if r.Ok? {
      assert [] + r.value == r.value;
    }
  }

  // ------------------------------------------------------------ splitting first, then reading

  /** How many tokens come before the first control operator. */
  function SegmentLength(toks: seq<Token>): (n: nat)
    ensures n <= |toks|
    ensures forall i :: 0 <= i < n ==> !toks[i].OpTok?
    ensures n < |toks| ==> toks[n].OpTok?
  {
    if toks == [] || toks[0].OpTok? then 0 else 1 + SegmentLength(toks[1..])
  }

  /** One command from the tokens between two control operators. */
  function ReadSegment(seg: seq<Token>, c: Simple): Answer<Simple>
    requires forall i :: 0 <= i < |seg| ==> !seg[i].OpTok?
    decreases |seg|
  {
    if seg == [] then Ok(c)
    else if seg[0].RedirTok? then
      if |seg| < 2 || !seg[1].WordTok? then Refused(NoTarget)
      else ReadSegment(seg[2..], c.(redirs := c.redirs + [(seg[0].op, seg[1].word)]))
    else if IoNumberFirst(seg) then ReadSegment(seg[1..], c)
    else ReadSegment(seg[1..], AddWord(c, seg[0].word))
  }

  /** The reference reading: cut at the control operators, read each stretch on its own, drop the
      empty ones. */
  function SplitCommands(toks: seq<Token>): Answer<seq<Simple>>
    decreases |toks|
  {
    var n := SegmentLength(toks);
    match ReadSegment(toks[..n], EMPTY)
    case Refused(e) => Refused(e)
    case Ok(c) =>
      if n == |toks| then Ok(Flush(c))
      else
        match SplitCommands(toks[n + 1..])
        case Refused(e) => Refused(e)
        case Ok(rest) => Ok(Flush(c) + rest)
  }

  /** What one pass does from `toks` on, told by its first segment. */
  ghost function PassBySegment(toks: seq<Token>, c: Simple): Answer<seq<Simple>> {
    var n := SegmentLength(toks);
    match ReadSegment(toks[..n], c)
    case Refused(e) => Refused(e)
    case Ok(read) =>
      if n == |toks| then Ok(Flush(read))
      else AfterCommands(Flush(read), CommandsFrom(toks[n + 1..], EMPTY))
  }

  /** Taking `k` tokens off the front of a segment. */
  lemma PassShift(toks: seq<Token>, k: nat, c: Simple, next: Simple)
    requires k <= SegmentLength(toks) && SegmentLength(toks[k..]) == SegmentLength(toks) - k
    requires ReadSegment(toks[..SegmentLength(toks)], c) == ReadSegment(toks[..SegmentLength(toks)][k..], next)
    ensures PassBySegment(toks, c) == PassBySegment(toks[k..], next)
  {
    hide SegmentLength, ReadSegment, CommandsFrom;
    var n := SegmentLength(toks);
    assert toks[..n][k..] == toks[k..][..n - k];
    if n < |toks| {
      assert toks[k..][n - k + 1..] == toks[n + 1..];
    }
  }

  /** One pass over the tokens reads its current segment to the end. */
  lemma {:induction false} PassReadsSegment(toks: seq<Token>, c: Simple)
    ensures CommandsFrom(toks, c) == PassBySegment(toks, c)
    decreases |toks|
  {
    var n := SegmentLength(toks);
    if toks != [] && !toks[0].OpTok? {
      SegmentTail(toks);
      if toks[0].RedirTok? {
        if |toks| >= 2 && toks[1].WordTok? {
          assert toks[1..][1..] == toks[2..];
          SegmentTail(toks[1..]);
          var next := c.(redirs := c.redirs + [(toks[0].op, toks[1].word)]);
          PassReadsSegment(toks[2..], next);
          PassShift(toks, 2, c, next);
        }
      } else {
        var next := if IoNumberFirst(toks) then c else AddWord(c, toks[0].word);
        PassReadsSegment(toks[1..], next);
        assert IoNumberFirst(toks) == IoNumberFirst(toks[..n]);
        PassShift(toks, 1, c, next);
      }
    }
  }

  lemma SegmentTail(toks: seq<Token>)
    requires toks != [] && !toks[0].OpTok?
    ensures SegmentLength(toks) == 1 + SegmentLength(toks[1..])
  {
  }

  /** The single accumulating pass and the reference reading agree on every token list. */
  lemma {:induction false} OnePassIsSplit(toks: seq<Token>)
    ensures CommandsFrom(toks, EMPTY) == SplitCommands(toks)
    decreases |toks|
  {
    var n := SegmentLength(toks);
    PassReadsSegment(toks, EMPTY);
    if n < |toks| {
      OnePassIsSplit(toks[n + 1..]);
    }
  }

  // ------------------------------------------------------------ no word is lost or doubled

  ghost function WordsIn(toks: seq<Token>): multiset<Word> {
    if toks == [] then multiset{}
    else (if toks[0].WordTok? then multiset{toks[0].word} else multiset{}) + WordsIn(toks[1..])
  }

  /** The digits that belong to a redirection, as the pass meets them. */
  ghost function IoNumbers(toks: seq<Token>): multiset<Word>
    decreases |toks|
  {
    if toks == [] then multiset{}
    else if toks[0].RedirTok? && |toks| >= 2 then IoNumbers(toks[2..])
    else if IoNumberFirst(toks) then multiset{toks[0].word} + IoNumbers(toks[1..])
    else IoNumbers(toks[1..])
  }

  ghost function Targets(redirs: seq<(string, Word)>): multiset<Word> {
    if redirs == [] then multiset{}
    else Targets(redirs[..|redirs| - 1]) + multiset{redirs[|redirs| - 1].1}
  }

  ghost function Contents(c: Simple): multiset<Word> {
    multiset(c.words) + multiset(c.assigns) + Targets(c.redirs)
  }

  ghost function AllContents(out: seq<Simple>): multiset<Word> {
    if out == [] then multiset{} else Contents(out[0]) + AllContents(out[1..])
  }

  lemma ContentsGrow(c: Simple, w: Word, op: string)
    ensures Contents(AddWord(c, w)) == Contents(c) + multiset{w}
    ensures Contents(c.(redirs := c.redirs + [(op, w)])) == Contents(c) + multiset{w}
  {
    assert (c.redirs + [(op, w)])[..|c.redirs|] == c.redirs;
  }

  lemma FlushContents(c: Simple, rest: seq<Simple>)
    ensures AllContents(Flush(c) + rest) == Contents(c) + AllContents(rest)
  {
    if c == EMPTY {
      assert Flush(c) + rest == rest;
      assert Contents(c) == multiset{};
    } else {
      assert (Flush(c) + rest)[1..] == rest;
    }
  }

  lemma Regroup(a: multiset<Word>, b: multiset<Word>, c: multiset<Word>)
    ensures a + (b + c) == (a + b) + c == (a + c) + b
  {
  }

  ghost predicate Conserved(toks: seq<Token>, c: Simple) {
    CommandsFrom(toks, c).Ok? ==>
      Contents(c) + WordsIn(toks) == AllContents(CommandsFrom(toks, c).value) + IoNumbers(toks)
  }

  lemma ConservedAtOp(toks: seq<Token>, c: Simple)
    requires toks != [] && toks[0].OpTok? && Conserved(toks[1..], EMPTY)
    ensures Conserved(toks, c)
  {
    if CommandsFrom(toks, c).Ok? {
      var rest := CommandsFrom(toks[1..], EMPTY).value;
      FlushContents(c, rest);
      assert Contents(EMPTY) + WordsIn(toks[1..]) == WordsIn(toks[1..]);
      Regroup(Contents(c), AllContents(rest), IoNumbers(toks[1..]));
    }
  }

  lemma ConservedAtRedir(toks: seq<Token>, c: Simple)
    requires toks != [] && toks[0].RedirTok?
    requires |toks| >= 2 && toks[1].WordTok? ==>
               Conserved(toks[2..], c.(redirs := c.redirs + [(toks[0].op, toks[1].word)]))
    ensures Conserved(toks, c)
  {
    if |toks| >= 2 && toks[1].WordTok? {
      var w := toks[1].word;
      ContentsGrow(c, w, toks[0].op);
      assert toks[1..][1..] == toks[2..];
      assert WordsIn(toks[1..]) == multiset{w} + WordsIn(toks[2..]);
      assert WordsIn(toks) == multiset{w} + WordsIn(toks[2..]);
      Regroup(Contents(c), multiset{w}, WordsIn(toks[2..]));
    }
  }

  lemma ConservedAtWord(toks: seq<Token>, c: Simple)
    requires toks != [] && toks[0].WordTok?
    requires Conserved(toks[1..], if IoNumberFirst(toks) then c else AddWord(c, toks[0].word))
    ensures Conserved(toks, c)
  {
    var w := toks[0].word;
    if CommandsFrom(toks, c).Ok? {
      Regroup(Contents(c), multiset{w}, WordsIn(toks[1..]));
      if IoNumberFirst(toks) {
        Regroup(AllContents(CommandsFrom(toks, c).value), multiset{w}, IoNumbers(toks[1..]));
      } else {
        ContentsGrow(c, w, "");
      }
    }
  }

  /** Every word token ends as one word, assignment or redirection target of one command, or is a
      redirection's number; nothing else is in the commands. */
  lemma {:induction false} WordsConserved(toks: seq<Token>, c: Simple)
    ensures Conserved(toks, c)
    decreases |toks|
  {
    if toks == [] {
      FlushContents(c, []);
      assert Flush(c) + [] == Flush(c);
    } else if toks[0].OpTok? {
      WordsConserved(toks[1..], EMPTY);
      ConservedAtOp(toks, c);
    } else if toks[0].RedirTok? {
      if |toks| >= 2 && toks[1].WordTok? {
        WordsConserved(toks[2..], c.(redirs := c.redirs + [(toks[0].op, toks[1].word)]));
      }
      ConservedAtRedir(toks, c);
    } else {
      WordsConserved(toks[1..], if IoNumberFirst(toks) then c else AddWord(c, toks[0].word));
      ConservedAtWord(toks, c);
    }
  }

  /** In a command read from a segment the assignments look like assignments, and the first word
      does not. */
  lemma {:induction false} AssignmentsLead(seg: seq<Token>, c: Simple)
    requires forall i :: 0 <= i < |seg| ==> !seg[i].OpTok?
    requires forall i :: 0 <= i < |c.assigns| ==> IsAssign(c.assigns[i].raw)
    requires c.words != [] ==> !IsAssign(c.words[0].raw)
    ensures ReadSegment(seg, c).Ok? ==>
              var r := ReadSegment(seg, c).value;
              && (forall i :: 0 <= i < |r.assigns| ==> IsAssign(r.assigns[i].raw))
              && (r.words != [] ==> !IsAssign(r.words[0].raw))
              && c.assigns <= r.assigns && c.words <= r.words && (c.words != [] ==> r.assigns == c.assigns)
    decreases |seg|
  {
    if seg != [] {
      if seg[0].RedirTok? {
        if |seg| >= 2 && seg[1].WordTok? {
          AssignmentsLead(seg[2..], c.(redirs := c.redirs + [(seg[0].op, seg[1].word)]));
        }
      } else {
        AssignmentsLead(seg[1..], if IoNumberFirst(seg) then c else AddWord(c, seg[0].word));
      }
    }
  }
}
