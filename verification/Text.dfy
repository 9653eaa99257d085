/** Character-level text operations shared by the capture readers. */
module Text {

  predicate IsBreak(c: char) { c == '\r' || c == '\n' }

  predicate IsBlank(c: char) { c == ' ' || c == '\t' }

  /** The ASCII characters that a pattern's `\s` and `str.strip` take as white space. */
  predicate IsSpace(c: char) {
    IsBlank(c) || IsBreak(c) || c == '\U{0b}' || c == '\U{0c}' || '\U{1c}' <= c <= '\U{1f}'
  }

  predicate IsDigit(c: char) { '0' <= c <= '9' }

  predicate AllDigits(s: string) { forall i :: 0 <= i < |s| ==> IsDigit(s[i]) }

  predicate IsLowerHex(c: char) { IsDigit(c) || 'a' <= c <= 'f' }

  predicate AllLowerHex(s: string) { forall i :: 0 <= i < |s| ==> IsLowerHex(s[i]) }

  predicate IsHex(c: char) { IsLowerHex(c) || 'A' <= c <= 'F' }

  predicate AllHex(s: string) { forall i :: 0 <= i < |s| ==> IsHex(s[i]) }

  function StripLeft(s: string, space: char -> bool): string {
    if s != "" && space(s[0]) then StripLeft(s[1..], space) else s
  }

  function StripRight(s: string, space: char -> bool): string {
    if s != "" && space(s[|s| - 1]) then StripRight(s[..|s| - 1], space) else s
  }

  function Strip(s: string, space: char -> bool): string { StripRight(StripLeft(s, space), space) }

  /** `s` without the characters `drop` picks out. */
  function Without(s: string, drop: char -> bool): string {
    if s == "" then "" else (if drop(s[0]) then "" else [s[0]]) + Without(s[1..], drop)
  }

  lemma {:induction false} WithoutConcat(a: string, b: string, drop: char -> bool)
    ensures Without(a + b, drop) == Without(a, drop) + Without(b, drop)
  {
    if a == "" {
      assert a + b == b;
    } else {
      assert (a + b)[1..] == a[1..] + b;
      WithoutConcat(a[1..], b, drop);
    }
  }

  lemma {:induction false} WithoutAll(s: string, drop: char -> bool)
    requires forall i :: 0 <= i < |s| ==> drop(s[i])
    ensures Without(s, drop) == ""
  {
    if s != "" {
      WithoutAll(s[1..], drop);
    }
  }

  lemma {:induction false} WithoutNone(s: string, drop: char -> bool)
    requires forall i :: 0 <= i < |s| ==> !drop(s[i])
    ensures Without(s, drop) == s
  {
    if s != "" {
      WithoutNone(s[1..], drop);
      assert [s[0]] + s[1..] == s;
    }
  }

  /** The pieces of `s` between newlines. */
  function Split(s: string): (r: seq<string>)
    ensures r != []
  {
    if s == "" then [""]
    else
      var rest := Split(s[1..]);
      if s[0] == '\n' then [""] + rest else [[s[0]] + rest[0]] + rest[1..]
  }

  /** A line without newlines in it, ended by one, is the first piece. */
  lemma {:induction false} SplitLine(line: string, rest: string)
    requires '\n' !in line
    ensures Split(line + ['\n'] + rest) == [line] + Split(rest)
  {
    if line == "" {
      assert line + ['\n'] + rest == ['\n'] + rest;
    } else {
      assert line + ['\n'] + rest == [line[0]] + (line[1..] + ['\n'] + rest);
      SplitLine(line[1..], rest);
      assert [line[0]] + line[1..] == line;
    }
  }

  lemma SplitFirst(s: string)
    requires s != ""
    ensures var rest := Split(s[1..]);
            Split(s) == if s[0] == '\n' then [""] + rest else [[s[0]] + rest[0]] + rest[1..]
  {}

  /** A newline closes what stands before it: the pieces on its two sides do not touch. */
  lemma {:induction false} SplitAtNewline(a: string, b: string)
    ensures Split(a + ['\n'] + b) == Split(a) + Split(b)
  {
    hide Split;
    var t := a + ['\n'] + b;
    SplitFirst(t);
    if a == "" {
      assert t[1..] == b;
      assert Split(a) == [""] by { EmptyText(); }
    } else {
      assert t[0] == a[0] && t[1..] == a[1..] + ['\n'] + b;
      SplitAtNewline(a[1..], b);
      SplitFirst(a);
      var p, q := Split(a[1..]), Split(b);
      assert (p + q)[0] == p[0] && (p + q)[1..] == p[1..] + q;
    }
  }

  lemma EmptyText()
    ensures Split("") == [""]
  {}

  lemma SliceOfSlice<T>(s: seq<T>, o: nat, e: nat, i: nat, j: nat)
    requires o <= e <= |s| && i <= j <= e - o
    ensures s[o..e][i..j] == s[o + i..o + j]
  {
    var x, y := s[o..e][i..j], s[o + i..o + j];
    forall k | 0 <= k < j - i ensures x[k] == y[k] {
      assert x[k] == s[o..e][i + k];
      assert y[k] == s[o + i + k];
    }
  }
}
