/** The controls of `tools/binsim.py` that rebuild a file from another file's code words: what they
    score, for every file, window size and choice of words, through writer, reader and tokeniser. */
module Controls {
  import opened Common
  import opened Elf
  import opened Kgrams

  ghost function WindowWords(e: Elf): seq<Word> {
    match CodeWindow(e)
    case Refused(_) => []
    case Ok(w) => seq(w.size / 4, i requires 0 <= i < w.size / 4 => Read32(e.blob, w.offset + 4 * i))
  }

  /** The code words of a file, as the controls unpack them. */
  ghost function WordsIn(b: seq<Byte>): seq<Word> {
    match Parse(b) case Refused(_) => [] case Ok(e) => WindowWords(e)
  }

  lemma WindowTokens(e: Elf)
    ensures WindowCode(e).Ok? ==> WindowCode(e).value == TokensOf(WindowWords(e))
  {
    hide CodeWindow;
  }

  lemma CodeOfWords(b: seq<Byte>)
    ensures Code(b).Ok? ==> Code(b).value == TokensOf(WordsIn(b))
  {
    hide Parse, WindowCode, WindowWords;
    match Parse(b)
    case Refused(_) =>
    case Ok(e) => WindowTokens(e);
  }

  /** A file built round some words: the window is all of them, whatever stands after it. */
  function Wrapped(words: seq<Word>, tail: seq<Byte>): Fixture {
    Fixture(words, 0, |words|, 0, EM_MIPS, 1, 2, true, 0x1007, tail)
  }

  /** The tail is outside the window: it changes nothing that is scored. */
  lemma WrappedCode(words: seq<Word>, tail: seq<Byte>)
    requires Wrapped(words, tail).Packs() && words != []
    ensures Code(Synthesize(Wrapped(words, tail))) == Ok(TokensOf(words))
  {
    hide Code, Synthesize;
    RoundTrip(Wrapped(words, tail));
    assert words[0..|words|] == words;
  }

  lemma TokensConcat(v: seq<Word>, w: seq<Word>)
    ensures TokensOf(v + w) == TokensOf(v) + TokensOf(w)
  {
    hide Token;
  }

  lemma OneTaken(v: seq<Word>, l: seq<Word>, x: Word, r: seq<Word>)
    requires v != [] && v[0] == x && multiset(v) == multiset(l + [x] + r)
    ensures multiset(v[1..]) == multiset(l + r)
  {
    assert v == [x] + v[1..];
    assert multiset(v) - multiset{x} == multiset(v[1..]);
    assert multiset(l + [x] + r) - multiset{x} == multiset(l + r);
  }

  lemma {:induction false} TokensKeepOrderless(v: seq<Word>, w: seq<Word>)
    requires multiset(v) == multiset(w)
    ensures multiset(TokensOf(v)) == multiset(TokensOf(w))
  {
    hide Token, TokensOf;
    if v == [] {
      assert |w| == |multiset(w)| == 0;
      assert v == w;
    } else {
      var x := v[0];
      assert x in multiset(w);
      var i :| 0 <= i < |w| && w[i] == x;
      var l, r := w[..i], w[i + 1..];
      assert w == l + [x] + r;
      OneTaken(v, l, x, r);
      TokensKeepOrderless(v[1..], l + r);
      assert v == [x] + v[1..];
      TokensConcat([x], v[1..]);
      TokensConcat(l + [x], r);
      TokensConcat(l, [x]);
      TokensConcat(l, r);
    }
  }

  /** Both files have code of at least `k` tokens, and their scores are within `d` new k-grams of 1. */
  ghost predicate ScoreNear(b: seq<Byte>, c: seq<Byte>, k: nat, d: nat) {
    exists s, t :: Code(b) == Ok(s) && Code(c) == Ok(t) && 1 <= k <= |s| && k <= |t|
                   && Near(Features(WindowHash, s, k), Features(WindowHash, t, k), d)
  }

  /** Both files have code, and score exactly 1 on both measures at `k` = 1. */
  ghost predicate ScoreOne(b: seq<Byte>, c: seq<Byte>) {
    exists s, t :: Code(b) == Ok(s) && Code(c) == Ok(t) && s != [] && t != []
                   && var m := Measure(Features(WindowHash, s, 1), Features(WindowHash, t, 1));
                      m.Ok? && Equal(m.value.containment, ONE) && Equal(m.value.jaccard, ONE)
  }

  /** A file rebuilt from another's words in any order scores exactly 1 against it at k = 1. */
  lemma WordPermutation(b: seq<Byte>, words: seq<Word>, tail: seq<Byte>)
    requires Code(b).Ok? && WordsIn(b) != [] && multiset(words) == multiset(WordsIn(b))
    requires Wrapped(words, tail).Packs()
    ensures ScoreOne(Synthesize(Wrapped(words, tail)), b)
  {
    hide Code, Synthesize, Features, Measure, WordsIn, TokensOf;
    assert |words| == |multiset(words)| == |multiset(WordsIn(b))| == |WordsIn(b)|;
    WrappedCode(words, tail);
    CodeOfWords(b);
    var s, t := TokensOf(words), TokensOf(WordsIn(b));
    TokensLength(words);
    TokensLength(WordsIn(b));
    TokensKeepOrderless(words, WordsIn(b));
    PermutationExact(WindowHash, s, t);
  }

  lemma TokensLength(words: seq<Word>)
    ensures |TokensOf(words)| == |words|
    ensures forall i :: 0 <= i < |words| ==> TokensOf(words)[i] == Token(words[i])
  {}

  /** The windows of `k` tokens that `m` rewritten tokens can lie in. */
  function NewWindows(m: nat, k: nat): nat { m * k }

  ghost predicate AgreeOutside(v: seq<Word>, w: seq<Word>, changed: seq<int>) {
    |v| == |w| && forall i :: 0 <= i < |v| && i !in changed ==> v[i] == w[i]
  }

  /** A file rebuilt with some words rewritten stays within m k / min of it. */
  lemma Perturbation(b: seq<Byte>, words: seq<Word>, tail: seq<Byte>, changed: seq<int>, k: nat)
    requires Code(b).Ok? && AgreeOutside(words, WordsIn(b), changed)
    requires 1 <= k <= |words| && Wrapped(words, tail).Packs()
    ensures ScoreNear(Synthesize(Wrapped(words, tail)), b, k, NewWindows(|changed|, k))
  {
    hide Code, Synthesize, Near, Features, WordsIn, TokensOf, Token;
    WrappedCode(words, tail);
    CodeOfWords(b);
    TokensLength(words);
    TokensLength(WordsIn(b));
    PerturbationBound(WindowHash, TokensOf(words), TokensOf(WordsIn(b)), changed, k);
  }

  /** Cutting any block of words out of a file costs at most k - 1 k-grams. */
  lemma Cut(words: seq<Word>, from: nat, to: nat, tail: seq<Byte>, other: seq<Byte>, k: nat)
    requires from <= to <= |words| && 1 <= k <= |words| - (to - from)
    requires Wrapped(words, tail).Packs() && Wrapped(words[..from] + words[to..], other).Packs()
    ensures var cut := words[..from] + words[to..];
            ScoreNear(Synthesize(Wrapped(cut, other)), Synthesize(Wrapped(words, tail)), k, k - 1)
  {
    hide Code, Synthesize, Near, Features, TokensOf, Token;
    var cut := words[..from] + words[to..];
    WrappedCode(words, tail);
    WrappedCode(cut, other);
    TokensLength(words);
    TokensLength(cut);
    assert TokensOf(cut) == Without(TokensOf(words), from, to);
    DeletionBound(WindowHash, TokensOf(words), from, to, k);
  }
}
