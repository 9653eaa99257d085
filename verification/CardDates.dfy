/** Each card's declared date against its directory and the captures (`tools/capdate.py`, D5 to D10):
    the reports the sweep fills pass by pass, the exit code, and what a green sweep says about days. */
module CardDates {
  import opened Common

  // ------------------------------------------------------------ what the sweep looks at

  /** A calendar day, in the capture's own offset. */
  type Day = int

  /** A capture's path without its suffix. */
  datatype Stem = Stem(dir: string, name: string)

  /** The captures on disk: every stem in name order, the start each `.meta.json` gives (`None` when it
      has no readable one), and the stems that have a `.log`. */
  datatype Tree = Tree(listing: seq<Stem>, metas: map<Stem, Option<Day>>, logs: set<Stem>)

  ghost predicate Complete(t: Tree) { forall s :: s in t.metas || s in t.logs ==> s in t.listing }

  /** The `cells` fence of a card, its cells resolved to stems. */
  datatype Fence = NoFile | Fence(cells: seq<Stem>, seen: bool, bad: nat)

  /** The tokens a card's text holds: openings of a declared date that do not complete, the dates
      declared (`None` for one that does not exist), the paths of `another day than` tokens, and the
      openings of those that do not complete. */
  datatype Text = Unreadable | Text(malformed: nat, dates: seq<Option<Day>>, away: seq<string>, malformedAway: nat)

  datatype Card = Card(path: string, dir: string, named: Option<Day>, text: Text, fence: Fence)

  datatype Code = D5 | D6 | D7 | D8 | D9 | D10

  datatype Verdict = UNDECL | EXEMPT | RED | STALE | KNOWN | OK

  datatype Report = Report(tries: bool, date: Option<Day>, away: seq<string>, found: seq<Code>,
                           exempt: seq<Code>, stale: nat, verdict: Option<Verdict>, fenced: seq<Stem>,
                           dated: seq<Stem>, wrong: seq<Stem>, broken: seq<Stem>, noMeta: seq<Stem>, absent: seq<Stem>)

  const BLANK: Report := Report(false, None, [], [], [], 0, None, [], [], [], [], [], [])

  // ------------------------------------------------------------ one card's checks

  /** The different dates of a list that exist, in the order they first appear. */
  function Valid(dates: seq<Option<Day>>): seq<Day> {
    if dates == [] then []
    else
      var v := Valid(dates[..|dates| - 1]);
      var d := dates[|dates| - 1];
      if d.Some? && d.value !in v then v + [d.value] else v
  }

  function Faults(dates: seq<Option<Day>>): seq<Code> {
    if dates == [] then []
    else Faults(dates[..|dates| - 1]) + if dates[|dates| - 1].None? then [D5] else []
  }

  lemma NoDates()
    ensures Valid([]) == [] && Faults([]) == []
  {}

  lemma DatesStep(dates: seq<Option<Day>>, i: nat)
    requires i < |dates|
    ensures var v, d := Valid(dates[..i]), dates[i];
            Valid(dates[..i + 1]) == if d.Some? && d.value !in v then v + [d.value] else v
    ensures Faults(dates[..i + 1]) == Faults(dates[..i]) + if dates[i].None? then [D5] else []
  {
    assert dates[..i + 1][..i] == dates[..i];
  }

  /** D5, and the targets of D9. */
  function Parsed(c: Card, r: Report): Report {
    match c.text
    case Unreadable => r.(tries := true, found := r.found + [D5])
    case Text(malformed, dates, away, malformedAway) =>
      var v := Valid(dates);
      var f := r.found + Repeat(D5, malformed) + Faults(dates) + (if |v| > 1 then [D5] else []);
      r.(tries := malformed > 0 || dates != [], found := f + Repeat(D9, malformedAway), away := away,
         date := if |v| == 1 && f == [] then Some(v[0]) else r.date)
  }

  /** D6. */
  function WithDir(c: Card, r: Report): Report {
    if c.named != r.date then r.(found := r.found + [D6]) else r
  }

  datatype Kind = Dated | Wrong | Broken | NoMeta | Absent

  function KindOf(t: Tree, s: Stem, date: Option<Day>): Kind {
    if s in t.metas then
      if t.metas[s].None? then Broken else if t.metas[s] != date then Wrong else Dated
    else if s in t.logs then NoMeta else Absent
  }

  function Kept(t: Tree, cells: seq<Stem>, date: Option<Day>, k: Kind): seq<Stem> {
    if cells == [] then []
    else
      var s := cells[|cells| - 1];
      Kept(t, cells[..|cells| - 1], date, k) + if KindOf(t, s, date) == k then [s] else []
  }

  /** The cells of a fence, each put in the list of its kind. */
  function Filed(t: Tree, cells: seq<Stem>, r: Report): Report {
    r.(fenced := r.fenced + cells, dated := r.dated + Kept(t, cells, r.date, Dated),
       wrong := r.wrong + Kept(t, cells, r.date, Wrong), broken := r.broken + Kept(t, cells, r.date, Broken),
       noMeta := r.noMeta + Kept(t, cells, r.date, NoMeta), absent := r.absent + Kept(t, cells, r.date, Absent))
  }

  function WithCell(t: Tree, p: Stem, r: Report): Report {
    match KindOf(t, p, r.date)
    case Dated => r.(fenced := r.fenced + [p], dated := r.dated + [p])
    case Wrong => r.(fenced := r.fenced + [p], wrong := r.wrong + [p])
    case Broken => r.(fenced := r.fenced + [p], broken := r.broken + [p])
    case NoMeta => r.(fenced := r.fenced + [p], noMeta := r.noMeta + [p])
    case Absent => r.(fenced := r.fenced + [p], absent := r.absent + [p])
  }

  lemma KeptStep(t: Tree, cells: seq<Stem>, i: nat, date: Option<Day>, k: Kind)
    requires i < |cells|
    ensures Kept(t, cells[..i + 1], date, k)
            == Kept(t, cells[..i], date, k) + if KindOf(t, cells[i], date) == k then [cells[i]] else []
  {
    assert cells[..i + 1][..i] == cells[..i];
  }

  lemma FiledStep(t: Tree, cells: seq<Stem>, i: nat, r: Report)
    requires i < |cells|
    ensures Filed(t, cells[..i + 1], r) == WithCell(t, cells[i], Filed(t, cells[..i], r))
  {
    hide Kept, KindOf;
    KeptStep(t, cells, i, r.date, Dated);
    KeptStep(t, cells, i, r.date, Wrong);
    KeptStep(t, cells, i, r.date, Broken);
    KeptStep(t, cells, i, r.date, NoMeta);
    KeptStep(t, cells, i, r.date, Absent);
    assert cells[..i + 1] == cells[..i] + [cells[i]];
  }

  lemma FiledNone(t: Tree, r: Report)
    ensures Filed(t, [], r) == r
  {}

  /** D7. */
  function WithFence(c: Card, t: Tree, r: Report): Report {
    match c.fence
    case NoFile => r.(found := r.found + [D7])
    case Fence(cells, seen, bad) =>
      if bad > 0 || !seen || cells == [] then r.(found := r.found + [D7])
      else
        var f := Filed(t, cells, r);
        f.(found := f.found + (if f.wrong != [] then [D7] else []) + (if f.broken != [] then [D7] else []))
  }

  /** A directory listing does not show names that start with a dot. */
  predicate Listed(s: Stem, d: string) { s.dir == d && s.name != "" && s.name[0] != '.' }

  predicate OffCard(t: Tree, s: Stem, d: string, fenced: set<Stem>) {
    Listed(s, d) && s !in fenced && s in t.metas
  }

  /** The off-card captures in `d` that have a `.meta.json`. */
  function OffCards(t: Tree, listing: seq<Stem>, d: string, fenced: set<Stem>): seq<Stem> {
    if listing == [] then []
    else
      var s := listing[|listing| - 1];
      OffCards(t, listing[..|listing| - 1], d, fenced) + if OffCard(t, s, d, fenced) then [s] else []
  }

  /** D8. */
  function WithOff(t: Tree, off: seq<Stem>, r: Report): Report {
    r.(found := r.found + (if Kept(t, off, r.date, Wrong) != [] then [D8] else [])
                + (if Kept(t, off, r.date, Broken) != [] then [D8] else []))
  }

  /** A target of D9 that is not a card with another single date. */
  predicate BadTarget(date: Option<Day>, dates: map<string, Option<Day>>, p: string) {
    date.None? || p !in dates || dates[p].None? || dates[p] == date
  }

  function AwayFaults(date: Option<Day>, away: seq<string>, dates: map<string, Option<Day>>): seq<Code> {
    if away == [] then []
    else
      var p := away[|away| - 1];
      AwayFaults(date, away[..|away| - 1], dates)
      + if BadTarget(date, dates, p) then [D9] else []
  }

  /** D9. */
  function WithAway(dates: map<string, Option<Day>>, r: Report): Report {
    r.(found := r.found + AwayFaults(r.date, r.away, dates))
  }

  /** D10. */
  function WithReach(before: bool, listed: bool, r: Report): Report {
    if r.tries then r
    else if before then r.(verdict := Some(UNDECL))
    else if listed then r.(verdict := Some(EXEMPT))
    else r.(found := r.found + [D10])
  }

  /** A card in the list of cards that need not declare, although it does or nothing asks it to. */
  function WithUndeclared(before: bool, r: Report): Report {
    if r.tries || before then r.(stale := r.stale + 1) else r
  }

  function Unneeded(codes: seq<Code>, found: seq<Code>): nat {
    if codes == [] then 0
    else Unneeded(codes[..|codes| - 1], found) + if codes[|codes| - 1] in found then 0 else 1
  }

  /** A card in the list of known faults: the codes it covers, and those that no longer fire. */
  function WithKnown(codes: seq<Code>, r: Report): Report {
    r.(exempt := codes, stale := r.stale + Unneeded(codes, r.found))
  }

  predicate Covered(found: seq<Code>, exempt: seq<Code>) { forall i :: 0 <= i < |found| ==> found[i] in exempt }

  function WithVerdict(r: Report): Report {
    if !Covered(r.found, r.exempt) then r.(verdict := Some(RED))
    else if r.stale > 0 then r.(verdict := Some(STALE))
    else if r.found != [] then r.(verdict := Some(KNOWN))
    else if r.verdict.None? then r.(verdict := Some(OK))
    else r
  }

  // ------------------------------------------------------------ the report as the tool fills it

  class CardReport {
    const card: Card
    var tries: bool
    var date: Option<Day>
    var away: seq<string>
    var found: seq<Code>
    var exempt: seq<Code>
    var stale: nat
    var verdict: Option<Verdict>
    var fenced: seq<Stem>
    var dated: seq<Stem>
    var wrong: seq<Stem>
    var broken: seq<Stem>
    var noMeta: seq<Stem>
    var absent: seq<Stem>

    ghost function Value(): Report
      reads this
    {
      Report(tries, date, away, found, exempt, stale, verdict, fenced, dated, wrong, broken, noMeta, absent)
    }

    constructor (c: Card)
      ensures card == c && Value() == BLANK
    {
      card := c;
      tries, date, away, found, exempt, stale, verdict := false, None, [], [], [], 0, None;
      fenced, dated, wrong, broken, noMeta, absent := [], [], [], [], [], [];
    }

    method ReadDates(dates: seq<Option<Day>>) returns (valid: seq<Day>)
      modifies this
      ensures valid == Valid(dates)
      ensures Value() == old(Value()).(found := old(found) + Faults(dates))
    {
      hide Valid, Faults;
      NoDates();
      valid := [];
      for i := 0 to |dates|
        invariant valid == Valid(dates[..i])
        invariant Value() == old(Value()).(found := old(found) + Faults(dates[..i]))
      {
        DatesStep(dates, i);
        if dates[i].None? {
          found := found + [D5];
        } else if dates[i].value !in valid {
          valid := valid + [dates[i].value];
        }
      }
      assert dates[..|dates|] == dates;
    }

    method Parse()
      modifies this
      ensures Value() == Parsed(card, old(Value()))
    {
      hide Valid, Faults, Repeat;
      match card.text
      case Unreadable =>
        tries := true;
        found := found + [D5];
      case Text(malformed, dates, targets, malformedAway) =>
        tries := malformed > 0 || dates != [];
        found := found + Repeat(D5, malformed);
        var valid := ReadDates(dates);
        if |valid| > 1 {
          found := found + [D5];
        }
        if |valid| == 1 && found == [] {
          date := Some(valid[0]);
        }
        away := targets;
        found := found + Repeat(D9, malformedAway);
    }

    method CheckDir()
      modifies this
      ensures Value() == WithDir(card, old(Value()))
    {
      if card.named != date {
        found := found + [D6];
      }
    }

    method FileCell(t: Tree, p: Stem)
      modifies this
      ensures Value() == WithCell(t, p, old(Value()))
    {
      fenced := fenced + [p];
      if p in t.metas {
        var when := t.metas[p];
        if when.None? {
          broken := broken + [p];
        } else if when != date {
          wrong := wrong + [p];
        } else {
          dated := dated + [p];
        }
      } else if p in t.logs {
        noMeta := noMeta + [p];
      } else {
        absent := absent + [p];
      }
    }

    method CheckFence(t: Tree)
      modifies this
      ensures Value() == WithFence(card, t, old(Value()))
    {
      hide Filed, WithCell;
      match card.fence
      case NoFile =>
        found := found + [D7];
      case Fence(cells, seen, bad) =>
        if bad > 0 || !seen || cells == [] {
          found := found + [D7];
          return;
        }
        FiledNone(t, Value());
        assert cells[..0] == [] && cells[..|cells|] == cells;
        for i := 0 to |cells|
          invariant Value() == Filed(t, cells[..i], old(Value()))
        {
          FiledStep(t, cells, i, old(Value()));
          FileCell(t, cells[i]);
        }
        if wrong != [] {
          found := found + [D7];
        }
        if broken != [] {
          found := found + [D7];
        }
    }

    /** The checks up to D7, for a card that declares a date. */
    method Check(t: Tree)
      modifies this
      ensures Value() == WithChecks(card, t, old(Value()))
    {
      hide WithDir, WithFence;
      if date.Some? {
        CheckDir();
        CheckFence(t);
      }
    }

    method CheckOff(t: Tree, off: seq<Stem>)
      modifies this
      ensures Value() == WithOff(t, off, old(Value()))
    {
      if Kept(t, off, date, Wrong) != [] {
        found := found + [D8];
      }
      if Kept(t, off, date, Broken) != [] {
        found := found + [D8];
      }
    }

    method CheckAway(dates: map<string, Option<Day>>)
      modifies this
      ensures Value() == WithAway(dates, old(Value()))
    {
      for i := 0 to |away|
        invariant Value() == old(Value()).(found := found)
        invariant found == old(found) + AwayFaults(date, away[..i], dates)
      {
        assert away[..i + 1][..i] == away[..i];
        var p := away[i];
        if date.None? {
          found := found + [D9];
        } else if p !in dates {
          found := found + [D9];
        } else if dates[p].None? {
          found := found + [D9];
        } else if dates[p] == date {
          found := found + [D9];
        }
      }
      assert away[..|away|] == away;
    }

    method CheckReach(before: bool, listed: bool)
      modifies this
      ensures Value() == WithReach(before, listed, old(Value()))
    {
      if !tries {
        if before {
          verdict := Some(UNDECL);
        } else if listed {
          verdict := Some(EXEMPT);
        } else {
          found := found + [D10];
        }
      }
    }

    method NoteUndeclared(before: bool)
      modifies this
      ensures Value() == WithUndeclared(before, old(Value()))
    {
      if tries {
        stale := stale + 1;
      } else if before {
        stale := stale + 1;
      }
    }

    method NoteKnown(codes: seq<Code>)
      modifies this
      ensures Value() == WithKnown(codes, old(Value()))
    {
      exempt := codes;
      for i := 0 to |codes|
        invariant Value() == old(Value()).(exempt := codes, stale := stale)
        invariant stale == old(stale) + Unneeded(codes[..i], found)
      {
        assert codes[..i + 1][..i] == codes[..i];
        if codes[i] !in found {
          stale := stale + 1;
        }
      }
      assert codes[..|codes|] == codes;
    }

    method Settle()
      modifies this
      ensures Value() == WithVerdict(old(Value()))
    {
      if !Covered(found, exempt) {
        verdict := Some(RED);
      } else if stale > 0 {
        verdict := Some(STALE);
      } else if found != [] {
        verdict := Some(KNOWN);
      } else if verdict.None? {
        verdict := Some(OK);
      }
    }
  }

  /** The captures in a directory that no dated card fences, in name order. */
  method FindOffCards(t: Tree, d: string, fenced: set<Stem>) returns (off: seq<Stem>)
    ensures off == OffCards(t, t.listing, d, fenced)
  {
    off := [];
    for i := 0 to |t.listing|
      invariant off == OffCards(t, t.listing[..i], d, fenced)
    {
      assert t.listing[..i + 1][..i] == t.listing[..i];
      var s := t.listing[i];
      if Listed(s, d) {
        if s !in fenced && s in t.metas {
          off := off + [s];
        }
      }
    }
    assert t.listing[..|t.listing|] == t.listing;
  }

  // ------------------------------------------------------------ the sweep over all cards

  datatype Covers = Covers(path: string, codes: seq<Code>)

  /** The rule's first card, how many cards sort before it, and the two lists of exceptions. */
  datatype Rule = Rule(anchor: string, nBefore: nat, undeclared: seq<string>, known: seq<Covers>)

  function IndexOf(cards: seq<Card>, path: string): (i: nat)
    ensures i <= |cards| && (i < |cards| ==> cards[i].path == path)
    ensures forall j :: 0 <= j < i ==> cards[j].path != path
  {
    if cards == [] || cards[0].path == path then 0 else 1 + IndexOf(cards[1..], path)
  }

  predicate Has(cards: seq<Card>, path: string) { IndexOf(cards, path) < |cards| }

  /** The checks of a card that declares a date, up to D7. */
  function WithChecks(c: Card, t: Tree, r: Report): Report {
    if r.date.Some? then WithFence(c, t, WithDir(c, r)) else r
  }

  /** D8, for a card that declares a date. */
  function OffDated(t: Tree, off: seq<Stem>, r: Report): Report { if r.date.Some? then WithOff(t, off, r) else r }

  function Checked(c: Card, t: Tree): Report { WithChecks(c, t, Parsed(c, BLANK)) }

  /** Every stem that a dated card fences. */
  function FencedBy(cards: seq<Card>, t: Tree): set<Stem> {
    set i, s | 0 <= i < |cards| && Checked(cards[i], t).date.Some? && s in Checked(cards[i], t).fenced :: s
  }

  /** Each card's day under its path. */
  function ByPath(cards: seq<Card>, days: seq<Option<Day>>): map<string, Option<Day>>
    requires |days| == |cards|
  {
    map i | 0 <= i < |cards| :: cards[i].path := days[IndexOf(cards, cards[i].path)]
  }

  function ParsedDays(cards: seq<Card>): (days: seq<Option<Day>>)
    ensures |days| == |cards| && forall i :: 0 <= i < |cards| ==> days[i] == Parsed(cards[i], BLANK).date
  {
    seq(|cards|, i requires 0 <= i < |cards| => Parsed(cards[i], BLANK).date)
  }

  function Dates(cards: seq<Card>): map<string, Option<Day>> { ByPath(cards, ParsedDays(cards)) }

  function OffOf(cards: seq<Card>, t: Tree, d: string): seq<Stem> { OffCards(t, t.listing, d, FencedBy(cards, t)) }

  /** A card's report after D8 and D9. */
  function Compared(cards: seq<Card>, t: Tree, c: Card): Report {
    WithAway(Dates(cards), OffDated(t, OffOf(cards, t, c.dir), Checked(c, t)))
  }

  function CodesFor(known: seq<Covers>, path: string): Option<seq<Code>> {
    if known == [] then None
    else if known[|known| - 1].path == path then Some(known[|known| - 1].codes)
    else CodesFor(known[..|known| - 1], path)
  }

  function Reached(cards: seq<Card>, t: Tree, u: Rule, i: nat): Report
    requires i < |cards|
  {
    WithReach(i < IndexOf(cards, u.anchor), cards[i].path in u.undeclared, Compared(cards, t, cards[i]))
  }

  /** A card's report at the end of the sweep. */
  function Final(cards: seq<Card>, t: Tree, u: Rule, i: nat): Report
    requires i < |cards|
  {
    var before, r := i < IndexOf(cards, u.anchor), Reached(cards, t, u, i);
    var r1 := if cards[i].path in u.undeclared then WithUndeclared(before, r) else r;
    var codes := CodesFor(u.known, cards[i].path);
    WithVerdict(if codes.Some? then WithKnown(codes.value, r1) else r1)
  }

  predicate Exists(r: Report) { r.dated != [] || r.wrong != [] || r.broken != [] || r.noMeta != [] }

  /** No card tries to declare a date, or cells are fenced and all of them point at nothing. */
  ghost predicate Silent(cards: seq<Card>, t: Tree) {
    || (forall i :: 0 <= i < |cards| ==> !Checked(cards[i], t).tries)
    || ((exists i :: 0 <= i < |cards| && Checked(cards[i], t).fenced != [])
        && forall i :: 0 <= i < |cards| ==> !Exists(Checked(cards[i], t)))
  }

  /** Nothing can be reported: the rule's first card is missing, or a green would be about nothing. */
  ghost predicate Refuses(cards: seq<Card>, t: Tree, u: Rule) { !Has(cards, u.anchor) || Silent(cards, t) }

  function Dead(names: seq<string>, cards: seq<Card>): nat {
    if names == [] then 0
    else Dead(names[..|names| - 1], cards) + if Has(cards, names[|names| - 1]) then 0 else 1
  }

  function Paths(known: seq<Covers>): (r: seq<string>)
    ensures |r| == |known| && forall i :: 0 <= i < |r| ==> r[i] == known[i].path
  {
    seq(|known|, i requires 0 <= i < |known| => known[i].path)
  }

  /** What is wrong with the pin and the lists themselves. */
  function Pops(cards: seq<Card>, u: Rule): nat {
    (if IndexOf(cards, u.anchor) != u.nBefore then 1 else 0) + Dead(u.undeclared, cards) + Dead(Paths(u.known), cards)
  }

  predicate Fails(r: Report) { r.verdict == Some(RED) || r.verdict == Some(STALE) }

  ghost function Exit(cards: seq<Card>, t: Tree, u: Rule): nat {
    if Refuses(cards, t, u) then 2
    else if Pops(cards, u) > 0 || exists i :: 0 <= i < |cards| && Fails(Final(cards, t, u, i)) then 1
    else 0
  }

  // ------------------------------------------------------------ the passes

  function CardsOf(rs: seq<CardReport>): (cs: seq<Card>)
    ensures |cs| == |rs| && forall i :: 0 <= i < |rs| ==> cs[i] == rs[i].card
  {
    seq(|rs|, i requires 0 <= i < |rs| => rs[i].card)
  }

  ghost predicate Distinct(rs: seq<CardReport>) {
    forall i, j :: 0 <= i < j < |rs| ==> rs[i] != rs[j]
  }

  method ParseAll(rs: seq<CardReport>)
    requires Distinct(rs)
    modifies rs
    ensures forall i :: 0 <= i < |rs| ==> rs[i].Value() == Parsed(rs[i].card, old(rs[i].Value()))
  {
    hide Parsed;
    for k := 0 to |rs|
      invariant forall i :: 0 <= i < k ==> rs[i].Value() == Parsed(rs[i].card, old(rs[i].Value()))
      invariant forall i :: k <= i < |rs| ==> rs[i].Value() == old(rs[i].Value())
    {
      rs[k].Parse();
    }
  }

  method CheckAll(rs: seq<CardReport>, t: Tree)
    requires Distinct(rs)
    modifies rs
    ensures forall i :: 0 <= i < |rs| ==> rs[i].Value() == WithChecks(rs[i].card, t, old(rs[i].Value()))
  {
    hide WithChecks;
    for k := 0 to |rs|
      invariant forall i :: 0 <= i < k ==> rs[i].Value() == WithChecks(rs[i].card, t, old(rs[i].Value()))
      invariant forall i :: k <= i < |rs| ==> rs[i].Value() == old(rs[i].Value())
    {
      rs[k].Check(t);
    }
  }

  method OffAll(rs: seq<CardReport>, t: Tree, fenced: set<Stem>)
    requires Distinct(rs)
    modifies rs
    ensures forall i :: 0 <= i < |rs| ==>
              rs[i].Value() == OffDated(t, OffCards(t, t.listing, rs[i].card.dir, fenced), old(rs[i].Value()))
  {
    hide WithOff, OffCards;
    var off: map<string, seq<Stem>> := map[];
    for k := 0 to |rs|
      invariant forall d :: d in off ==> off[d] == OffCards(t, t.listing, d, fenced)
      invariant forall i :: 0 <= i < k ==>
                  rs[i].Value() == OffDated(t, OffCards(t, t.listing, rs[i].card.dir, fenced), old(rs[i].Value()))
      invariant forall i :: k <= i < |rs| ==> rs[i].Value() == old(rs[i].Value())
    {
      var c := rs[k];
      if c.date.Some? {
        if c.card.dir !in off {
          var found := FindOffCards(t, c.card.dir, fenced);
          off := off[c.card.dir := found];
        }
        c.CheckOff(t, off[c.card.dir]);
      }
    }
  }

  method AwayAll(rs: seq<CardReport>, dates: map<string, Option<Day>>)
    requires Distinct(rs)
    modifies rs
    ensures forall i :: 0 <= i < |rs| ==> rs[i].Value() == WithAway(dates, old(rs[i].Value()))
  {
    hide WithAway;
    for k := 0 to |rs|
      invariant forall i :: 0 <= i < k ==> rs[i].Value() == WithAway(dates, old(rs[i].Value()))
      invariant forall i :: k <= i < |rs| ==> rs[i].Value() == old(rs[i].Value())
    {
      rs[k].CheckAway(dates);
    }
  }

  method ReachAll(rs: seq<CardReport>, a: nat, undeclared: seq<string>)
    requires Distinct(rs)
    modifies rs
    ensures forall i :: 0 <= i < |rs| ==>
              rs[i].Value() == WithReach(i < a, rs[i].card.path in undeclared, old(rs[i].Value()))
  {
    hide WithReach;
    for k := 0 to |rs|
      invariant forall i :: 0 <= i < k ==>
                  rs[i].Value() == WithReach(i < a, rs[i].card.path in undeclared, old(rs[i].Value()))
      invariant forall i :: k <= i < |rs| ==> rs[i].Value() == old(rs[i].Value())
    {
      rs[k].CheckReach(k < a, rs[k].card.path in undeclared);
    }
  }

  method SettleAll(rs: seq<CardReport>)
    requires Distinct(rs)
    modifies rs
    ensures forall i :: 0 <= i < |rs| ==> rs[i].Value() == WithVerdict(old(rs[i].Value()))
  {
    hide WithVerdict;
    for k := 0 to |rs|
      invariant forall i :: 0 <= i < k ==> rs[i].Value() == WithVerdict(old(rs[i].Value()))
      invariant forall i :: k <= i < |rs| ==> rs[i].Value() == old(rs[i].Value())
    {
      rs[k].Settle();
    }
  }

  ghost predicate DistinctPaths(cards: seq<Card>) {
    forall i, j :: 0 <= i < j < |cards| ==> cards[i].path != cards[j].path
  }

  ghost predicate DistinctNames(names: seq<string>) {
    forall i, j :: 0 <= i < j < |names| ==> names[i] != names[j]
  }

  lemma IndexIs(cards: seq<Card>, i: nat)
    requires DistinctPaths(cards) && i < |cards|
    ensures IndexOf(cards, cards[i].path) == i
  {}

  function NoteU(listed: bool, before: bool, r: Report): Report { if listed then WithUndeclared(before, r) else r }

  lemma InPrefix(names: seq<string>, k: nat, x: string)
    requires k < |names|
    ensures x in names[..k + 1] <==> x in names[..k] || x == names[k]
  {
    assert names[..k + 1] == names[..k] + [names[k]];
  }

  /** The list of cards that need not declare, in both directions. */
  method UndeclaredAll(rs: seq<CardReport>, a: nat, names: seq<string>) returns (pop: nat)
    requires Distinct(rs) && DistinctPaths(CardsOf(rs)) && DistinctNames(names)
    modifies rs
    ensures pop == Dead(names, CardsOf(rs))
    ensures forall i :: 0 <= i < |rs| ==> rs[i].Value() == NoteU(rs[i].card.path in names, i < a, old(rs[i].Value()))
  {
    hide Dead, IndexOf;
    pop := 0;
    DeadNone(CardsOf(rs));
    for k := 0 to |names|
      invariant pop == Dead(names[..k], CardsOf(rs))
      invariant forall i :: 0 <= i < |rs| ==>
                  rs[i].Value() == NoteU(rs[i].card.path in names[..k], i < a, old(rs[i].Value()))
    {
      DeadStep(names, k, CardsOf(rs));
      var c := IndexOf(CardsOf(rs), names[k]);
      IndexAt(CardsOf(rs), names[k]);
      assert names[k] !in names[..k];
      forall i | 0 <= i < |rs|
        ensures rs[i].card.path in names[..k + 1] <==> rs[i].card.path in names[..k] || i == c
      {
        InPrefix(names, k, rs[i].card.path);
      }
      if c == |rs| {
        pop := pop + 1;
      } else {
        rs[c].NoteUndeclared(c < a);
      }
    }
    assert names[..|names|] == names;
  }

  lemma IndexAt(cards: seq<Card>, path: string)
    requires DistinctPaths(cards)
    ensures var c := IndexOf(cards, path);
            c <= |cards| && forall i :: 0 <= i < |cards| ==> (cards[i].path == path <==> i == c)
  {}

  lemma DeadNone(cards: seq<Card>)
    ensures Dead([], cards) == 0
  {}

  lemma DeadStep(names: seq<string>, k: nat, cards: seq<Card>)
    requires k < |names|
    ensures Dead(names[..k + 1], cards) == Dead(names[..k], cards) + if IndexOf(cards, names[k]) < |cards| then 0 else 1
  {
    assert names[..k + 1][..k] == names[..k];
  }

  function NoteK(codes: Option<seq<Code>>, r: Report): Report { if codes.Some? then WithKnown(codes.value, r) else r }

  lemma CodesStep(known: seq<Covers>, k: nat, path: string)
    requires k < |known|
    ensures CodesFor(known[..k + 1], path)
            == if known[k].path == path then Some(known[k].codes) else CodesFor(known[..k], path)
  {
    assert known[..k + 1][..k] == known[..k];
  }

  lemma {:induction false} CodesNone(known: seq<Covers>, path: string)
    ensures CodesFor(known, path).Some? <==> path in Paths(known)
  {
    if known != [] {
      var n := |known| - 1;
      CodesNone(known[..n], path);
      assert Paths(known) == Paths(known[..n]) + [known[n].path];
    }
  }

  /** The list of known faults, in both directions. */
  method KnownAll(rs: seq<CardReport>, known: seq<Covers>) returns (pop: nat)
    requires Distinct(rs) && DistinctPaths(CardsOf(rs)) && DistinctNames(Paths(known))
    modifies rs
    ensures pop == Dead(Paths(known), CardsOf(rs))
    ensures forall i :: 0 <= i < |rs| ==> rs[i].Value() == NoteK(CodesFor(known, rs[i].card.path), old(rs[i].Value()))
  {
    hide Dead, IndexOf, CodesFor, WithKnown;
    pop := 0;
    DeadNone(CardsOf(rs));
    forall i | 0 <= i < |rs| ensures CodesFor(known[..0], rs[i].card.path).None? {
      CodesNone(known[..0], rs[i].card.path);
    }
    for k := 0 to |known|
      invariant pop == Dead(Paths(known)[..k], CardsOf(rs))
      invariant forall i :: 0 <= i < |rs| ==>
                  rs[i].Value() == NoteK(CodesFor(known[..k], rs[i].card.path), old(rs[i].Value()))
    {
      DeadStep(Paths(known), k, CardsOf(rs));
      var c := IndexOf(CardsOf(rs), known[k].path);
      IndexAt(CardsOf(rs), known[k].path);
      forall i | 0 <= i < |rs|
        ensures CodesFor(known[..k + 1], rs[i].card.path)
                == if i == c then Some(known[k].codes) else CodesFor(known[..k], rs[i].card.path)
      {
        CodesStep(known, k, rs[i].card.path);
      }
      if c == |rs| {
        pop := pop + 1;
      } else {
        CodesNone(known[..k], rs[c].card.path);
        assert Paths(known)[k] !in Paths(known[..k]) by {
          assert forall j :: 0 <= j < k ==> Paths(known)[j] == Paths(known[..k])[j];
        }
        rs[c].NoteKnown(known[k].codes);
      }
    }
    assert known[..|known|] == known && Paths(known)[..|known|] == Paths(known);
  }

  lemma CheckedKeeps(c: Card, t: Tree)
    ensures Checked(c, t).tries == Parsed(c, BLANK).tries && Checked(c, t).date == Parsed(c, BLANK).date
  {}

  method DatesOf(rs: seq<CardReport>) returns (dates: map<string, Option<Day>>)
    requires forall i :: 0 <= i < |rs| ==> rs[i].Value() == Parsed(rs[i].card, BLANK)
    ensures dates == Dates(CardsOf(rs))
  {
    hide Parsed, ByPath;
    var days := seq(|rs|, i requires 0 <= i < |rs| reads rs => rs[i].date);
    assert days == ParsedDays(CardsOf(rs)) by {
      assert forall i :: 0 <= i < |rs| ==> rs[i].Value().date == Parsed(rs[i].card, BLANK).date;
    }
    dates := ByPath(CardsOf(rs), days);
  }

  method FencedOf(rs: seq<CardReport>, t: Tree) returns (fenced: set<Stem>)
    requires forall i :: 0 <= i < |rs| ==> rs[i].Value() == Checked(rs[i].card, t)
    ensures fenced == FencedBy(CardsOf(rs), t)
  {
    hide Checked;
    fenced := set i, s | 0 <= i < |rs| && rs[i].date.Some? && s in rs[i].fenced :: s;
    assert forall i :: 0 <= i < |rs| ==>
             rs[i].date == Checked(rs[i].card, t).date && rs[i].fenced == Checked(rs[i].card, t).fenced;
  }

  method AnyTries(rs: seq<CardReport>) returns (yes: bool)
    ensures yes == exists i :: 0 <= i < |rs| && rs[i].Value().tries
  {
    yes := false;
    for k := 0 to |rs|
      invariant yes == exists i :: 0 <= i < k && rs[i].Value().tries
    {
      yes := yes || rs[k].tries;
    }
  }

  /** No card fences a cell, or one of the cells fenced is a capture. */
  method AnyResolved(rs: seq<CardReport>) returns (yes: bool)
    ensures yes == ((forall i :: 0 <= i < |rs| ==> rs[i].Value().fenced == [])
                    || exists i :: 0 <= i < |rs| && Exists(rs[i].Value()))
  {
    var cells, exist := 0, 0;
    for k := 0 to |rs|
      invariant cells >= 0 && exist >= 0
      invariant cells == 0 <==> forall i :: 0 <= i < k ==> rs[i].Value().fenced == []
      invariant exist > 0 <==> exists i :: 0 <= i < k && Exists(rs[i].Value())
    {
      cells := cells + |rs[k].fenced|;
      exist := exist + |rs[k].dated| + |rs[k].wrong| + |rs[k].broken| + |rs[k].noMeta|;
    }
    yes := !(cells > 0 && exist == 0);
  }

  lemma DateOf(cards: seq<Card>, i: nat)
    requires DistinctPaths(cards) && i < |cards|
    ensures cards[i].path in Dates(cards) && Dates(cards)[cards[i].path] == Parsed(cards[i], BLANK).date
  {
    IndexIs(cards, i);
  }

  lemma TriesKept(cards: seq<Card>, t: Tree)
    ensures forall i :: 0 <= i < |cards| ==> Checked(cards[i], t).tries == Parsed(cards[i], BLANK).tries
  {
    forall i | 0 <= i < |cards| ensures Checked(cards[i], t).tries == Parsed(cards[i], BLANK).tries {
      CheckedKeeps(cards[i], t);
    }
  }

  /** The passes that look at one card at a time, up to D7. */
  method Look(rs: seq<CardReport>, t: Tree) returns (refused: bool, dates: map<string, Option<Day>>)
    requires Distinct(rs)
    requires forall i :: 0 <= i < |rs| ==> rs[i].Value() == BLANK
    modifies rs
    ensures refused <==> Silent(CardsOf(rs), t)
    ensures !refused ==> dates == Dates(CardsOf(rs))
    ensures !refused ==> forall i :: 0 <= i < |rs| ==> rs[i].Value() == Checked(rs[i].card, t)
  {
    hide Parsed, WithChecks, Dates, Exists;
    ParseAll(rs);
    TriesKept(CardsOf(rs), t);
    var any := AnyTries(rs);
    if !any {
      return true, map[];
    }
    dates := DatesOf(rs);
    CheckAll(rs, t);
    assert forall i :: 0 <= i < |rs| ==> rs[i].Value() == Checked(rs[i].card, t);
    var resolved := AnyResolved(rs);
    refused := !resolved;
  }

  /** The passes up to D9, which compare the cards with the captures and with each other. */
  method Compare(rs: seq<CardReport>, t: Tree) returns (refused: bool)
    requires Distinct(rs)
    requires forall i :: 0 <= i < |rs| ==> rs[i].Value() == BLANK
    modifies rs
    ensures refused <==> Silent(CardsOf(rs), t)
    ensures !refused ==> forall i :: 0 <= i < |rs| ==> rs[i].Value() == Compared(CardsOf(rs), t, CardsOf(rs)[i])
  {
    hide Checked, WithOff, WithAway, FencedBy, Dates, Silent, OffCards;
    var dates;
    refused, dates := Look(rs, t);
    if !refused {
      var fenced := FencedOf(rs, t);
      OffAll(rs, t, fenced);
      AwayAll(rs, dates);
    }
  }

  /** The passes after D9: the rule's reach, the two lists, the verdicts. */
  method Settled(rs: seq<CardReport>, t: Tree, u: Rule, a: nat) returns (pop: nat)
    requires Distinct(rs) && DistinctPaths(CardsOf(rs)) && a == IndexOf(CardsOf(rs), u.anchor)
    requires DistinctNames(u.undeclared) && DistinctNames(Paths(u.known))
    requires forall i :: 0 <= i < |rs| ==> rs[i].Value() == Compared(CardsOf(rs), t, CardsOf(rs)[i])
    modifies rs
    ensures pop == Pops(CardsOf(rs), u)
    ensures forall i :: 0 <= i < |rs| ==> rs[i].Value() == Final(CardsOf(rs), t, u, i)
  {
    hide WithReach, WithKnown, WithUndeclared, WithVerdict, IndexOf, Dead, CodesFor, Compared;
    ghost var cards := CardsOf(rs);
    ReachAll(rs, a, u.undeclared);
    assert forall i :: 0 <= i < |rs| ==> rs[i].Value() == Reached(cards, t, u, i);
    hide Reached;
    var popU := UndeclaredAll(rs, a, u.undeclared);
    var popK := KnownAll(rs, u.known);
    SettleAll(rs);
    pop := (if a != u.nBefore then 1 else 0) + popU + popK;
  }

  /** The whole sweep: every pass over the cards in turn.  The cards come in the order of their paths,
      no path twice. */
  method Scan(rs: seq<CardReport>, t: Tree, u: Rule) returns (refused: bool, pop: nat)
    requires Distinct(rs) && DistinctPaths(CardsOf(rs))
    requires DistinctNames(u.undeclared) && DistinctNames(Paths(u.known))
    requires forall i :: 0 <= i < |rs| ==> rs[i].Value() == BLANK
    modifies rs
    ensures refused == Refuses(CardsOf(rs), t, u)
    ensures !refused ==> pop == Pops(CardsOf(rs), u)
    ensures !refused ==> forall i :: 0 <= i < |rs| ==> rs[i].Value() == Final(CardsOf(rs), t, u, i)
  {
    hide WithReach, WithKnown, WithUndeclared, WithVerdict, IndexOf, Dead, CodesFor, Compared, Silent;
    ghost var cards := CardsOf(rs);
    var a := IndexOf(CardsOf(rs), u.anchor);
    if a >= |rs| { return true, 0; }
    refused := Compare(rs, t);
    if refused { return true, 0; }
    assert a == IndexOf(cards, u.anchor);
    pop := Settled(rs, t, u, a);
  }

  /** Exit code: 0 clean, 1 findings, 2 refused. */
  method CheckCards(rs: seq<CardReport>, t: Tree, u: Rule) returns (code: nat)
    requires Distinct(rs) && DistinctPaths(CardsOf(rs))
    requires DistinctNames(u.undeclared) && DistinctNames(Paths(u.known))
    requires forall i :: 0 <= i < |rs| ==> rs[i].Value() == BLANK
    modifies rs
    ensures code == Exit(CardsOf(rs), t, u)
  {
    hide Refuses, Pops, Final;
    var refused, pop := Scan(rs, t, u);
    if refused { return 2; }
    var bad := pop;
    for k := 0 to |rs|
      invariant bad >= pop && (bad == pop <==> forall i :: 0 <= i < k ==> !Fails(Final(CardsOf(rs), t, u, i)))
    {
      assert rs[k].verdict == Final(CardsOf(rs), t, u, k).verdict;
      if rs[k].verdict == Some(RED) || rs[k].verdict == Some(STALE) {
        bad := bad + 1;
      }
    }
    return if bad > 0 then 1 else 0;
  }

  // ------------------------------------------------------------ what each check finds

  lemma {:induction false} KeptExactly(t: Tree, cells: seq<Stem>, date: Option<Day>, k: Kind)
    ensures forall s :: s in Kept(t, cells, date, k) <==> s in cells && KindOf(t, s, date) == k
  {
    if cells != [] {
      var n := |cells| - 1;
      KeptExactly(t, cells[..n], date, k);
      assert cells == cells[..n] + [cells[n]];
    }
  }

  /** The five kinds of a fence's cells make up the fence, each cell once. */
  lemma {:induction false} FencePartition(t: Tree, cells: seq<Stem>, date: Option<Day>)
    ensures multiset(cells)
            == multiset(Kept(t, cells, date, Dated)) + multiset(Kept(t, cells, date, Wrong))
               + multiset(Kept(t, cells, date, Broken)) + multiset(Kept(t, cells, date, NoMeta))
               + multiset(Kept(t, cells, date, Absent))
  {
    hide KindOf, Kept;
    if cells == [] {
      forall k ensures Kept(t, cells, date, k) == [] {
        KeptNone(t, date, k);
      }
    } else {
      var n := |cells| - 1;
      var rest, s := cells[..n], cells[n];
      FencePartition(t, rest, date);
      KeptBag(t, cells, date, Dated);
      KeptBag(t, cells, date, Wrong);
      KeptBag(t, cells, date, Broken);
      KeptBag(t, cells, date, NoMeta);
      KeptBag(t, cells, date, Absent);
      assert multiset(cells) == multiset(rest) + multiset{s} by {
        assert cells == rest + [s];
      }
      OneOfFive(multiset(Kept(t, rest, date, Dated)), multiset(Kept(t, rest, date, Wrong)),
                multiset(Kept(t, rest, date, Broken)), multiset(Kept(t, rest, date, NoMeta)),
                multiset(Kept(t, rest, date, Absent)), KindOf(t, s, date), s);
    }
  }

  /** One more element, added to one of five bags. */
  lemma OneOfFive(a: multiset<Stem>, b: multiset<Stem>, c: multiset<Stem>, d: multiset<Stem>, e: multiset<Stem>,
                  k: Kind, s: Stem)
    ensures a + b + c + d + e + multiset{s}
            == (a + One(k == Dated, s)) + (b + One(k == Wrong, s)) + (c + One(k == Broken, s))
               + (d + One(k == NoMeta, s)) + (e + One(k == Absent, s))
  {}

  lemma KeptBag(t: Tree, cells: seq<Stem>, date: Option<Day>, k: Kind)
    requires cells != []
    ensures var n := |cells| - 1;
            multiset(Kept(t, cells, date, k))
            == multiset(Kept(t, cells[..n], date, k)) + One(KindOf(t, cells[n], date) == k, cells[n])
  {
    var n := |cells| - 1;
    assert cells[..n + 1] == cells;
    KeptStep(t, cells, n, date, k);
    OneMore(Kept(t, cells[..n], date, k), KindOf(t, cells[n], date) == k, cells[n]);
  }

  function One(x: bool, s: Stem): multiset<Stem> { if x then multiset{s} else multiset{} }

  lemma OneMore(a: seq<Stem>, x: bool, s: Stem)
    ensures multiset(a + if x then [s] else []) == multiset(a) + One(x, s)
  {}

  lemma KeptNone(t: Tree, date: Option<Day>, k: Kind)
    ensures Kept(t, [], date, k) == []
  {}

  /** A report in which no list is filled yet. */
  predicate NoneFiled(r: Report) {
    r == BLANK.(tries := r.tries, found := r.found, away := r.away, date := r.date)
  }

  /** No card's text puts a cell in a list. */
  lemma ParsedLists(c: Card)
    ensures NoneFiled(Parsed(c, BLANK))
  {}

  ghost predicate Sorted(t: Tree, r: Report) {
    && multiset(r.fenced) == multiset(r.dated) + multiset(r.wrong) + multiset(r.broken)
                             + multiset(r.noMeta) + multiset(r.absent)
    && (forall s :: s in r.dated ==> s in t.metas && t.metas[s].Some? && t.metas[s] == r.date)
    && (forall s :: s in r.wrong ==> s in t.metas && t.metas[s].Some? && t.metas[s] != r.date)
    && (forall s :: s in r.broken ==> s in t.metas && t.metas[s].None?)
    && (forall s :: s in r.noMeta ==> s !in t.metas && s in t.logs)
    && (forall s :: s in r.absent ==> s !in t.metas && s !in t.logs)
  }

  lemma FiledSorted(t: Tree, cells: seq<Stem>, r: Report)
    requires NoneFiled(r)
    ensures Sorted(t, Filed(t, cells, r))
  {
    hide Kept;
    FencePartition(t, cells, r.date);
    KeptExactly(t, cells, r.date, Dated);
    KeptExactly(t, cells, r.date, Wrong);
    KeptExactly(t, cells, r.date, Broken);
    KeptExactly(t, cells, r.date, NoMeta);
    KeptExactly(t, cells, r.date, Absent);
    assert [] + cells == cells;
    assert forall k :: [] + Kept(t, cells, r.date, k) == Kept(t, cells, r.date, k);
  }

  lemma NoneSorted(t: Tree, r: Report)
    requires NoneFiled(r)
    ensures Sorted(t, r)
  {}

  lemma FoundSorted(t: Tree, r: Report, found: seq<Code>)
    requires Sorted(t, r)
    ensures Sorted(t, r.(found := found))
  {}

  lemma FenceSorted(c: Card, t: Tree, r: Report)
    requires NoneFiled(r)
    ensures Sorted(t, WithFence(c, t, r))
  {
    hide Filed, Sorted;
    NoneSorted(t, r);
    FoundSorted(t, r, r.found + [D7]);
    if c.fence.Fence? {
      FiledSorted(t, c.fence.cells, r);
      var f := Filed(t, c.fence.cells, r);
      FoundSorted(t, f, f.found + (if f.wrong != [] then [D7] else []) + (if f.broken != [] then [D7] else []));
    }
  }

  /** The lists of a card's report: every fenced cell is in exactly one of them, by what is on disk and
      by the declared date. */
  lemma ReportPartition(c: Card, t: Tree)
    ensures Sorted(t, Checked(c, t))
  {
    hide Sorted, Parsed, WithFence;
    var r := Parsed(c, BLANK);
    ParsedLists(c);
    NoneSorted(t, r);
    FenceSorted(c, t, WithDir(c, r));
  }

  lemma {:induction false} OffExactly(t: Tree, listing: seq<Stem>, d: string, fenced: set<Stem>)
    ensures forall s :: s in OffCards(t, listing, d, fenced) <==> s in listing && OffCard(t, s, d, fenced)
  {
    if listing != [] {
      var n := |listing| - 1;
      OffExactly(t, listing[..n], d, fenced);
      assert listing == listing[..n] + [listing[n]];
    }
  }

  lemma {:induction false} ValidExactly(dates: seq<Option<Day>>)
    ensures forall d :: d in Valid(dates) <==> Some(d) in dates
    ensures forall i, j :: 0 <= i < j < |Valid(dates)| ==> Valid(dates)[i] != Valid(dates)[j]
  {
    if dates != [] {
      var n := |dates| - 1;
      ValidExactly(dates[..n]);
      assert dates == dates[..n] + [dates[n]];
    }
  }

  lemma {:induction false} FaultsExactly(dates: seq<Option<Day>>)
    ensures Faults(dates) != [] <==> None in dates
    ensures forall i :: 0 <= i < |Faults(dates)| ==> Faults(dates)[i] == D5
  {
    if dates != [] {
      var n := |dates| - 1;
      FaultsExactly(dates[..n]);
      assert dates == dates[..n] + [dates[n]];
    }
  }

  lemma AwayStep(date: Option<Day>, away: seq<string>, dates: map<string, Option<Day>>)
    requires away != []
    ensures var n := |away| - 1;
            AwayFaults(date, away, dates)
            == AwayFaults(date, away[..n], dates) + if BadTarget(date, dates, away[n]) then [D9] else []
  {
    hide BadTarget;
  }

  ghost predicate AnyBad(date: Option<Day>, away: seq<string>, dates: map<string, Option<Day>>) {
    exists p :: p in away && BadTarget(date, dates, p)
  }

  lemma AnyBadStep(date: Option<Day>, away: seq<string>, dates: map<string, Option<Day>>)
    requires away != []
    ensures var n := |away| - 1;
            AnyBad(date, away, dates) <==> AnyBad(date, away[..n], dates) || BadTarget(date, dates, away[n])
  {
    hide BadTarget;
    var n := |away| - 1;
    assert forall p :: p in away <==> p in away[..n] || p == away[n] by {
      assert away == away[..n] + [away[n]];
    }
  }

  lemma {:induction false} AwayExactly(date: Option<Day>, away: seq<string>, dates: map<string, Option<Day>>)
    ensures AwayFaults(date, away, dates) != [] <==> AnyBad(date, away, dates)
    ensures forall i :: 0 <= i < |AwayFaults(date, away, dates)| ==> AwayFaults(date, away, dates)[i] == D9
  {
    if away != [] {
      AwayStep(date, away, dates);
      AnyBadStep(date, away, dates);
      hide AwayFaults, AnyBad, BadTarget;
      AwayExactly(date, away[..|away| - 1], dates);
    }
  }

  lemma InValid(dates: seq<Option<Day>>, d: Day)
    ensures d in Valid(dates) <==> Some(d) in dates
  {
    ValidExactly(dates);
  }

  ghost predicate AllOn(dates: seq<Option<Day>>, d: Day) {
    dates != [] && forall i :: 0 <= i < |dates| ==> dates[i] == Some(d)
  }

  ghost predicate TwoDates(dates: seq<Option<Day>>) {
    exists d, e: Day :: Some(d) in dates && Some(e) in dates && d != e
  }

  lemma ManyDates(dates: seq<Option<Day>>)
    ensures |Valid(dates)| > 1 <==> TwoDates(dates)
  {
    var v := Valid(dates);
    ValidExactly(dates);
    if |v| > 1 {
      InValid(dates, v[0]);
      InValid(dates, v[1]);
      assert Some(v[0]) in dates && Some(v[1]) in dates && v[0] != v[1];
    }
    if TwoDates(dates) {
      var d, e: Day :| Some(d) in dates && Some(e) in dates && d != e;
      InValid(dates, d);
      InValid(dates, e);
    }
  }

  lemma OneDate(dates: seq<Option<Day>>, d: Day)
    ensures Valid(dates) == [d] && None !in dates <==> AllOn(dates, d)
  {
    var v := Valid(dates);
    ValidExactly(dates);
    InValid(dates, d);
    if v == [d] && None !in dates {
      forall i | 0 <= i < |dates| ensures dates[i] == Some(d) {
        assert dates[i] in dates;
        InValid(dates, dates[i].value);
      }
    }
    if AllOn(dates, d) {
      assert dates[0] in dates;
      forall k | 0 <= k < |v| ensures v[k] == d {
        InValid(dates, v[k]);
      }
    }
  }

  /** A card's one date: its text can be read, every opening completes, and every token names the same
      existing date. */
  ghost predicate Declares(c: Card, d: Day) { c.text.Text? && c.text.malformed == 0 && AllOn(c.text.dates, d) }

  ghost predicate BadDate(c: Card) {
    c.text.Text? ==> c.text.malformed > 0 || None in c.text.dates || TwoDates(c.text.dates)
  }

  predicate Tries(c: Card) { c.text.Text? ==> c.text.malformed > 0 || c.text.dates != [] }

  function AwayOf(c: Card): seq<string> { if c.text.Text? then c.text.away else [] }

  predicate BadAway(c: Card) { c.text.Text? && c.text.malformedAway > 0 }

  lemma FoundIn(a: seq<Code>, b: seq<Code>, c: Code)
    ensures c in a + b <==> c in a || c in b
  {}

  lemma ParsedExactly(c: Card)
    ensures var r := Parsed(c, BLANK);
            && r.tries == Tries(c) && r.away == AwayOf(c) && r.fenced == []
            && (D5 in r.found <==> BadDate(c)) && (D9 in r.found <==> BadAway(c))
            && (forall k :: k in r.found ==> k == D5 || k == D9)
            && (forall d :: r.date == Some(d) <==> Declares(c, d))
  {
    hide Valid, Faults, TwoDates, AllOn;
    if c.text.Text? {
      var dates := c.text.dates;
      ManyDates(dates);
      FaultsExactly(dates);
      forall d ensures Parsed(c, BLANK).date == Some(d) <==> Declares(c, d) {
        OneDate(dates, d);
        assert Valid(dates) == [d] <==> |Valid(dates)| == 1 && Valid(dates)[0] == d;
      }
      ParsedFound(c);
    }
  }

  lemma InFour(m: seq<Code>, x: seq<Code>, y: seq<Code>, n: seq<Code>)
    requires Only(m, D5) && Only(x, D5) && Only(y, D5) && Only(n, D9)
    ensures D5 in m + x + y + n <==> m != [] || x != [] || y != []
    ensures D9 in m + x + y + n <==> n != []
    ensures forall k :: k in m + x + y + n ==> k == D5 || k == D9
  {
    var all := m + x + y + n;
    assert m != [] ==> all[0] == D5;
    assert x != [] ==> all[|m|] == D5;
    assert y != [] ==> all[|m| + |x|] == D5;
    assert n != [] ==> all[|m| + |x| + |y|] == D9;
    assert forall i :: 0 <= i < |all| ==> all[i] == if i < |m| + |x| + |y| then D5 else D9;
  }

  ghost predicate Only(s: seq<Code>, c: Code) { forall i :: 0 <= i < |s| ==> s[i] == c }

  lemma ParsedFound(c: Card)
    requires c.text.Text?
    ensures var r := Parsed(c, BLANK);
            && (D5 in r.found <==> c.text.malformed > 0 || Faults(c.text.dates) != [] || |Valid(c.text.dates)| > 1)
            && (D9 in r.found <==> BadAway(c))
            && (forall k :: k in r.found ==> k == D5 || k == D9)
  {
    FaultsExactly(c.text.dates);
    ParsedText(c);
    var m, n := Repeat(D5, c.text.malformed), Repeat(D9, c.text.malformedAway);
    hide Valid, Faults, Parsed, Repeat;
    InFour(m, Faults(c.text.dates), if |Valid(c.text.dates)| > 1 then [D5] else [], n);
  }

  lemma ParsedText(c: Card)
    requires c.text.Text?
    ensures Parsed(c, BLANK).found
            == Repeat(D5, c.text.malformed) + Faults(c.text.dates)
               + (if |Valid(c.text.dates)| > 1 then [D5] else []) + Repeat(D9, c.text.malformedAway)
  {
    hide Valid, Faults, Repeat;
    assert [] + Repeat(D5, c.text.malformed) == Repeat(D5, c.text.malformed);
  }

  predicate OffDay(t: Tree, s: Stem, date: Option<Day>) { s in t.metas && t.metas[s] != date }

  ghost predicate FenceUnusable(c: Card) {
    c.fence.NoFile? || c.fence.bad > 0 || !c.fence.seen || c.fence.cells == []
  }

  ghost predicate BadFence(c: Card, t: Tree, date: Option<Day>) {
    FenceUnusable(c) || exists s :: s in c.fence.cells && OffDay(t, s, date)
  }

  lemma OffDayKept(t: Tree, cells: seq<Stem>, date: Option<Day>)
    ensures Kept(t, cells, date, Wrong) != [] || Kept(t, cells, date, Broken) != [] <==>
            exists s :: s in cells && OffDay(t, s, date)
    requires date.Some?
  {
    var w, b := Kept(t, cells, date, Wrong), Kept(t, cells, date, Broken);
    KeptExactly(t, cells, date, Wrong);
    KeptExactly(t, cells, date, Broken);
    assert forall s :: OffDay(t, s, date) <==> KindOf(t, s, date) == Wrong || KindOf(t, s, date) == Broken;
    if w != [] {
      assert w[0] in w;
    }
    if b != [] {
      assert b[0] in b;
    }
  }

  /** One or two findings of a code, after the others. */
  lemma FoundAfter(found: seq<Code>, x: bool, y: bool, c: Code)
    ensures forall k :: k in found + (if x then [c] else []) + (if y then [c] else []) <==>
                        k in found || (k == c && (x || y))
  {
    forall k ensures k in found + (if x then [c] else []) + (if y then [c] else []) <==>
                     k in found || (k == c && (x || y)) {
      FoundIn(found + (if x then [c] else []), if y then [c] else [], k);
      FoundIn(found, if x then [c] else [], k);
    }
  }

  lemma FenceFound(c: Card, t: Tree, r: Report)
    requires r.date.Some? && r.wrong == [] && r.broken == []
    ensures var f := WithFence(c, t, r);
            && f.date == r.date && f.tries == r.tries && f.away == r.away
            && (forall k :: k in f.found <==> k in r.found || (k == D7 && BadFence(c, t, r.date)))
            && f.fenced == r.fenced + (if FenceUnusable(c) then [] else c.fence.cells)
  {
    hide Kept, OffDay;
    if FenceUnusable(c) {
      FoundAfter(r.found, true, false, D7);
      assert r.found + [D7] + [] == r.found + [D7];
    } else {
      var cells := c.fence.cells;
      OffDayKept(t, cells, r.date);
      FiledWrong(t, cells, r);
      FoundAfter(r.found, Kept(t, cells, r.date, Wrong) != [], Kept(t, cells, r.date, Broken) != [], D7);
    }
  }

  lemma FiledWrong(t: Tree, cells: seq<Stem>, r: Report)
    requires r.wrong == [] && r.broken == []
    ensures Filed(t, cells, r).wrong == Kept(t, cells, r.date, Wrong)
    ensures Filed(t, cells, r).broken == Kept(t, cells, r.date, Broken)
  {}

  /** Some off-card capture in `d` is not on `date`. */
  ghost predicate BadOff(t: Tree, d: string, fenced: set<Stem>, date: Option<Day>) {
    exists s :: s in t.listing && OffCard(t, s, d, fenced) && OffDay(t, s, date)
  }

  lemma OffFound(t: Tree, d: string, fenced: set<Stem>, r: Report)
    requires r.date.Some?
    ensures var f := WithOff(t, OffCards(t, t.listing, d, fenced), r);
            && f.date == r.date && f.tries == r.tries && f.away == r.away && f.fenced == r.fenced
            && (forall k :: k in f.found <==> k in r.found || (k == D8 && BadOff(t, d, fenced, r.date)))
  {
    hide Kept, OffDay;
    var off := OffCards(t, t.listing, d, fenced);
    OffExactly(t, t.listing, d, fenced);
    OffDayKept(t, off, r.date);
    FoundAfter(r.found, Kept(t, off, r.date, Wrong) != [], Kept(t, off, r.date, Broken) != [], D8);
  }

  // ------------------------------------------------------------ a green sweep

  /** The declared date, as the checks use it. */
  ghost function DateIn(c: Card): (d: Option<Day>)
    ensures forall x :: d == Some(x) <==> Declares(c, x)
  {
    ParsedExactly(c);
    Parsed(c, BLANK).date
  }

  /** The checks up to D9 that a card fails. */
  ghost predicate FiresAlone(cards: seq<Card>, t: Tree, c: Card, k: Code) {
    || (k == D5 && BadDate(c))
    || (k == D6 && DateIn(c).Some? && c.named != DateIn(c))
    || (k == D7 && DateIn(c).Some? && BadFence(c, t, DateIn(c)))
    || (k == D8 && DateIn(c).Some? && BadOff(t, c.dir, FencedBy(cards, t), DateIn(c)))
    || (k == D9 && (BadAway(c) || AnyBad(DateIn(c), AwayOf(c), Dates(cards))))
  }

  /** The checks a card fails: those, and the rule's reach. */
  ghost predicate Fires(cards: seq<Card>, t: Tree, u: Rule, i: nat, k: Code)
    requires i < |cards|
  {
    || FiresAlone(cards, t, cards[i], k)
    || (k == D10 && !Tries(cards[i]) && i >= IndexOf(cards, u.anchor) && cards[i].path !in u.undeclared)
  }

  lemma CheckedExactly(c: Card, t: Tree)
    ensures var r := Checked(c, t);
            && r.tries == Tries(c) && r.away == AwayOf(c) && r.date == DateIn(c)
            && r.fenced == (if r.date.None? || FenceUnusable(c) then [] else c.fence.cells)
            && (forall k :: k in r.found <==>
                  || (k == D5 && BadDate(c)) || (k == D9 && BadAway(c))
                  || (k == D6 && r.date.Some? && c.named != r.date)
                  || (k == D7 && r.date.Some? && BadFence(c, t, r.date)))
  {
    hide WithFence, BadDate, BadAway, BadFence, Tries, AwayOf;
    ParsedExactly(c);
    var r := Parsed(c, BLANK);
    ParsedLists(c);
    if r.date.Some? {
      FenceFound(c, t, WithDir(c, r));
      FoundAfter(r.found, c.named != r.date, false, D6);
      assert WithDir(c, r).found == r.found + (if c.named != r.date then [D6] else []) + [];
    }
  }

  lemma ReachedExactly(cards: seq<Card>, t: Tree, u: Rule, i: nat)
    requires i < |cards|
    ensures forall k :: k in Reached(cards, t, u, i).found <==> Fires(cards, t, u, i, k)
  {
    ComparedExactly(cards, t, cards[i]);
    hide Compared, FiresAlone, Tries, IndexOf;
    var c := cards[i];
    var r2 := Compared(cards, t, c);
    var last := !r2.tries && i >= IndexOf(cards, u.anchor) && c.path !in u.undeclared;
    FoundAfter(r2.found, last, false, D10);
    assert Reached(cards, t, u, i).found == r2.found + (if last then [D10] else []) + [];
  }

  lemma ComparedExactly(cards: seq<Card>, t: Tree, c: Card)
    ensures var r := Compared(cards, t, c);
            r.tries == Tries(c) && forall k :: k in r.found <==> FiresAlone(cards, t, c, k)
  {
    hide Checked, WithOff, BadDate, BadAway, BadFence, BadOff, Tries, AwayOf, FencedBy, Dates, AnyBad, AwayFaults,
         FenceUnusable;
    var r := Checked(c, t);
    CheckedExactly(c, t);
    var fenced := FencedBy(cards, t);
    if r.date.Some? {
      OffFound(t, c.dir, fenced, r);
    }
    var r1 := if r.date.Some? then WithOff(t, OffOf(cards, t, c.dir), r) else r;
    AwayExactly(r1.date, r1.away, Dates(cards));
    var x := AwayFaults(r1.date, r1.away, Dates(cards));
    assert x != [] ==> x[0] == D9;
    var r2 := Compared(cards, t, c);
    assert r2.found == r1.found + x;
    forall k ensures k in r2.found <==> k in r1.found || (k == D9 && x != []) {
      FoundIn(r1.found, x, k);
    }
  }

  lemma {:induction false} UnneededExactly(codes: seq<Code>, found: seq<Code>)
    ensures Unneeded(codes, found) == 0 <==> forall k :: k in codes ==> k in found
  {
    if codes != [] {
      var n := |codes| - 1;
      UnneededExactly(codes[..n], found);
      assert codes == codes[..n] + [codes[n]];
    }
  }

  lemma {:induction false} DeadExactly(names: seq<string>, cards: seq<Card>)
    ensures Dead(names, cards) == 0 <==> forall p :: p in names ==> Has(cards, p)
  {
    hide IndexOf;
    if names != [] {
      var n := |names| - 1;
      DeadExactly(names[..n], cards);
      assert names == names[..n] + [names[n]];
    }
  }

  /** The exceptions listed for a card are exactly the checks it fails, and it is listed as needing no
      declaration only if it makes none and the rule reaches it. */
  ghost predicate Clean(cards: seq<Card>, t: Tree, u: Rule, i: nat)
    requires i < |cards|
  {
    var codes := CodesFor(u.known, cards[i].path);
    && (forall k :: Fires(cards, t, u, i, k) <==> codes.Some? && k in codes.value)
    && (cards[i].path in u.undeclared ==> !Tries(cards[i]) && i >= IndexOf(cards, u.anchor))
  }

  lemma ReachedKeeps(cards: seq<Card>, t: Tree, u: Rule, i: nat)
    requires i < |cards|
    ensures var r := Reached(cards, t, u, i);
            r.tries == Tries(cards[i]) && r.exempt == [] && r.stale == 0 && r.verdict !in {Some(RED), Some(STALE)}
  {
    hide BadDate, BadAway, BadFence, BadOff, Tries, AwayOf, FencedBy, Dates, IndexOf, BadTarget, AwayFaults, OffCards,
         FenceUnusable, WithFence, Kept, Parsed;
    CheckedExactly(cards[i], t);
    CheckedBlank(cards[i], t);
  }

  lemma CheckedBlank(c: Card, t: Tree)
    ensures var r := Checked(c, t); r.exempt == [] && r.stale == 0 && r.verdict == None
  {
    hide Kept, Valid, Faults;
  }

  lemma FailsExactly(cards: seq<Card>, t: Tree, u: Rule, i: nat)
    requires i < |cards|
    ensures Fails(Final(cards, t, u, i)) <==> !Clean(cards, t, u, i)
  {
    hide Reached, Fires, CodesFor, IndexOf, Unneeded, Tries;
    var r := Reached(cards, t, u, i);
    ReachedExactly(cards, t, u, i);
    ReachedKeeps(cards, t, u, i);
    var codes := CodesFor(u.known, cards[i].path);
    var cs := if codes.Some? then codes.value else [];
    UnneededExactly(cs, r.found);
    CoveredExactly(r.found, cs);
  }

  lemma CoveredExactly(found: seq<Code>, exempt: seq<Code>)
    ensures Covered(found, exempt) <==> forall k :: k in found ==> k in exempt
  {}

  /** The exit code is 0 exactly when the sweep could judge, the pin holds, the lists name only cards,
      and every card is clean. */
  lemma GreenExactly(cards: seq<Card>, t: Tree, u: Rule)
    ensures Exit(cards, t, u) == 0 <==>
            && !Refuses(cards, t, u)
            && IndexOf(cards, u.anchor) == u.nBefore
            && (forall p :: p in u.undeclared ==> Has(cards, p))
            && (forall i :: 0 <= i < |u.known| ==> Has(cards, u.known[i].path))
            && (forall i :: 0 <= i < |cards| ==> Clean(cards, t, u, i))
  {
    hide Refuses, Final, Clean, IndexOf, Has;
    DeadExactly(u.undeclared, cards);
    DeadExactly(Paths(u.known), cards);
    assert forall i :: 0 <= i < |u.known| ==> Paths(u.known)[i] in Paths(u.known);
    forall i | 0 <= i < |cards| ensures Fails(Final(cards, t, u, i)) <==> !Clean(cards, t, u, i) {
      FailsExactly(cards, t, u, i);
    }
  }

  predicate Excused(u: Rule, c: Card, k: Code) {
    CodesFor(u.known, c.path).Some? && k in CodesFor(u.known, c.path).value
  }

  lemma GreenHolds(cards: seq<Card>, t: Tree, u: Rule, i: nat, k: Code)
    requires Exit(cards, t, u) == 0 && i < |cards| && !Excused(u, cards[i], k)
    ensures !Fires(cards, t, u, i, k)
  {
    hide Exit, Fires, Refuses, IndexOf;
    GreenExactly(cards, t, u);
    assert Clean(cards, t, u, i);
  }

  /** After a green sweep, a card that declares a day names its directory's day, every capture it
      fences is on that day, and so is every capture in its directory that no dated card fences. */
  lemma GreenMeans(cards: seq<Card>, t: Tree, u: Rule, i: nat, d: Day)
    requires Complete(t) && Exit(cards, t, u) == 0 && i < |cards| && Declares(cards[i], d)
    ensures !Excused(u, cards[i], D6) ==> cards[i].named == Some(d)
    ensures !Excused(u, cards[i], D7) ==>
              && !FenceUnusable(cards[i])
              && forall s :: s in cards[i].fence.cells && s in t.metas ==> t.metas[s] == Some(d)
    ensures !Excused(u, cards[i], D8) ==>
              forall s :: Listed(s, cards[i].dir) && s in t.metas && s !in FencedBy(cards, t) ==> t.metas[s] == Some(d)
  {
    hide Exit, Excused, FencedBy, Declares, Listed, AllOn;
    var c := cards[i];
    assert DateIn(c) == Some(d);
    if !Excused(u, c, D6) {
      GreenHolds(cards, t, u, i, D6);
    }
    if !Excused(u, c, D7) {
      GreenHolds(cards, t, u, i, D7);
      forall s | s in c.fence.cells && s in t.metas ensures t.metas[s] == Some(d) {
        assert !OffDay(t, s, Some(d));
      }
    }
    if !Excused(u, c, D8) {
      GreenHolds(cards, t, u, i, D8);
      forall s | Listed(s, c.dir) && s in t.metas && s !in FencedBy(cards, t) ensures t.metas[s] == Some(d) {
        assert OffCard(t, s, c.dir, FencedBy(cards, t));
        assert !OffDay(t, s, Some(d));
      }
    }
  }

  /** The dated captures of a card's seating: those it fences, and those in its directory that no dated
      card fences. */
  ghost predicate OfSeating(cards: seq<Card>, t: Tree, c: Card, s: Stem) {
    s in t.metas && ((!FenceUnusable(c) && s in c.fence.cells) || (Listed(s, c.dir) && s !in FencedBy(cards, t)))
  }

  /** Two cards linked by `another day than`, in a green sweep that excuses neither, share no calendar
      day: every capture of the one seating has a date, and no capture of the other has the same. */
  lemma SeparateDays(cards: seq<Card>, t: Tree, u: Rule, i: nat, j: nat)
    requires Complete(t) && DistinctPaths(cards) && Exit(cards, t, u) == 0 && i < |cards| && j < |cards|
    requires cards[j].path in AwayOf(cards[i])
    requires !Excused(u, cards[i], D7) && !Excused(u, cards[i], D8) && !Excused(u, cards[i], D9)
    requires !Excused(u, cards[j], D7) && !Excused(u, cards[j], D8)
    ensures forall x, y :: OfSeating(cards, t, cards[i], x) && OfSeating(cards, t, cards[j], y) ==>
              t.metas[x].Some? && t.metas[y].Some? && t.metas[x] != t.metas[y]
  {
    hide Exit, Excused, FencedBy, Declares, AllOn, Listed, FenceUnusable, Dates;
    GreenHolds(cards, t, u, i, D9);
    var p := cards[j].path;
    assert !BadTarget(DateIn(cards[i]), Dates(cards), p);
    DateOf(cards, j);
    ParsedExactly(cards[j]);
    var d, e := DateIn(cards[i]).value, Parsed(cards[j], BLANK).date.value;
    GreenMeans(cards, t, u, i, d);
    GreenMeans(cards, t, u, j, e);
  }

  /** Nothing falls between: every capture listed in the directory of a declaring card that is not
      excused is on that card's day, or on the day of a dated card that fences it, when none of these is
      excused. */
  lemma NothingBetween(cards: seq<Card>, t: Tree, u: Rule, i: nat, d: Day, s: Stem)
    requires Complete(t) && Exit(cards, t, u) == 0 && i < |cards| && Declares(cards[i], d)
    requires !Excused(u, cards[i], D8)
    requires forall j :: 0 <= j < |cards| && s in Checked(cards[j], t).fenced ==> !Excused(u, cards[j], D7)
    requires Listed(s, cards[i].dir) && s in t.metas
    ensures t.metas[s] == Some(d)
            || exists j, e :: 0 <= j < |cards| && Declares(cards[j], e) && s in Checked(cards[j], t).fenced
                              && t.metas[s] == Some(e)
  {
    hide Exit, Declares, AllOn, Listed, Checked, Excused;
    if s in FencedBy(cards, t) {
      var j :| 0 <= j < |cards| && Checked(cards[j], t).date.Some? && s in Checked(cards[j], t).fenced;
      CheckedExactly(cards[j], t);
      GreenMeans(cards, t, u, j, DateIn(cards[j]).value);
    } else {
      GreenMeans(cards, t, u, i, d);
    }
  }
}
