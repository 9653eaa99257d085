/** The ELF reader and the synthetic ELF writer of `tools/binsim.py`, down to the instruction
    tokens the code channel is scored on. */
module Elf {
  import opened Common

  type Byte = b: int | 0 <= b < 256
  type Word = w: int | 0 <= w < 0x1_0000_0000

  const PT_LOAD := 1
  const PT_DYNAMIC := 2
  const PT_NOTE := 4
  const DT_NULL := 0
  const DT_INIT := 12
  const DT_FINI := 13
  const EM_MIPS := 8

  datatype Refusal =
    | TooShort | NoMagic | NotElf32 | NotBigEndian | NotMips
    | NoProgramHeaders | TablePastEnd | NoLoad
    | NoDynamic | DynamicPastEnd
    | NoInit | NoFini | FiniNotAboveInit | InitUnmapped | FiniUnmapped | EmptyWindow | WindowPastEnd

  type Answer<T> = Result<T, Refusal>

  // ------------------------------------------------------------ big-endian fields

  function Be16(x: int): seq<Byte>
    requires 0 <= x < 0x1_0000
  {
    [x / 256, x % 256]
  }

  function Be32(x: Word): (r: seq<Byte>)
    ensures |r| == 4
  {
    [x / 0x100_0000, x / 0x1_0000 % 256, x / 256 % 256, x % 256]
  }

  function Read16(b: seq<Byte>, o: nat): int
    requires o + 2 <= |b|
  {
    b[o] as int * 256 + b[o + 1]
  }

  function Read32(b: seq<Byte>, o: nat): Word
    requires o + 4 <= |b|
  {
    b[o] as int * 0x100_0000 + b[o + 1] as int * 0x1_0000 + b[o + 2] as int * 256 + b[o + 3]
  }

  // ------------------------------------------------------------ the reader

  datatype Phdr = Phdr(kind: Word, offset: Word, vaddr: Word, paddr: Word,
                       filesz: Word, memsz: Word, flags: Word, align: Word)

  datatype Tag = Tag(tag: Word, val: Word)

  datatype Elf = Elf(blob: seq<Byte>, phdrs: seq<Phdr>, dyn: seq<Tag>)

  datatype Window = Window(offset: nat, size: nat, vaddr: Word)

  function PhdrAt(b: seq<Byte>, o: nat): Phdr
    requires o + 32 <= |b|
  {
    Phdr(Read32(b, o), Read32(b, o + 4), Read32(b, o + 8), Read32(b, o + 12),
         Read32(b, o + 16), Read32(b, o + 20), Read32(b, o + 24), Read32(b, o + 28))
  }

  lemma EntryFits(size: nat, n: nat, i: nat)
    requires size >= 32 && i < n
    ensures i * size + 32 <= n * size
  {
    assert (i + 1) * size <= n * size;
  }

  function PhdrEntry(b: seq<Byte>, off: nat, size: nat, n: nat, i: nat): Phdr
    requires size >= 32 && off + n * size <= |b| && i < n
  {
    EntryFits(size, n, i);
    PhdrAt(b, off + i * size)
  }

  function PhdrTable(b: seq<Byte>, off: nat, size: nat, n: nat): (r: seq<Phdr>)
    requires size >= 32 && off + n * size <= |b|
  {
    seq(n, i requires 0 <= i < n => PhdrEntry(b, off, size, n, i))
  }

  function First(phdrs: seq<Phdr>, kind: int): Option<Phdr> {
    if phdrs == [] then None
    else if phdrs[0].kind == kind then Some(phdrs[0])
    else First(phdrs[1..], kind)
  }

  /** The dynamic tags from `o`, up to and including the first DT_NULL or as far as whole entries
      fit before `end`. */
  function DynamicTags(b: seq<Byte>, o: nat, end: nat): seq<Tag>
    requires end <= |b|
    decreases end - o
  {
    if o + 8 > end then []
    else
      var t := Tag(Read32(b, o), Read32(b, o + 4));
      if t.tag == DT_NULL then [t] else [t] + DynamicTags(b, o + 8, end)
  }

  function Lookup(dyn: seq<Tag>, tag: int): Option<Word> {
    if dyn == [] then None
    else if dyn[0].tag == tag then Some(dyn[0].val)
    else Lookup(dyn[1..], tag)
  }

  predicate HeaderPresent(b: seq<Byte>) {
    |b| >= 52
  }

  function CheckHeader(b: seq<Byte>): Answer<()> {
    if |b| < 52 then Refused(TooShort)
    else if b[..4] != [0x7f, 0x45, 0x4c, 0x46] then Refused(NoMagic)
    else if b[4] != 1 then Refused(NotElf32)
    else if b[5] != 2 then Refused(NotBigEndian)
    else if Read16(b, 18) != EM_MIPS then Refused(NotMips)
    else Ok(())
  }

  function ProgramHeaders(b: seq<Byte>): Answer<seq<Phdr>>
    requires HeaderPresent(b)
  {
    var phoff, phentsize, phnum := Read32(b, 28), Read16(b, 42), Read16(b, 44);
    if phentsize < 32 || phnum == 0 then Refused(NoProgramHeaders)
    else if phoff + phnum * phentsize > |b| then Refused(TablePastEnd)
    else
      var table := PhdrTable(b, phoff, phentsize, phnum);
      if First(table, PT_LOAD).None? then Refused(NoLoad) else Ok(table)
  }

  function Dynamic(b: seq<Byte>, phdrs: seq<Phdr>): Answer<seq<Tag>> {
    match First(phdrs, PT_DYNAMIC)
    case None => Refused(NoDynamic)
    case Some(p) =>
      if p.offset + p.filesz > |b| then Refused(DynamicPastEnd)
      else Ok(DynamicTags(b, p.offset, p.offset + p.filesz))
  }

  function Parse(b: seq<Byte>): Answer<Elf> {
    match CheckHeader(b)
    case Refused(e) => Refused(e)
    case Ok(_) =>
      match ProgramHeaders(b)
      case Refused(e) => Refused(e)
      case Ok(phdrs) =>
        match Dynamic(b, phdrs)
        case Refused(e) => Refused(e)
        case Ok(dyn) => Ok(Elf(b, phdrs, dyn))
  }

  /** The file offset of a virtual address, through the first PT_LOAD that contains it. */
  function ToOffset(phdrs: seq<Phdr>, vaddr: int): (r: Option<nat>)
    ensures r.Some? ==> exists p :: p in phdrs && p.kind == PT_LOAD
                                    && p.vaddr <= vaddr < p.vaddr + p.filesz
                                    && r.value - p.offset == vaddr - p.vaddr
    ensures r.None? ==> forall p :: p in phdrs && p.kind == PT_LOAD ==>
                          !(p.vaddr <= vaddr < p.vaddr + p.filesz)
  {
    if phdrs == [] then None
    else
      var p := phdrs[0];
      if p.kind == PT_LOAD && p.vaddr <= vaddr < p.vaddr + p.filesz then Some(p.offset + (vaddr - p.vaddr))
      else ToOffset(phdrs[1..], vaddr)
  }

  /** The code window [DT_INIT, DT_FINI) as a file range. */
  function CodeWindow(e: Elf): (r: Answer<Window>)
    ensures r.Ok? ==> r.value.size % 4 == 0 && r.value.offset + r.value.size <= |e.blob|
  {
    var init, fini := Lookup(e.dyn, DT_INIT), Lookup(e.dyn, DT_FINI);
    if init.None? then Refused(NoInit)
    else if fini.None? then Refused(NoFini)
    else if fini.value <= init.value then Refused(FiniNotAboveInit)
    else
      var off, end := ToOffset(e.phdrs, init.value), ToOffset(e.phdrs, fini.value);
      if off.None? then Refused(InitUnmapped)
      else if end.None? then Refused(FiniUnmapped)
      else if end.value <= off.value then Refused(EmptyWindow)
      else
        var size := (end.value - off.value) / 4 * 4;
        if off.value + size > |e.blob| then Refused(WindowPastEnd)
        else Ok(Window(off.value, size, init.value))
  }

  // ------------------------------------------------------------ tokens

  /** One token of the code channel: nop, a primary opcode, SPECIAL by funct, REGIMM by rt, and
      the coprocessors by function selector, never by register. */
  function Token(w: Word): nat {
    var op := w / 0x400_0000;
    if w == 0 then 0
    else if op == 0 then 64 + w % 64
    else if op == 1 then 128 + w / 0x1_0000 % 32
    else if 0x10 <= op <= 0x13 then
      var rs := w / 0x20_0000 % 32;
      160 + (op % 4) * 9 + (if rs < 8 then rs else if rs == 8 then 7 else 8)
    else op
  }

  /** Each token value names its instruction class, and the classes do not overlap. */
  lemma TokenClasses(w: Word)
    ensures var t, op := Token(w), w / 0x400_0000;
            && t < 196 && t != 1 && !(0x10 <= t <= 0x13)
            && (t == 0 <==> w == 0)
            && (2 <= t < 64 <==> t == op && op != 0 && op != 1)
            && (64 <= t < 128 <==> op == 0 && w != 0)
            && (128 <= t < 160 <==> op == 1)
            && (160 <= t <==> 0x10 <= op <= 0x13)
  {
  }

  function Tokens(b: seq<Byte>, off: nat, count: nat): (r: seq<nat>)
    requires off + 4 * count <= |b|
    ensures |r| == count
    ensures forall i :: 0 <= i < count ==> r[i] == Token(Read32(b, off + 4 * i))
  {
    seq(count, i requires 0 <= i < count => Token(Read32(b, off + 4 * i)))
  }

  // ------------------------------------------------------------ the reader's loops

  method ReadProgramHeaders(b: seq<Byte>) returns (r: Answer<seq<Phdr>>)
    requires HeaderPresent(b)
    ensures r == ProgramHeaders(b)
  {
    var phoff, phentsize, phnum := Read32(b, 28), Read16(b, 42), Read16(b, 44);
    if phentsize < 32 || phnum == 0 {
      return Refused(NoProgramHeaders);
    }
    if phoff + phnum * phentsize > |b| {
      return Refused(TablePastEnd);
    }
    var out: seq<Phdr> := [];
    ghost var table := PhdrTable(b, phoff, phentsize, phnum);
    for i := 0 to phnum
      invariant out == table[..i]
    {
      out := out + [PhdrEntry(b, phoff, phentsize, phnum, i)];
    }
    assert out == table;
    if First(out, PT_LOAD).None? {
      return Refused(NoLoad);
    }
    return Ok(out);
  }

  method ReadDynamic(b: seq<Byte>, phdrs: seq<Phdr>) returns (r: Answer<seq<Tag>>)
    ensures r == Dynamic(b, phdrs)
  {
    var p := First(phdrs, PT_DYNAMIC);
    if p.None? {
      return Refused(NoDynamic);
    }
    var end := p.value.offset + p.value.filesz;
    if end > |b| {
      return Refused(DynamicPastEnd);
    }
    var tags, o: nat := [], p.value.offset;
    while o + 8 <= end
      invariant tags + DynamicTags(b, o, end) == DynamicTags(b, p.value.offset, end)
    {
      var t := Tag(Read32(b, o), Read32(b, o + 4));
      tags := tags + [t];
      if t.tag == DT_NULL {
        return Ok(tags);
      }
      o := o + 8;
    }
    assert tags + [] == tags;
    return Ok(tags);
  }

  method Tokenize(b: seq<Byte>, off: nat, size: nat) returns (out: seq<nat>)
    requires off + size <= |b| && size % 4 == 0
    ensures out == Tokens(b, off, size / 4)
  {
    out := [];
    var i := off;
    while i < off + size
      invariant off <= i <= off + size && (i - off) % 4 == 0
      invariant out == Tokens(b, off, size / 4)[..(i - off) / 4]
    {
      out := out + [Token(Read32(b, i))];
      i := i + 4;
    }
  }

  function WindowCode(e: Elf): Answer<seq<nat>> {
    match CodeWindow(e)
    case Refused(why) => Refused(why)
    case Ok(w) => Ok(Tokens(e.blob, w.offset, w.size / 4))
  }

  /** What the code channel sees of a file: its window's tokens, or the reason it has none. */
  function Code(b: seq<Byte>): Answer<seq<nat>> {
    match Parse(b)
    case Refused(e) => Refused(e)
    case Ok(elf) => WindowCode(elf)
  }

  /** The whole chain on arbitrary bytes.  Every read is within the file: each of the functions
      called here requires it. */
  method ReadCode(b: seq<Byte>) returns (r: Answer<seq<nat>>)
    ensures r == Code(b)
  {
    var header := CheckHeader(b);
    if header.Refused? {
      return Refused(header.why);
    }
    var phdrs := ReadProgramHeaders(b);
    if phdrs.Refused? {
      return Refused(phdrs.why);
    }
    var dyn := ReadDynamic(b, phdrs.value);
    if dyn.Refused? {
      return Refused(dyn.why);
    }
    var window := CodeWindow(Elf(b, phdrs.value, dyn.value));
    if window.Refused? {
      return Refused(window.why);
    }
    var tokens := Tokenize(b, window.value.offset, window.value.size);
    return Ok(tokens);
  }

  // ------------------------------------------------------------ the writer

  const SYN_BASE := 0x0040_0000
  const SYN_EHSIZE := 52
  const SYN_PHENT := 32

  /** What a synthetic file is built from: the code words, the window's bounds as word indices,
      and the header fields a control may falsify. */
  datatype Fixture = Fixture(words: seq<Word>, initIndex: nat, finiIndex: nat, extra: nat,
                             machine: nat, elfClass: Byte, data: Byte, dynamic: bool,
                             flags: Word, tail: seq<Byte>)
  {
    function Headers(): nat { 2 + extra }

    function DynamicOffset(): nat { SYN_EHSIZE + Headers() * SYN_PHENT }

    function CodeOffset(): nat { DynamicOffset() + (if dynamic then 24 else 0) }

    function Total(): nat { CodeOffset() + 4 * |words| + 16 + |tail| }

    /** The sizes fit the fields they are packed into, and the window lies over the code array. */
    predicate Packs() {
      && Headers() < 0x1_0000 && machine < 0x1_0000
      && SYN_BASE + Total() < 0x1_0000_0000
      && initIndex <= |words| && finiIndex <= |words|
    }
  }

  function CodeBytes(words: seq<Word>): (r: seq<Byte>)
    ensures |r| == 4 * |words|
  {
    if words == [] then [] else Be32(words[0]) + CodeBytes(words[1..])
  }

  function PhdrBytes(p: Phdr): (r: seq<Byte>)
    ensures |r| == 32
  {
    Be32(p.kind) + (Be32(p.offset) + (Be32(p.vaddr) + (Be32(p.paddr)
    + (Be32(p.filesz) + (Be32(p.memsz) + (Be32(p.flags) + Be32(p.align)))))))
  }

  function NoteHeaders(n: nat): (r: seq<Byte>)
    ensures |r| == 32 * n
  {
    if n == 0 then [] else PhdrBytes(Phdr(PT_NOTE, 0, 0, 0, 0, 0, 4, 4)) + NoteHeaders(n - 1)
  }

  function TagBytes(t: Tag): seq<Byte> {
    Be32(t.tag) + Be32(t.val)
  }

  function Padding(n: nat): (r: seq<Byte>)
    ensures |r| == n
  {
    seq(n, _ => 0)
  }

  function FileHeader(f: Fixture): (r: seq<Byte>)
    requires f.Packs()
    ensures |r| == SYN_EHSIZE
  {
    ([0x7f, 0x45, 0x4c, 0x46, f.elfClass, f.data, 1] + Padding(9))
    + (Be16(2) + (Be16(f.machine) + (Be32(1) + (Be32(SYN_BASE + f.CodeOffset())
    + (Be32(SYN_EHSIZE) + (Be32(0) + (Be32(f.flags)
    + (Be16(SYN_EHSIZE) + (Be16(SYN_PHENT) + (Be16(f.Headers()) + Padding(6)))))))))))
  }

  function LoadHeader(f: Fixture): Phdr
    requires f.Packs()
  {
    Phdr(PT_LOAD, 0, SYN_BASE, SYN_BASE, f.Total(), f.Total(), 5, 0x1_0000)
  }

  function SecondHeader(f: Fixture): Phdr
    requires f.Packs()
  {
    var off, at := f.DynamicOffset(), SYN_BASE + f.DynamicOffset();
    if f.dynamic then Phdr(PT_DYNAMIC, off, at, at, 24, 24, 6, 4)
    else Phdr(PT_NOTE, off, at, at, 0, 0, 4, 4)
  }

  function DynamicBytes(f: Fixture): (r: seq<Byte>)
    requires f.Packs()
    ensures |r| == f.CodeOffset() - f.DynamicOffset()
  {
    var code := SYN_BASE + f.CodeOffset();
    if f.dynamic then
      TagBytes(Tag(DT_INIT, code + 4 * f.initIndex))
      + (TagBytes(Tag(DT_FINI, code + 4 * f.finiIndex)) + TagBytes(Tag(DT_NULL, 0)))
    else []
  }

  /** Layout: file header, program headers, dynamic tags, code, sixteen zero bytes, tail. */
  function Synthesize(f: Fixture): (r: seq<Byte>)
    requires f.Packs()
    ensures |r| == f.Total()
  {
    FileHeader(f)
    + (PhdrBytes(LoadHeader(f))
    + (PhdrBytes(SecondHeader(f)) + (NoteHeaders(f.extra)
    + (DynamicBytes(f) + (CodeBytes(f.words) + (Padding(16) + f.tail))))))
  }

  // ------------------------------------------------------------ reading back what was written

  /** The bytes of `b` from `o` on begin with `c`. */
  ghost predicate Holds(b: seq<Byte>, o: nat, c: seq<Byte>) {
    o + |c| <= |b| && b[o..o + |c|] == c
  }

  lemma Peel(b: seq<Byte>, o: nat, c: seq<Byte>, d: seq<Byte>)
    requires Holds(b, o, c + d)
    ensures Holds(b, o, c) && Holds(b, o + |c|, d)
  {
    assert b[o..o + |c|] == (c + d)[..|c|];
    assert b[o + |c|..o + |c| + |d|] == (c + d)[|c|..];
  }

  lemma ReadsBack32(b: seq<Byte>, o: nat, x: Word)
    requires Holds(b, o, Be32(x))
    ensures o + 4 <= |b| && Read32(b, o) == x
  {
    var c := b[o..o + 4];
    assert b[o] == c[0] && b[o + 1] == c[1] && b[o + 2] == c[2] && b[o + 3] == c[3];
    SplitWord(x);
  }

  lemma SplitWord(x: Word)
    ensures x == x / 0x100_0000 * 0x100_0000 + x / 0x1_0000 % 256 * 0x1_0000 + x / 256 % 256 * 256 + x % 256
  {
    assert x / 256 / 256 == x / 0x1_0000;
    assert x / 0x1_0000 / 256 == x / 0x100_0000;
  }

  lemma ReadsBack16(b: seq<Byte>, o: nat, x: int)
    requires 0 <= x < 0x1_0000 && Holds(b, o, Be16(x))
    ensures o + 2 <= |b| && Read16(b, o) == x
  {
    var c := b[o..o + 2];
    assert b[o] == c[0] && b[o + 1] == c[1];
  }

  lemma ReadsBackPhdr(b: seq<Byte>, o: nat, p: Phdr)
    requires Holds(b, o, PhdrBytes(p))
    ensures o + 32 <= |b| && PhdrAt(b, o) == p
  {
    var t7 := Be32(p.align);
    var t6 := Be32(p.flags) + t7;
    var t5 := Be32(p.memsz) + t6;
    var t4 := Be32(p.filesz) + t5;
    var t3 := Be32(p.paddr) + t4;
    var t2 := Be32(p.vaddr) + t3;
    var t1 := Be32(p.offset) + t2;
    Peel(b, o, Be32(p.kind), t1);
    Peel(b, o + 4, Be32(p.offset), t2);
    Peel(b, o + 8, Be32(p.vaddr), t3);
    Peel(b, o + 12, Be32(p.paddr), t4);
    Peel(b, o + 16, Be32(p.filesz), t5);
    Peel(b, o + 20, Be32(p.memsz), t6);
    Peel(b, o + 24, Be32(p.flags), t7);
    ReadsBack32(b, o, p.kind);
    ReadsBack32(b, o + 4, p.offset);
    ReadsBack32(b, o + 8, p.vaddr);
    ReadsBack32(b, o + 12, p.paddr);
    ReadsBack32(b, o + 16, p.filesz);
    ReadsBack32(b, o + 20, p.memsz);
    ReadsBack32(b, o + 24, p.flags);
    ReadsBack32(b, o + 28, p.align);
  }

  lemma {:induction false} ReadsBackCode(b: seq<Byte>, o: nat, words: seq<Word>, i: nat)
    requires Holds(b, o, CodeBytes(words)) && i < |words|
    ensures o + 4 * i + 4 <= |b| && Read32(b, o + 4 * i) == words[i]
    decreases i
  {
    Peel(b, o, Be32(words[0]), CodeBytes(words[1..]));
    if i == 0 {
      ReadsBack32(b, o, words[0]);
    } else {
      ReadsBackCode(b, o + 4, words[1..], i - 1);
    }
  }

  lemma {:induction false} ReadsBackNotes(b: seq<Byte>, o: nat, n: nat, i: nat)
    requires Holds(b, o, NoteHeaders(n)) && i < n
    ensures o + 32 * i + 32 <= |b| && PhdrAt(b, o + 32 * i).kind == PT_NOTE
    decreases i
  {
    var note := Phdr(PT_NOTE, 0, 0, 0, 0, 0, 4, 4);
    assert NoteHeaders(n) == PhdrBytes(note) + NoteHeaders(n - 1);
    hide NoteHeaders, PhdrBytes, PhdrAt, Holds;
    Peel(b, o, PhdrBytes(note), NoteHeaders(n - 1));
    if i == 0 {
      ReadsBackPhdr(b, o, note);
    } else {
      ReadsBackNotes(b, o + 32, n - 1, i - 1);
    }
  }

  lemma HoldsItself(b: seq<Byte>)
    ensures Holds(b, 0, b)
  {}

  /** Six chunks and a rest, one after another, each sit at the sum of the lengths before it. */
  lemma PeelSix(b: seq<Byte>, c0: seq<Byte>, c1: seq<Byte>, c2: seq<Byte>, c3: seq<Byte>,
                c4: seq<Byte>, c5: seq<Byte>, rest: seq<Byte>)
    requires b == c0 + (c1 + (c2 + (c3 + (c4 + (c5 + rest)))))
    ensures Holds(b, 0, c0)
    ensures Holds(b, |c0|, c1)
    ensures Holds(b, |c0| + |c1|, c2)
    ensures Holds(b, |c0| + |c1| + |c2|, c3)
    ensures Holds(b, |c0| + |c1| + |c2| + |c3|, c4)
    ensures Holds(b, |c0| + |c1| + |c2| + |c3| + |c4|, c5)
  {
    var t5 := c5 + rest;
    var t4 := c4 + t5;
    var t3 := c3 + t4;
    var t2 := c2 + t3;
    var t1 := c1 + t2;
    HoldsItself(b);
    hide Holds;
    Peel(b, 0, c0, t1);
    Peel(b, |c0|, c1, t2);
    Peel(b, |c0| + |c1|, c2, t3);
    Peel(b, |c0| + |c1| + |c2|, c3, t4);
    Peel(b, |c0| + |c1| + |c2| + |c3|, c4, t5);
    Peel(b, |c0| + |c1| + |c2| + |c3| + |c4|, c5, rest);
  }

  /** The parts of a synthetic file sit where the layout says. */
  ghost predicate LaidOut(b: seq<Byte>, f: Fixture)
    requires f.Packs()
  {
    && |b| == f.Total()
    && Holds(b, 0, FileHeader(f))
    && Holds(b, 52, PhdrBytes(LoadHeader(f)))
    && Holds(b, 84, PhdrBytes(SecondHeader(f)))
    && Holds(b, 116, NoteHeaders(f.extra))
    && Holds(b, f.DynamicOffset(), DynamicBytes(f))
    && Holds(b, f.CodeOffset(), CodeBytes(f.words))
  }

  lemma Layout(f: Fixture)
    requires f.Packs()
    ensures LaidOut(Synthesize(f), f)
  {
    PeelSix(Synthesize(f), FileHeader(f), PhdrBytes(LoadHeader(f)), PhdrBytes(SecondHeader(f)),
            NoteHeaders(f.extra), DynamicBytes(f), CodeBytes(f.words), Padding(16) + f.tail);
  }

  ghost predicate HeaderReads(b: seq<Byte>, f: Fixture) {
    && |b| >= SYN_EHSIZE
    && b[..4] == [0x7f, 0x45, 0x4c, 0x46] && b[4] == f.elfClass && b[5] == f.data
    && Read16(b, 18) == f.machine && Read32(b, 28) == SYN_EHSIZE
    && Read16(b, 42) == SYN_PHENT && Read16(b, 44) == f.Headers()
  }

  lemma HeaderReadsBack(f: Fixture, b: seq<Byte>)
    requires f.Packs() && Holds(b, 0, FileHeader(f))
    ensures HeaderReads(b, f)
  {
    HeaderParts(f, b);
    ReadsBack16(b, 18, f.machine);
    ReadsBack32(b, 28, SYN_EHSIZE);
    ReadsBack16(b, 42, SYN_PHENT);
    ReadsBack16(b, 44, f.Headers());
    assert b[..4] == b[0..16][..4];
    assert b[4] == b[0..16][4] && b[5] == b[0..16][5];
  }

  lemma HeaderParts(f: Fixture, b: seq<Byte>)
    requires f.Packs() && Holds(b, 0, FileHeader(f))
    ensures Holds(b, 0, [0x7f, 0x45, 0x4c, 0x46, f.elfClass, f.data, 1] + Padding(9))
    ensures Holds(b, 18, Be16(f.machine)) && Holds(b, 28, Be32(SYN_EHSIZE))
    ensures Holds(b, 42, Be16(SYN_PHENT)) && Holds(b, 44, Be16(f.Headers()))
  {
    var ident: seq<Byte> := [0x7f, 0x45, 0x4c, 0x46, f.elfClass, f.data, 1] + Padding(9);
    var t11 := Padding(6);
    var t10 := Be16(f.Headers()) + t11;
    var t9 := Be16(SYN_PHENT) + t10;
    var t8 := Be16(SYN_EHSIZE) + t9;
    var t7 := Be32(f.flags) + t8;
    var t6 := Be32(0) + t7;
    var t5 := Be32(SYN_EHSIZE) + t6;
    var t4 := Be32(SYN_BASE + f.CodeOffset()) + t5;
    var t3 := Be32(1) + t4;
    var t2 := Be16(f.machine) + t3;
    var t1 := Be16(2) + t2;
    Peel(b, 0, ident, t1);
    Peel(b, 16, Be16(2), t2);
    Peel(b, 18, Be16(f.machine), t3);
    Peel(b, 20, Be32(1), t4);
    Peel(b, 24, Be32(SYN_BASE + f.CodeOffset()), t5);
    Peel(b, 28, Be32(SYN_EHSIZE), t6);
    Peel(b, 32, Be32(0), t7);
    Peel(b, 36, Be32(f.flags), t8);
    Peel(b, 40, Be16(SYN_EHSIZE), t9);
    Peel(b, 42, Be16(SYN_PHENT), t10);
    Peel(b, 44, Be16(f.Headers()), t11);
  }

  /** What a reader finds in a file laid out from `f`, field by field. */
  ghost predicate ReadsAs(b: seq<Byte>, f: Fixture)
    requires f.Packs()
  {
    && |b| == f.Total() >= SYN_EHSIZE + f.Headers() * SYN_PHENT
    && HeaderReads(b, f)
    && PhdrAt(b, 52) == LoadHeader(f)
    && PhdrAt(b, 84) == SecondHeader(f)
    && NotesAt(b, 116, f.extra)
    && (f.dynamic ==> TagsAt(b, f.DynamicOffset(), f))
    && WordsAt(b, f.CodeOffset(), f.words)
  }

  ghost predicate NotesAt(b: seq<Byte>, o: nat, n: nat) {
    forall i :: 0 <= i < n ==> NoteAt(b, o + 32 * i)
  }

  ghost predicate WordsAt(b: seq<Byte>, o: nat, words: seq<Word>) {
    forall i :: 0 <= i < |words| ==> WordAt(b, o + 4 * i, words[i])
  }

  ghost predicate NoteAt(b: seq<Byte>, o: nat) {
    o + 32 <= |b| && PhdrAt(b, o).kind == PT_NOTE
  }

  ghost predicate WordAt(b: seq<Byte>, o: nat, w: int) {
    o + 4 <= |b| && Read32(b, o) == w
  }

  ghost predicate TagsAt(b: seq<Byte>, o: nat, f: Fixture) {
    var code := SYN_BASE + f.CodeOffset();
    && WordAt(b, o, DT_INIT) && WordAt(b, o + 4, code + 4 * f.initIndex)
    && WordAt(b, o + 8, DT_FINI) && WordAt(b, o + 12, code + 4 * f.finiIndex)
    && WordAt(b, o + 16, DT_NULL) && WordAt(b, o + 20, 0)
  }

  lemma TagsReadBack(f: Fixture, b: seq<Byte>, o: nat)
    requires f.Packs() && f.dynamic && Holds(b, o, DynamicBytes(f))
    ensures TagsAt(b, o, f)
  {
    var code := SYN_BASE + f.CodeOffset();
    var init, fini, last := Tag(DT_INIT, code + 4 * f.initIndex), Tag(DT_FINI, code + 4 * f.finiIndex), Tag(DT_NULL, 0);
    Peel(b, o, TagBytes(init), TagBytes(fini) + TagBytes(last));
    Peel(b, o + 8, TagBytes(fini), TagBytes(last));
    ReadsBackTag(b, o, init);
    ReadsBackTag(b, o + 8, fini);
    ReadsBackTag(b, o + 16, last);
  }

  lemma ReadsBackTag(b: seq<Byte>, o: nat, t: Tag)
    requires Holds(b, o, TagBytes(t))
    ensures WordAt(b, o, t.tag) && WordAt(b, o + 4, t.val)
  {
    Peel(b, o, Be32(t.tag), Be32(t.val));
    ReadsBack32(b, o, t.tag);
    ReadsBack32(b, o + 4, t.val);
  }

  lemma NotesReadBack(b: seq<Byte>, o: nat, n: nat)
    requires Holds(b, o, NoteHeaders(n))
    ensures NotesAt(b, o, n)
  {
    forall i | 0 <= i < n ensures NoteAt(b, o + 32 * i) {
      ReadsBackNotes(b, o, n, i);
    }
  }

  lemma WordsReadBack(b: seq<Byte>, o: nat, words: seq<Word>)
    requires Holds(b, o, CodeBytes(words))
    ensures WordsAt(b, o, words)
  {
    forall i | 0 <= i < |words| ensures WordAt(b, o + 4 * i, words[i]) {
      ReadsBackCode(b, o, words, i);
    }
  }

  lemma LaidOutReads(f: Fixture, b: seq<Byte>)
    requires f.Packs() && LaidOut(b, f)
    ensures ReadsAs(b, f)
  {
    HeaderReadsBack(f, b);
    ReadsBackPhdr(b, 52, LoadHeader(f));
    ReadsBackPhdr(b, 84, SecondHeader(f));
    NotesReadBack(b, 116, f.extra);
    if f.dynamic {
      TagsReadBack(f, b, f.DynamicOffset());
    }
    WordsReadBack(b, f.CodeOffset(), f.words);
  }

  /** Everything the writer put in a file is read back from it. */
  lemma WrittenReadsBack(f: Fixture)
    requires f.Packs()
    ensures ReadsAs(Synthesize(f), f)
  {
    Layout(f);
    LaidOutReads(f, Synthesize(f));
  }

  /** The program header table as parsed: the load, then the dynamic (or its stand-in), then
      notes only. */
  ghost predicate TableOf(f: Fixture, table: seq<Phdr>)
    requires f.Packs()
  {
    && |table| == f.Headers()
    && table[0] == LoadHeader(f)
    && table[1] == SecondHeader(f)
    && forall i :: 2 <= i < |table| ==> table[i].kind == PT_NOTE
  }

  lemma TableReadsBack(f: Fixture, b: seq<Byte>)
    requires f.Packs() && ReadsAs(b, f)
    ensures TableOf(f, PhdrTable(b, SYN_EHSIZE, SYN_PHENT, f.Headers()))
  {
    var table := PhdrTable(b, SYN_EHSIZE, SYN_PHENT, f.Headers());
    forall i | 2 <= i < |table| ensures table[i].kind == PT_NOTE {
      assert NoteAt(b, 116 + 32 * (i - 2));
    }
  }

  lemma {:induction false} FirstNone(phdrs: seq<Phdr>, kind: int)
    requires forall i :: 0 <= i < |phdrs| ==> phdrs[i].kind != kind
    ensures First(phdrs, kind).None?
  {
    if phdrs != [] {
      FirstNone(phdrs[1..], kind);
    }
  }

  lemma FirstHeaders(f: Fixture, table: seq<Phdr>)
    requires f.Packs() && TableOf(f, table)
    ensures First(table, PT_LOAD) == Some(LoadHeader(f))
    ensures First(table, PT_DYNAMIC) == if f.dynamic then Some(SecondHeader(f)) else None
  {
    assert table[1..][0] == table[1];
    FirstNone(table[2..], PT_DYNAMIC);
    assert table[1..][1..] == table[2..];
  }

  ghost function WrittenTags(f: Fixture): seq<Tag>
    requires f.Packs()
  {
    var code := SYN_BASE + f.CodeOffset();
    [Tag(DT_INIT, code + 4 * f.initIndex), Tag(DT_FINI, code + 4 * f.finiIndex), Tag(DT_NULL, 0)]
  }

  lemma TagsThere(f: Fixture, b: seq<Byte>)
    requires f.Packs() && f.dynamic && ReadsAs(b, f)
    ensures var o := f.DynamicOffset();
            var tags := WrittenTags(f);
            o + 24 <= |b| && TagAt(b, o, tags[0]) && TagAt(b, o + 8, tags[1]) && TagAt(b, o + 16, tags[2])
  {}

  ghost predicate TagAt(b: seq<Byte>, o: nat, t: Tag) { WordAt(b, o, t.tag) && WordAt(b, o + 4, t.val) }

  lemma DynamicReadsBack(f: Fixture, b: seq<Byte>)
    requires f.Packs() && f.dynamic && ReadsAs(b, f)
    ensures DynamicTags(b, f.DynamicOffset(), f.DynamicOffset() + 24) == WrittenTags(f)
  {
    hide ReadsAs, DynamicTags, TagAt;
    var tags := WrittenTags(f);
    TagsThere(f, b);
    ThreeTags(b, f.DynamicOffset(), tags[0], tags[1], tags[2]);
  }

  lemma ThreeTags(b: seq<Byte>, o: nat, t0: Tag, t1: Tag, t2: Tag)
    requires o + 24 <= |b| && TagAt(b, o, t0) && TagAt(b, o + 8, t1) && TagAt(b, o + 16, t2)
    requires t0.tag != DT_NULL && t1.tag != DT_NULL && t2.tag == DT_NULL
    ensures DynamicTags(b, o, o + 24) == [t0, t1, t2]
  {
    hide DynamicTags, TagAt;
    TagStep(b, o + 16, o + 24, t2);
    TagStep(b, o + 8, o + 24, t1);
    TagStep(b, o, o + 24, t0);
  }

  lemma TagStep(b: seq<Byte>, o: nat, end: nat, t: Tag)
    requires TagAt(b, o, t) && o + 8 <= end <= |b|
    ensures DynamicTags(b, o, end) == if t.tag == DT_NULL then [t] else [t] + DynamicTags(b, o + 8, end)
  {}

  /** A synthetic file parses exactly when no control falsified its header. */
  lemma ParsesExactly(f: Fixture)
    requires f.Packs()
    ensures Parse(Synthesize(f)).Ok?
            <==> f.elfClass == 1 && f.data == 2 && f.machine == EM_MIPS && f.dynamic
    ensures Parse(Synthesize(f)).Ok? ==>
              && Parse(Synthesize(f)).value.blob == Synthesize(f)
              && TableOf(f, Parse(Synthesize(f)).value.phdrs)
              && Parse(Synthesize(f)).value.dyn == WrittenTags(f)
  {
    WrittenReadsBack(f);
    ParsesReadable(f, Synthesize(f));
  }

  lemma ParsesReadable(f: Fixture, b: seq<Byte>)
    requires f.Packs() && ReadsAs(b, f)
    ensures Parse(b).Ok? <==> f.elfClass == 1 && f.data == 2 && f.machine == EM_MIPS && f.dynamic
    ensures Parse(b).Ok? ==>
              && Parse(b).value.blob == b
              && TableOf(f, Parse(b).value.phdrs)
              && Parse(b).value.dyn == WrittenTags(f)
  {
    TableReadsBack(f, b);
    FirstHeaders(f, PhdrTable(b, SYN_EHSIZE, SYN_PHENT, f.Headers()));
    if f.dynamic {
      DynamicReadsBack(f, b);
    }
  }

  lemma WindowReadsBack(f: Fixture, elf: Elf)
    requires f.Packs() && |elf.blob| == f.Total()
    requires TableOf(f, elf.phdrs) && elf.dyn == WrittenTags(f)
    ensures f.initIndex >= f.finiIndex ==> CodeWindow(elf) == Refused(FiniNotAboveInit)
    ensures f.initIndex < f.finiIndex ==>
              CodeWindow(elf) == Ok(Window(f.CodeOffset() + 4 * f.initIndex, 4 * (f.finiIndex - f.initIndex),
                                           SYN_BASE + f.CodeOffset() + 4 * f.initIndex))
  {
    var init, fini := elf.dyn[0].val, elf.dyn[1].val;
    assert Lookup(elf.dyn, DT_INIT) == Some(init);
    assert elf.dyn[1..][0] == elf.dyn[1];
    assert Lookup(elf.dyn, DT_FINI) == Some(fini);
    assert ToOffset(elf.phdrs, init) == Some(init - SYN_BASE);
    assert ToOffset(elf.phdrs, fini) == Some(fini - SYN_BASE);
  }

  /** Writer, reader and tokeniser agree: the code of a synthetic file is the tokens of the words
      between its two indices; with no word between them it is refused. */
  lemma RoundTrip(f: Fixture)
    requires f.Packs()
    requires f.elfClass == 1 && f.data == 2 && f.machine == EM_MIPS && f.dynamic
    ensures f.initIndex >= f.finiIndex ==> Code(Synthesize(f)) == Refused(FiniNotAboveInit)
    ensures f.initIndex < f.finiIndex ==>
              Code(Synthesize(f)) == Ok(TokensOf(f.words[f.initIndex..f.finiIndex]))
  {
    ParsesExactly(f);
    WrittenReadsBack(f);
    WindowCodeReadsBack(f, Parse(Synthesize(f)).value);
  }

  ghost function TokensOf(words: seq<Word>): seq<nat> {
    seq(|words|, i requires 0 <= i < |words| => Token(words[i]))
  }

  lemma TokensReadBack(b: seq<Byte>, o: nat, words: seq<Word>, from: nat, to: nat)
    requires WordsAt(b, o, words) && from < to <= |words|
    requires o + 4 * to <= |b|
    ensures Tokens(b, o + 4 * from, to - from) == TokensOf(words[from..to])
  {
    forall i | 0 <= i < to - from
      ensures Tokens(b, o + 4 * from, to - from)[i] == TokensOf(words[from..to])[i]
    {
      assert WordAt(b, o + 4 * (from + i), words[from + i]);
    }
  }

  lemma WindowCodeReadsBack(f: Fixture, elf: Elf)
    requires f.Packs() && |elf.blob| == f.Total() && WordsAt(elf.blob, f.CodeOffset(), f.words)
    requires TableOf(f, elf.phdrs) && elf.dyn == WrittenTags(f)
    ensures f.initIndex >= f.finiIndex ==> WindowCode(elf) == Refused(FiniNotAboveInit)
    ensures f.initIndex < f.finiIndex ==> WindowCode(elf) == Ok(TokensOf(f.words[f.initIndex..f.finiIndex]))
  {
    WindowReadsBack(f, elf);
    if f.initIndex < f.finiIndex {
      TokensReadBack(elf.blob, f.CodeOffset(), f.words, f.initIndex, f.finiIndex);
    }
  }

  // ------------------------------------------------------------ arbitrary bytes

  /** On any bytes the chain refuses, or answers size/4 tokens, each below 196, taken from a
      window inside the file. */
  lemma CodeIsWindowed(b: seq<Byte>)
    ensures Code(b).Ok? ==>
              exists w: Window :: Parse(b).Ok? && CodeWindow(Parse(b).value) == Ok(w)
                                  && w.offset + w.size <= |b| && |Code(b).value| == w.size / 4
    ensures Code(b).Ok? ==> forall i :: 0 <= i < |Code(b).value| ==> Code(b).value[i] < 196
  {
    if Code(b).Ok? {
      var w := CodeWindow(Parse(b).value).value;
      forall i | 0 <= i < |Code(b).value| ensures Code(b).value[i] < 196 {
        TokenClasses(Read32(b, w.offset + 4 * i));
      }
    }
  }
}
