# Verified models of the bench instruments

The repository is a suite of Python instruments around a router board's console: a runner that
executes the cells of a bench card, readers that turn console captures into verdicts, and tools
that measure firmware images. This project models the algorithmic cores of eight of them in Dafny
and proves what their documentation and controls rely on, for every input instead of for the
fixtures. Where a tool works by changing state in a loop or in an object, the model does too: a
method or a class, proved equal to a function, about which the theorems then speak.

| File | Tool | What is modelled |
|---|---|---|
| `Runner.dfy` | `cardrun.py` | arguments, plan, run, start signals, teardown, as a class and as a function of a host script |
| `Gates.dfy` | `cardrun.py` | what the gates ask of a log and of a `.meta.json` of any shape |
| `Runs.dfy` | `cardrun.py` | what every run keeps: exits, tracebacks, starts, records, signals |
| `Shell.dfy`, `Unwrap.dfy` | `cardrun.py` | the shell lexer, the splitter into simple commands, the removal of keywords and wrappers |
| `Macros.dfy` | `cardrun.py` | the one-pass macro expander |
| `Landmarks.dfy` | `boot-timeline.py` | landmark search, bisection, segments, the table check and the shipped tables |
| `Scheduling.dfy` | `boot-timeline.py` | `could_fit` and the class a kernel boot inherits |
| `Elf.dfy`, `Kgrams.dfy`, `Controls.dfy` | `binsim.py` | ELF reader and writer, MIPS tokens, FNV-1a k-gram sets, both measures, the controls that rebuild a file |
| `SlotLines.dfy`, `SlotReader.dfy`, `SlotFixture.dfy` | `bootslot.py` | the payload's lines, the reader and judge of a slot capture, the fixture printer |
| `BootBytes.dfy` | `bootbytes.py` | the byte account of a boot capture |
| `Applets.dfy` | `appletcensus.py` | the applet table finder |
| `CardDates.dfy` | `capdate.py` | declared dates against directories and captures, D5 to D10 |
| `Echo.dfy` | `capfield.py` | the echo matcher and the field reader |
| `Common.dfy`, `Text.dfy` | | `Option`, `Result`, and text operations shared by the readers |

Conventions. `Refused` carries the reason of the tool's own exception. Text is a sequence of
characters, one for each byte or character the tool reads. Decimal digits, blanks and word
characters in patterns are the ASCII ones. Ratios are exact fractions and times are reals. What a tool learns from the
host (a record already there, an exit code, a signal survived, what a `.meta.json` holds, whether the
transcript can be written) is an input, and the theorems hold for all of them.

## Findings

Five statements that read as if they held do not, and the model says exactly when they do.

* `find_applets` recovers a first name from the record before the run with a pattern that ends in
  `$`, which in Python also matches before one final newline. The recovered name is separated from
  the run by exactly one NUL if and only if that record does not end in a newline
  (`Applets.RecoveryKeepsRun`). For every ascending list of at least nineteen names there is a blob
  for which the tool's one answer has that gap (`Applets.RecoveryLeavesGap`).
* The comment in `run` says that a stop is "never a traceback that leaves HOST& children running".
  There are five ways to one: a card's command that holds a NUL is taken to `subprocess`, which
  refuses it with a `ValueError`; a record is read that is JSON but not of the shape expected (`_meta`
  returns any value); a stop's reason cannot be written, which comes before the teardown; a line of the last
  waits, or the last line of all, cannot be written, where only an interrupt is caught; a line of
  the teardown cannot be written, and the rest of it is not carried out. `Runs.ReturnsExactly` says
  for all inputs when a run ends in a traceback and `Runs.SentExactly` which signals any run has
  sent by its end; `Runs.LeftExactly` says exactly which groups are left, and
  `Runs.TracebackLeavesAll` exactly when no group is signalled at all. `Runs.RecordThatBreaks` is
  such a run.
* The teardown leaves nothing running only among groups that take its signals: a group that outlives
  the grace and refuses the kill stays (`Runs.StopLeavesNothing` has the exact condition).
* A wait for a cell that nothing started would end the runner in a traceback too; only the plan's
  refusal prevents it (`Runs.UnplannedWaitCrashes`).
* The slot reader does not treat a slot row and a halt row as exclusive: a slot row before a halt
  that the verdicts support changes no verdict (`SlotFixture.StraySlotRow`).

## Model

| member | source | states |
|---|---|---|
| `Runner.RefuseArgs` | tools/cardrun.py:966-986 | accepts exactly a bare --self-test, or a card with a non-empty item list in which every item parses and no cell is named twice, with --log unless --dry |
| `Runner.Runner.constructor` | tools/cardrun.py:671-680 | a fresh runner has empty tables and no lines, over the records on disk |
| `Runner.Runner.Plan` | tools/cardrun.py:712-737 | accepts exactly the planned lists (each item names a fenced cell, each wait an earlier background start, no background reading, every expansion and start signal known) and then has every background program on record |
| `Runner.Runner.SayLine` | tools/cardrun.py:683-690 | one transcript line is added and nothing else changes, also when it cannot be written, which is answered |
| `Runner.Runner.NoteRc` | tools/cardrun.py:832-839 | exit 0 passes, a declared reading is recorded and passes if its line can be written, anything else stops |
| `Runner.Runner.AwaitStart` | tools/cardrun.py:841-869 | the start loop answers what its specification says and changes no field |
| `Runner.Runner.StartBackground` | tools/cardrun.py:815-826 | a started background cell enters the table, and passes once its start signal is seen and told |
| `Runner.Runner.CallForeground` | tools/cardrun.py:803-830 | a foreground cell is interrupted, dies on a CAP record that is no object, stops, or passes, as specified |
| `Runs.StartSeenExactly` | tools/cardrun.py:841-869 | the start signal is seen exactly at the first turn that shows it, when no earlier turn found the leader gone or the deadline past; the clock's own tool is asked once |
| `Runner.Runner.Cell` | tools/cardrun.py:791-830 | one cell moves the runner to the specified state: record check, RUN line, record opened exclusively, start (refused for a command with a NUL), start signal or exit code |
| `Gates.PromptSeenExactly` | tools/cardrun.py:924-929 | a returned prompt is seen, or the search for it dies, exactly by which comes first among the carriage returns: one that saw it or one that is no object |
| `Gates.BreaksExactly` | tools/cardrun.py:908-945 | for every JSON value, log and kind, a gate dies in an exception exactly when it reads a record that is no object, a stop reason that cannot be searched, or such carriage returns; `hpstop` and `grep=` never do |
| `Gates.PromptIsUntil` | tools/cardrun.py:908-923 | a passing `prompt` gate is a passing `until` gate with the watchdog line and the prompt at the end; they die on the same records |
| `Runner.Runner.Gate` | tools/cardrun.py:908-945 | the gate's verdict passes with its line, stops, or dies, as specified |
| `Runner.Runner.WaitFor` | tools/cardrun.py:768-778 | a wait is told, looked up and ended as specified |
| `Runner.Runner.Item` | tools/cardrun.py:768-789 | one item moves the runner to the specified state |
| `Runs.CellStep` | tools/cardrun.py:791-869 | a planned cell dies exactly when its command, taken to bash, holds a NUL, or when it is a CAP cell that ran and left a record that is no object; it continues exactly when it is well, starts its own command or nothing, and makes no record but its own |
| `Runs.StepReaches` | tools/cardrun.py:768-830 | from a state that says exactly what the first k items did, one item reaches the state that says what k+1 did, or ends the run having started at most its own cell; it dies exactly when the item is broken |
| `Runs.RunReaches` | tools/cardrun.py:740-753 | by induction over the whole item list: all items well and the last state reached, or an end at the first that is not, in an exception exactly when that one is broken; no signal on the way |
| `Runs.ReturnsExactly` | tools/cardrun.py:740-766 | the exits of an accepted list under every host script: 0 if and only if every item is well, no last wait is interrupted and the last lines are written; a traceback if and only if the first item that is not well is broken (a command with a NUL, a CAP record or a gate's record that is no object, a stop reason that cannot be searched) or a line of the stop, of the last waits or of the end cannot be written; 3 otherwise |
| `Runs.RunEnds` | tools/cardrun.py:740-766 | where the items end they have started the cells of a prefix of the list and no other, lost no record and sent no signal |
| `Runs.StartsEachOnce` | tools/cardrun.py:791-826 | each command is started at most once, in item order, and only for a cell without a record; no record is lost, and every host cell started has one afterwards |
| `Runs.NeverRunAgain` | tools/cardrun.py:791-826 | whatever a later invocation over the same card names, it starts no host cell an earlier one started, nor a CAP cell that left a record |
| `Runner.Runner.InterruptGroups` | tools/cardrun.py:885-889 | SIGINT goes to the groups alive, in the order started, each after its line is written |
| `Runner.Runner.EndGroup` | tools/cardrun.py:893-905 | SIGKILL for a group that outlived the grace, a refused kill said |
| `Runner.Runner.EndGroups` | tools/cardrun.py:893-905 | every signalled group is ended in turn |
| `Runner.Runner.StopChildren` | tools/cardrun.py:882-905 | the teardown says and sends what its specification says, up to the first line that cannot be written |
| `Runner.Runner.Halt` | tools/cardrun.py:744-753 | a stop is its reason, the teardown and code 3, or a traceback when one of its lines cannot be written |
| `Runs.TeardownReaches` | tools/cardrun.py:882-905 | a whole teardown sends SIGINT to exactly the groups alive, SIGKILL to exactly those that outlive the grace, no SIGKILL before the last SIGINT, and leaves a group if and only if it outlives the grace and refuses |
| `Runner.Runner.WaitForBackground` | tools/cardrun.py:754-763 | the last waits follow the specification, an interrupt or a line that cannot be written included |
| `Runner.Runner.Go` | tools/cardrun.py:740-766 | the class's run ends in the state, and with the code or the traceback, of the specified run |
| `Runs.StopLeavesNothing` | tools/cardrun.py:740-763 | a run that ends with 3 has sent the signals of one whole teardown over every background cell whose command was started, start signal seen or not, and each group is gone unless it outlives the grace and refuses the kill |
| `Runs.SentExactly` | tools/cardrun.py:740-766 | however a run ends, it has sent the signals of exactly the part of one teardown that it could say (none at a broken item, or where no stop begins), and it ends with 3 if and only if that is the whole |
| `Runs.LeftExactly` | tools/cardrun.py:882-905 | however a run ends, a group is left if and only if it was alive and the teardown did not come to interrupt it, or it outlived the grace and the teardown did not come to kill it or it refused |
| `Runs.StopSends` | tools/cardrun.py:740-763 | a run that ends with 3 has sent the signals of that one whole teardown and no other |
| `Runs.TracebackLeavesAll` | tools/cardrun.py:740-766 | a run ends in a traceback without having sent a signal if and only if it dies at a broken item, in a stop whose reason or first interrupt line cannot be written, or at a line of the last waits or the last line of all |
| `Runs.RecordThatBreaks` | tools/cardrun.py:803-807 | a background cell and then a CAP cell whose record holds `[1]`: the plan accepts them, the run dies, the group is left |
| `Runs.DryStartsNothing` | tools/cardrun.py:768-796 | a dry run says one line an item, up to the first that cannot be written, and starts, records and signals nothing |
| `Runs.UnplannedWaitCrashes` | tools/cardrun.py:770-777 | without the plan a wait for an unstarted cell is a failed lookup |
| `Shell.ScanParen` | tools/cardrun.py:304-325 | the loop finds the specified closing parenthesis, quotes and escapes skipped, or refuses |
| `Shell.ScanDouble` | tools/cardrun.py:352-370 | the loop reads a double-quoted string as the specification does |
| `Shell.ScanWord` | tools/cardrun.py:328-406 | the loop reads one word, with its flags and its end, as the specification does |
| `Shell.WordProgress` | tools/cardrun.py:409-441 | where no operator starts, a word has at least one character, so the lexer advances |
| `Shell.Lex` | tools/cardrun.py:409-441 | the loop terminates on every text and is the specified lexer |
| `Shell.LexCovers` | tools/cardrun.py:409-441 | the lexer refuses, or its tokens in order, with gaps of blanks and comments only, make up the whole text, each standing for the characters under it |
| `Shell.CoveredInOrder` | tools/cardrun.py:409-441 | token spans are disjoint and increasing |
| `Shell.SimpleCommands` | tools/cardrun.py:444-488 | the accumulating loop is the specified pass over the tokens |
| `Shell.PassReadsSegment` | tools/cardrun.py:444-488 | one pass reads the stretch up to the next control operator whole |
| `Shell.OnePassIsSplit` | tools/cardrun.py:444-488 | the single accumulating pass equals the reference reading: cut at control operators, read each stretch alone, drop the empty ones |
| `Shell.WordsConserved` | tools/cardrun.py:444-488 | as multisets, the word tokens are exactly the words, assignments and redirection targets of the commands plus the digits glued to a redirection |
| `Shell.AssignmentsLead` | tools/cardrun.py:478-485 | a command's assignments look like assignments and its first word does not |
| `Unwrap.StripTimeout` | tools/cardrun.py:491-507 | options, their arguments and the duration are taken off as specified |
| `Unwrap.StripSudo` | tools/cardrun.py:510-524 | options and assignments are taken off as specified |
| `Unwrap.Unwrap` | tools/cardrun.py:527-564 | the loop terminates and is the specified unwrapping |
| `Unwrap.UnwrapLeavesProgram` | tools/cardrun.py:527-564 | an answer without a note is a non-empty suffix of the words that starts with no keyword and no wrapper; every other answer has no words |
| `Unwrap.UnwrapIdempotent` | tools/cardrun.py:527-564 | unwrapping a program again changes nothing |
| `Unwrap.QuoteScans` | tools/cardrun.py:328-406 | scanning a single-quoted argument, quotes inside it escaped, gives back the argument |
| `Unwrap.DoubleQuoteScans` | tools/cardrun.py:352-370 | scanning a double-quoted argument, its four special characters escaped, gives back the argument |
| `Unwrap.EscapesScan` | tools/cardrun.py:328-406 | scanning an argument with every character escaped gives back the argument |
| `Unwrap.WrittenScans` | tools/cardrun.py:328-406 | the same for an argument written in any of the three ways |
| `Unwrap.LineLexes` | tools/cardrun.py:409-441 | a line of arguments, each written in its own way, lexes to exactly those arguments, each token where it was written |
| `Unwrap.QuotedAreWords` | tools/cardrun.py:444-488 | quoted words are neither redirection numbers nor assignments |
| `Unwrap.ArgumentsRoundTrip` | tools/cardrun.py:409-564 | any non-empty list of arguments, each in single quotes, double quotes or backslashes, joined with blanks, is lexed, split and unwrapped back to exactly that list |
| `Macros.OneNameAt` | tools/cardrun.py:177-178 | two macro names never stand at one place |
| `Macros.Expand` | tools/cardrun.py:172-199 | the loop terminates and is the specified expansion, refusals included |
| `Macros.PiecesCover` | tools/cardrun.py:172-199 | an expansion splits the command, in order and whole, into gaps in which no macro's name stands and uses at places where one does, with an argument exactly when the macro has a parameter; bodies are never scanned again |
| `Macros.OrderDoesNotMatter` | tools/cardrun.py:177-178 | trying the names longest first makes no difference: every order gives the same expansion or refusal |
| `Macros.LeftAlone` | tools/cardrun.py:175-188 | a command is left whole if and only if no name stands in it |
| `Landmarks.CheckTable` | tools/boot-timeline.py:508-526 | one table is clean exactly when no id repeats and no segment runs against it |
| `Landmarks.CheckTables` | tools/boot-timeline.py:508-526 | clean exactly when every table is and every segment, those that end at the host included, names a class |
| `Landmarks.ShippedTablesClean` | tools/boot-timeline.py:397-468 | the three shipped tables and the shipped segments pass the whole check |
| `Landmarks.FindLandmarks` | tools/boot-timeline.py:540-554 | the cursor loop finds exactly the specified offsets |
| `Landmarks.OffsetsMonotone` | tools/boot-timeline.py:540-554 | found offsets do not decrease along the table, for every table and every forward matcher |
| `Landmarks.BisectRight` | tools/boot-timeline.py:241-243 | the number of rows at or before an offset |
| `Landmarks.RowOf` | tools/boot-timeline.py:241-243 | the last row at or before an offset, none before the first |
| `Landmarks.TimeLandmarks` | tools/boot-timeline.py:557-566 | exactly the landmarks with a row are timed, each by its row |
| `Landmarks.MeasureSegments` | tools/boot-timeline.py:567-578 | exactly the segments with both anchors timed are measured |
| `Landmarks.Measure` | tools/boot-timeline.py:557-578 | search, timing and segments together |
| `Landmarks.RowsMonotone` | tools/boot-timeline.py:241-243 | a byte further on is never in an earlier row |
| `Landmarks.SegmentsNonNegative` | tools/boot-timeline.py:508-578 | with clean tables and a clock that does not run backwards every measured segment is at least 0, and one whose anchors share a row is exactly 0 |
| `Landmarks.KernelPartsAddUp` | tools/boot-timeline.py:442-468 | early, WLAN, NIC and late add up to the kernel total wherever the four are measured |
| `Scheduling.SortPermutes` | tools/boot-timeline.py:784 | the sorted list is a permutation |
| `Scheduling.SortSorted` | tools/boot-timeline.py:784 | the sorted list is in tuple order |
| `Scheduling.ComputePlaced` | tools/boot-timeline.py:772-783 | the captures with a wall time in the range, with the bounds the clock rules give them |
| `Scheduling.ComputeCouldFit` | tools/boot-timeline.py:751-788 | a span is answered exactly when two neighbours leave it between them |
| `Scheduling.CouldFitSound` | tools/boot-timeline.py:751-788 | for every true record of captures that did not overlap, an unplaced capture that really ran between two placed ones is reported as one that could have, ties in the sort included |
| `Scheduling.GapIsRoom` | tools/boot-timeline.py:751-788 | where the recorded intervals are exact, a fit is reported if and only if some moment leaves room for it |
| `Scheduling.LatestBoot` | tools/boot-timeline.py:710-718 | the latest placed boot by second, and whether it shares that second |
| `Scheduling.KernelClass` | tools/boot-timeline.py:694-743 | a class is inherited exactly from the one latest placed boot in an earlier second with no unplaced boot that fits after it, and never otherwise |
| `Scheduling.InheritsFromLastBoot` | tools/boot-timeline.py:694-743 | whenever a class is inherited, its source really was the last boot before the capture: every other capture that holds a boot ran before the source or after the capture |
| `Kgrams.ComputeFeatures` | tools/binsim.py:659-682 | the set of window hashes, or the two refusals, exactly |
| `Kgrams.StepInjective` | tools/binsim.py:659-682 | one FNV-1a step modulo 2^64 is injective in the state and in the token |
| `Kgrams.OneTokenChangesHash` | tools/binsim.py:659-682 | two windows that differ in exactly one token never share a hash |
| `Kgrams.SingleTokenFeatures` | tools/binsim.py:659-682 | at k = 1 there are exactly as many features as distinct tokens |
| `Kgrams.MeasureLaws` | tools/binsim.py:685-692 | 0 <= jaccard <= containment <= 1, both symmetric, jaccard 1 iff the sets are equal, containment 1 iff one holds the other |
| `Kgrams.DeletionBound` | tools/binsim.py:1038-1045 | removing any block of tokens keeps containment within (k-1)/min of 1 and jaccard within (k-1)(t+a)/a^2 of the size ratio |
| `Kgrams.PerturbationBound` | tools/binsim.py:1261-1268 | rewriting m positions keeps containment within m k / min of 1 |
| `Kgrams.PermutationExact` | tools/binsim.py:1253-1258 | any permutation scores exactly 1 on both measures at k = 1 |
| `Elf.TokenClasses` | tools/binsim.py:631-643 | every token is below 196 and names its instruction class; the classes do not overlap |
| `Elf.ReadProgramHeaders` | tools/binsim.py:443-459 | the loop reads the specified table or refuses |
| `Elf.ReadDynamic` | tools/binsim.py:461-476 | the loop reads the tags up to DT_NULL or the last whole entry |
| `Elf.Tokenize` | tools/binsim.py:646-651 | one token for each word of the window |
| `Elf.ReadCode` | tools/binsim.py:421-537 | header, tables, window and tokens on arbitrary bytes, every read within the file |
| `Elf.CodeIsWindowed` | tools/binsim.py:503-537 | on any bytes: a refusal, or size/4 tokens below 196 from a window inside the file |
| `Elf.ParsesExactly` | tools/binsim.py:799-859 | a synthetic file parses if and only if no control falsified its header |
| `Elf.WrittenReadsBack` | tools/binsim.py:799-859 | every header, tag, note and word the writer packs is read back from its place |
| `Elf.RoundTrip` | tools/binsim.py:799-859 | writer, reader and tokeniser: the code of a synthetic file is the tokens of the words between its two indices, and with none between them it is refused |
| `Controls.WrappedCode` | tools/binsim.py:1247-1250 | what stands after the code window changes nothing that is scored |
| `Controls.WordPermutation` | tools/binsim.py:1253-1258 | a file rebuilt from another file's words in any order scores exactly 1 against it at k = 1 |
| `Controls.Perturbation` | tools/binsim.py:1261-1268 | a file rebuilt with m words rewritten stays within m k / min of it, for every k |
| `Controls.Cut` | tools/binsim.py:1038-1045 | cutting any block of words out of a synthetic file costs at most k - 1 k-grams |
| `SlotLines.DecParses` | tools/bootslot.py:126-133 | a printed decimal number is read back |
| `SlotLines.HexParses` | tools/bootslot.py:126-127 | a printed hexadecimal number is read back |
| `SlotLines.ReadBack` | tools/bootslot.py:388-396 | the printed read row is read back: slot, addresses, length, dots |
| `SlotLines.VerdictBack` | tools/bootslot.py:397-407 | the printed verdict row is read back |
| `SlotLines.VerBack` | tools/bootslot.py:397-401 | the printed version row is read back |
| `SlotLines.HaltBack` | tools/bootslot.py:422-425 | a halt row is read back when both tails are reasons, and is no row when one is a version number |
| `SlotLines.BootBack` | tools/bootslot.py:427-429 | the printed boot row is read back |
| `SlotLines.KeyBack` | tools/bootslot.py:418-419 | the printed key row is read back |
| `SlotReader.FindBanner` | tools/bootslot.py:157-166 | how many lines hold a banner, and the lines after the one |
| `SlotReader.ScanLines` | tools/bootslot.py:193-222 | the loop over the lines is the specified pass; a stage row goes to the slot read last |
| `SlotReader.ParseText` | tools/bootslot.py:154-251 | the reader answers the specified facts or the first refusal that applies |
| `SlotReader.Compare` | tools/bootslot.py:326-380 | the judge's list of findings, in order |
| `SlotReader.JudgeCapture` | tools/bootslot.py:298-381 | PASS exactly when every finding is good |
| `SlotReader.ScanKeeps` | tools/bootslot.py:193-238 | over any lines a slot is read, or judged, exactly when the order lists it, and a halt is chosen only with its reasons |
| `SlotReader.ImpliedExactly` | tools/bootslot.py:288-294 | the implied choice is a slot exactly when that slot is accepted and no accepted slot has a higher version, or an equal one before it |
| `SlotReader.PassExactly` | tools/bootslot.py:298-381 | a capture passes if and only if it parses, its order is exactly A read, A judged, B read, B judged, both copies are whole and where the layout puts them, verdicts are as expected and supported by their stages, and either the winner was booted with no halt row, one boot row and exactly one kernel id after it, the manifest's, or both were refused with the reasons the halt row repeats |
| `SlotReader.EarlierLinesIgnored` | tools/bootslot.py:154-170 | whole lines put before a capture change no answer, as long as none holds a banner |
| `SlotReader.ReturnsIgnored` | tools/bootslot.py:149-151 | carriage returns change no answer wherever they are put |
| `SlotFixture.CaptureReads` | tools/bootslot.py:410-433 | a printed capture has one banner, and after it the reader sees exactly the rows printed, for every line ending of returns and a newline |
| `SlotFixture.ScanCapture` | tools/bootslot.py:193-251 | the reader's state after a printed capture, field by field |
| `SlotFixture.CaptureParses` | tools/bootslot.py:154-251 | a printed capture is refused exactly when it has two loader words, reads no slot, halts although a slot was accepted, or shows no kernel id or several; else every fact printed is recovered |
| `SlotFixture.FixturePasses` | tools/bootslot.py:298-433 | for all versions, lengths, dots, reasons, keys, ids and expectations, judging a printed capture is PASS if and only if the run it prints is the expected one and agrees with itself |
| `SlotFixture.CommandPasses` | tools/bootslot.py:298-381 | from the command line to the verdict: with the expectations and the loader word written out, the tool passes a printed capture if and only if the run agrees and no manifest was given for a halt |
| `SlotFixture.StraySlotRow` | tools/bootslot.py:221-251 | a slot row before a supported halt changes no verdict; before a slot it is refused |
| `SlotFixture.ExpectationReadBack` | tools/bootslot.py:255-266 | every printed expectation is read back, and a reason is accepted exactly when the payload prints it |
| `SlotFixture.WordReadBack` | tools/bootslot.py:306-311 | a printed loader word normalises to itself, with or without `0x` |
| `BootBytes.MarkLength` | tools/bootbytes.py:374-375 | every mark line is exactly as long as its cost says |
| `BootBytes.MarksIn` | tools/bootbytes.py:481-495 | the loop lists the marks in order, and its assertion never fires |
| `BootBytes.RawIsNonMarks` | tools/bootbytes.py:413-419 | conservation: for every byte string the constant is the total length of the lines that are no mark |
| `BootBytes.InsertMark` | tools/bootbytes.py:413-419 | inserting a well-formed mark line where a line begins leaves the constant alone |
| `BootBytes.DigitsDoNotCount` | tools/bootbytes.py:378-443 | replacing a vendor field's digits by any other non-empty digits leaves the normalised constant alone |
| `BootBytes.VarWidthSeparates` | tools/bootbytes.py:378-443 | vendor fields on the two sides of a character no field can hold are counted apart |
| `BootBytes.FixtureFields` | tools/bootbytes.py:571-649 | in a fixture only the extra bytes can hold vendor fields |
| `BootBytes.EchoTermExact` | tools/bootbytes.py:571-649 | for every number of typed escapes and both shapes the normalised constant is the same, and any extra bytes without a break, a `^` or an escape move it by exactly their number less what the vendor fields among them count |
| `BootBytes.TermsDoTheWork` | tools/bootbytes.py:585-649 | without the echo term each escape more costs 3 bytes where the shell replied and 2 where the capture stops; without the reply term the shapes lie one reply apart |
| `Applets.Runs` | tools/appletcensus.py:215-229 | exactly the maximal NUL-free stretches, in order |
| `Applets.LongestSortedRun` | tools/appletcensus.py:232-243 | the greedy loop's slice ascends, none that ascends is longer, and of those as long it is the first |
| `Applets.Group` | tools/appletcensus.py:248-257 | the groups are unbroken, broken between each other, and flatten to the candidates |
| `Applets.RunIsSlice` | tools/appletcensus.py:246-262 | every name run of the blob is a linked slice of its candidate names |
| `Applets.BestRun` | tools/appletcensus.py:258-262 | no linked slice of the candidates is longer than the answer, and none as long begins before it |
| `Applets.BestIsLongest` | tools/appletcensus.py:246-262 | that slice is a longest name run of the whole blob |
| `Applets.LongestUnique` | tools/appletcensus.py:246-262 | there is only one such run |
| `Applets.RunSorted` | tools/appletcensus.py:246-262 | its names ascend throughout |
| `Applets.FindApplets` | tools/appletcensus.py:246-288 | the table is the blob's longest name run with its first name recovered, refused when short |
| `Applets.RecoveryKeepsRun` | tools/appletcensus.py:273-280 | the recovered name sits in the blob where it says and sorts before the run; it touches the run if and only if its record does not end in a newline |
| `Applets.OneAnswer` | tools/appletcensus.py:246-288 | a blob has one longest run and one recovered table |
| `Applets.JoinedReadsBack` | tools/appletcensus.py:215-229 | texts joined by NULs are read back as exactly those records, each at its offset |
| `Applets.RecoveryLeavesGap` | tools/appletcensus.py:246-288 | for every ascending list of at least nineteen names, and a name before them at the end of a record that ends in a newline, the one answer over that blob is a table whose first two names are two bytes apart |
| `CardDates.CardReport.Parse` | tools/capdate.py:625-659 | D5 and the targets: the report after reading the tokens is the specified one |
| `CardDates.CardReport.CheckDir` | tools/capdate.py:661-670 | D6: the report after the directory check is the specified one |
| `CardDates.CardReport.CheckFence` | tools/capdate.py:672-718 | D7: the loop files every fenced cell as the specification does |
| `CardDates.FindOffCards` | tools/capdate.py:721-742 | the off-card captures of a directory that can be dated, in name order |
| `CardDates.ReportPartition` | tools/capdate.py:689-704 | as multisets a card's fenced cells are its dated, wrong, broken, no-meta and absent ones, each kind by what is on disk and the declared date |
| `CardDates.Scan` | tools/capdate.py:767-929 | the passes over all cards leave every report as specified, refuse exactly when a green would be about nothing, and count what is wrong with the lists |
| `CardDates.CheckCards` | tools/capdate.py:955-1008 | the exit code is the specified one |
| `CardDates.ParsedExactly` | tools/capdate.py:625-659 | a card's date is d exactly when its text can be read, every opening completes and every token names d |
| `CardDates.ReachedExactly` | tools/capdate.py:767-894 | a code is found on a card if and only if its check fails there |
| `CardDates.GreenExactly` | tools/capdate.py:955-1008 | exit 0 if and only if nothing is refused, the pin holds, the lists name only cards, and on every card the listed exceptions are exactly the checks it fails |
| `CardDates.GreenMeans` | tools/capdate.py:767-929 | after a green sweep an unexcused declaring card names its directory's day, every capture it fences is on that day, and so is every capture in its directory that no dated card fences |
| `CardDates.SeparateDays` | tools/capdate.py:840-871 | two unexcused cards linked by `another day than` share no calendar day: every capture of either seating that has a `.meta.json` has a date in it, and no two of different seatings are equal |
| `CardDates.NothingBetween` | tools/capdate.py:819-838 | in any green sweep, whatever its list of known exceptions: every capture with a `.meta.json` listed in the directory of a declaring card not excused from D8 is on its card's day or on the day of a dated card that fences it, when no card that fences it is excused from D7 |
| `Echo.EchoEnd` | tools/capfield.py:102-120 | an end is found exactly when the command is non-empty, holds no break and begins the log breaks aside, and it is the first index that shows it all |
| `Echo.EchoEndUnique` | tools/capfield.py:102-120 | the end of an echo is unique |
| `Echo.Fields` | tools/capfield.py:123-135 | the fields are exactly those of the text after the specified echo end, or of the whole log when there is none, and whether there is one |
| `Echo.RewrapKeepsFields` | tools/capfield.py:102-135 | rewrapping the echo before its last character moves its end, and the reader answers the same fields |
| `Echo.InsertedBreaks` | tools/capfield.py:102-135 | breaks may be inserted at any place before the echo's last character: the end moves by their number and the reader answers the same fields |

## Left out

- Files, globs, JSON, subprocesses, clocks, terminals, argument parsers, reports, TSV writers and self-tests: their results are inputs of the model.
- Regular expression engines: each pattern is a small predicate or a hand-written matcher; a landmark's matcher is any function that never answers before its start.
- Floating point: fractions are exact and times are reals; the least-squares fits and t tables are not modelled.
- Runner.Runner.Go: a second interrupt during the teardown, and one between a process's start and the entry in the runner's table, are not modelled; nor are a text the console cannot encode or a log that cannot be closed.
- Runner.Runner.Plan: the macro table, the scan of the fence and the command lines are in modules of their own; here a cell has an expanded command and a background program, or none.
- Runner.Runner.Cell: a record of a CAP cell that appears between the check and the start, which the tool does not guard, is not modelled; the END line and the log's tail below it are one line, written or not.
- Runner.Runner.Gate: whether the pattern of a `grep=` gate is found is the host's answer; the wording of a passing gate is not kept.
- Runner.RefuseArgs: the parsing of an item's text is reduced to its result.
- Gates.BreaksExactly: a record is read whole or not at all; a JSON text too deep to load is not modelled.
- Runner.Runner.StopChildren: the polling during the grace is reduced to whether a group is alive when it is over, and a group that refuses signals is the permission error.
- Shell.Lex: a deliberate subset of POSIX shell grammar, as in the tool; the `tool_of` and `background_program` readings of an argument list are not modelled.
- Macros.Expand: the scan of a card for macro definitions is not modelled; the table is an input.
- Landmarks.Measure: the longest-silence scan, the median and percentile helpers and the per-firmware reports are not modelled.
- Elf.ReadCode: section names, fingerprints and the strings channel are not modelled; nor are corpora and their measured constants.
- SlotReader.JudgeCapture: the build manifest is read elsewhere and its id is an input; the build number and the texts of refusals and findings are not kept.
- SlotFixture.FixturePasses: fixtures without a key row, with two banners, or cut before the choice are only covered by the reader's refusals.
- CardDates.CardReport.Parse: the tokens of a card's text, the cells of its fence and the date in its directory's name are inputs; the hours between two seatings and the message texts are not kept.
- CardDates.Scan: the cards come sorted by path, and loading the shared fence grammar cannot fail.
- D1 to D4 of `capdate.py` hold one directory's name against the dates of its own captures and against an index in a README; D5 to D10, which go across cards, are the part modelled.
- The ledger in `bootbytes.py` is a list of recorded captures with their expected constants, a statement about those files and not about the account.
- `appletcensus.py`'s search for builtins and keywords is a prefix search over the same records, and its queries look a word up in lists already found.
- `audit-bench-log.py` scans lines with a list of patterns, and `check-predictions.py` compares two time stamps a file.
