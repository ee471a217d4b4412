/**
 Tailing the event spool: every tick reads from the last offset, applies the complete lines to the status machine and
 leaves a partial last line for the next tick.
 */
module Spool {
  import opened Status
  import opened StatusMachine

  type Byte = b: int | 0 <= b < 256

  type Line = seq<Byte>

  const NEWLINE: Byte := 10

  /** What decoding, trimming, parsing and `to_event` make of a line; None skips it. */
  datatype Parsed = Parsed(session: string, kind: HookKind)

  type Parser = Line -> Option<Parsed>

  // ---------------------------------------------------------------- lines

  /** The newline-terminated lines of the bytes, without their newlines; `partial` is the line being read. */
  function LinesFrom(partial: Line, bytes: seq<Byte>): seq<Line>
    decreases |bytes|
  {
    if bytes == [] then []
    else if bytes[0] == NEWLINE then [partial] + LinesFrom([], bytes[1..])
    else LinesFrom(partial + [bytes[0]], bytes[1..])
  }

  /** The length of the bytes up to and including the last newline. */
  function CompleteLength(bytes: seq<Byte>): (n: nat)
    ensures n <= |bytes|
    ensures n == 0 || bytes[n - 1] == NEWLINE
    ensures forall i :: n <= i < |bytes| ==> bytes[i] != NEWLINE
  {
    if bytes == [] then 0
    else if bytes[|bytes| - 1] == NEWLINE then |bytes|
    else CompleteLength(bytes[..|bytes| - 1])
  }

  function NonEmpty(lines: seq<Line>): seq<Line> {
    if lines == [] then [] else (if lines[0] == [] then [] else [lines[0]]) + NonEmpty(lines[1..])
  }

  /** The non-empty complete lines of a file. */
  function CompleteLines(bytes: seq<Byte>): seq<Line> {
    NonEmpty(LinesFrom([], bytes))
  }

  lemma {:induction false} NoNewlineNoLines(partial: Line, bytes: seq<Byte>)
    requires forall i :: 0 <= i < |bytes| ==> bytes[i] != NEWLINE
    ensures LinesFrom(partial, bytes) == []
    decreases |bytes|
  {
    if bytes != [] {
      assert forall i :: 0 <= i < |bytes[1..]| ==> bytes[1..][i] == bytes[i + 1];
      NoNewlineNoLines(partial + [bytes[0]], bytes[1..]);
    }
  }

  /** A file may be cut after any newline: its lines are those before and those after. */
  lemma {:induction false} LinesSplit(partial: Line, a: seq<Byte>, b: seq<Byte>)
    requires a != [] && a[|a| - 1] == NEWLINE
    ensures LinesFrom(partial, a + b) == LinesFrom(partial, a) + LinesFrom([], b)
    decreases |a|
  {
    assert (a + b)[1..] == a[1..] + b;
    if |a| == 1 {
      assert a[1..] == [] && [] + b == b;
    } else if a[0] == NEWLINE {
      LinesSplit([], a[1..], b);
    } else {
      LinesSplit(partial + [a[0]], a[1..], b);
    }
  }

  lemma {:induction false} Associative(a: seq<Line>, b: seq<Line>, c: seq<Line>)
    ensures (a + b) + c == a + (b + c)
  {
  }

  lemma {:induction false} NonEmptySplit(a: seq<Line>, b: seq<Line>)
    ensures NonEmpty(a + b) == NonEmpty(a) + NonEmpty(b)
  {
    if a == [] {
      assert a + b == b;
    } else {
      NonEmptySplit(a[1..], b);
      assert (a + b)[1..] == a[1..] + b;
      Associative(if a[0] == [] then [] else [a[0]], NonEmpty(a[1..]), NonEmpty(b));
    }
  }

  lemma {:induction false} CompleteSplit(a: seq<Byte>, b: seq<Byte>)
    requires a == [] || a[|a| - 1] == NEWLINE
    ensures CompleteLines(a + b) == CompleteLines(a) + CompleteLines(b)
  {
    if a == [] {
      assert a + b == b;
    } else {
      LinesSplit([], a, b);
      NonEmptySplit(LinesFrom([], a), LinesFrom([], b));
    }
  }

  /** Where the last newline of a cut file is. */
  lemma {:induction false} CompleteLengthSplit(a: seq<Byte>, b: seq<Byte>)
    requires a == [] || a[|a| - 1] == NEWLINE
    ensures CompleteLength(a + b) == |a| + CompleteLength(b)
  {
    if b == [] {
      assert a + b == a;
    } else {
      assert (a + b)[|a + b| - 1] == b[|b| - 1];
      if b[|b| - 1] != NEWLINE {
        CompleteLengthSplit(a, b[..|b| - 1]);
        assert (a + b)[..|a + b| - 1] == a + b[..|b| - 1];
      }
    }
  }

  // ---------------------------------------------------------------- ticks

  /** What one tick meets at the path: the open file, and whether asking for its metadata and reading it succeed. */
  datatype File = File(identity: nat, contents: seq<Byte>, hasMetadata: bool, readable: bool)

  /** `applied` is every line handed to the machine so far. */
  datatype Tail = Tail(pos: nat, identity: Option<nat>, applied: seq<Line>)

  /** Starts over when the path names another file or the file seems shorter than the offset; unknown counts as empty. */
  function StartOf(t: Tail, f: File): nat {
    if !f.hasMetadata then 0
    else if (t.identity.Some? && t.identity.value != f.identity) || |f.contents| < t.pos then 0
    else t.pos
  }

  /** One tick over the file as it is now, or no file. */
  function Tick(t: Tail, o: Option<File>): Tail {
    match o
    case None => t
    case Some(f) =>
      var start := StartOf(t, f);
      var identity := if f.hasMetadata then Some(f.identity) else t.identity;
      if !f.readable then Tail(start, identity, t.applied)
      else
        var unread := if start <= |f.contents| then f.contents[start..] else [];
        Tail(start + CompleteLength(unread), identity, t.applied + CompleteLines(unread))
  }

  function Ticks(t: Tail, files: seq<Option<File>>): Tail {
    if files == [] then t else Tick(Ticks(t, files[..|files| - 1]), files[|files| - 1])
  }

  const NewTail := Tail(0, None, [])

  /** One file, only ever appended to; a tick may also fail to open it, to learn its length, or to read it. */
  predicate Growing(files: seq<Option<File>>) {
    forall i, j {:trigger files[i], files[j]} :: 0 <= i < j < |files| && files[i].Some? && files[j].Some? ==>
      files[i].value.identity == files[j].value.identity && files[i].value.contents <= files[j].value.contents
  }

  predicate Reads(o: Option<File>) {
    o.Some? && o.value.readable
  }

  /** The contents at the latest tick that read the file. */
  function LastRead(files: seq<Option<File>>): seq<Byte> {
    if files == [] then []
    else if Reads(files[|files| - 1]) then files[|files| - 1].value.contents
    else LastRead(files[..|files| - 1])
  }

  /** The length of the file could not be learnt at a tick after a line had been applied. */
  predicate Resets(files: seq<Option<File>>, i: int) {
    0 <= i < |files| && files[i].Some? && !files[i].value.hasMetadata && CompleteLines(LastRead(files[..i])) != []
  }

  predicate SomeReset(files: seq<Option<File>>) {
    exists i :: 0 <= i < |files| && Resets(files, i)
  }

  predicate ReadFrom(files: seq<Option<File>>, i: int) {
    exists j :: 0 <= i <= j < |files| && Reads(files[j])
  }

  /** And the file was read at that tick or a later one. */
  predicate Rereads(files: seq<Option<File>>) {
    exists i :: 0 <= i < |files| && Resets(files, i) && ReadFrom(files, i)
  }

  lemma {:induction false} PartialHasNoLines(bytes: seq<Byte>)
    ensures CompleteLines(bytes[CompleteLength(bytes)..]) == []
    ensures CompleteLines(bytes) == CompleteLines(bytes[..CompleteLength(bytes)])
  {
    hide NonEmpty, LinesFrom, CompleteLines;
    var n := CompleteLength(bytes);
    CompleteSplit(bytes[..n], bytes[n..]);
    assert bytes == bytes[..n] + bytes[n..];
    NoLinesIsEmpty(bytes[n..]);
  }

  lemma {:induction false} NoLinesIsEmpty(bytes: seq<Byte>)
    requires forall i :: 0 <= i < |bytes| ==> bytes[i] != NEWLINE
    ensures CompleteLines(bytes) == []
  {
    NoNewlineNoLines([], bytes);
  }

  /** Reading on from the last complete line adds exactly the new complete lines. */
  lemma {:induction false} ReadingOn(seen: seq<Byte>, contents: seq<Byte>)
    requires seen <= contents
    ensures var n := CompleteLength(seen);
      && CompleteLines(contents) == CompleteLines(seen) + CompleteLines(contents[n..])
      && CompleteLength(contents) == n + CompleteLength(contents[n..])
  {
    hide CompleteLines, CompleteLength;
    PartialHasNoLines(seen);
    CompleteEnd(seen);
    var n := CompleteLength(seen);
    var a, b := seen[..n], contents[n..];
    assert contents == a + b;
    CompleteSplit(a, b);
    CompleteLengthSplit(a, b);
  }

  lemma {:induction false} CompleteEnd(bytes: seq<Byte>)
    ensures var a := bytes[..CompleteLength(bytes)]; a == [] || a[|a| - 1] == NEWLINE
  {
  }

  lemma {:induction false} LinesNeedLength(bytes: seq<Byte>)
    requires CompleteLines(bytes) != []
    ensures CompleteLength(bytes) > 0
  {
    if CompleteLength(bytes) == 0 { NoLinesIsEmpty(bytes); }
  }

  lemma {:induction false} IdentityKept(files: seq<Option<File>>)
    requires Growing(files)
    ensures Ticks(NewTail, files).identity.Some? ==>
              exists i :: 0 <= i < |files| && files[i].Some? && files[i].value.identity == Ticks(NewTail, files).identity.value
    ensures LastRead(files) == [] || exists i :: 0 <= i < |files| && files[i].Some? && LastRead(files) == files[i].value.contents
  {
    if files != [] {
      var front := files[..|files| - 1];
      IdentityKept(front);
      assert forall i :: 0 <= i < |front| ==> front[i] == files[i];
      if Reads(files[|files| - 1]) { assert files[|files| - 1].value.contents == LastRead(files); }
    }
  }

  /** The tick after the front meets the same file, grown. */
  lemma {:induction false} LastGrows(files: seq<Option<File>>)
    requires Growing(files) && files != [] && files[|files| - 1].Some?
    ensures var front, f := files[..|files| - 1], files[|files| - 1].value;
      && LastRead(front) <= f.contents
      && var t := Ticks(NewTail, front); t.identity.None? || t.identity == Some(f.identity)
  {
    var front, f := files[..|files| - 1], files[|files| - 1].value;
    IdentityKept(front);
    if LastRead(front) != [] {
      var i :| 0 <= i < |front| && front[i].Some? && LastRead(front) == front[i].value.contents;
      assert files[i] == front[i];
    }
    if Ticks(NewTail, front).identity.Some? {
      var i :| 0 <= i < |front| && front[i].Some? && front[i].value.identity == Ticks(NewTail, front).identity.value;
      assert files[i] == front[i];
    }
  }

  /** How one more tick changes whether lines are read again. */
  lemma {:induction false} RereadStep(files: seq<Option<File>>)
    requires files != []
    ensures var front, n := files[..|files| - 1], |files| - 1;
      && (SomeReset(files) <==> SomeReset(front) || Resets(files, n))
      && (Rereads(files) <==> Rereads(front) || (Reads(files[n]) && SomeReset(files)))
  {
    hide Reads, CompleteLines, LastRead;
    var front, n := files[..|files| - 1], |files| - 1;
    forall i | 0 <= i < n
      ensures Resets(files, i) <==> Resets(front, i)
      ensures ReadFrom(files, i) <==> ReadFrom(front, i) || Reads(files[n])
    {
      assert front[i] == files[i] && front[..i] == files[..i];
      if j :| 0 <= i <= j < |files| && Reads(files[j]) { assert j < n ==> Reads(front[j]); }
      if j :| 0 <= i <= j < |front| && Reads(front[j]) { assert Reads(files[j]); }
    }
    if Reads(files[n]) { assert ReadFrom(files, n); }
  }

  /** A run's tail: where its offset is, and what it applied, told from which ticks failed. */
  ghost predicate TailOf(t: Tail, seen: seq<Byte>, reset: bool, reread: bool) {
    && (t.pos == 0 || t.pos == CompleteLength(seen))
    && (reset ==> CompleteLines(seen) != [])
    && (reread ==> |t.applied| > |CompleteLines(seen)|)
    && (!reread ==>
          && t.applied == CompleteLines(seen)
          && (reset ==> t.pos == 0)
          && (t.pos != CompleteLength(seen) ==> reset || CompleteLines(seen) == []))
  }

  lemma {:induction false} TickKeepsTail(t: Tail, seen: seq<Byte>, reset: bool, reread: bool, f: File)
    requires TailOf(t, seen, reset, reread) && seen <= f.contents && (t.identity.None? || t.identity == Some(f.identity))
    ensures var reset' := reset || (!f.hasMetadata && CompleteLines(seen) != []);
      TailOf(Tick(t, Some(f)), if f.readable then f.contents else seen, reset', reread || (f.readable && reset'))
  {
    hide CompleteLines, CompleteLength;
    ReadingOn(seen, f.contents);
    assert f.contents[0..] == f.contents;
    if CompleteLines(seen) != [] { LinesNeedLength(seen); }
  }

  lemma {:induction false} RunHasTail(files: seq<Option<File>>)
    requires Growing(files)
    ensures TailOf(Ticks(NewTail, files), LastRead(files), SomeReset(files), Rereads(files))
    decreases |files|
  {
    hide TailOf, SomeReset, Rereads, CompleteLines;
    if files == [] {
      NothingRead();
    } else {
      var front, last := files[..|files| - 1], files[|files| - 1];
      assert forall i :: 0 <= i < |front| ==> front[i] == files[i];
      RunHasTail(front);
      RereadStep(files);
      if last.Some? {
        LastGrows(files);
        TickKeepsTail(Ticks(NewTail, front), LastRead(front), SomeReset(front), Rereads(front), last.value);
      }
    }
  }

  lemma {:induction false} NothingRead()
    ensures TailOf(NewTail, [], SomeReset([]), Rereads([]))
  {
    assert CompleteLines([]) == [];
  }

  /**
   However the appends and the failed ticks fall, the lines applied are the non-empty newline-terminated lines of the
   file, once each and in order, exactly when the file was not read again after its length could not be learnt once some
   line had been applied; and the offset is at zero or just after the last newline.
   */
  lemma {:induction false} EveryLineOnce(files: seq<Option<File>>)
    requires Growing(files)
    ensures var t := Ticks(NewTail, files);
      && (t.applied == CompleteLines(LastRead(files)) <==> !Rereads(files))
      && (t.pos == 0 || t.pos == CompleteLength(LastRead(files)))
  {
    hide Ticks, LastRead, SomeReset, Rereads, CompleteLines, CompleteLength;
    RunHasTail(files);
  }

  /** One line, and a second tick at which the length cannot be learnt: the line is applied twice. */
  lemma {:induction false} LineAppliedTwice()
    ensures var line: Line := [65];
            var contents: seq<Byte> := [65, NEWLINE];
            Ticks(NewTail, [Some(File(0, contents, true, true)), Some(File(0, contents, false, true))]).applied == [line, line]
  {
    var line: Line := [65];
    var contents: seq<Byte> := [65, NEWLINE];
    var first, second := Some(File(0, contents, true, true)), Some(File(0, contents, false, true));
    assert contents[0..] == contents && contents[1..] == [NEWLINE] && contents[1..][1..] == [];
    assert [] + [contents[0]] == line;
    assert LinesFrom(line, [NEWLINE]) == [line] + LinesFrom([], []) == [line];
    assert CompleteLines(contents) == [line] by {
      var lines := LinesFrom([], contents);
      assert lines == [line] && lines[1..] == [] && line != [];
      assert NonEmpty(lines) == [line] + NonEmpty([]);
      assert NonEmpty([]) == [];
    }
    assert [first][..0] == [] && [first, second][..1] == [first];
    assert Ticks(NewTail, [first]) == Tick(Ticks(NewTail, []), first) == Tail(2, Some(0), [line]);
  }

  // ---------------------------------------------------------------- the watcher

  ghost function ApplyLines(s: MachineState, lines: seq<Line>, parse: Parser, now: nat): MachineState {
    if lines == [] then s
    else
      var before := ApplyLines(s, lines[..|lines| - 1], parse, now);
      var p := parse(lines[|lines| - 1]);
      if p.None? then before else ApplyStep(before, p.value.session, p.value.kind, now)
  }

  method LastNewline(bytes: seq<Byte>) returns (n: nat)
    ensures n == CompleteLength(bytes)
  {
    n := |bytes|;
    while n > 0 && bytes[n - 1] != NEWLINE
      invariant n <= |bytes| && CompleteLength(bytes) == CompleteLength(bytes[..n])
      invariant forall i :: n <= i < |bytes| ==> bytes[i] != NEWLINE
    {
      assert bytes[..n][..n - 1] == bytes[..n - 1];
      n := n - 1;
    }
    assert n > 0 ==> bytes[..n][|bytes[..n]| - 1] == NEWLINE;
  }

  /** The lines that the rest of the bytes completes, given the line being read. */
  function Unfinished(line: Line, rest: seq<Byte>): seq<Line> {
    NonEmpty(LinesFrom(line, rest))
  }

  lemma {:induction false} UnfinishedStep(line: Line, rest: seq<Byte>)
    requires rest != []
    ensures Unfinished(line, rest) ==
              if rest[0] != NEWLINE then Unfinished(line + [rest[0]], rest[1..])
              else (if line == [] then [] else [line]) + Unfinished([], rest[1..])
  {
    if rest[0] == NEWLINE {
      var lines := [line] + LinesFrom([], rest[1..]);
      assert lines[1..] == LinesFrom([], rest[1..]);
    }
  }

  lemma {:induction false} NothingUnfinished(line: Line)
    ensures Unfinished(line, []) == []
  {
  }

  ghost function ApplyLine(s: MachineState, line: Line, parse: Parser, now: nat): MachineState {
    var p := parse(line);
    if p.None? then s else ApplyStep(s, p.value.session, p.value.kind, now)
  }

  lemma {:induction false} OneMoreLine(s: MachineState, lines: seq<Line>, line: Line, parse: Parser, now: nat)
    ensures ApplyLines(s, lines + [line], parse, now) == ApplyLine(ApplyLines(s, lines, parse, now), line, parse, now)
  {
    hide ApplyStep;
    assert (lines + [line])[..|lines|] == lines;
  }

  method ApplyOne(machine: Machine, line: Line, parse: Parser, now: nat)
    modifies machine
    ensures machine.State() == ApplyLine(old(machine.State()), line, parse, now)
  {
    hide ApplyStep;
    var p := parse(line);
    if p.Some? { machine.ApplyAt(p.value.session, p.value.kind, now); }
  }

  lemma {:induction false} LineEnds(done: seq<Line>, line: Line, rest: seq<Byte>, all: seq<Line>)
    requires rest != [] && rest[0] == NEWLINE && all == done + Unfinished(line, rest)
    ensures all == (if line == [] then done else done + [line]) + Unfinished([], rest[1..])
  {
    hide Unfinished;
    UnfinishedStep(line, rest);
    if line == [] {
      assert [] + Unfinished([], rest[1..]) == Unfinished([], rest[1..]);
    } else {
      Associative(done, [line], Unfinished([], rest[1..]));
    }
  }

  /** Splits the complete bytes at their newlines and applies each line. */
  method ConsumeComplete(machine: Machine, complete: seq<Byte>, parse: Parser, now: nat)
    requires complete == [] || complete[|complete| - 1] == NEWLINE
    modifies machine
    ensures machine.State() == ApplyLines(old(machine.State()), CompleteLines(complete), parse, now)
  {
    hide ApplyLine, ApplyLines, Unfinished, CompleteLines;
    ghost var s := machine.State();
    ghost var done: seq<Line> := [];
    ghost var all := CompleteLines(complete);
    var line: Line := [];
    StartUnfinished(complete);
    NoLinesApplied(s, parse, now);
    for k := 0 to |complete|
      invariant machine.State() == ApplyLines(s, done, parse, now)
      invariant all == done + Unfinished(line, complete[k..])
    {
      ghost var rest := complete[k..];
      assert rest[0] == complete[k] && rest[1..] == complete[k + 1..];
      if complete[k] == NEWLINE {
        LineEnds(done, line, rest, all);
        if line != [] {
          OneMoreLine(s, done, line, parse, now);
          ApplyOne(machine, line, parse, now);
          done := done + [line];
        }
        line := [];
      } else {
        UnfinishedStep(line, rest);
        line := line + [complete[k]];
      }
    }
    assert complete[|complete|..] == [];
    NothingUnfinished(line);
    assert all == done;
  }

  /** Applies every complete line of the bytes and returns how many bytes they take. */
  method Consume(machine: Machine, bytes: seq<Byte>, parse: Parser, now: nat) returns (consumed: nat)
    modifies machine
    ensures consumed == CompleteLength(bytes)
    ensures machine.State() == ApplyLines(old(machine.State()), CompleteLines(bytes), parse, now)
  {
    hide ApplyLines, CompleteLines, CompleteLength;
    consumed := LastNewline(bytes);
    PartialHasNoLines(bytes);
    CompleteEnd(bytes);
    ConsumeComplete(machine, bytes[..consumed], parse, now);
  }

  lemma {:induction false} StartUnfinished(bytes: seq<Byte>)
    ensures CompleteLines(bytes) == [] + Unfinished([], bytes[0..])
  {
    assert bytes[0..] == bytes;
  }

  lemma {:induction false} NoLinesApplied(s: MachineState, parse: Parser, now: nat)
    ensures ApplyLines(s, [], parse, now) == s
  {
  }

  class Watcher {
    const machine: Machine
    var pos: nat
    var identity: Option<nat>
    ghost var applied: seq<Line>

    ghost function State(): Tail
      reads this
    {
      Tail(pos, identity, applied)
    }

    constructor ()
      ensures State() == NewTail && fresh(machine) && machine.State() == NewMachine
    {
      machine := new Machine();
      pos, identity, applied := 0, None, [];
    }

    method ReadAvailable(file: Option<File>, parse: Parser, now: nat)
      modifies this, machine
      ensures State() == Tick(old(State()), file)
      ensures |applied| >= |old(applied)|
      ensures machine.State() == ApplyLines(old(machine.State()), applied[|old(applied)|..], parse, now)
    {
      hide ApplyLines, CompleteLines, CompleteLength;
      NoLinesApplied(machine.State(), parse, now);
      if file.None? {
        assert applied[|applied|..] == [];
        return;
      }
      var f := file.value;
      var length := if f.hasMetadata then |f.contents| else 0;
      if f.hasMetadata {
        if identity.Some? && identity.value != f.identity { pos := 0; }
        identity := Some(f.identity);
      }
      if length < pos { pos := 0; }
      if !f.readable {
        assert applied[|applied|..] == [];
        return;
      }
      var buf := f.contents[pos..];
      var consumed := Consume(machine, buf, parse, now);
      pos := pos + consumed;
      ghost var lines := CompleteLines(buf);
      assert (applied + lines)[|applied|..] == lines;
      applied := applied + lines;
    }
  }
}
