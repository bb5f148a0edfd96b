/** What any run of appends leaves in the month files, and what one month's
    file then shows. */
module HistoryRuns {
  import opened Common
  import opened MonthNames
  import opened HistoryLog

  /** One append: when, what, and how far it got. */
  datatype Op<+R> = Op(secs: nat, value: R, outcome: Outcome)

  function Run<R>(ops: seq<Op<R>>, keep: nat): Files<R> {
    if ops == [] then map[]
    else
      var op := ops[|ops| - 1];
      Appended(Run(ops[..|ops| - 1], keep), op.secs, op.value, op.outcome, keep)
  }

  ghost predicate InOrder<R>(ops: seq<Op<R>>) {
    && (forall i, j :: 0 <= i < j < |ops| ==> ops[i].secs <= ops[j].secs)
    && (forall i :: 0 <= i < |ops| ==> FourDigitYear(ops[i].secs))
  }

  ghost predicate AllComplete<R>(ops: seq<Op<R>>) {
    forall i :: 0 <= i < |ops| ==> ops[i].outcome.Complete?
  }

  // ------------------------------------------------ one file's lines

  predicate Terminated<R>(f: File<R>) {
    f == [] || f[|f| - 1].Newline?
  }

  function Pieces<R>(ops: seq<Op<R>>): File<R> {
    if ops == [] then [] else Pieces(ops[..|ops| - 1]) + Written(ops[|ops| - 1].value, ops[|ops| - 1].outcome)
  }

  lemma {:induction false} PiecesAppend<R>(a: seq<Op<R>>, b: seq<Op<R>>)
    ensures Pieces(a + b) == Pieces(a) + Pieces(b)
  {
    hide Written;
    if b == [] {
      assert a + b == a;
    } else {
      assert (a + b)[..|a + b| - 1] == a + b[..|b| - 1];
      PiecesAppend(a, b[..|b| - 1]);
    }
  }

  lemma {:induction false} LineEndWithin<R>(f: File<R>, g: File<R>)
    requires LineEnd(f) < |f|
    ensures LineEnd(f + g) == LineEnd(f)
  {
    if !f[0].Newline? {
      assert (f + g)[1..] == f[1..] + g;
      LineEndWithin(f[1..], g);
    }
  }

  lemma {:induction false} NoNewlineToTheEnd<R>(f: File<R>)
    requires forall i :: 0 <= i < |f| ==> !f[i].Newline?
    ensures LineEnd(f) == |f|
    ensures LineEnd(f + [Newline]) == |f|
  {
    if f != [] {
      assert (f + [Newline])[1..] == f[1..] + [Newline];
      NoNewlineToTheEnd(f[1..]);
    }
  }

  /** After a newline, a new line starts: what follows is read on its own. */
  lemma {:induction false} LinesAppend<R>(f: File<R>, g: File<R>)
    requires Terminated(f)
    ensures Lines(f + g) == Lines(f) + Lines(g)
    decreases |f|
  {
    if f == [] {
      assert f + g == g;
    } else {
      assert f[|f| - 1].Newline?;
      var n := LineEnd(f);
      LineEndWithin(f, g);
      assert (f + g)[..n] == f[..n] && (f + g)[n + 1..] == f[n + 1..] + g;
      LinesAppend(f[n + 1..], g);
    }
  }

  lemma {:induction false} RecordsAppend<R>(f: File<R>, g: File<R>)
    requires Terminated(f)
    ensures Records(f + g) == Records(f) + Records(g)
  {
    LinesAppend(f, g);
    ParsedSplit(Lines(f) + Lines(g), |Lines(f)|);
  }

  lemma {:induction false} ParsedOne<R>(line: File<R>)
    ensures Parsed([line]) == (if ParseLine(line).Some? then [ParseLine(line).value] else [])
  {
    assert [line][1..] == [];
  }

  /** Text without a newline, then a newline: one line. */
  lemma {:induction false} OneLine<R>(line: File<R>)
    requires line != [] && forall i :: 0 <= i < |line| ==> !line[i].Newline?
    ensures Records(line + [Newline]) == (if ParseLine(line).Some? then [ParseLine(line).value] else [])
  {
    NoNewlineToTheEnd(line);
    var f := line + [Newline];
    assert f[..|line|] == line && f[|line| + 1..] == [];
    assert Lines(f) == [line];
    ParsedOne(line);
  }

  /** An append that did not get its newline out. */
  predicate Interrupted(o: Outcome) {
    o.NotOpened? || o.NoBytes? || o.Fragment? || o.NoNewline?
  }

  lemma {:induction false} InterruptedWritesNoNewline<R>(ops: seq<Op<R>>)
    requires forall i :: 0 <= i < |ops| ==> Interrupted(ops[i].outcome)
    ensures forall i :: 0 <= i < |Pieces(ops)| ==> !Pieces(ops)[i].Newline?
  {
    if ops != [] { InterruptedWritesNoNewline(ops[..|ops| - 1]); }
  }

  lemma {:induction false} GluedLine<R>(f: File<R>, torn: File<R>, value: R, g: File<R>)
    requires Terminated(f) && torn != []
    requires forall i :: 0 <= i < |torn| ==> !torn[i].Newline?
    ensures Records(f + (torn + [Text(value), Newline] + g)) == Records(f) + Records(g)
  {
    hide Records;
    var line := torn + [Text(value)];
    assert torn + [Text(value), Newline] + g == (line + [Newline]) + g;
    RecordsAppend(f, (line + [Newline]) + g);
    RecordsAppend(line + [Newline], g);
    OneLine(line);
    assert [] + Records(g) == Records(g);
  }

  lemma {:induction false} TornRunRecords<R>(before: seq<Op<R>>, torn: seq<Op<R>>, glued: Op<R>, after: seq<Op<R>>)
    requires Terminated(Pieces(before))
    requires forall i :: 0 <= i < |torn| ==> Interrupted(torn[i].outcome)
    requires Pieces(torn) != [] && !Interrupted(glued.outcome)
    ensures Records(Pieces(before + (torn + [glued] + after))) == Records(Pieces(before)) + Records(Pieces(after))
  {
    hide Records, Terminated;
    InterruptedWritesNoNewline(torn);
    PiecesOne(glued);
    PiecesAppend(before, torn + [glued] + after);
    PiecesAppend(torn + [glued], after);
    PiecesAppend(torn, [glued]);
    hide Pieces;
    GluedLine(Pieces(before), Pieces(torn), glued.value, Pieces(after));
  }

  /** A run of interrupted writes to a month costs itself and the one whole
      line that is glued to what it left: every record before it and every
      record after that line is still read, in order; unless one of them ended
      inside a character, and then the month shows nothing. */
  lemma {:induction false} TornRunCosts<R>(before: seq<Op<R>>, torn: seq<Op<R>>, glued: Op<R>, after: seq<Op<R>>)
    requires Terminated(Pieces(before))
    requires forall i :: 0 <= i < |torn| ==> Interrupted(torn[i].outcome)
    requires Pieces(torn) != [] && !Interrupted(glued.outcome)
    ensures Visible(Pieces(before + (torn + [glued] + after)))
      == if Readable(Pieces(before)) && (forall i :: 0 <= i < |torn| ==> torn[i].outcome != Fragment(true)) && Readable(Pieces(after))
         then Visible(Pieces(before)) + Visible(Pieces(after)) else []
  {
    hide Records, Readable, Terminated;
    TornRunRecords(before, torn, glued, after);
    PiecesAppend(before, torn + [glued] + after);
    PiecesAppend(torn + [glued], after);
    PiecesAppend(torn, [glued]);
    PiecesOne(glued);
    ReadableAppend(Pieces(before), Pieces(torn + [glued] + after));
    ReadableAppend(Pieces(torn + [glued]), Pieces(after));
    ReadableAppend(Pieces(torn), Pieces([glued]));
    ReadableOps(torn);
    ReadableWritten(glued.value, glued.outcome);
  }

  lemma {:induction false} PiecesOne<R>(op: Op<R>)
    ensures Pieces([op]) == Written(op.value, op.outcome)
  {
    assert [op][..0] == [];
  }

  /** Before anything is appended after it, an interrupted write that got all
      its text out is still read; a fragment is not. */
  lemma {:induction false} LastLineUnterminated<R>(before: seq<Op<R>>, op: Op<R>)
    requires Terminated(Pieces(before)) && Interrupted(op.outcome)
    ensures Records(Pieces(before + [op]))
      == Records(Pieces(before)) + (if op.outcome.NoNewline? then [op.value] else [])
  {
    PiecesOne(op);
    PiecesAppend(before, [op]);
    RecordsAppend(Pieces(before), Pieces([op]));
    if Pieces([op]) != [] {
      NoNewlineToTheEnd(Pieces([op]));
      assert Pieces([op])[..1] == Pieces([op]);
      assert Lines(Pieces([op])) == [Pieces([op])];
      ParsedOne(Pieces([op]));
    }
  }

  lemma {:induction false} ReadableAppend<R>(f: File<R>, g: File<R>)
    ensures Readable(f + g) <==> Readable(f) && Readable(g)
  {
    assert forall i :: 0 <= i < |f| ==> (f + g)[i] == f[i];
    assert forall i :: 0 <= i < |g| ==> (f + g)[|f| + i] == g[i];
  }

  lemma {:induction false} ReadableWritten<R>(value: R, o: Outcome)
    ensures Readable(Written(value, o)) <==> o != Fragment(true)
  {
    if o == Fragment(true) { assert Written(value, o)[0] == Torn(true); }
  }

  lemma {:induction false} ReadableOps<R>(ops: seq<Op<R>>)
    ensures Readable(Pieces(ops)) <==> forall i :: 0 <= i < |ops| ==> ops[i].outcome != Fragment(true)
  {
    hide Readable, Written;
    if ops == [] {
      NoPiecesReadable<R>();
    } else {
      var n := |ops| - 1;
      ReadableOps(ops[..n]);
      ReadableAppend(Pieces(ops[..n]), Written(ops[n].value, ops[n].outcome));
      ReadableWritten(ops[n].value, ops[n].outcome);
      assert forall i :: 0 <= i < n ==> ops[..n][i] == ops[i];
    }
  }

  lemma {:induction false} NoPiecesReadable<R>()
    ensures Readable<R>([])
  {
  }

  /** The documented promise that an interrupted write costs no earlier record
      fails exactly when it ends inside a multi-byte character: then nothing
      of the month is read any more. */
  lemma {:induction false} EarlierRecordsSurvive<R>(before: seq<Op<R>>, op: Op<R>)
    requires Terminated(Pieces(before)) && Interrupted(op.outcome) && Visible(Pieces(before)) != []
    ensures Visible(Pieces(before)) <= Visible(Pieces(before + [op])) <==> op.outcome != Fragment(true)
  {
    hide Records;
    ReadableOps(before);
    ReadableOps(before + [op]);
    LastLineUnterminated(before, op);
    assert (before + [op])[|before|] == op;
    forall i | 0 <= i < |before| ensures (before + [op])[i] == before[i] {}
  }

  /** … for instance one record, then an append in the same month cut inside
      a character: a reader sees nothing, and the drive has no baseline. */
  lemma {:induction false} CutCharacterLosesTheMonth<R>(first: R, at: nat, second: R, later: nat)
    requires FourDigitYear(at) && FourDigitYear(later) && MonthNumber(at) == MonthNumber(later)
    ensures var one := Appended(map[], at, first, Complete, 1);
      var two := Appended(one, later, second, Fragment(true), 1);
      && AllRecords(one) == [first] && LastRecord(one) == Some(first)
      && AllRecords(two) == [] && LastRecord(two) == None
  {
    hide Month, MonthNumber, FourDigitYear, Records, Appended, Readable;
    var m := Month(at);
    var one := Appended(map[], at, first, Complete, 1);
    var two := Appended(one, later, second, Fragment(true), 1);
    TwoAppends(first, at, second, later);
    OnlyFile(one, m);
    OnlyFile(two, m);
    assert [Text(first)] + [Newline] == [Text(first), Newline];
    OneLine([Text(first)]);
    CutIsUnreadable(first);
  }

  lemma {:induction false} CutIsUnreadable<R>(first: R)
    ensures Readable([Text(first), Newline]) && !Readable([Text(first), Newline, Torn(true)])
  {
    assert [Text(first), Newline, Torn(true)][2] == Torn(true);
  }

  lemma {:induction false} TwoAppends<R>(first: R, at: nat, second: R, later: nat)
    requires FourDigitYear(at) && FourDigitYear(later) && MonthNumber(at) == MonthNumber(later)
    ensures var one := Appended(map[], at, first, Complete, 1);
      var two := Appended(one, later, second, Fragment(true), 1);
      && one.Keys == {Month(at)} && one[Month(at)] == [Text(first), Newline]
      && two.Keys == {Month(at)} && two[Month(at)] == [Text(first), Newline, Torn(true)]
  {
    hide Month, MonthNumber, StrLess, Cutoff, MonthName, FourDigitYear;
    MonthIsItsName(at);
    MonthFilesSort(at, later);
    PruneComparesMonths(at, at, 1);
  }

  lemma {:induction false} OnlyFile<R>(files: Files<R>, m: string)
    requires files.Keys == {m}
    ensures Newest(files.Keys) == m
    ensures AllRecords(files) == Visible(files[m])
  {
    assert files - {m} == map[];
    assert AllRecords(files - {m}) == [];
  }

  // ------------------------------------------------ which files there are

  ghost function Keys<R>(ops: seq<Op<R>>): set<string> {
    set i | 0 <= i < |ops| && !ops[i].outcome.NotOpened? :: Month(ops[i].secs)
  }

  ghost predicate Opened<R>(ops: seq<Op<R>>, k: string) {
    exists i :: 0 <= i < |ops| && !ops[i].outcome.NotOpened? && Month(ops[i].secs) == k
  }

  function InMonth<R>(ops: seq<Op<R>>, k: string): seq<Op<R>> {
    if ops == [] then []
    else
      var op := ops[|ops| - 1];
      InMonth(ops[..|ops| - 1], k) + (if Month(op.secs) == k && !op.outcome.NotOpened? then [op] else [])
  }

  /** The first month not pruned: the newest `keep` months as of the last
      append that both opened a month and got all the way. (Opening a month
      with an append that fails skips the prune for good.) */
  ghost function Floor<R>(ops: seq<Op<R>>, keep: nat): int {
    if ops == [] then 0 - keep
    else
      var op := ops[|ops| - 1];
      var earlier := ops[..|ops| - 1];
      if op.outcome.Complete? && !Opened(earlier, Month(op.secs)) then MonthNumber(op.secs) - (keep - 1)
      else Floor(earlier, keep)
  }

  ghost function FilesOf<R>(ops: seq<Op<R>>, floor: int): Files<R> {
    map k | k in Keys(ops) && !StrLess(k, MonthName(floor)) :: Pieces(InMonth(ops, k))
  }

  lemma {:induction false} OrderedMonths<R>(ops: seq<Op<R>>, i: nat)
    requires InOrder(ops) && i < |ops|
    ensures MonthNumber(ops[i].secs) <= MonthNumber(ops[|ops| - 1].secs) < 120000
    ensures MonthNumber(ops[i].secs) >= 0
  {
    hide MonthNumber, Month, MonthName, FourDigitYear;
    MonthIsItsName(ops[|ops| - 1].secs);
    MonthIsItsName(ops[i].secs);
    if i < |ops| - 1 { MonthsFollowTime(ops[i].secs, ops[|ops| - 1].secs); }
  }

  lemma {:induction false} FloorBound<R>(ops: seq<Op<R>>, keep: nat)
    requires InOrder(ops) && keep >= 1
    ensures 0 - keep <= Floor(ops, keep)
    ensures ops != [] ==> Floor(ops, keep) <= MonthNumber(ops[|ops| - 1].secs) - (keep - 1)
  {
    hide MonthNumber, Month, FourDigitYear;
    if ops != [] {
      var n := |ops| - 1;
      OrderedMonths(ops, n);
      FloorBound(ops[..n], keep);
      if n > 0 { OrderedMonths(ops, n - 1); }
    }
  }

  /** A key sorts before a cutoff exactly when its month lies before it. */
  lemma {:induction false} KeyBefore(secs: nat, c: int)
    requires FourDigitYear(secs) && c < 120000
    ensures StrLess(Month(secs), MonthName(c)) <==> MonthNumber(secs) < c
  {
    hide MonthNumber, Month, MonthName, StrLess, FourDigitYear;
    MonthIsItsName(secs);
    if c < 0 { NegativeCutoff(MonthNumber(secs), c); } else { MonthNamesSort(MonthNumber(secs), c); }
  }

  lemma {:induction false} KeysGrow<R>(ops: seq<Op<R>>)
    requires ops != []
    ensures Keys(ops) == Keys(ops[..|ops| - 1])
      + (if ops[|ops| - 1].outcome.NotOpened? then {} else {Month(ops[|ops| - 1].secs)})
    ensures forall k :: Opened(ops, k) <==> k in Keys(ops)
  {
    hide Month;
    var n := |ops| - 1;
    forall k | k in Keys(ops) ensures k in Keys(ops[..n]) || (!ops[n].outcome.NotOpened? && k == Month(ops[n].secs)) {
      var i :| 0 <= i < |ops| && !ops[i].outcome.NotOpened? && Month(ops[i].secs) == k;
      if i < n { assert ops[..n][i] == ops[i]; }
    }
    forall k | k in Keys(ops[..n]) ensures k in Keys(ops) {
      var i :| 0 <= i < n && !ops[..n][i].outcome.NotOpened? && Month(ops[..n][i].secs) == k;
      assert ops[i] == ops[..n][i];
    }
  }

  lemma {:induction false} NotOpenedEmpty<R>(ops: seq<Op<R>>, k: string)
    requires k !in Keys(ops)
    ensures InMonth(ops, k) == []
  {
    hide Month;
    if ops != [] {
      KeysGrow(ops);
      NotOpenedEmpty(ops[..|ops| - 1], k);
    }
  }

  lemma {:induction false} InMonthGrows<R>(ops: seq<Op<R>>, k: string)
    requires ops != []
    ensures Pieces(InMonth(ops, k)) == Pieces(InMonth(ops[..|ops| - 1], k))
      + (if Month(ops[|ops| - 1].secs) == k then Written(ops[|ops| - 1].value, ops[|ops| - 1].outcome) else [])
  {
    hide Month, Written;
    var op := ops[|ops| - 1];
    var earlier := InMonth(ops[..|ops| - 1], k);
    assert earlier + [] == earlier && Pieces(earlier) + [] == Pieces(earlier);
    if Month(op.secs) == k {
      if op.outcome.NotOpened? {
        NotOpenedWrites(op);
      } else { assert (earlier + [op])[..|earlier|] == earlier; }
    }
  }

  lemma {:induction false} NotOpenedWrites<R>(op: Op<R>)
    requires op.outcome.NotOpened?
    ensures Written(op.value, op.outcome) == []
  {
  }

  /** A month already opened in an ordered run has not been pruned yet when
      its turn comes again, and the month being written never is. */
  lemma {:induction false} CurrentMonthStays<R>(ops: seq<Op<R>>, keep: nat)
    requires InOrder(ops) && ops != [] && keep >= 1
    ensures !StrLess(Month(ops[|ops| - 1].secs), MonthName(Floor(ops[..|ops| - 1], keep)))
    ensures !StrLess(Month(ops[|ops| - 1].secs), MonthName(Floor(ops, keep)))
    ensures Floor(ops[..|ops| - 1], keep) <= Floor(ops, keep) < 120000
  {
    hide Month, MonthNumber, MonthName, StrLess, FourDigitYear;
    var n := |ops| - 1;
    OrderedMonths(ops, n);
    FloorBound(ops[..n], keep);
    if n > 0 { OrderedMonths(ops, n - 1); }
    FloorBound(ops, keep);
    KeyBefore(ops[n].secs, Floor(ops[..n], keep));
    KeyBefore(ops[n].secs, Floor(ops, keep));
  }

  /** Keys surviving a higher floor survive a lower one. */
  lemma {:induction false} FloorMonotone<R>(ops: seq<Op<R>>, k: string, low: int, high: int)
    requires InOrder(ops) && k in Keys(ops) && low <= high < 120000
    requires !StrLess(k, MonthName(high))
    ensures !StrLess(k, MonthName(low))
  {
    hide Month, MonthNumber, MonthName, StrLess, FourDigitYear;
    var i :| 0 <= i < |ops| && !ops[i].outcome.NotOpened? && Month(ops[i].secs) == k;
    KeyBefore(ops[i].secs, low);
    KeyBefore(ops[i].secs, high);
  }

  /** The directory after any ordered run: of every month opened, exactly the
      ones not below the floor, each holding everything written to it. */
  lemma {:induction false} RunContents<R>(ops: seq<Op<R>>, keep: nat)
    requires InOrder(ops) && keep >= 1
    ensures Run(ops, keep) == FilesOf(ops, Floor(ops, keep))
  {
    hide Month, MonthNumber, MonthName, StrLess, FourDigitYear, Cutoff, Pieces, InMonth, Written;
    if ops == [] {
      assert Keys(ops) == {};
    } else {
      var n := |ops| - 1;
      RunContents(ops[..n], keep);
      RunStep(ops, keep);
    }
  }

  /** One more append to a month the reader already sees, or one that does
      not get as far as the prune. */
  lemma {:induction false} StepWithoutPrune<R>(pre: seq<Op<R>>, op: Op<R>, floor: int, files: Files<R>)
    requires !op.outcome.NotOpened?
    requires !StrLess(Month(op.secs), MonthName(floor))
    requires files == FilesOf(pre, floor)
    ensures var m := Month(op.secs);
      files[m := (if m in files then files[m] else []) + Written(op.value, op.outcome)] == FilesOf(pre + [op], floor)
  {
    hide Month, MonthName, StrLess, Pieces, InMonth, Written;
    var m, ops := Month(op.secs), pre + [op];
    var next := files[m := (if m in files then files[m] else []) + Written(op.value, op.outcome)];
    assert ops[..|pre|] == pre;
    KeysGrow(ops);
    assert next.Keys == FilesOf(ops, floor).Keys;
    forall k | k in next ensures next[k] == FilesOf(ops, floor)[k] {
      InMonthGrows(ops, k);
      if k == m && m !in files {
        NotOpenedEmpty(pre, m);
        PiecesOfNone<R>();
      }
      assert Pieces(InMonth(pre, k)) + [] == Pieces(InMonth(pre, k));
    }
  }

  lemma {:induction false} StepPrune<R>(ops: seq<Op<R>>, low: int, high: int)
    requires InOrder(ops) && low <= high < 120000
    ensures Pruned(FilesOf(ops, low), MonthName(high)) == FilesOf(ops, high)
  {
    hide Month, MonthName, StrLess, Pieces, InMonth, FourDigitYear;
    var a, b := Pruned(FilesOf(ops, low), MonthName(high)), FilesOf(ops, high);
    forall k | k in b ensures k in a {
      FloorMonotone(ops, k, low, high);
    }
    assert a.Keys == b.Keys;
  }

  lemma {:induction false} StepNotOpened<R>(pre: seq<Op<R>>, op: Op<R>, floor: int)
    requires op.outcome.NotOpened?
    ensures FilesOf(pre + [op], floor) == FilesOf(pre, floor)
  {
    hide Month, MonthName, StrLess, Pieces, InMonth, Written;
    var ops := pre + [op];
    assert ops[..|pre|] == pre;
    KeysGrow(ops);
    NotOpenedWrites(op);
    var a, b := FilesOf(ops, floor), FilesOf(pre, floor);
    assert a.Keys == b.Keys;
    forall k | k in a ensures a[k] == b[k] {
      InMonthGrows(ops, k);
      assert Pieces(InMonth(pre, k)) + [] == Pieces(InMonth(pre, k));
    }
  }

  lemma {:induction false} RunStep<R>(ops: seq<Op<R>>, keep: nat)
    requires InOrder(ops) && keep >= 1 && ops != []
    ensures var op := ops[|ops| - 1];
      Appended(FilesOf(ops[..|ops| - 1], Floor(ops[..|ops| - 1], keep)), op.secs, op.value, op.outcome, keep)
        == FilesOf(ops, Floor(ops, keep))
  {
    hide Month, MonthNumber, MonthName, StrLess, FourDigitYear, Cutoff, Pieces, InMonth, Written, FilesOf, Pruned, Keys, Opened;
    var n := |ops| - 1;
    var op, pre := ops[n], ops[..n];
    var m := Month(op.secs);
    var low, high := Floor(pre, keep), Floor(ops, keep);
    var was := FilesOf(pre, low);
    CurrentMonthStays(ops, keep);
    KeysGrowOpened(pre, m);
    FilesOfHas(pre, m, low);
    assert pre + [op] == ops;
    if op.outcome.NotOpened? {
      StepNotOpened(pre, op, low);
    } else {
      StepWithoutPrune(pre, op, low, was);
      MonthIsItsName(op.secs);
      if op.outcome.Complete? && m !in was {
        CutoffIsEarlierMonth(MonthNumber(op.secs), keep);
        StepPrune(ops, low, high);
      }
    }
  }

  lemma {:induction false} FilesOfHas<R>(ops: seq<Op<R>>, k: string, floor: int)
    ensures k in FilesOf(ops, floor) <==> k in Keys(ops) && !StrLess(k, MonthName(floor))
  {
    hide Month, MonthName, StrLess, Pieces, InMonth;
  }

  lemma {:induction false} PiecesOfNone<R>()
    ensures Pieces<R>([]) == []
  {
  }

  lemma {:induction false} KeysGrowOpened<R>(ops: seq<Op<R>>, k: string)
    ensures Opened(ops, k) <==> k in Keys(ops)
  {
    hide Month;
  }

  /** Pruning follows only an append that opens a month and comes all the way.
      With one month kept: of a month written, then another whose first append
      ends as `o`, then that other again, the older one's file is still there
      exactly if that first append opened its file and failed. */
  lemma {:induction false} FailedOpeningKeepsOldMonth<R>(a: Op<R>, b: Op<R>, c: Op<R>)
    requires a.outcome.Complete? && c.outcome.Complete? && a.secs <= b.secs <= c.secs && FourDigitYear(c.secs)
    requires FourDigitYear(a.secs) && FourDigitYear(b.secs)
    requires MonthNumber(a.secs) < MonthNumber(b.secs) == MonthNumber(c.secs)
    ensures Month(a.secs) in Run([a, b, c], 1) <==> !b.outcome.Complete? && !b.outcome.NotOpened?
    ensures Month(c.secs) in Run([a, b, c], 1)
  {
    hide Month, MonthNumber, MonthName, StrLess, FourDigitYear, Pieces, InMonth;
    var ops := [a, b, c];
    MonthFilesSort(a.secs, b.secs);
    MonthFilesSort(b.secs, c.secs);
    FloorOfThree(a, b, c);
    MonthIsItsName(c.secs);
    MonthIsItsName(a.secs);
    RunContents(ops, 1);
    FilesOfHas(ops, Month(a.secs), Floor(ops, 1));
    FilesOfHas(ops, Month(c.secs), Floor(ops, 1));
    KeyBefore(a.secs, Floor(ops, 1));
    KeyBefore(c.secs, Floor(ops, 1));
    assert ops[0] == a && ops[2] == c;
  }

  lemma {:induction false} FloorOfThree<R>(a: Op<R>, b: Op<R>, c: Op<R>)
    requires a.outcome.Complete? && c.outcome.Complete?
    requires Month(a.secs) != Month(b.secs) == Month(c.secs)
    ensures Floor([a, b, c], 1)
      == if b.outcome.Complete? then MonthNumber(b.secs) else if b.outcome.NotOpened? then MonthNumber(c.secs) else MonthNumber(a.secs)
  {
    hide Month, MonthNumber;
    var three, two, one := [a, b, c], [a, b], [a];
    assert three[..2] == two && two[..1] == one && one[..0] == [];
    assert Floor(one, 1) == MonthNumber(a.secs);
    assert !Opened(one, Month(b.secs));
    assert Opened(two, Month(c.secs)) <==> !b.outcome.NotOpened? by {
      if !b.outcome.NotOpened? { assert two[1] == b; }
    }
    assert Floor(two, 1) == if b.outcome.Complete? then MonthNumber(b.secs) else MonthNumber(a.secs);
  }
}
