/** What a reader gets after any run of appends, interrupted or not: exactly
    the records whose line came out whole and alone, of the months kept, unless
    a character was cut in that month. */
module HistoryReads {
  import opened Common
  import opened MonthNames
  import opened HistoryLog
  import opened HistoryRuns

  // ------------------------------------------------ which appends survive

  predicate Wrote(o: Outcome) { o.Fragment? || o.NoNewline? || o.NotSynced? || o.Complete? }

  predicate Ended(o: Outcome) { o.NotSynced? || o.Complete? }

  predicate In<R>(op: Op<R>, q: int) { MonthNumber(op.secs) == q }

  /** Of the first `n` appends, the last one to month `q` that wrote anything
      ended in a newline. */
  ghost predicate Clean<R>(ops: seq<Op<R>>, n: nat, q: int)
    requires n <= |ops|
  {
    forall j :: 0 <= j < n && In(ops[j], q) && Wrote(ops[j].outcome) && Silent(ops, j, n, q) ==> Ended(ops[j].outcome)
  }

  /** Between append `j` and append `n` nothing was written to month `q`. */
  ghost predicate Silent<R>(ops: seq<Op<R>>, j: nat, n: nat, q: int)
    requires n <= |ops|
  {
    forall l :: j < l < n && In(ops[l], q) ==> !Wrote(ops[l].outcome)
  }

  /** An append of month `q` ended inside a character. */
  ghost predicate Cut<R>(ops: seq<Op<R>>, q: int) {
    exists j :: 0 <= j < |ops| && In(ops[j], q) && ops[j].outcome == Fragment(true)
  }

  /** A text without its newline, on a line of its own, and nothing after it. */
  ghost predicate Dangles<R>(ops: seq<Op<R>>, i: nat, q: int)
    requires i < |ops|
  {
    In(ops[i], q) && ops[i].outcome.NoNewline? && Clean(ops, i, q) && Silent(ops, i, |ops|, q)
  }

  /** An append is read back if it started on a fresh line and its whole line
      came out, or all but the newline with nothing written after it; and no
      append of its month was cut inside a character. */
  ghost predicate Survives<R>(ops: seq<Op<R>>, i: nat)
    requires i < |ops|
  {
    var q := MonthNumber(ops[i].secs);
    !Cut(ops, q) && ((Ended(ops[i].outcome) && Clean(ops, i, q)) || Dangles(ops, i, q))
  }

  /** The values of the surviving among the first `n` appends, of the months
      from `lo` to before `hi`, in append order. */
  ghost function Survivors<R>(ops: seq<Op<R>>, n: nat, lo: int, hi: int): seq<R>
    requires n <= |ops|
  {
    if n == 0 then []
    else
      Survivors(ops, n - 1, lo, hi) +
      (if lo <= MonthNumber(ops[n - 1].secs) < hi && Survives(ops, n - 1) then [ops[n - 1].value] else [])
  }

  // ------------------------------------------------ one month's file, line by line

  /** The unfinished line at the end of month `q` after `n` appends. */
  ghost function OpenLine<R>(ops: seq<Op<R>>, n: nat, q: int): File<R>
    requires n <= |ops|
  {
    if n == 0 then []
    else
      var op := ops[n - 1];
      if !In(op, q) || !Wrote(op.outcome) then OpenLine(ops, n - 1, q)
      else if Ended(op.outcome) then []
      else OpenLine(ops, n - 1, q) + Written(op.value, op.outcome)
  }

  /** The records of its finished lines. */
  ghost function Done<R>(ops: seq<Op<R>>, n: nat, q: int): seq<R>
    requires n <= |ops|
  {
    if n == 0 then []
    else
      var op := ops[n - 1];
      Done(ops, n - 1, q) + (if In(op, q) && Ended(op.outcome) && OpenLine(ops, n - 1, q) == [] then [op.value] else [])
  }

  ghost predicate NoNewlines<R>(f: File<R>) { forall i :: 0 <= i < |f| ==> !f[i].Newline? }

  /** The key `k` is that of month `q`. */
  ghost predicate KeyOfMonth<R>(ops: seq<Op<R>>, k: string, q: int) {
    forall i :: 0 <= i < |ops| ==> (Month(ops[i].secs) == k <==> In(ops[i], q))
  }

  lemma {:induction false} FinishLine<R>(t: File<R>, open: File<R>, value: R)
    requires Terminated(t) && NoNewlines(open)
    ensures Terminated(t + open + [Text(value), Newline])
    ensures Records(t + open + [Text(value), Newline]) == Records(t) + (if open == [] then [value] else [])
  {
    hide Records;
    var line := open + [Text(value)];
    assert t + open + [Text(value), Newline] == t + (line + [Newline]);
    RecordsAppend(t, line + [Newline]);
    OneLine(line);
  }

  lemma {:induction false} FileStep<R>(ops: seq<Op<R>>, n: nat, q: int, s: File<R>) returns (t: File<R>)
    requires 0 < n <= |ops| && Terminated(s) && NoNewlines(OpenLine(ops, n - 1, q)) && Records(s) == Done(ops, n - 1, q)
    ensures Terminated(t) && NoNewlines(OpenLine(ops, n, q)) && Records(t) == Done(ops, n, q)
    ensures var op := ops[n - 1];
      t + OpenLine(ops, n, q) == s + OpenLine(ops, n - 1, q) + (if In(op, q) then Written(op.value, op.outcome) else [])
  {
    hide MonthNumber, In, Records, Terminated;
    var op := ops[n - 1];
    var open := OpenLine(ops, n - 1, q);
    if In(op, q) && Ended(op.outcome) {
      t := s + open + [Text(op.value), Newline];
      FinishLine(s, open, op.value);
      assert t + [] == t;
    } else {
      t := s;
      WroteNothing(op);
      assert Done(ops, n - 1, q) + [] == Done(ops, n - 1, q);
      var w := if In(op, q) then Written(op.value, op.outcome) else [];
      assert s + open + w == s + (open + w);
      assert open + [] == open;
    }
  }

  /** After any appends the file is finished lines and one open line. */
  lemma {:induction false} FileState<R>(ops: seq<Op<R>>, n: nat, q: int, k: string) returns (t: File<R>)
    requires n <= |ops| && KeyOfMonth(ops, k, q)
    ensures Terminated(t) && NoNewlines(OpenLine(ops, n, q))
    ensures Pieces(InMonth(ops[..n], k)) == t + OpenLine(ops, n, q) && Records(t) == Done(ops, n, q)
    decreases n
  {
    if n == 0 {
      hide Month, MonthNumber, Records, Terminated;
      t := [];
      EmptyFile<R>();
      assert ops[..0] == [];
    } else {
      hide Month, MonthNumber, Records, Terminated, In, OpenLine, Done, NoNewlines, Pieces, InMonth, Written;
      var s := FileState(ops, n - 1, q, k);
      t := FileStep(ops, n, q, s);
      MonthGrows(ops, n, q, k);
    }
  }

  lemma {:induction false} MonthGrows<R>(ops: seq<Op<R>>, n: nat, q: int, k: string)
    requires 0 < n <= |ops| && KeyOfMonth(ops, k, q)
    ensures var op := ops[n - 1];
      Pieces(InMonth(ops[..n], k)) == Pieces(InMonth(ops[..n - 1], k)) + (if In(op, q) then Written(op.value, op.outcome) else [])
  {
    hide Month, In, Pieces, InMonth, Written;
    assert ops[..n][..n - 1] == ops[..n - 1] && ops[..n][n - 1] == ops[n - 1];
    InMonthGrows(ops[..n], k);
  }

  lemma {:induction false} EmptyFile<R>()
    ensures Terminated<R>([]) && Records<R>([]) == []
  {
  }

  lemma {:induction false} WroteNothing<R>(op: Op<R>)
    ensures !Wrote(op.outcome) ==> Written(op.value, op.outcome) == []
    ensures !Ended(op.outcome) ==> NoNewlines(Written(op.value, op.outcome))
  {
  }

  lemma {:induction false} OpenRecords<R>(open: File<R>)
    requires NoNewlines(open)
    ensures Records(open) == if open != [] && ParseLine(open).Some? then [ParseLine(open).value] else []
  {
    if open != [] {
      NoNewlineToTheEnd(open);
      assert open[..|open|] == open;
      assert Lines(open) == [open];
      ParsedOne(open);
    }
  }

  lemma {:induction false} MonthRecords<R>(ops: seq<Op<R>>, q: int, k: string)
    requires KeyOfMonth(ops, k, q)
    ensures var open := OpenLine(ops, |ops|, q);
      Records(Pieces(InMonth(ops, k))) == Done(ops, |ops|, q) + (if open != [] && ParseLine(open).Some? then [ParseLine(open).value] else [])
  {
    hide Month, MonthNumber, Records, OpenLine, Done;
    assert ops[..|ops|] == ops;
    var t := FileState(ops, |ops|, q, k);
    RecordsAppend(t, OpenLine(ops, |ops|, q));
    OpenRecords(OpenLine(ops, |ops|, q));
  }

  // ------------------------------------------------ open lines and clean starts

  lemma {:induction false} CleanStep<R>(ops: seq<Op<R>>, n: nat, q: int)
    requires 0 < n <= |ops|
    ensures In(ops[n - 1], q) && Wrote(ops[n - 1].outcome) ==> (Clean(ops, n, q) <==> Ended(ops[n - 1].outcome))
    ensures !(In(ops[n - 1], q) && Wrote(ops[n - 1].outcome)) ==> (Clean(ops, n, q) <==> Clean(ops, n - 1, q))
  {
    hide MonthNumber, In, Wrote, Ended;
    assert Silent(ops, n - 1, n, q);
    if In(ops[n - 1], q) && Wrote(ops[n - 1].outcome) {
      forall j | 0 <= j < n - 1 ensures !Silent(ops, j, n, q) {
        assert j < n - 1 < n;
      }
    } else {
      forall j | 0 <= j < n - 1 ensures Silent(ops, j, n, q) <==> Silent(ops, j, n - 1, q) {}
    }
  }

  lemma {:induction false} OpenIsUnclean<R>(ops: seq<Op<R>>, n: nat, q: int)
    requires n <= |ops|
    ensures OpenLine(ops, n, q) == [] <==> Clean(ops, n, q)
    decreases n
  {
    hide MonthNumber, In, Clean;
    if n == 0 {
      assert Clean(ops, 0, q) by { NothingClean(ops, q); }
    } else {
      OpenIsUnclean(ops, n - 1, q);
      CleanStep(ops, n, q);
    }
  }

  lemma {:induction false} NothingClean<R>(ops: seq<Op<R>>, q: int)
    ensures Clean(ops, 0, q)
  {
  }

  /** A lone text at the end was put there by an append that dangles. */
  lemma {:induction false} LoneText<R>(ops: seq<Op<R>>, n: nat, q: int) returns (i: nat)
    requires n <= |ops| && OpenLine(ops, n, q) != [] && ParseLine(OpenLine(ops, n, q)).Some?
    ensures i < n && In(ops[i], q) && ops[i].outcome.NoNewline? && Clean(ops, i, q) && Silent(ops, i, n, q)
    ensures OpenLine(ops, n, q) == [Text(ops[i].value)]
    decreases n
  {
    hide MonthNumber, In, Clean;
    var op := ops[n - 1];
    if In(op, q) && Wrote(op.outcome) {
      i := n - 1;
      OpenIsUnclean(ops, n - 1, q);
    } else {
      i := LoneText(ops, n - 1, q);
    }
  }

  lemma {:induction false} LoneTextBack<R>(ops: seq<Op<R>>, n: nat, q: int, i: nat)
    requires i < n <= |ops| && In(ops[i], q) && ops[i].outcome.NoNewline? && Clean(ops, i, q) && Silent(ops, i, n, q)
    ensures OpenLine(ops, n, q) == [Text(ops[i].value)]
    decreases n
  {
    hide MonthNumber, In, Clean;
    if i == n - 1 {
      OpenIsUnclean(ops, i, q);
      assert [] + [Text(ops[i].value)] == [Text(ops[i].value)];
    } else {
      LoneTextBack(ops, n - 1, q, i);
    }
  }

  // ------------------------------------------------ a month's survivors are what its file shows

  lemma {:induction false} SurvivesMeans<R>(ops: seq<Op<R>>, j: nat, q: int)
    requires j < |ops| && !Cut(ops, q)
    ensures In(ops[j], q) ==>
      (Survives(ops, j) <==> (Ended(ops[j].outcome) && OpenLine(ops, j, q) == []) || Dangles(ops, j, q))
    ensures In(ops[j], q) <==> q <= MonthNumber(ops[j].secs) < q + 1
    ensures Dangles(ops, j, q) ==> In(ops[j], q) && !Ended(ops[j].outcome)
  {
    hide MonthNumber, Clean, Cut, OpenLine, Silent;
    OpenIsUnclean(ops, j, q);
  }

  lemma {:induction false} SurvivorsNone<R>(ops: seq<Op<R>>, n: nat, q: int)
    requires n <= |ops| && !Cut(ops, q) && forall i :: 0 <= i < |ops| ==> !Dangles(ops, i, q)
    ensures Survivors(ops, n, q, q + 1) == Done(ops, n, q)
    decreases n
  {
    hide MonthNumber, Cut, Dangles, Survives, In, OpenLine;
    if n > 0 {
      SurvivorsNone(ops, n - 1, q);
      SurvivesMeans(ops, n - 1, q);
    }
  }

  lemma {:induction false} SurvivorsOne<R>(ops: seq<Op<R>>, n: nat, q: int, i: nat)
    requires n <= |ops| && !Cut(ops, q) && i < |ops| && Dangles(ops, i, q)
    ensures Survivors(ops, n, q, q + 1) == Done(ops, n, q) + (if i < n then [ops[i].value] else [])
    decreases n
  {
    hide MonthNumber, Cut, Dangles, Survives, In, OpenLine;
    if n > 0 {
      SurvivorsOne(ops, n - 1, q, i);
      SurvivesMeans(ops, n - 1, q);
      DangleStep(ops, n - 1, q, i);
      SurvivesMeans(ops, i, q);
      hide Ended;
    }
  }

  lemma {:induction false} DangleStep<R>(ops: seq<Op<R>>, j: nat, q: int, i: nat)
    requires j < |ops| && i < |ops| && Dangles(ops, i, q)
    ensures In(ops[j], q) && Ended(ops[j].outcome) ==> j < i
    ensures Dangles(ops, j, q) ==> j == i
    ensures ops[i].outcome.NoNewline? && In(ops[i], q)
  {
    hide MonthNumber, In, Clean;
  }

  lemma {:induction false} SurvivorsCut<R>(ops: seq<Op<R>>, n: nat, q: int)
    requires n <= |ops| && Cut(ops, q)
    ensures Survivors(ops, n, q, q + 1) == []
    decreases n
  {
    hide MonthNumber, Clean, Cut, Dangles;
    if n > 0 { SurvivorsCut(ops, n - 1, q); }
  }

  ghost predicate CutBefore<R>(ops: seq<Op<R>>, n: nat, q: int)
    requires n <= |ops|
  {
    exists j :: 0 <= j < n && In(ops[j], q) && ops[j].outcome == Fragment(true)
  }

  lemma {:induction false} CutStep<R>(ops: seq<Op<R>>, n: nat, q: int)
    requires 0 < n <= |ops|
    ensures CutBefore(ops, n, q) <==> CutBefore(ops, n - 1, q) || (In(ops[n - 1], q) && ops[n - 1].outcome == Fragment(true))
  {
    hide In;
  }

  lemma {:induction false} ReadableMonth<R>(ops: seq<Op<R>>, n: nat, q: int, k: string)
    requires n <= |ops| && KeyOfMonth(ops, k, q)
    ensures Readable(Pieces(InMonth(ops[..n], k))) <==> !CutBefore(ops, n, q)
    decreases n
  {
    hide Month, MonthNumber, In, Readable, Written, KeyOfMonth;
    NoPiecesReadable<R>();
    if n == 0 {
      assert ops[..0] == [];
    } else {
      hide Pieces, InMonth, CutBefore;
      var op := ops[n - 1];
      ReadableMonth(ops, n - 1, q, k);
      MonthGrows(ops, n, q, k);
      CutStep(ops, n, q);
      ReadableAppend(Pieces(InMonth(ops[..n - 1], k)), if In(op, q) then Written(op.value, op.outcome) else []);
      ReadableWritten(op.value, op.outcome);
    }
  }

  /** A month's file shows exactly the surviving appends to it, in order. */
  lemma {:induction false} MonthShows<R>(ops: seq<Op<R>>, q: int, k: string)
    requires KeyOfMonth(ops, k, q)
    ensures Readable(Pieces(InMonth(ops, k))) <==> !Cut(ops, q)
    ensures Visible(Pieces(InMonth(ops, k))) == Survivors(ops, |ops|, q, q + 1)
  {
    hide Month, MonthNumber, In, Readable, Records, Survivors, Dangles;
    assert ops[..|ops|] == ops;
    ReadableMonth(ops, |ops|, q, k);
    if Cut(ops, q) {
      SurvivorsCut(ops, |ops|, q);
    } else {
      MonthRecords(ops, q, k);
      var open := OpenLine(ops, |ops|, q);
      if i :| 0 <= i < |ops| && Dangles(ops, i, q) {
        SurvivorsOne(ops, |ops|, q, i);
        DangleOpens(ops, q, i);
      } else {
        SurvivorsNone(ops, |ops|, q);
        TextDangles(ops, q);
        assert Done(ops, |ops|, q) + [] == Done(ops, |ops|, q);
      }
    }
  }

  lemma {:induction false} DangleOpens<R>(ops: seq<Op<R>>, q: int, i: nat)
    requires i < |ops| && Dangles(ops, i, q)
    ensures OpenLine(ops, |ops|, q) == [Text(ops[i].value)]
  {
    hide MonthNumber, Clean, In;
    LoneTextBack(ops, |ops|, q, i);
  }

  lemma {:induction false} TextDangles<R>(ops: seq<Op<R>>, q: int)
    ensures var open := OpenLine(ops, |ops|, q);
      open != [] && ParseLine(open).Some? ==> exists i :: 0 <= i < |ops| && Dangles(ops, i, q)
  {
    hide MonthNumber, Clean, In, OpenLine;
    if OpenLine(ops, |ops|, q) != [] && ParseLine(OpenLine(ops, |ops|, q)).Some? {
      var i := LoneText(ops, |ops|, q);
      assert Dangles(ops, i, q);
    }
  }

  // ------------------------------------------------ month after month

  ghost predicate OpenedIn<R>(ops: seq<Op<R>>, i: nat, q: int)
    requires i < |ops|
  {
    !ops[i].outcome.NotOpened? && In(ops[i], q)
  }

  ghost predicate KeyBetween<R>(ops: seq<Op<R>>, k: string, lo: int, hi: int) {
    exists i :: 0 <= i < |ops| && Month(ops[i].secs) == k && lo <= MonthNumber(ops[i].secs) < hi
  }

  /** The files of the months from `lo` to before `hi`. */
  ghost function Between<R>(ops: seq<Op<R>>, lo: int, hi: int): Files<R> {
    map k | k in Keys(ops) && KeyBetween(ops, k, lo, hi) :: Pieces(InMonth(ops, k))
  }

  lemma {:induction false} KeyMonth<R>(ops: seq<Op<R>>, i: nat)
    requires InOrder(ops) && i < |ops|
    ensures KeyOfMonth(ops, Month(ops[i].secs), MonthNumber(ops[i].secs))
    ensures forall lo: int, hi: int :: KeyBetween(ops, Month(ops[i].secs), lo, hi) <==> lo <= MonthNumber(ops[i].secs) < hi
  {
    hide Month, MonthNumber, StrLess, FourDigitYear;
    forall j | 0 <= j < |ops| ensures Month(ops[j].secs) == Month(ops[i].secs) <==> MonthNumber(ops[j].secs) == MonthNumber(ops[i].secs) {
      MonthFilesSort(ops[j].secs, ops[i].secs);
    }
  }

  lemma {:induction false} KeptFiles<R>(ops: seq<Op<R>>, floor: int)
    requires InOrder(ops) && floor < 120000
    ensures FilesOf(ops, floor) == Between(ops, floor, 120000)
  {
    hide Month, MonthNumber, MonthName, StrLess, FourDigitYear, Pieces, InMonth, KeyBetween;
    forall k | k in Keys(ops) ensures !StrLess(k, MonthName(floor)) <==> KeyBetween(ops, k, floor, 120000) {
      var i :| 0 <= i < |ops| && !ops[i].outcome.NotOpened? && Month(ops[i].secs) == k;
      KeyBefore(ops[i].secs, floor);
      OrderedMonths(ops, i);
      KeyMonth(ops, i);
    }
    assert FilesOf(ops, floor).Keys == Between(ops, floor, 120000).Keys;
  }

  lemma {:induction false} NoMonth<R>(ops: seq<Op<R>>, lo: int, c: int)
    requires InOrder(ops) && lo <= c && forall i :: 0 <= i < |ops| ==> !OpenedIn(ops, i, c)
    ensures Between(ops, lo, c + 1) == Between(ops, lo, c)
  {
    hide Month, MonthNumber, FourDigitYear, Pieces, InMonth, KeyBetween;
    forall k | k in Keys(ops) ensures KeyBetween(ops, k, lo, c + 1) <==> KeyBetween(ops, k, lo, c) {
      var i :| 0 <= i < |ops| && !ops[i].outcome.NotOpened? && Month(ops[i].secs) == k;
      assert !OpenedIn(ops, i, c);
      KeyMonth(ops, i);
    }
    assert Between(ops, lo, c + 1).Keys == Between(ops, lo, c).Keys;
  }

  lemma {:induction false} OneMonth<R>(ops: seq<Op<R>>, lo: int, c: int, i: nat)
    requires InOrder(ops) && lo <= c && i < |ops| && OpenedIn(ops, i, c)
    ensures var m, now := Month(ops[i].secs), Between(ops, lo, c + 1);
      && KeyOfMonth(ops, m, c) && IsNewest(now.Keys, m) && now - {m} == Between(ops, lo, c) && now[m] == Pieces(InMonth(ops, m))
  {
    hide Month, MonthNumber, StrLess, FourDigitYear, Pieces, InMonth, KeyBetween;
    var m, now := Month(ops[i].secs), Between(ops, lo, c + 1);
    KeyMonth(ops, i);
    assert m in Keys(ops);
    forall k | k in Keys(ops) && k != m
      ensures KeyBetween(ops, k, lo, c + 1) <==> KeyBetween(ops, k, lo, c)
      ensures KeyBetween(ops, k, lo, c) ==> StrLess(k, m)
    {
      var j :| 0 <= j < |ops| && !ops[j].outcome.NotOpened? && Month(ops[j].secs) == k;
      KeyMonth(ops, j);
      MonthFilesSort(ops[j].secs, ops[i].secs);
    }
    assert (now - {m}).Keys == Between(ops, lo, c).Keys;
  }

  lemma {:induction false} SurvivorsLater<R>(ops: seq<Op<R>>, n: nat, lo: int, hi: int)
    requires n <= |ops| && forall i :: 0 <= i < n ==> MonthNumber(ops[i].secs) < lo
    ensures Survivors(ops, n, lo, hi) == []
    decreases n
  {
    hide MonthNumber, Survives;
    if n > 0 { SurvivorsLater(ops, n - 1, lo, hi); }
  }

  lemma {:induction false} SurvivorsSplit<R>(ops: seq<Op<R>>, n: nat, lo: int, c: int)
    requires InOrder(ops) && n <= |ops| && lo <= c
    ensures Survivors(ops, n, lo, c + 1) == Survivors(ops, n, lo, c) + Survivors(ops, n, c, c + 1)
    decreases n
  {
    hide MonthNumber, Survives, FourDigitYear;
    if n > 0 {
      SurvivorsSplit(ops, n - 1, lo, c);
      if MonthNumber(ops[n - 1].secs) < c {
        forall i | 0 <= i < n ensures MonthNumber(ops[i].secs) < c { MonthsFollowTime(ops[i].secs, ops[n - 1].secs); }
        SurvivorsLater(ops, n - 1, c, c + 1);
        SurvivorsLater(ops, n, c, c + 1);
      }
    }
  }

  lemma {:induction false} SurvivorsUnopened<R>(ops: seq<Op<R>>, n: nat, q: int)
    requires n <= |ops| && forall i :: 0 <= i < |ops| ==> !OpenedIn(ops, i, q)
    ensures Survivors(ops, n, q, q + 1) == []
    decreases n
  {
    hide MonthNumber, Clean, Silent;
    if n > 0 {
      SurvivorsUnopened(ops, n - 1, q);
      assert !OpenedIn(ops, n - 1, q);
    }
  }

  lemma {:induction false} UnopenedUncut<R>(ops: seq<Op<R>>, q: int)
    requires forall i :: 0 <= i < |ops| ==> !OpenedIn(ops, i, q)
    ensures !Cut(ops, q)
  {
    hide MonthNumber, In;
    forall i | 0 <= i < |ops| ensures !(In(ops[i], q) && ops[i].outcome == Fragment(true)) {
      assert !OpenedIn(ops, i, q);
    }
  }

  lemma {:induction false} NoFilesBetween<R>(ops: seq<Op<R>>, c: int)
    ensures Between(ops, c, c) == map[]
  {
    hide Month, MonthNumber;
  }

  lemma {:induction false} SurvivorsNowhere<R>(ops: seq<Op<R>>, n: nat, c: int)
    requires n <= |ops|
    ensures Survivors(ops, n, c, c) == []
    decreases n
  {
    hide MonthNumber, Survives;
    if n > 0 { SurvivorsNowhere(ops, n - 1, c); }
  }

  /** All that a reader of these months gets. */
  lemma {:induction false} ReadsBetween<R>(ops: seq<Op<R>>, lo: int, c: int)
    requires InOrder(ops) && lo <= c
    ensures AllRecords(Between(ops, lo, c)) == Survivors(ops, |ops|, lo, c)
    decreases c - lo
  {
    hide MonthNumber, Month, FourDigitYear, Between, Survivors, Pieces, InMonth, Visible, KeyOfMonth;
    if lo == c {
      NoFilesBetween(ops, c);
      SurvivorsNowhere(ops, |ops|, c);
    } else {
      var q := c - 1;
      ReadsBetween(ops, lo, q);
      SurvivorsSplit(ops, |ops|, lo, q);
      if i :| 0 <= i < |ops| && OpenedIn(ops, i, q) {
        OneMonth(ops, lo, q, i);
        var now := Between(ops, lo, q + 1);
        NewestUnique(now.Keys, Month(ops[i].secs), Newest(now.Keys));
        MonthShows(ops, q, Month(ops[i].secs));
      } else {
        NoMonth(ops, lo, q);
        SurvivorsUnopened(ops, |ops|, q);
        UnopenedUncut(ops, q);
      }
    }
  }

  /** The survivors of the months after `q`. */
  ghost function After<R>(ops: seq<Op<R>>, q: int, hi: int): seq<R> { Survivors(ops, |ops|, q + 1, hi) }

  /** A month with a cut character and no survivor after it: the search for
      the newest record stops there with nothing. */
  ghost predicate HidesLast<R>(ops: seq<Op<R>>, lo: int, hi: int) {
    exists q :: lo <= q < hi && Cut(ops, q) && After(ops, q, hi) == []
  }

  ghost function LastOf<R>(ops: seq<Op<R>>, lo: int, hi: int): Option<R> {
    var s := Survivors(ops, |ops|, lo, hi);
    if s == [] || HidesLast(ops, lo, hi) then None else Some(s[|s| - 1])
  }

  lemma {:induction false} HidesStep<R>(ops: seq<Op<R>>, lo: int, c: int)
    requires InOrder(ops) && lo <= c
    ensures var month := Survivors(ops, |ops|, c, c + 1);
      && (Cut(ops, c) ==> HidesLast(ops, lo, c + 1))
      && (!Cut(ops, c) && month != [] ==> !HidesLast(ops, lo, c + 1))
      && (!Cut(ops, c) && month == [] ==> (HidesLast(ops, lo, c + 1) <==> HidesLast(ops, lo, c)))
  {
    hide MonthNumber, FourDigitYear, Survivors, Cut;
    hide After;
    AfterLast(ops, c);
    forall q | lo <= q < c && Cut(ops, q)
      ensures After(ops, q, c + 1) == [] <==> After(ops, q, c) == [] && Survivors(ops, |ops|, c, c + 1) == []
    {
      AfterStep(ops, q, c);
    }
  }

  lemma {:induction false} AfterStep<R>(ops: seq<Op<R>>, q: int, c: int)
    requires InOrder(ops) && q < c
    ensures After(ops, q, c + 1) == After(ops, q, c) + Survivors(ops, |ops|, c, c + 1)
  {
    hide MonthNumber, FourDigitYear, Survivors;
    SurvivorsSplit(ops, |ops|, q + 1, c);
  }

  lemma {:induction false} AfterLast<R>(ops: seq<Op<R>>, c: int)
    ensures After(ops, c, c + 1) == []
  {
    hide MonthNumber, Survivors;
    SurvivorsNowhere(ops, |ops|, c + 1);
  }

  /** The newest record a reader of these months finds. */
  lemma {:induction false} LastBetween<R>(ops: seq<Op<R>>, lo: int, c: int)
    requires InOrder(ops) && lo <= c
    ensures LastRecord(Between(ops, lo, c)) == LastOf(ops, lo, c)
    decreases c - lo
  {
    hide MonthNumber, Month, FourDigitYear, Between, Survivors, Pieces, InMonth, Records, Readable, KeyOfMonth, HidesLast, Cut;
    if lo == c {
      NoFilesBetween(ops, c);
      SurvivorsNowhere(ops, |ops|, c);
    } else {
      var q := c - 1;
      LastBetween(ops, lo, q);
      SurvivorsSplit(ops, |ops|, lo, q);
      HidesStep(ops, lo, q);
      if i :| 0 <= i < |ops| && OpenedIn(ops, i, q) {
        OneMonth(ops, lo, q, i);
        var now := Between(ops, lo, q + 1);
        NewestUnique(now.Keys, Month(ops[i].secs), Newest(now.Keys));
        MonthShows(ops, q, Month(ops[i].secs));
      } else {
        NoMonth(ops, lo, q);
        SurvivorsUnopened(ops, |ops|, q);
        UnopenedUncut(ops, q);
      }
    }
  }

  // ------------------------------------------------ whole runs

  /** The kept history, whatever became of each append: after any run at
      non-decreasing times (in years up to 9999) a reader asking for `limit`
      records gets exactly the newest `limit` survivors of the kept months, in
      the order they were appended. */
  lemma {:induction false} RunReads<R>(ops: seq<Op<R>>, keep: nat, limit: nat)
    requires InOrder(ops) && keep >= 1
    ensures AllRecords(Run(ops, keep)) == Survivors(ops, |ops|, Floor(ops, keep), 120000)
    ensures Tail(AllRecords(Run(ops, keep)), limit) == Tail(Survivors(ops, |ops|, Floor(ops, keep), 120000), limit)
  {
    hide MonthNumber, Month, FourDigitYear, Between, Survivors, Run, FilesOf, Floor;
    FloorBelow(ops, keep);
    RunContents(ops, keep);
    KeptFiles(ops, Floor(ops, keep));
    ReadsBetween(ops, Floor(ops, keep), 120000);
  }

  lemma {:induction false} FloorBelow<R>(ops: seq<Op<R>>, keep: nat)
    requires InOrder(ops) && keep >= 1
    ensures Floor(ops, keep) < 120000
  {
    hide MonthNumber, Month, FourDigitYear;
    FloorBound(ops, keep);
    if ops != [] { OrderedMonths(ops, |ops| - 1); }
  }

  /** And a restarted daemon takes up from the newest survivor, unless a month
      after it was cut inside a character: then from nothing. */
  lemma {:induction false} RunLast<R>(ops: seq<Op<R>>, keep: nat)
    requires InOrder(ops) && keep >= 1
    ensures LastRecord(Run(ops, keep)) == LastOf(ops, Floor(ops, keep), 120000)
  {
    hide MonthNumber, Month, FourDigitYear, Between, LastOf, Run, FilesOf, Floor;
    FloorBelow(ops, keep);
    RunContents(ops, keep);
    KeptFiles(ops, Floor(ops, keep));
    LastBetween(ops, Floor(ops, keep), 120000);
  }

  // ------------------------------------------------ what a tear costs

  /** Append `j` left a line open, and `i` is the next to write to its month. */
  ghost predicate Tears<R>(ops: seq<Op<R>>, j: nat, i: nat)
    requires i < |ops|
  {
    var q := MonthNumber(ops[i].secs);
    j < i && In(ops[j], q) && Wrote(ops[j].outcome) && !Ended(ops[j].outcome) && Silent(ops, j, i, q)
  }

  /** In a month without a cut character, an append whose whole line came out
      is lost exactly when the write before it in its month was interrupted. */
  lemma {:induction false} LostToATear<R>(ops: seq<Op<R>>, i: nat)
    requires i < |ops| && Ended(ops[i].outcome) && !Cut(ops, MonthNumber(ops[i].secs))
    ensures !Survives(ops, i) <==> exists j :: 0 <= j < i && Tears(ops, j, i)
  {
    hide MonthNumber, Cut, In;
    var q := MonthNumber(ops[i].secs);
    if !Clean(ops, i, q) {
      var j :| 0 <= j < i && In(ops[j], q) && Wrote(ops[j].outcome) && Silent(ops, j, i, q) && !Ended(ops[j].outcome);
      assert Tears(ops, j, i);
    }
    if j :| 0 <= j < i && Tears(ops, j, i) {
      assert Silent(ops, j, i, q);
    }
  }

  /** No interrupted write costs two of them. */
  lemma {:induction false} TearCostsOne<R>(ops: seq<Op<R>>, j: nat, i: nat, l: nat)
    requires i < |ops| && l < |ops| && Wrote(ops[i].outcome) && Wrote(ops[l].outcome)
    requires Tears(ops, j, i) && Tears(ops, j, l)
    ensures i == l
  {
    hide MonthNumber;
  }

  // ------------------------------------------------ runs without a failure

  /** The values written in the months from `floor` on, in append order. */
  function Kept<R>(ops: seq<Op<R>>, floor: int): seq<R> {
    if ops == [] then []
    else
      var op := ops[|ops| - 1];
      Kept(ops[..|ops| - 1], floor) + (if MonthNumber(op.secs) >= floor then [op.value] else [])
  }

  lemma {:induction false} CompleteSurvive<R>(ops: seq<Op<R>>, n: nat, floor: int)
    requires InOrder(ops) && AllComplete(ops) && n <= |ops|
    ensures Survivors(ops, n, floor, 120000) == Kept(ops[..n], floor)
    decreases n
  {
    hide MonthNumber, Month, FourDigitYear;
    if n == 0 {
      assert ops[..0] == [];
    } else {
      CompleteSurvive(ops, n - 1, floor);
      assert ops[..n][..n - 1] == ops[..n - 1];
      OrderedMonths(ops, n - 1);
      CompleteSurvives(ops, n - 1);
    }
  }

  lemma {:induction false} CompleteSurvives<R>(ops: seq<Op<R>>, i: nat)
    requires AllComplete(ops) && i < |ops|
    ensures Survives(ops, i)
  {
    hide MonthNumber;
  }

  lemma {:induction false} CompleteFloor<R>(ops: seq<Op<R>>, keep: nat)
    requires InOrder(ops) && AllComplete(ops) && ops != [] && keep >= 1
    ensures Floor(ops, keep) == MonthNumber(ops[|ops| - 1].secs) - (keep - 1)
  {
    hide Month, MonthNumber, MonthName, StrLess, FourDigitYear;
    var n := |ops| - 1;
    if Opened(ops[..n], Month(ops[n].secs)) {
      var i :| 0 <= i < n && Month(ops[..n][i].secs) == Month(ops[n].secs);
      CompleteFloor(ops[..n], keep);
      MonthFilesSort(ops[i].secs, ops[n].secs);
      MonthsFollowTime(ops[i].secs, ops[n - 1].secs);
      MonthsFollowTime(ops[n - 1].secs, ops[n].secs);
    }
  }

  /** With no failure every append of the newest `keep` months is read. */
  lemma {:induction false} CompleteRunReads<R>(ops: seq<Op<R>>, keep: nat, limit: nat)
    requires InOrder(ops) && AllComplete(ops) && ops != [] && keep >= 1
    ensures Tail(AllRecords(Run(ops, keep)), limit)
      == Tail(Kept(ops, MonthNumber(ops[|ops| - 1].secs) - (keep - 1)), limit)
  {
    hide Month, MonthNumber, FourDigitYear, Run, Survivors, Kept, Tail, Floor;
    RunReads(ops, keep, limit);
    CompleteFloor(ops, keep);
    CompleteSurvive(ops, |ops|, Floor(ops, keep));
    assert ops[..|ops|] == ops;
  }

  /** … and the last of them is what a restarted daemon takes up from. */
  lemma {:induction false} CompleteRunLast<R>(ops: seq<Op<R>>, keep: nat)
    requires InOrder(ops) && AllComplete(ops) && ops != [] && keep >= 1
    ensures LastRecord(Run(ops, keep)) == Some(ops[|ops| - 1].value)
  {
    hide Month, MonthNumber, FourDigitYear, Run, Survivors, Floor;
    RunLast(ops, keep);
    CompleteFloor(ops, keep);
    CompleteSurvive(ops, |ops|, Floor(ops, keep));
    assert ops[..|ops|] == ops;
  }
}
