/** The kept log of one drive: JSON lines appended to month files, pruned by
    month, read from the newest line back.

    A file is the sequence of what was written to it: whole JSON texts, the
    fragments an interrupted write left, and newlines. A line is read back
    exactly when it is one whole text: a text holds no newline, and a
    fragment, or anything glued to another text, does not parse. A fragment
    that ends inside a multi-byte character also leaves the file invalid
    UTF-8, and then the file as a whole is not read. */
module HistoryLog {
  import opened Common
  import opened MonthNames

  datatype Piece<+R> = Text(value: R) | Torn(splitsChar: bool) | Newline

  type File<+R> = seq<Piece<R>>
  type Files<+R> = map<string, File<R>>

  // ------------------------------------------------ reading one file

  predicate Readable<R>(f: File<R>) {
    forall i :: 0 <= i < |f| ==> f[i] != Torn(true)
  }

  /** Where the first line of `f` ends. */
  function LineEnd<R>(f: File<R>): (n: nat)
    ensures n <= |f|
    ensures forall i :: 0 <= i < n ==> !f[i].Newline?
    ensures n < |f| ==> f[n].Newline?
  {
    if f == [] || f[0].Newline? then 0 else 1 + LineEnd(f[1..])
  }

  /** Rust's `str::lines`: no empty line after a final newline. */
  function Lines<R>(f: File<R>): seq<File<R>>
    decreases |f|
  {
    if f == [] then []
    else
      var n := LineEnd(f);
      [f[..n]] + (if n < |f| then Lines(f[n + 1..]) else [])
  }

  function ParseLine<R>(line: File<R>): Option<R> {
    if |line| == 1 && line[0].Text? then Some(line[0].value) else None
  }

  function Parsed<R>(lines: seq<File<R>>): seq<R> {
    if lines == [] then []
    else (if ParseLine(lines[0]).Some? then [ParseLine(lines[0]).value] else []) + Parsed(lines[1..])
  }

  function Records<R>(f: File<R>): seq<R> { Parsed(Lines(f)) }

  /** What a reader gets out of a file. */
  function Visible<R>(f: File<R>): seq<R> {
    if Readable(f) then Records(f) else []
  }

  // ------------------------------------------------ reading the directory

  ghost predicate IsNewest(keys: set<string>, m: string) {
    m in keys && forall k :: k in keys ==> k == m || StrLess(k, m)
  }

  lemma {:induction false} NewestExists(keys: set<string>)
    requires keys != {}
    ensures exists m :: IsNewest(keys, m)
  {
    var k :| k in keys;
    if keys == {k} {
      assert IsNewest(keys, k);
    } else {
      var rest := keys - {k};
      assert keys == rest + {k};
      NewestExists(rest);
      var m :| IsNewest(rest, m);
      StrLessTotal(k, m);
      if StrLess(k, m) {
        assert IsNewest(keys, m);
      } else {
        forall j | j in keys ensures j == k || StrLess(j, k) {
          if j != k && j != m { StrLessTransitive(j, m, k); }
        }
        assert IsNewest(keys, k);
      }
    }
  }

  lemma {:induction false} NewestUnique(keys: set<string>, m: string, n: string)
    requires IsNewest(keys, m) && IsNewest(keys, n)
    ensures m == n
  {
    StrLessTotal(m, n);
  }

  ghost function Newest(keys: set<string>): (m: string)
    requires keys != {}
    ensures IsNewest(keys, m)
  {
    NewestExists(keys);
    var m :| IsNewest(keys, m);
    m
  }

  /** Every record a reader can reach, oldest month first. */
  ghost function AllRecords<R>(files: Files<R>): seq<R>
    decreases |files|
  {
    if files == map[] then []
    else
      var m := Newest(files.Keys);
      AllRecords(files - {m}) + Visible(files[m])
  }

  /** The newest whole record: an unreadable newest file hides them all. */
  ghost function LastRecord<R>(files: Files<R>): Option<R>
    decreases |files|
  {
    if files == map[] then None
    else
      var m := Newest(files.Keys);
      if !Readable(files[m]) then None
      else if Records(files[m]) != [] then Some(Records(files[m])[|Records(files[m])| - 1])
      else LastRecord(files - {m})
  }

  // ------------------------------------------------ writing

  /** How far one append got. */
  datatype Outcome =
    | NotOpened
    | NoBytes
    | Fragment(splitsChar: bool)
    | NoNewline
    | NotSynced
    | Complete

  function Written<R>(value: R, o: Outcome): File<R> {
    match o
    case NotOpened => []
    case NoBytes => []
    case Fragment(splits) => [Torn(splits)]
    case NoNewline => [Text(value)]
    case NotSynced => [Text(value), Newline]
    case Complete => [Text(value), Newline]
  }

  function Pruned<R>(files: Files<R>, cutoff: string): Files<R> {
    map k | k in files && !StrLess(k, cutoff) :: files[k]
  }

  function Appended<R>(files: Files<R>, secs: nat, value: R, o: Outcome, keep: nat): Files<R> {
    if o.NotOpened? then files
    else
      var m := Month(secs);
      var f := (if m in files then files[m] else []) + Written(value, o);
      if o.Complete? && m !in files && |m| >= 7
      then Pruned(files[m := f], Cutoff(m, keep))
      else files[m := f]
  }

  class LogDir<R(!new)> {
    var files: Files<R>
    const keep: nat

    constructor (keepMonths: nat)
      ensures files == map[] && keep == Max(keepMonths, 1)
    {
      files := map[];
      keep := if keepMonths < 1 then 1 else keepMonths;
    }

    /** Remove the month files before `cutoff`. */
    method Prune(cutoff: string)
      modifies this
      ensures files == Pruned(old(files), cutoff)
    {
      var todo := files.Keys;
      while todo != {}
        invariant todo <= files.Keys <= old(files).Keys
        invariant forall k :: k in files ==> files[k] == old(files)[k]
        invariant forall k :: k in old(files) && k !in todo ==> (k in files <==> !StrLess(k, cutoff))
        decreases todo
      {
        var k :| k in todo;
        todo := todo - {k};
        if StrLess(k, cutoff) {
          files := files - {k};
        }
      }
    }

    /** Append one record to its month's file with a single synced write, and
        prune when the file is new. An error leaves before the prune. */
    method Append(secs: nat, value: R, outcome: Outcome) returns (ok: bool)
      modifies this
      ensures ok == outcome.Complete?
      ensures files == Appended(old(files), secs, value, outcome, keep)
    {
      hide Month, Cutoff, StrLess;
      if outcome.NotOpened? { return false; }
      var m := Month(secs);
      var newMonth := m !in files;
      if newMonth { files := files[m := []]; }
      files := files[m := files[m] + Written(value, outcome)];
      if !outcome.Complete? { return false; }
      if newMonth && |m| >= 7 {
        Prune(Cutoff(m, keep));
      }
      return true;
    }

    method NewestMonth(keys: set<string>) returns (m: string)
      requires keys != {}
      ensures m == Newest(keys)
    {
      m :| m in keys;
      var todo := keys - {m};
      while todo != {}
        invariant todo <= keys && m in keys && m !in todo
        invariant forall k :: k in keys && k !in todo ==> k == m || StrLess(k, m)
        decreases todo
      {
        var k :| k in todo;
        todo := todo - {k};
        StrLessTotal(k, m);
        if StrLess(m, k) {
          forall j | j in keys && j !in todo && j != k ensures StrLess(j, k) {
            if j != m { StrLessTransitive(j, m, k); }
          }
          m := k;
        }
      }
      assert IsNewest(keys, m);
      NewestUnique(keys, m, Newest(keys));
    }

    /** Push the lines of one file, last first, until there are `limit`. */
    method ReadLines(lines: seq<File<R>>, taken: seq<R>, limit: nat, ghost later: seq<R>) returns (out: seq<R>)
      requires Reversed(taken) == Tail(later, limit)
      ensures Reversed(out) == Tail(Parsed(lines) + later, limit)
    {
      hide Reversed, Tail, Parsed;
      out := taken;
      var j := |lines|;
      NoLinesLeft(lines, later);
      while j > 0 && |out| < limit
        invariant 0 <= j <= |lines|
        invariant Reversed(out) == Tail(Parsed(lines[j..]) + later, limit)
      {
        j := j - 1;
        LineStep(lines, j, later);
        var r := ParseLine(lines[j]);
        if r.Some? {
          ReversedLength(out);
          ReversedAppend(out, r.value);
          TailGrows(Parsed(lines[j + 1..]) + later, r.value, limit);
          out := out + [r.value];
        }
      }
      ReversedLength(out);
      LinesBefore(lines, j, later);
      TailOfMore(Parsed(lines[..j]), Parsed(lines[j..]) + later, limit);
    }

    /** The newest `limit` records, oldest first: newest month back, newest
        line back, stopping as soon as there are enough. */
    method Read(limit: nat) returns (records: seq<R>)
      ensures records == Tail(AllRecords(files), limit)
    {
      hide StrLess, Readable, Lines, Parsed, Reversed, Tail;
      var out: seq<R> := [];
      var rest := files;
      ghost var seen: seq<R> := [];
      assert AllRecords(files) + seen == AllRecords(files);
      EmptyTail<R>(limit);
      while rest != map[]
        invariant AllRecords(files) == AllRecords(rest) + seen
        invariant Reversed(out) == Tail(seen, limit)
        decreases |rest|
      {
        var m := NewestMonth(rest.Keys);
        var f := rest[m];
        ghost var older := AllRecords(rest - {m});
        assert older + Visible(f) + seen == older + (Visible(f) + seen);
        if Readable(f) {
          out := ReadLines(Lines(f), out, limit, seen);
        } else {
          assert Visible(f) + seen == seen;
        }
        seen := Visible(f) + seen;
        rest := rest - {m};
        ReversedLength(out);
        TailOfMore(older, seen, limit);
        if |out| >= limit { return Reversed(out); }
      }
      assert AllRecords(files) == seen;
      records := Reversed(out);
    }

    /** The thermal reader: whole files from the newest back until there are
        enough lines, then the newest `limit` of them. */
    method ReadWhole(limit: nat) returns (records: seq<R>)
      ensures records == Tail(AllRecords(files), limit)
    {
      hide StrLess, Readable, Lines, Parsed;
      records := [];
      var rest := files;
      assert AllRecords(files) + records == AllRecords(files);
      while rest != map[]
        invariant AllRecords(files) == AllRecords(rest) + records
        decreases |rest|
      {
        var m := NewestMonth(rest.Keys);
        var f := rest[m];
        ghost var older := AllRecords(rest - {m});
        assert older + Visible(f) + records == older + (Visible(f) + records);
        if Readable(f) {
          records := Records(f) + records;
        } else {
          assert Visible(f) + records == records;
        }
        rest := rest - {m};
        if |records| >= limit { break; }
      }
      TailOfMore(AllRecords(rest), records, limit);
      records := if |records| <= limit then records else records[|records| - limit..];
    }

    /** The newest whole record; nothing at all if a newer file is not
        readable as text. */
    method ReadLast() returns (last: Option<R>)
      ensures last == LastRecord(files)
    {
      hide Lines, Readable;
      var rest := files;
      while rest != map[]
        invariant LastRecord(files) == LastRecord(rest)
        decreases |rest|
      {
        var m := NewestMonth(rest.Keys);
        var f := rest[m];
        if !Readable(f) { return None; }
        var lines := Lines(f);
        var j := |lines|;
        while j > 0
          invariant 0 <= j <= |lines|
          invariant Parsed(lines[j..]) == []
        {
          j := j - 1;
          assert lines[j..] == [lines[j]] + lines[j + 1..];
          if ParseLine(lines[j]).Some? {
            ParsedSplit(lines, j);
            return ParseLine(lines[j]);
          }
        }
        assert lines[0..] == lines;
        rest := rest - {m};
      }
      return None;
    }
  }

  // ------------------------------------------------ sequences

  function Reversed<R>(s: seq<R>): seq<R> {
    if s == [] then [] else [s[|s| - 1]] + Reversed(s[..|s| - 1])
  }

  lemma {:induction false} ReversedLength<R>(s: seq<R>)
    ensures |Reversed(s)| == |s|
  {
    if s != [] { ReversedLength(s[..|s| - 1]); }
  }

  lemma {:induction false} ReversedAppend<R>(s: seq<R>, x: R)
    ensures Reversed(s + [x]) == [x] + Reversed(s)
  {
    assert (s + [x])[..|s|] == s;
  }

  lemma {:induction false} TailOfMore<R>(older: seq<R>, s: seq<R>, limit: nat)
    ensures |Tail(s, limit)| >= limit || older == [] ==> Tail(older + s, limit) == Tail(s, limit)
  {
    if |s| >= limit {
      assert (older + s)[|older + s| - limit..] == s[|s| - limit..];
    } else if older == [] {
      assert older + s == s;
    }
  }

  lemma {:induction false} EmptyTail<R>(limit: nat)
    ensures Reversed<R>([]) == Tail<R>([], limit)
  {
  }

  lemma {:induction false} TailGrows<R>(s: seq<R>, x: R, limit: nat)
    ensures |Tail(s, limit)| < limit ==> Tail([x] + s, limit) == [x] + Tail(s, limit)
  {
  }

  lemma {:induction false} NoLinesLeft<R>(lines: seq<File<R>>, later: seq<R>)
    ensures Parsed(lines[|lines|..]) + later == later
  {
  }

  lemma {:induction false} LineStep<R>(lines: seq<File<R>>, j: nat, later: seq<R>)
    requires j < |lines|
    ensures Parsed(lines[j..]) + later
      == (if ParseLine(lines[j]).Some? then [ParseLine(lines[j]).value] + (Parsed(lines[j + 1..]) + later)
          else Parsed(lines[j + 1..]) + later)
  {
    assert lines[j..][1..] == lines[j + 1..];
    if ParseLine(lines[j]).Some? {
      var x, p := [ParseLine(lines[j]).value], Parsed(lines[j + 1..]);
      assert (x + p) + later == x + (p + later);
    }
  }

  lemma {:induction false} LinesBefore<R>(lines: seq<File<R>>, j: nat, later: seq<R>)
    requires j <= |lines|
    ensures Parsed(lines) + later == Parsed(lines[..j]) + (Parsed(lines[j..]) + later)
    ensures j == 0 ==> Parsed(lines[..j]) == []
  {
    ParsedSplit(lines, j);
    Associative(Parsed(lines[..j]), Parsed(lines[j..]), later);
  }

  lemma {:induction false} Associative<R>(p: seq<R>, q: seq<R>, s: seq<R>)
    ensures (p + q) + s == p + (q + s)
  {
  }

  lemma {:induction false} ParsedSplit<R>(lines: seq<File<R>>, j: nat)
    requires j <= |lines|
    ensures Parsed(lines) == Parsed(lines[..j]) + Parsed(lines[j..])
  {
    if j == 0 {
      assert lines[0..] == lines;
    } else {
      ParsedSplit(lines[1..], j - 1);
      assert lines[1..][..j - 1] == lines[..j][1..] && lines[1..][j - 1..] == lines[j..];
    }
  }
}
