/** The change detector over a drive's kept history: most samples write
    nothing, each is compared with the last record that was written, and yet
    every change of an error counter is reported, once. */
module ChangeDetector {
  import opened Common
  import opened MonthNames
  import opened HistoryLog
  import opened HistoryRuns
  import opened HistoryReads

  // ------------------------------------------------ the rules

  datatype Spec = Spec(grow: bool, back: bool, writes: bool)

  const ERRORS := Spec(true, true, true)
  const LIFETIME := Spec(false, true, true)
  const ACTIVITY := Spec(false, true, false)
  const GAUGE := Spec(false, false, true)
  const ONLY_GROWTH := Spec(true, false, true)

  predicate StartsWith(s: string, p: string) { |p| <= |s| && s[..|p|] == p }

  predicate EndsWith(s: string, p: string) { |p| <= |s| && s[|s| - |p|..] == p }

  /** The rule for each counter name. */
  function SpecOf(name: string): Spec {
    if name in ["media_errors", "smart.reallocated_sectors", "smart.offline_uncorrectable",
                "smart.reported_uncorrectable", "smart.crc_errors", "nvme.error_log_entries"] then ERRORS
    else if StartsWith(name, "sas.") && EndsWith(name, ".uncorrected") then ERRORS
    else if name in ["smart.pending_sectors", "smart.grown_defects"] then ONLY_GROWTH
    else if name in ["io_errors", "available_spare_pct", "critical_warning"] then GAUGE
    else if name in ["power_on_hours", "nvme.bytes_read", "nvme.bytes_written", "nvme.host_read_commands",
                     "nvme.host_write_commands", "nvme.controller_busy_minutes"] then ACTIVITY
    else if StartsWith(name, "sas.") then ACTIVITY
    else LIFETIME
  }

  // what the rules come to, counter by counter

  /** Errors over a drive's life: every move either way is a finding. */
  predicate ErrorCounter(c: string) {
    || c == "media_errors" || c == "smart.reallocated_sectors" || c == "smart.offline_uncorrectable"
    || c == "smart.reported_uncorrectable" || c == "smart.crc_errors" || c == "nvme.error_log_entries"
    || (StartsWith(c, "sas.") && EndsWith(c, ".uncorrected"))
  }

  /** What the drive itself may take back: only growth is a finding. */
  predicate GrowthCounter(c: string) { c == "smart.pending_sectors" || c == "smart.grown_defects" }

  /** Readings that go up and down: no move is a finding. */
  predicate GaugeCounter(c: string) { c == "io_errors" || c == "available_spare_pct" || c == "critical_warning" }

  /** What moves with every hour and every read: no move forward is written. */
  predicate QuietCounter(c: string) {
    || c == "power_on_hours" || c == "nvme.bytes_read" || c == "nvme.bytes_written" || c == "nvme.host_read_commands"
    || c == "nvme.host_write_commands" || c == "nvme.controller_busy_minutes"
    || (StartsWith(c, "sas.") && !EndsWith(c, ".uncorrected"))
  }

  predicate LikeSas(c: string) { |c| >= 4 && c[0] == 's' && c[1] == 'a' }

  /** The names in each list of the rules: which they are, and that no two
      begin and end alike. */
  lemma {:induction false} ErrorNames(c: string)
    ensures c in ["media_errors", "smart.reallocated_sectors", "smart.offline_uncorrectable", "smart.reported_uncorrectable", "smart.crc_errors", "nvme.error_log_entries"]
      <==> c == "media_errors" || c == "smart.reallocated_sectors" || c == "smart.offline_uncorrectable" || c == "smart.reported_uncorrectable" || c == "smart.crc_errors" || c == "nvme.error_log_entries"
    ensures c in ["media_errors", "smart.reallocated_sectors", "smart.offline_uncorrectable", "smart.reported_uncorrectable", "smart.crc_errors", "nvme.error_log_entries"] ==>
      !LikeSas(c) && ((|c| == 12 && c[0] == 'm') || (|c| == 25 && c[0] == 's') || (|c| == 27 && c[0] == 's') || (|c| == 28 && c[0] == 's') || (|c| == 16 && c[0] == 's') || (|c| == 22 && c[0] == 'n'))
  {
  }

  lemma {:induction false} GrowthNames(c: string)
    ensures c in ["smart.pending_sectors", "smart.grown_defects"]
      <==> c == "smart.pending_sectors" || c == "smart.grown_defects"
    ensures c in ["smart.pending_sectors", "smart.grown_defects"] ==>
      !LikeSas(c) && ((|c| == 21 && c[0] == 's') || (|c| == 19 && c[0] == 's'))
  {
  }

  lemma {:induction false} GaugeNames(c: string)
    ensures c in ["io_errors", "available_spare_pct", "critical_warning"]
      <==> c == "io_errors" || c == "available_spare_pct" || c == "critical_warning"
    ensures c in ["io_errors", "available_spare_pct", "critical_warning"] ==>
      !LikeSas(c) && ((|c| == 9 && c[0] == 'i') || (|c| == 19 && c[0] == 'a') || (|c| == 16 && c[0] == 'c'))
  {
  }

  lemma {:induction false} QuietNames(c: string)
    ensures c in ["power_on_hours", "nvme.bytes_read", "nvme.bytes_written", "nvme.host_read_commands", "nvme.host_write_commands", "nvme.controller_busy_minutes"]
      <==> c == "power_on_hours" || c == "nvme.bytes_read" || c == "nvme.bytes_written" || c == "nvme.host_read_commands" || c == "nvme.host_write_commands" || c == "nvme.controller_busy_minutes"
    ensures c in ["power_on_hours", "nvme.bytes_read", "nvme.bytes_written", "nvme.host_read_commands", "nvme.host_write_commands", "nvme.controller_busy_minutes"] ==>
      !LikeSas(c) && ((|c| == 14 && c[0] == 'p') || (|c| == 15 && c[0] == 'n') || (|c| == 18 && c[0] == 'n') || (|c| == 23 && c[0] == 'n') || (|c| == 24 && c[0] == 'n') || (|c| == 28 && c[0] == 'n'))
  {
  }

  lemma {:induction false} NotSas(c: string)
    requires !LikeSas(c)
    ensures !StartsWith(c, "sas.")
  {
    assert "sas."[0] == 's' && "sas."[1] == 'a';
    assert |c| >= 4 ==> c[..4][0] == c[0] && c[..4][1] == c[1];
  }

  /** The rules, in terms of the counters they are for. */
  lemma {:induction false} SpecByName(c: string)
    ensures SpecOf(c).grow <==> ErrorCounter(c) || GrowthCounter(c)
    ensures SpecOf(c).back <==> !GrowthCounter(c) && !GaugeCounter(c)
    ensures SpecOf(c).writes <==> !QuietCounter(c)
    ensures ErrorCounter(c) ==> !GrowthCounter(c) && !GaugeCounter(c) && !QuietCounter(c)
    ensures QuietCounter(c) ==> !GrowthCounter(c) && !GaugeCounter(c)
  {
    ErrorNames(c);
    GrowthNames(c);
    GaugeNames(c);
    QuietNames(c);
    if !LikeSas(c) { NotSas(c); }
    hide StartsWith, EndsWith;
  }

  /** The moves of a counter that are reported. */
  predicate Reportable(c: string, from: nat, to: nat) {
    (from < to && (ErrorCounter(c) || GrowthCounter(c))) || (to < from && !GrowthCounter(c) && !GaugeCounter(c))
  }

  // ------------------------------------------------ records and findings

  datatype Change = Grew | WentBack

  datatype Finding = Finding(change: Change, from: nat, to: nat, since: nat, otherBoot: bool)

  /** What one sample says about the drive. */
  datatype Sample = Sample(
    unix: nat,
    counters: map<string, nat>,
    status: string,
    firmware: string,
    bay: Option<string>,
    predicted: Option<string>)

  datatype Why = First | Changed | Heartbeat

  datatype Record = Record(sample: Sample, boot: string, why: Option<Why>, findings: map<string, Finding>)

  /** What one counter's move since the previous record is worth reporting. */
  function FindingOf(prev: Record, cur: map<string, nat>, boot: string, name: string): Option<Finding> {
    if name !in cur || name !in prev.sample.counters then None
    else
      var s, from, to := SpecOf(name), prev.sample.counters[name], cur[name];
      var otherBoot := prev.boot != [] && prev.boot != boot;
      if to > from && s.grow then Some(Finding(Grew, from, to, prev.sample.unix, otherBoot))
      else if to < from && s.back then Some(Finding(WentBack, from, to, prev.sample.unix, otherBoot))
      else None
  }

  function FindingsOf(prev: Record, cur: map<string, nat>, boot: string): map<string, Finding> {
    map name | name in cur && FindingOf(prev, cur, boot, name).Some? :: FindingOf(prev, cur, boot, name).value
  }

  /** Exactly the counters both records have whose move is reported, each with
      its two values, since when, and whether the boot is another. */
  ghost predicate FoundByName(prev: Record, cur: map<string, nat>, boot: string, found: map<string, Finding>) {
    && (forall c :: c in found <==> c in cur && c in prev.sample.counters && Reportable(c, prev.sample.counters[c], cur[c]))
    && (forall c :: c in found ==>
          && found[c].from == prev.sample.counters[c] && found[c].to == cur[c]
          && (found[c].change == Grew <==> prev.sample.counters[c] < cur[c])
          && found[c].since == prev.sample.unix
          && (found[c].otherBoot <==> |prev.boot| > 0 && prev.boot != boot))
  }

  lemma {:induction false} FindingsByName(prev: Record, cur: map<string, nat>, boot: string)
    ensures FoundByName(prev, cur, boot, FindingsOf(prev, cur, boot))
  {
    hide SpecOf, ErrorCounter, GrowthCounter, GaugeCounter, QuietCounter;
    forall c ensures
      && (SpecOf(c).grow <==> ErrorCounter(c) || GrowthCounter(c))
      && (SpecOf(c).back <==> !GrowthCounter(c) && !GaugeCounter(c))
    {
      SpecByName(c);
    }
  }

  method Findings(prev: Record, cur: map<string, nat>, boot: string) returns (found: map<string, Finding>)
    ensures found == FindingsOf(prev, cur, boot)
    ensures FoundByName(prev, cur, boot, found)
  {
    FindingsByName(prev, cur, boot);
    hide FoundByName;
    hide SpecOf;
    found := map[];
    var todo := cur.Keys;
    while todo != {}
      invariant todo <= cur.Keys
      invariant found.Keys == set name | name in cur.Keys - todo && FindingOf(prev, cur, boot, name).Some?
      invariant forall name :: name in found ==> found[name] == FindingOf(prev, cur, boot, name).value
      decreases todo
    {
      var name :| name in todo;
      todo := todo - {name};
      var f := FindingOf(prev, cur, boot, name);
      if f.None? { continue; }
      found := found[name := f.value];
    }
  }

  predicate CounterMoved(p: map<string, nat>, cur: map<string, nat>) {
    (exists k :: k in cur && SpecOf(k).writes && (k !in p || p[k] != cur[k]))
    || (exists k :: k in p && SpecOf(k).writes && k !in cur)
  }

  /** Why a record is due now, if it is. */
  function Due(prev: Option<Record>, cur: Record, heartbeat: nat): Option<Why> {
    match prev
    case None => Some(First)
    case Some(p) =>
      if || CounterMoved(p.sample.counters, cur.sample.counters)
         || p.sample.status != cur.sample.status
         || p.sample.firmware != cur.sample.firmware
         || p.sample.bay != cur.sample.bay
         || p.sample.predicted != cur.sample.predicted
         || cur.findings != map[]
      then Some(Changed)
      else if Max(cur.sample.unix - p.sample.unix, 0) >= heartbeat then Some(Heartbeat)
      else None
  }

  /** The record a sample makes against the last one. */
  function RecordOf(prev: Option<Record>, s: Sample, boot: string): Record {
    Record(s, boot, None, if prev.Some? then FindingsOf(prev.value, s.counters, boot) else map[])
  }

  /** The counters whose moves forward are let pass agree but for those; all
      others are the same, and no counter came or went but a quiet one. */
  ghost predicate OnlyQuiet(p: map<string, nat>, cur: map<string, nat>) {
    forall c ::
      if c in p && c in cur then p[c] == cur[c] || (p[c] < cur[c] && QuietCounter(c))
      else (c !in p && c !in cur) || QuietCounter(c)
  }

  /** Exactly when a record is due, and why. */
  lemma {:induction false} DueExactly(p: Record, s: Sample, boot: string, heartbeat: nat)
    ensures var rec := RecordOf(Some(p), s, boot);
      var q := p.sample;
      var same := OnlyQuiet(q.counters, s.counters) && q.status == s.status && q.firmware == s.firmware && q.bay == s.bay && q.predicted == s.predicted;
      && (Due(Some(p), rec, heartbeat) == Some(Changed) <==> !same)
      && (Due(Some(p), rec, heartbeat) == Some(Heartbeat) <==> same && Max(s.unix - q.unix, 0) >= heartbeat)
      && Due(None, RecordOf(None, s, boot), heartbeat) == Some(First)
  {
    var q := p.sample;
    FindingsByName(p, s.counters, boot);
    QuietMeans(p, s.counters, FindingsOf(p, s.counters, boot), boot);
    hide FindingsOf, CounterMoved, OnlyQuiet, FoundByName;
  }

  lemma {:induction false} QuietMeans(p: Record, cur: map<string, nat>, found: map<string, Finding>, boot: string)
    requires FoundByName(p, cur, boot, found)
    ensures OnlyQuiet(p.sample.counters, cur) <==> !CounterMoved(p.sample.counters, cur) && found == map[]
  {
    hide SpecOf, ErrorCounter, GrowthCounter, GaugeCounter, QuietCounter, StartsWith, EndsWith;
    var q := p.sample.counters;
    forall c ensures
      && (SpecOf(c).writes <==> !QuietCounter(c))
      && (ErrorCounter(c) ==> !GrowthCounter(c) && !GaugeCounter(c) && !QuietCounter(c))
      && (QuietCounter(c) ==> !GrowthCounter(c) && !GaugeCounter(c))
    {
      SpecByName(c);
    }
    if OnlyQuiet(q, cur) {
      forall c ensures c !in found { }
      assert found == map[];
    } else {
      var c :| if c in q && c in cur then q[c] != cur[c] && !(q[c] < cur[c] && QuietCounter(c)) else (c in q || c in cur) && !QuietCounter(c);
      if c in q && c in cur && QuietCounter(c) {
        assert c in found;
      }
    }
  }

  // ------------------------------------------------ one daemon's history of one drive

  /** What was appended so far, the cached last record, and this boot. */
  datatype State = State(written: seq<Op<Record>>, cache: Option<Option<Record>>, boot: string)

  ghost function Baseline(st: State, keep: nat): Option<Record> {
    if st.cache.Some? then st.cache.value else LastRecord(Run(st.written, keep))
  }

  /** One sample: the new state and what is reported. */
  ghost function Observed(st: State, s: Sample, o: Outcome, heartbeat: nat, keep: nat): (State, map<string, Finding>) {
    var prev := Baseline(st, keep);
    var rec := RecordOf(prev, s, st.boot);
    var why := Due(prev, rec, heartbeat);
    if why.None? then (st.(cache := Some(prev)), map[])
    else
      var kept := rec.(why := why);
      (State(st.written + [Op(s.unix, kept, o)], Some(if o.Complete? then Some(kept) else prev), st.boot), rec.findings)
  }

  class History {
    const log: LogDir<Record>
    const heartbeat: nat
    const boot: string
    var cache: Option<Option<Record>>
    ghost var written: seq<Op<Record>>

    ghost predicate Valid()
      reads this, log
    {
      log.files == Run(written, log.keep)
    }

    ghost function Abstract(): State
      reads this
    {
      State(written, cache, boot)
    }

    /** A daemon starting on the log an earlier one left. */
    constructor (log: LogDir<Record>, ghost written: seq<Op<Record>>, heartbeatSecs: nat, boot: string)
      requires log.files == Run(written, log.keep)
      ensures Valid() && this.log == log && Abstract() == State(written, None, boot)
      ensures heartbeat == if heartbeatSecs < 1 then 1 else heartbeatSecs
    {
      this.log := log;
      this.heartbeat := if heartbeatSecs < 1 then 1 else heartbeatSecs;
      this.boot := boot;
      this.cache := None;
      this.written := written;
    }

    method Observe(s: Sample, mounted: bool, outcome: Outcome) returns (found: map<string, Finding>)
      requires Valid()
      modifies this, log
      ensures Valid()
      ensures !mounted ==> Abstract() == old(Abstract()) && found == map[]
      ensures mounted ==> (Abstract(), found) == Observed(old(Abstract()), s, outcome, heartbeat, log.keep)
    {
      hide SpecOf, FindingsOf, Appended, CounterMoved, LastRecord;
      if !mounted { return map[]; }
      var prev: Option<Record>;
      if cache.Some? {
        prev := cache.value;
      } else {
        prev := log.ReadLast();
        cache := Some(prev);
      }
      var findings := map[];
      if prev.Some? {
        findings := Findings(prev.value, s.counters, boot);
      }
      var rec := Record(s, boot, None, findings);
      var why := Due(prev, rec, heartbeat);
      if why.None? { return map[]; }
      rec := rec.(why := why);
      var ok := log.Append(s.unix, rec, outcome);
      written := written + [Op(s.unix, rec, outcome)];
      assert written[..|written| - 1] == old(written);
      if ok {
        cache := Some(Some(rec));
      }
      return rec.findings;
    }
  }

  // ------------------------------------------------ what a run reports

  datatype Step = Sampled(sample: Sample, outcome: Outcome) | Restarted(boot: string)

  ghost function Stepped(st: State, step: Step, heartbeat: nat, keep: nat): (State, map<string, Finding>) {
    match step
    case Sampled(s, o) => Observed(st, s, o, heartbeat, keep)
    case Restarted(boot) => (State(st.written, None, boot), map[])
  }

  ghost function StateAfter(st: State, steps: seq<Step>, heartbeat: nat, keep: nat): State {
    if steps == [] then st
    else Stepped(StateAfter(st, steps[..|steps| - 1], heartbeat, keep), steps[|steps| - 1], heartbeat, keep).0
  }

  ghost function Report(st: State, steps: seq<Step>, i: nat, heartbeat: nat, keep: nat): map<string, Finding>
    requires i < |steps|
  {
    Stepped(StateAfter(st, steps[..i], heartbeat, keep), steps[i], heartbeat, keep).1
  }

  /** What a report adds to the counter `c` by its own account. */
  function Delta(report: map<string, Finding>, c: string): int {
    if c in report then report[c].to - report[c].from else 0
  }

  ghost function ReportedTotal(st: State, steps: seq<Step>, c: string, heartbeat: nat, keep: nat): int {
    if steps == [] then 0
    else
      var n := |steps| - 1;
      ReportedTotal(st, steps[..n], c, heartbeat, keep) + Delta(Report(st, steps, n, heartbeat, keep), c)
  }

  /** Every sample carries `c`, is written when due, and none is older than
      what is already in the log. */
  ghost predicate Regular(st: State, steps: seq<Step>, c: string) {
    && InOrder(st.written) && AllComplete(st.written)
    && (forall i :: 0 <= i < |steps| && steps[i].Sampled? ==>
          && steps[i].outcome.Complete? && c in steps[i].sample.counters && FourDigitYear(steps[i].sample.unix)
          && (st.written != [] ==> st.written[|st.written| - 1].secs <= steps[i].sample.unix))
    && (forall i, j :: 0 <= i < j < |steps| && steps[i].Sampled? && steps[j].Sampled? ==>
          steps[i].sample.unix <= steps[j].sample.unix)
  }

  /** The cache is what a reader of the files would find. */
  ghost predicate Coherent(st: State, keep: nat) {
    && InOrder(st.written) && AllComplete(st.written)
    && Baseline(st, keep) == (if st.written == [] then None else Some(st.written[|st.written| - 1].value))
  }

  lemma {:induction false} FreshIsCoherent(written: seq<Op<Record>>, boot: string, keep: nat)
    requires InOrder(written) && AllComplete(written) && keep >= 1
    ensures Coherent(State(written, None, boot), keep)
  {
    hide FourDigitYear, Run, LastRecord;
    if written == [] { EmptyLog(keep); } else { CompleteRunLast(written, keep); }
  }

  lemma {:induction false} EmptyLog(keep: nat)
    ensures LastRecord(Run<Record>([], keep)) == None
  {
  }

  /** A sample keeps the cache and the files together. */
  lemma {:induction false} ObservedCoherent(st: State, s: Sample, heartbeat: nat, keep: nat)
    requires Coherent(st, keep) && keep >= 1 && FourDigitYear(s.unix)
    requires st.written != [] ==> st.written[|st.written| - 1].secs <= s.unix
    ensures Coherent(Observed(st, s, Complete, heartbeat, keep).0, keep)
  {
    hide FourDigitYear, Run, LastRecord, FindingsOf, CounterMoved;
  }

  /** What a sample reports about a counter: with the previous record's value
      as the start, the move itself, if it is one of those reported. */
  lemma {:induction false} ObservedReports(st: State, s: Sample, o: Outcome, c: string, heartbeat: nat, keep: nat)
    requires Baseline(st, keep).Some? && c in Baseline(st, keep).value.sample.counters && c in s.counters
    ensures var from, to := Baseline(st, keep).value.sample.counters[c], s.counters[c];
      var report := Observed(st, s, o, heartbeat, keep).1;
      && (c in report <==> Reportable(c, from, to))
      && (c in report ==> report[c].from == from && report[c].to == to && report[c].change == (if to > from then Grew else WentBack))
  {
    hide SpecOf, CounterMoved, Run, LastRecord, FindingOf, Reportable;
    var prev := Baseline(st, keep);
    FoundIn(prev.value, s.counters, st.boot, c);
    FindingsByName(prev.value, s.counters, st.boot);
    hide FindingsOf;
  }

  lemma {:induction false} FoundIn(prev: Record, cur: map<string, nat>, boot: string, c: string)
    ensures c in FindingsOf(prev, cur, boot) <==> FindingOf(prev, cur, boot, c).Some?
    ensures c in FindingsOf(prev, cur, boot) ==> FindingsOf(prev, cur, boot) != map[]
  {
    hide SpecOf;
  }

  /** Any counter but a quiet one is always in the last record at its last
      sampled value, although most samples write nothing. */
  lemma {:induction false} ObservedTracks(st: State, s: Sample, c: string, heartbeat: nat, keep: nat)
    requires c in s.counters && !QuietCounter(c)
    ensures var after := Baseline(Observed(st, s, Complete, heartbeat, keep).0, keep);
      after.Some? && c in after.value.sample.counters && after.value.sample.counters[c] == s.counters[c]
  {
    SpecByName(c);
    hide SpecOf, Run, LastRecord, FindingsOf, QuietCounter;
  }

  /** The last sampled value of `c`, if any sample was taken. */
  function LastValue(steps: seq<Step>, c: string): Option<nat> {
    if steps == [] then None
    else
      var step := steps[|steps| - 1];
      if step.Sampled? && c in step.sample.counters then Some(step.sample.counters[c])
      else LastValue(steps[..|steps| - 1], c)
  }

  /** Nothing in the log is newer than `time`. */
  ghost predicate UpTo(st: State, time: nat) {
    st.written != [] ==> st.written[|st.written| - 1].secs <= time
  }

  lemma {:induction false} StaysUpTo(st: State, steps: seq<Step>, time: nat, heartbeat: nat, keep: nat)
    requires UpTo(st, time)
    requires forall i :: 0 <= i < |steps| && steps[i].Sampled? ==> steps[i].sample.unix <= time
    ensures UpTo(StateAfter(st, steps, heartbeat, keep), time)
  {
    hide RecordOf, Due, Run, LastRecord;
    if steps != [] {
      var n := |steps| - 1;
      assert forall i :: 0 <= i < n ==> steps[..n][i] == steps[i];
      StaysUpTo(st, steps[..n], time, heartbeat, keep);
    }
  }

  lemma {:induction false} RegularPrefix(st: State, steps: seq<Step>, c: string)
    requires Regular(st, steps, c) && steps != []
    ensures Regular(st, steps[..|steps| - 1], c)
  {
    hide FourDigitYear;
    var pre := steps[..|steps| - 1];
    assert forall i :: 0 <= i < |pre| ==> pre[i] == steps[i];
  }

  /** The run's invariant: cache and files agree, and the baseline of `c` is
      its last sampled value, across any number of restarts. */
  lemma {:induction false} RunTracks(st: State, steps: seq<Step>, c: string, heartbeat: nat, keep: nat)
    requires Regular(st, steps, c) && Coherent(st, keep) && keep >= 1 && !QuietCounter(c)
    ensures var base := Baseline(StateAfter(st, steps, heartbeat, keep), keep);
      && Coherent(StateAfter(st, steps, heartbeat, keep), keep)
      && (LastValue(steps, c).None? ==> base == Baseline(st, keep))
      && (LastValue(steps, c).Some? ==>
            base.Some? && c in base.value.sample.counters && base.value.sample.counters[c] == LastValue(steps, c).value)
  {
    hide FourDigitYear, SpecOf, QuietCounter, Run, LastRecord, Observed;
    if steps != [] {
      var n := |steps| - 1;
      RegularPrefix(st, steps, c);
      RunTracks(st, steps[..n], c, heartbeat, keep);
      var before := StateAfter(st, steps[..n], heartbeat, keep);
      match steps[n] {
        case Sampled(s, o) =>
          assert forall i :: 0 <= i < n ==> steps[..n][i] == steps[i];
          StaysUpTo(st, steps[..n], s.unix, heartbeat, keep);
          ObservedCoherent(before, s, heartbeat, keep);
          ObservedTracks(before, s, c, heartbeat, keep);
        case Restarted(boot) =>
          FreshIsCoherent(before.written, boot, keep);
      }
    }
  }

  /** The value a run starts from: the last record's, or the first sample's
      when the drive has no record yet. */
  ghost function StartValue(st: State, steps: seq<Step>, c: string, keep: nat): Option<nat> {
    if Baseline(st, keep).Some? && c in Baseline(st, keep).value.sample.counters
    then Some(Baseline(st, keep).value.sample.counters[c])
    else FirstValue(steps, c)
  }

  function FirstValue(steps: seq<Step>, c: string): Option<nat> {
    if steps == [] then None
    else if FirstValue(steps[..|steps| - 1], c).Some? then FirstValue(steps[..|steps| - 1], c)
    else LastValue(steps, c)
  }

  lemma {:induction false} FirstAndLast(steps: seq<Step>, c: string)
    ensures FirstValue(steps, c).Some? <==> LastValue(steps, c).Some?
  {
    if steps != [] { FirstAndLast(steps[..|steps| - 1], c); }
  }

  /** The value `c` had just before sample `i`: the sample before it, or the
      record the run started from. */
  ghost function ValueBefore(st: State, steps: seq<Step>, i: nat, c: string, keep: nat): Option<nat>
    requires i <= |steps|
  {
    if LastValue(steps[..i], c).Some? then LastValue(steps[..i], c)
    else if Baseline(st, keep).Some? && c in Baseline(st, keep).value.sample.counters
    then Some(Baseline(st, keep).value.sample.counters[c])
    else None
  }

  /** What a sample reports of any counter but a quiet one, at any point of any
      run: its move since the sample before, if that is one reported. */
  lemma {:induction false} ReportedMoves(st: State, steps: seq<Step>, i: nat, c: string, heartbeat: nat, keep: nat)
    requires Regular(st, steps, c) && Coherent(st, keep) && keep >= 1 && !QuietCounter(c)
    requires i < |steps| && steps[i].Sampled? && ValueBefore(st, steps, i, c, keep).Some?
    ensures c in steps[i].sample.counters
    ensures var report := Report(st, steps, i, heartbeat, keep);
      var from, to := ValueBefore(st, steps, i, c, keep).value, steps[i].sample.counters[c];
      && (c in report <==> Reportable(c, from, to))
      && (c in report ==> report[c].from == from && report[c].to == to && report[c].change == (if to > from then Grew else WentBack))
  {
    hide FourDigitYear, SpecOf, QuietCounter, Reportable, Run, LastRecord, Observed, StateAfter, LastValue, Coherent, Regular;
    RegularUpTo(st, steps, i, c);
    SampleHas(st, steps, i, c);
    RunTracks(st, steps[..i], c, heartbeat, keep);
    var before := StateAfter(st, steps[..i], heartbeat, keep);
    ObservedReports(before, steps[i].sample, steps[i].outcome, c, heartbeat, keep);
  }

  lemma {:induction false} KindsApart(c: string)
    ensures ErrorCounter(c) ==> !QuietCounter(c) && forall from, to :: Reportable(c, from, to) <==> from != to
    ensures GrowthCounter(c) ==> !QuietCounter(c) && forall from, to :: Reportable(c, from, to) <==> from < to
  {
    SpecByName(c);
    hide SpecOf, ErrorCounter, GrowthCounter, GaugeCounter, QuietCounter;
  }

  /** Each change of an error counter is reported exactly once, by the sample
      that shows it and with the values on either side of it. */
  lemma {:induction false} ReportedOnce(st: State, steps: seq<Step>, i: nat, c: string, heartbeat: nat, keep: nat)
    requires Regular(st, steps, c) && Coherent(st, keep) && keep >= 1 && ErrorCounter(c)
    requires i < |steps| && steps[i].Sampled? && ValueBefore(st, steps, i, c, keep).Some?
    ensures c in steps[i].sample.counters
    ensures var report := Report(st, steps, i, heartbeat, keep);
      var from, to := ValueBefore(st, steps, i, c, keep).value, steps[i].sample.counters[c];
      && (c in report <==> from != to)
      && (c in report ==> report[c].from == from && report[c].to == to && report[c].change == (if to > from then Grew else WentBack))
  {
    KindsApart(c);
    hide FourDigitYear, ErrorCounter, QuietCounter, Reportable, Report, ValueBefore, Coherent, Regular;
    ReportedMoves(st, steps, i, c, heartbeat, keep);
  }

  /** Of pending sectors and grown defects each growth is, and no fall. */
  lemma {:induction false} GrowthReportedOnce(st: State, steps: seq<Step>, i: nat, c: string, heartbeat: nat, keep: nat)
    requires Regular(st, steps, c) && Coherent(st, keep) && keep >= 1 && GrowthCounter(c)
    requires i < |steps| && steps[i].Sampled? && ValueBefore(st, steps, i, c, keep).Some?
    ensures c in steps[i].sample.counters
    ensures var report := Report(st, steps, i, heartbeat, keep);
      var from, to := ValueBefore(st, steps, i, c, keep).value, steps[i].sample.counters[c];
      && (c in report <==> from < to)
      && (c in report ==> report[c].from == from && report[c].to == to && report[c].change == Grew)
  {
    KindsApart(c);
    hide FourDigitYear, GrowthCounter, QuietCounter, Reportable, Report, ValueBefore, Coherent, Regular;
    ReportedMoves(st, steps, i, c, heartbeat, keep);
  }

  lemma {:induction false} SampleHas(st: State, steps: seq<Step>, i: nat, c: string)
    requires Regular(st, steps, c) && i < |steps| && steps[i].Sampled?
    ensures c in steps[i].sample.counters
  {
  }

  lemma {:induction false} RegularUpTo(st: State, steps: seq<Step>, i: nat, c: string)
    requires Regular(st, steps, c) && i <= |steps|
    ensures Regular(st, steps[..i], c)
  {
    hide FourDigitYear;
    assert forall j :: 0 <= j < i ==> steps[..i][j] == steps[j];
  }

  /** Conservation: what the reports say an error counter grew, less what
      they say it went back, is what it moved by. */
  lemma {:induction false} Conservation(st: State, steps: seq<Step>, c: string, heartbeat: nat, keep: nat)
    requires Regular(st, steps, c) && Coherent(st, keep) && keep >= 1 && ErrorCounter(c)
    requires Baseline(st, keep).Some? ==> c in Baseline(st, keep).value.sample.counters
    ensures LastValue(steps, c).Some? ==> StartValue(st, steps, c, keep).Some?
    ensures LastValue(steps, c).Some? ==>
      ReportedTotal(st, steps, c, heartbeat, keep) == LastValue(steps, c).value - StartValue(st, steps, c, keep).value
    ensures LastValue(steps, c).None? ==> ReportedTotal(st, steps, c, heartbeat, keep) == 0
  {
    KindsApart(c);
    hide FourDigitYear, SpecOf, ErrorCounter, QuietCounter, Reportable, Run, LastRecord, Observed;
    FirstAndLast(steps, c);
    if steps != [] {
      var n := |steps| - 1;
      RegularPrefix(st, steps, c);
      Conservation(st, steps[..n], c, heartbeat, keep);
      FirstAndLast(steps[..n], c);
      RunTracks(st, steps[..n], c, heartbeat, keep);
      var before := StateAfter(st, steps[..n], heartbeat, keep);
      match steps[n] {
        case Sampled(s, o) =>
          if Baseline(before, keep).Some? {
            ObservedReports(before, s, o, c, heartbeat, keep);
          } else {
            FirstSampleReportsNothing(before, s, o, heartbeat, keep);
          }
        case Restarted(boot) =>
      }
    }
  }

  lemma {:induction false} FirstSampleReportsNothing(st: State, s: Sample, o: Outcome, heartbeat: nat, keep: nat)
    requires Baseline(st, keep).None?
    ensures Observed(st, s, o, heartbeat, keep).1 == map[]
    ensures Observed(st, s, o, heartbeat, keep).0.written == st.written + [Op(s.unix, Record(s, st.boot, Some(First), map[]), o)]
  {
  }

  /** How far `c` rose in all, its falls not counted. */
  ghost function Rises(st: State, steps: seq<Step>, c: string, keep: nat): nat {
    if steps == [] then 0
    else
      var n := |steps| - 1;
      var before := ValueBefore(st, steps, n, c, keep);
      Rises(st, steps[..n], c, keep) +
      (if steps[n].Sampled? && c in steps[n].sample.counters && before.Some?
       then Max(steps[n].sample.counters[c] - before.value, 0) else 0)
  }

  /** And what the reports say of those two counters is how far they rose. */
  lemma {:induction false} GrowthAccounted(st: State, steps: seq<Step>, c: string, heartbeat: nat, keep: nat)
    requires Regular(st, steps, c) && Coherent(st, keep) && keep >= 1 && GrowthCounter(c)
    requires Baseline(st, keep).Some? ==> c in Baseline(st, keep).value.sample.counters
    ensures ReportedTotal(st, steps, c, heartbeat, keep) == Rises(st, steps, c, keep)
  {
    hide GrowthCounter, Report, ValueBefore, Coherent, Regular, Baseline;
    if steps != [] {
      var n := |steps| - 1;
      RegularPrefix(st, steps, c);
      GrowthAccounted(st, steps[..n], c, heartbeat, keep);
      if steps[n].Sampled? { RiseReported(st, steps, c, heartbeat, keep); } else { NoSampleNoReport(st, steps, heartbeat, keep); }
    }
  }

  lemma {:induction false} NoSampleNoReport(st: State, steps: seq<Step>, heartbeat: nat, keep: nat)
    requires steps != [] && steps[|steps| - 1].Restarted?
    ensures Report(st, steps, |steps| - 1, heartbeat, keep) == map[]
  {
  }

  lemma {:induction false} RiseReported(st: State, steps: seq<Step>, c: string, heartbeat: nat, keep: nat)
    requires steps != [] && steps[|steps| - 1].Sampled?
    requires Regular(st, steps, c) && Coherent(st, keep) && keep >= 1 && GrowthCounter(c)
    requires Baseline(st, keep).Some? ==> c in Baseline(st, keep).value.sample.counters
    ensures var n := |steps| - 1;
      var before := ValueBefore(st, steps, n, c, keep);
      && c in steps[n].sample.counters
      && Delta(Report(st, steps, n, heartbeat, keep), c) == if before.Some? then Max(steps[n].sample.counters[c] - before.value, 0) else 0
  {
    var n := |steps| - 1;
    RegularUpTo(st, steps, n, c);
    SampleHas(st, steps, n, c);
    KindsApart(c);
    hide GrowthCounter, Reportable, QuietCounter, Report, Coherent, Regular, ValueBefore, Baseline;
    if ValueBefore(st, steps, n, c, keep).Some? {
      GrowthReportedOnce(st, steps, n, c, heartbeat, keep);
    } else {
      NothingBefore(st, steps, n, c, heartbeat, keep);
    }
  }

  /** With no value before it, a sample is the drive's first. */
  lemma {:induction false} NothingBefore(st: State, steps: seq<Step>, n: nat, c: string, heartbeat: nat, keep: nat)
    requires n < |steps| && steps[n].Sampled? && Regular(st, steps[..n], c) && Coherent(st, keep) && keep >= 1 && !QuietCounter(c)
    requires Baseline(st, keep).Some? ==> c in Baseline(st, keep).value.sample.counters
    requires ValueBefore(st, steps, n, c, keep).None?
    ensures Report(st, steps, n, heartbeat, keep) == map[]
  {
    hide FourDigitYear, QuietCounter, Observed, Run, LastRecord, StateAfter, Regular;
    RunTracks(st, steps[..n], c, heartbeat, keep);
    FirstSampleReportsNothing(StateAfter(st, steps[..n], heartbeat, keep), steps[n].sample, steps[n].outcome, heartbeat, keep);
  }

  // ------------------------------------------------ what writes nothing

  /** A sample that differs from the record only in hours, bytes and commands
      gone forward, and comes before the heartbeat. */
  ghost predicate QuietSince(p: Record, s: Sample, heartbeat: nat) {
    && OnlyQuiet(p.sample.counters, s.counters) && p.sample.status == s.status && p.sample.firmware == s.firmware
    && p.sample.bay == s.bay && p.sample.predicted == s.predicted && Max(s.unix - p.sample.unix, 0) < heartbeat
  }

  /** Exactly such a sample writes nothing, whatever would become of the write. */
  lemma {:induction false} WritesNothingExactly(st: State, s: Sample, o: Outcome, heartbeat: nat, keep: nat)
    requires Baseline(st, keep).Some?
    ensures var r := Observed(st, s, o, heartbeat, keep);
      var p := Baseline(st, keep).value;
      if QuietSince(p, s, heartbeat) then
        r == (st.(cache := Some(Some(p))), map[])
      else
        && |r.0.written| == |st.written| + 1 && r.0.written[..|st.written|] == st.written
        && var op := r.0.written[|st.written|];
        && op.secs == s.unix && op.outcome == o && op.value.sample == s && op.value.boot == st.boot
        && op.value.findings == r.1 && FoundByName(p, s.counters, st.boot, r.1)
        // a heartbeat is a record that nothing else made due
        && op.value.why == Some(if QuietSince(p, s, Max(s.unix - p.sample.unix, 0) + 1) then Heartbeat else Changed)
        && r.0.cache == Some(Some(if o.Complete? then op.value else p))
  {
    var p := Baseline(st, keep).value;
    DueExactly(p, s, st.boot, heartbeat);
    FindingsByName(p, s.counters, st.boot);
    hide Due, FindingsOf, OnlyQuiet, FoundByName, Run, LastRecord;
  }

  /** Over a run of such samples, restarts included, nothing is written. */
  lemma {:induction false} QuietRun(st: State, steps: seq<Step>, p: Record, heartbeat: nat, keep: nat)
    requires Coherent(st, keep) && keep >= 1 && Baseline(st, keep) == Some(p)
    requires forall i :: 0 <= i < |steps| && steps[i].Sampled? ==> QuietSince(p, steps[i].sample, heartbeat)
    ensures var t := StateAfter(st, steps, heartbeat, keep);
      t.written == st.written && Coherent(t, keep) && Baseline(t, keep) == Some(p)
    ensures forall i :: 0 <= i < |steps| ==> Report(st, steps, i, heartbeat, keep) == map[]
  {
    hide QuietSince, Observed, Run, LastRecord, FourDigitYear;
    if steps != [] {
      var n := |steps| - 1;
      assert forall i :: 0 <= i < n ==> steps[..n][i] == steps[i];
      QuietRun(st, steps[..n], p, heartbeat, keep);
      var before := StateAfter(st, steps[..n], heartbeat, keep);
      match steps[n] {
        case Sampled(s, o) => WritesNothingExactly(before, s, o, heartbeat, keep);
        case Restarted(boot) => FreshIsCoherent(before.written, boot, keep);
      }
      forall i | 0 <= i < n ensures Report(st, steps, i, heartbeat, keep) == map[] {
        assert steps[..n][..i] == steps[..i];
        assert Report(st, steps[..n], i, heartbeat, keep) == map[];
      }
    }
  }

  // ------------------------------------------------ where it does not hold

  /** Two samples after a record with 1 in `c`. */
  function Moving(c: string, unix: nat, value: nat): Sample {
    Sample(unix, map[c := value], "", "", None, None)
  }

  /** The counters whose every move the reports account for are exactly the
      error counters: of any other a move goes unreported. */
  lemma {:induction false} ConservedExactlyForErrors(c: string, heartbeat: nat, keep: nat)
    ensures (forall from: nat, to: nat ::
      var prev := Record(Moving(c, 0, from), "", None, map[]);
      Delta(FindingsOf(prev, Moving(c, 1, to).counters, ""), c) == to - from)
      <==> ErrorCounter(c)
  {
    SpecByName(c);
    hide SpecOf, ErrorCounter, GrowthCounter, GaugeCounter, QuietCounter;
    if !SpecOf(c).grow {
      var prev := Record(Moving(c, 0, 0), "", None, map[]);
      assert Delta(FindingsOf(prev, Moving(c, 1, 1).counters, ""), c) == 0;
    } else if !SpecOf(c).back {
      var prev := Record(Moving(c, 0, 1), "", None, map[]);
      assert Delta(FindingsOf(prev, Moving(c, 1, 0).counters, ""), c) == 0;
    }
  }

  /** Whatever growth is reported is also written, so that the next sample is
      compared with it; a quiet counter is reported only when it goes back. */
  lemma {:induction false} ErrorsAlwaysWrite(c: string, from: nat, to: nat)
    ensures SpecOf(c).grow ==> SpecOf(c).writes
    ensures Reportable(c, from, to) && from < to ==> !QuietCounter(c)
    ensures QuietCounter(c) ==> (Reportable(c, from, to) <==> to < from)
  {
    SpecByName(c);
    hide SpecOf, ErrorCounter, GrowthCounter, GaugeCounter, QuietCounter;
  }

  /** A failed write reports the change and keeps the old baseline, so the
      next sample with the same value reports it again. */
  lemma {:induction false} FailedWriteReportsAgain(st: State, s: Sample, t: Sample, o: Outcome, c: string, heartbeat: nat, keep: nat)
    requires Baseline(st, keep).Some? && c in Baseline(st, keep).value.sample.counters
    requires c in s.counters && c in t.counters && t.counters[c] == s.counters[c]
    requires !o.Complete?
    ensures var failed := Observed(st, s, o, heartbeat, keep);
      var again := Observed(failed.0, t, Complete, heartbeat, keep);
      && (c in failed.1 <==> c in again.1)
      && (c in failed.1 ==> again.1[c] == failed.1[c])
  {
    hide SpecOf, CounterMoved, Run, LastRecord;
    var prev := Baseline(st, keep);
    FoundIn(prev.value, s.counters, st.boot, c);
    FoundIn(prev.value, t.counters, st.boot, c);
  }
}
