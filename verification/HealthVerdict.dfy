/** The verdict on one sample of a drive, and what an acknowledged warning
    takes from it. */
module HealthVerdict {
  import opened Common
  import opened Damper

  datatype Limits = Limits(spareWarn: int, spareCrit: int, wearWarn: int, wearCrit: int, tempWarn: int, tempCrit: int)

  /** `ie` is the drive's own exception code, `ieWarns` that it warns. */
  datatype Smart = Smart(predicted: bool, ie: Option<nat>, ieWarns: bool, pending: Option<nat>, uncorrectable: Option<nat>, counters: map<string, nat>)

  datatype Sample = Sample(
    usable: bool, smart: Option<Smart>, readOnly: bool, degraded: bool, spareLow: bool, backupFailed: bool, hot: bool,
    spare: Option<int>, wear: Option<int>, temperature: Option<int>, mediaErrors: nat)

  datatype Ack = Ack(ie: Option<nat>, counters: map<string, nat>)

  function Watched(): seq<string> {
    ["grown_defects", "reallocated_sectors", "pending_sectors", "offline_uncorrectable", "reported_uncorrectable",
     "crc_errors", "read_uncorrected", "write_uncorrected", "verify_uncorrected"]
  }

  // ------------------------------------------------ what counts, each by itself

  predicate Accepted(ack: Option<Ack>, k: string, n: nat) { ack.Some? && k in ack.value.counters && n <= ack.value.counters[k] }

  predicate IeWarns(s: Sample, ack: Option<Ack>) {
    s.smart.Some? && s.smart.value.ieWarns && (ack.None? || ack.value.ie != s.smart.value.ie)
  }

  predicate CountWarns(n: Option<nat>, ack: Option<Ack>, k: string) { n.Some? && n.value > 0 && !Accepted(ack, k, n.value) }

  predicate SectorsWarn(s: Sample, ack: Option<Ack>) {
    s.smart.Some? &&
    (CountWarns(s.smart.value.pending, ack, "pending_sectors") || CountWarns(s.smart.value.uncorrectable, ack, "offline_uncorrectable"))
  }

  predicate Grew(s: Sample, ack: Option<Ack>, k: string) {
    s.smart.Some? && ack.Some? && k in ack.value.counters && k in s.smart.value.counters && s.smart.value.counters[k] > ack.value.counters[k]
  }

  predicate GrewPast(s: Sample, ack: Option<Ack>) { exists k :: k in Watched() && Grew(s, ack, k) }

  predicate Wears(cfg: Limits, s: Sample) {
    || s.backupFailed || s.hot
    || (s.spare.Some? && s.spare.value <= cfg.spareWarn) || (s.wear.Some? && s.wear.value >= cfg.wearWarn)
    || (s.temperature.Some? && (s.temperature.value >= cfg.tempCrit || s.temperature.value >= cfg.tempWarn))
  }

  predicate MediaGrew(s: Sample, prev: Option<nat>) { prev.Some? && s.mediaErrors > prev.value }

  predicate Fails(cfg: Limits, s: Sample) {
    || (s.smart.Some? && s.smart.value.predicted) || s.degraded || s.spareLow
    || (s.spare.Some? && s.spare.value <= cfg.spareCrit) || (s.wear.Some? && s.wear.value >= cfg.wearCrit)
  }

  predicate Warns(cfg: Limits, s: Sample, prev: Option<nat>, ack: Option<Ack>) {
    IeWarns(s, ack) || SectorsWarn(s, ack) || GrewPast(s, ack) || Wears(cfg, s) || MediaGrew(s, prev)
  }

  /** The worst of what counts. */
  function Verdict(cfg: Limits, s: Sample, prev: Option<nat>, ack: Option<Ack>): Status {
    if !s.usable || s.readOnly then Failed
    else if Fails(cfg, s) then Failing
    else if Warns(cfg, s, prev, ack) then Warning
    else Good
  }

  function Worse(st: Status, to: Status): Status { if Rank(to) > Rank(st) then to else st }

  /** The growth of any watched counter past what was accepted. */
  method Growth(s: Sample, ack: Option<Ack>) returns (grew: bool)
    ensures grew <==> GrewPast(s, ack)
  {
    var names := Watched();
    grew := false;
    for i := 0 to |names|
      invariant grew <==> exists k :: 0 <= k < i && Grew(s, ack, names[k])
    {
      if Grew(s, ack, names[i]) { grew := true; }
    }
  }

  function Level(fails: bool, warns: bool): Status { if fails then Failing else if warns then Warning else Good }

  /** The drive's own verdict and its sector counters. */
  method SmartPart(s: Sample, ack: Option<Ack>, before: Status) returns (st: Status)
    requires before != Unknown
    ensures st == Worse(before, Level(s.smart.Some? && s.smart.value.predicted, IeWarns(s, ack) || SectorsWarn(s, ack) || GrewPast(s, ack)))
  {
    hide Grew, CountWarns;
    st := before;
    if s.smart.Some? {
      var sm := s.smart.value;
      if sm.predicted { st := Worse(st, Failing); }
      if sm.ieWarns && (ack.None? || ack.value.ie != sm.ie) { st := Worse(st, Warning); }
      if CountWarns(sm.pending, ack, "pending_sectors") { st := Worse(st, Warning); }
      if CountWarns(sm.uncorrectable, ack, "offline_uncorrectable") { st := Worse(st, Warning); }
      var grew := Growth(s, ack);
      if grew { st := Worse(st, Warning); }
    } else {
      NoGrowth(s, ack);
    }
  }

  lemma {:induction false} NoGrowth(s: Sample, ack: Option<Ack>)
    requires s.smart.None?
    ensures !GrewPast(s, ack)
  {
  }

  /** The critical warning bits. */
  method FlagsPart(s: Sample, before: Status) returns (st: Status)
    requires before != Unknown
    ensures st == Worse(before, if s.readOnly then Failed else Level(s.degraded || s.spareLow, s.backupFailed || s.hot))
  {
    st := before;
    if s.readOnly { st := Worse(st, Failed); }
    if s.degraded { st := Worse(st, Failing); }
    if s.spareLow { st := Worse(st, Failing); }
    if s.backupFailed { st := Worse(st, Warning); }
    if s.hot { st := Worse(st, Warning); }
  }

  /** Spare, wear and temperature against their limits. */
  method LimitsPart(cfg: Limits, s: Sample, before: Status) returns (st: Status)
    requires before != Unknown
    ensures var fails := (s.spare.Some? && s.spare.value <= cfg.spareCrit) || (s.wear.Some? && s.wear.value >= cfg.wearCrit);
      st == Worse(before, Level(fails, Wears(cfg, s.(backupFailed := false, hot := false))))
  {
    st := before;
    if s.spare.Some? {
      if s.spare.value <= cfg.spareCrit {
        st := Worse(st, Failing);
      } else if s.spare.value <= cfg.spareWarn {
        st := Worse(st, Warning);
      }
    }
    if s.wear.Some? {
      if s.wear.value >= cfg.wearCrit {
        st := Worse(st, Failing);
      } else if s.wear.value >= cfg.wearWarn {
        st := Worse(st, Warning);
      }
    }
    if s.temperature.Some? {
      if s.temperature.value >= cfg.tempCrit {
        st := Worse(st, Warning);
      } else if s.temperature.value >= cfg.tempWarn {
        st := Worse(st, Warning);
      }
    }
  }

  /** The source's checks in its order, each making the status worse. */
  method EvaluateAcked(cfg: Limits, s: Sample, prev: Option<nat>, ack: Option<Ack>) returns (st: Status)
    ensures st == Verdict(cfg, s, prev, ack)
  {
    hide GrewPast, IeWarns, SectorsWarn;
    if !s.usable { return Failed; }
    st := SmartPart(s, ack, Good);
    st := FlagsPart(s, st);
    st := LimitsPart(cfg, s, st);
    if prev.Some? && s.mediaErrors > prev.value { st := Worse(st, Warning); }
  }

  /** What one reading does to the verdict on a drive that is good: each single
      change of the sample, and what it makes of it. */
  lemma {:induction false} OneReading(cfg: Limits, s: Sample, prev: Option<nat>, ack: Option<Ack>, n: int)
    requires Verdict(cfg, s, prev, ack) == Good
    ensures Verdict(cfg, s.(usable := false), prev, ack) == Failed && Verdict(cfg, s.(readOnly := true), prev, ack) == Failed
    ensures Verdict(cfg, s.(degraded := true), prev, ack) == Failing && Verdict(cfg, s.(spareLow := true), prev, ack) == Failing
    ensures Verdict(cfg, s.(backupFailed := true), prev, ack) == Warning && Verdict(cfg, s.(hot := true), prev, ack) == Warning
    ensures Verdict(cfg, s.(spare := Some(n)), prev, ack) == if n <= cfg.spareCrit then Failing else if n <= cfg.spareWarn then Warning else Good
    ensures Verdict(cfg, s.(wear := Some(n)), prev, ack) == if n >= cfg.wearCrit then Failing else if n >= cfg.wearWarn then Warning else Good
    ensures Verdict(cfg, s.(temperature := Some(n)), prev, ack) == if n >= cfg.tempCrit || n >= cfg.tempWarn then Warning else Good
    ensures n >= 0 ==> Verdict(cfg, s.(mediaErrors := n), prev, ack) == if prev.Some? && n > prev.value then Warning else Good
    ensures Verdict(cfg, s.(spare := None, wear := None, temperature := None), prev, ack) == Good
  {
    hide GrewPast, IeWarns, SectorsWarn;
    SmartOnly(s, ack, s.(usable := false));
    SmartOnly(s, ack, s.(readOnly := true));
    SmartOnly(s, ack, s.(degraded := true));
    SmartOnly(s, ack, s.(spareLow := true));
    SmartOnly(s, ack, s.(backupFailed := true));
    SmartOnly(s, ack, s.(hot := true));
    SmartOnly(s, ack, s.(spare := Some(n)));
    SmartOnly(s, ack, s.(wear := Some(n)));
    SmartOnly(s, ack, s.(temperature := Some(n)));
    if n >= 0 { SmartOnly(s, ack, s.(mediaErrors := n)); }
    SmartOnly(s, ack, s.(spare := None, wear := None, temperature := None));
  }

  /** The worst of it decides: what of a sample makes a drive failed, and what
      else makes it failing, whatever the rest of it says. */
  lemma {:induction false} WorstDecides(cfg: Limits, s: Sample, prev: Option<nat>, ack: Option<Ack>)
    ensures var v := Verdict(cfg, s, prev, ack);
      && v != Unknown
      && (v == Failed <==> !s.usable || s.readOnly)
      && (Rank(v) >= Rank(Failing) <==>
            || v == Failed || (s.smart.Some? && s.smart.value.predicted) || s.degraded || s.spareLow
            || (s.spare.Some? && s.spare.value <= cfg.spareCrit) || (s.wear.Some? && s.wear.value >= cfg.wearCrit))
  {
  }

  lemma {:induction false} SmartOnly(s: Sample, ack: Option<Ack>, t: Sample)
    requires t.smart == s.smart
    ensures IeWarns(t, ack) == IeWarns(s, ack) && SectorsWarn(t, ack) == SectorsWarn(s, ack) && GrewPast(t, ack) == GrewPast(s, ack)
  {
    assert forall k :: Grew(t, ack, k) <==> Grew(s, ack, k);
  }

  /** The same of what the drive says of itself: its own prediction, its own
      warning unless accepted, and pending or uncorrectable sectors unless no
      more than accepted. */
  lemma {:induction false} OneSmartReading(cfg: Limits, s: Sample, prev: Option<nat>, ack: Option<Ack>, n: nat, ie: Option<nat>)
    requires Verdict(cfg, s, prev, ack) == Good && s.smart.Some?
    ensures var m := s.smart.value;
      && Verdict(cfg, s.(smart := Some(m.(predicted := true))), prev, ack) == Failing
      && Verdict(cfg, s.(smart := Some(m.(ieWarns := true, ie := ie))), prev, ack) == (if ack.Some? && ack.value.ie == ie then Good else Warning)
      && Verdict(cfg, s.(smart := Some(m.(pending := Some(n)))), prev, ack)
         == (if n == 0 || (ack.Some? && "pending_sectors" in ack.value.counters && n <= ack.value.counters["pending_sectors"]) then Good else Warning)
      && Verdict(cfg, s.(smart := Some(m.(uncorrectable := Some(n)))), prev, ack)
         == (if n == 0 || (ack.Some? && "offline_uncorrectable" in ack.value.counters && n <= ack.value.counters["offline_uncorrectable"]) then Good else Warning)
  {
    var m := s.smart.value;
    SameGrowth(s, ack, m.(predicted := true));
    SameGrowth(s, ack, m.(ieWarns := true, ie := ie));
    SameGrowth(s, ack, m.(pending := Some(n)));
    SameGrowth(s, ack, m.(uncorrectable := Some(n)));
    hide GrewPast;
  }

  lemma {:induction false} SameGrowth(s: Sample, ack: Option<Ack>, m: Smart)
    requires s.smart.Some? && m.counters == s.smart.value.counters
    ensures GrewPast(s.(smart := Some(m)), ack) == GrewPast(s, ack)
  {
    assert forall k :: Grew(s.(smart := Some(m)), ack, k) <==> Grew(s, ack, k);
  }

  /** The counters watched for growth past what was accepted: exactly these. */
  predicate WatchedCounter(k: string) {
    || k == "grown_defects" || k == "reallocated_sectors" || k == "pending_sectors" || k == "offline_uncorrectable"
    || k == "reported_uncorrectable" || k == "crc_errors" || k == "read_uncorrected" || k == "write_uncorrected" || k == "verify_uncorrected"
  }

  lemma {:induction false} WatchedExactly(k: string)
    ensures k in Watched() <==> WatchedCounter(k)
  {
  }

  /** And one counter: a warning exactly if it is one of those, was accepted at
      a lower count, and is now above that. */
  lemma {:induction false} OneCounter(cfg: Limits, s: Sample, prev: Option<nat>, ack: Option<Ack>, k: string, n: nat)
    requires Verdict(cfg, s, prev, ack) == Good && s.smart.Some?
    ensures var m := s.smart.value;
      Verdict(cfg, s.(smart := Some(m.(counters := m.counters[k := n]))), prev, ack)
        == (if WatchedCounter(k) && ack.Some? && k in ack.value.counters && n > ack.value.counters[k] then Warning else Good)
  {
    var m := s.smart.value;
    var t := s.(smart := Some(m.(counters := m.counters[k := n])));
    WatchedExactly(k);
    hide Watched, WatchedCounter;
    forall j | j in Watched() ensures Grew(t, ack, j) ==> j == k { assert !Grew(s, ack, j); }
    assert GrewPast(t, ack) <==> k in Watched() && Grew(t, ack, k);
    hide GrewPast;
  }

  /** An acknowledgement changes nothing of a verdict that is failing or
      worse, with it or without it. */
  lemma {:induction false} AckNeverTouchesFailing(cfg: Limits, s: Sample, prev: Option<nat>, ack: Ack)
    ensures var with, without := Verdict(cfg, s, prev, Some(ack)), Verdict(cfg, s, prev, None);
      (Rank(with) >= Rank(Failing) <==> Rank(without) >= Rank(Failing)) && (Rank(without) >= Rank(Failing) ==> with == without)
  {
  }

  /** Of the warnings, it takes back exactly those it covers: the drive is
      good with it and warned of without it when nothing else warns, the code
      is the accepted one, the sector counts are no higher, and no watched
      counter has grown past it. */
  lemma {:induction false} AckSilencesExactly(cfg: Limits, s: Sample, prev: Option<nat>, ack: Ack)
    ensures var with, without := Verdict(cfg, s, prev, Some(ack)), Verdict(cfg, s, prev, None);
      var plain := s.usable && !s.readOnly && !Fails(cfg, s) && !Wears(cfg, s) && !MediaGrew(s, prev);
      var covered := s.smart.Some? ==>
        var sm := s.smart.value;
        && (sm.ieWarns ==> ack.ie == sm.ie)
        && (sm.pending.Some? && sm.pending.value > 0 ==> Accepted(Some(ack), "pending_sectors", sm.pending.value))
        && (sm.uncorrectable.Some? && sm.uncorrectable.value > 0 ==> Accepted(Some(ack), "offline_uncorrectable", sm.uncorrectable.value));
      with == Good && without == Warning <==>
        plain && covered && !GrewPast(s, Some(ack)) && (IeWarns(s, None) || SectorsWarn(s, None))
  {
  }
}
