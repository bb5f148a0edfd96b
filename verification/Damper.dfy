/** A drive's health: the verdict on one sample, with what somebody has
    accepted, and the damper that keeps one noisy sample from moving it. */
module Damper {
  import opened Common

  datatype Status = Unknown | Good | Warning | Failing | Failed

  /** The order of the source: a drive not yet known is below a good one. */
  function Rank(s: Status): nat {
    match s
    case Unknown => 0
    case Good => 1
    case Warning => 2
    case Failing => 3
    case Failed => 4
  }

  // ------------------------------------------------ the damper

  datatype Pending = Pending(candidate: Status, count: nat)

  /** One sample of one drive: what is pending for it, and its status now. */
  function Applied(p: Option<Pending>, hysteresis: nat, current: Status, candidate: Status): (Option<Pending>, Status) {
    if Rank(candidate) <= Rank(current) then (None, candidate)
    else
      var count := if p.Some? && p.value.candidate == candidate then p.value.count + 1 else 1;
      if count >= hysteresis then (None, candidate) else (Some(Pending(candidate, count)), current)
  }

  function Lookup(pending: map<nat, Pending>, id: nat): Option<Pending> {
    if id in pending then Some(pending[id]) else None
  }

  class Damper {
    var pending: map<nat, Pending>

    constructor ()
      ensures pending == map[]
    {
      pending := map[];
    }

    method Apply(hysteresis: nat, id: nat, current: Status, candidate: Status) returns (s: Status)
      modifies this
      ensures (Lookup(pending, id), s) == Applied(old(Lookup(pending, id)), hysteresis, current, candidate)
      ensures forall other :: other != id ==> Lookup(pending, other) == old(Lookup(pending, other))
    {
      if Rank(candidate) <= Rank(current) {
        pending := pending - {id};
        return candidate;
      }
      var entry := if id in pending then pending[id] else Pending(candidate, 0);
      if entry.candidate != candidate { entry := Pending(candidate, 0); }
      entry := Pending(candidate, entry.count + 1);
      if entry.count >= hysteresis {
        pending := pending - {id};
        s := candidate;
      } else {
        pending := pending[id := entry];
        s := current;
      }
    }
  }

  // ------------------------------------------------ whole runs

  /** The drives of a node: what is pending, and each drive's status, which
      the next sample of it starts from. */
  datatype World = World(pending: map<nat, Pending>, status: map<nat, Status>)

  function StatusOf(w: World, id: nat): Status { if id in w.status then w.status[id] else Unknown }

  function Sampled(w: World, hysteresis: nat, id: nat, candidate: Status): World {
    var r := Applied(Lookup(w.pending, id), hysteresis, StatusOf(w, id), candidate);
    World(if r.0.Some? then w.pending[id := r.0.value] else w.pending - {id}, w.status[id := r.1])
  }

  function Run(w: World, hysteresis: nat, samples: seq<(nat, Status)>): World
    decreases |samples|
  {
    if samples == [] then w
    else
      var n := |samples| - 1;
      Sampled(Run(w, hysteresis, samples[..n]), hysteresis, samples[n].0, samples[n].1)
  }

  /** The candidates of one drive, in order. */
  function Of(samples: seq<(nat, Status)>, id: nat): seq<Status>
    decreases |samples|
  {
    if samples == [] then []
    else
      var n := |samples| - 1;
      Of(samples[..n], id) + if samples[n].0 == id then [samples[n].1] else []
  }

  /** How many of the last candidates are the same as the last one. */
  function Streak(cs: seq<Status>): nat
    decreases |cs|
  {
    if cs == [] then 0
    else if |cs| >= 2 && cs[|cs| - 2] == cs[|cs| - 1] then 1 + Streak(cs[..|cs| - 1])
    else 1
  }

  /** What a status ought to be, from the candidates alone: never worse than
      the last one, and as bad as it once that one has come often enough. */
  function Settled(hysteresis: nat, start: Status, cs: seq<Status>): Status
    decreases |cs|
  {
    if cs == [] then start
    else
      var before, c := Settled(hysteresis, start, cs[..|cs| - 1]), cs[|cs| - 1];
      if Rank(c) <= Rank(before) || Streak(cs) >= hysteresis then c else before
  }

  /** What the pending count says of the candidates so far. */
  ghost predicate Counts(p: Option<Pending>, status: Status, cs: seq<Status>) {
    if p.None? then cs != [] ==> cs[|cs| - 1] == status
    else cs != [] && p.value == Pending(cs[|cs| - 1], Streak(cs)) && Rank(p.value.candidate) > Rank(status)
  }

  lemma {:induction false} StreakSnoc(cs: seq<Status>, c: Status)
    ensures Streak(cs + [c]) == if cs != [] && cs[|cs| - 1] == c then Streak(cs) + 1 else 1
  {
    assert (cs + [c])[..|cs|] == cs;
  }

  lemma {:induction false} AppliedCounts(p: Option<Pending>, h: nat, start: Status, cs: seq<Status>, c: Status)
    requires Counts(p, Settled(h, start, cs), cs)
    ensures var r := Applied(p, h, Settled(h, start, cs), c);
      r.1 == Settled(h, start, cs + [c]) && Counts(r.0, r.1, cs + [c])
  {
    StreakSnoc(cs, c);
    assert (cs + [c])[..|cs|] == cs;
  }

  /** Over whole runs, with the samples of all drives mixed as they come, each
      drive's status is what its own candidates alone make it. */
  lemma {:induction false} EachDriveByItself(h: nat, status: map<nat, Status>, samples: seq<(nat, Status)>, id: nat)
    ensures var w, start := Run(World(map[], status), h, samples), StatusOf(World(map[], status), id);
      && StatusOf(w, id) == Settled(h, start, Of(samples, id))
      && Counts(Lookup(w.pending, id), StatusOf(w, id), Of(samples, id))
    decreases |samples|
  {
    hide Settled, Counts, Applied;
    var start := StatusOf(World(map[], status), id);
    if samples == [] {
      NothingYet(h, start);
    } else {
      var n := |samples| - 1;
      EachDriveByItself(h, status, samples[..n], id);
      var w := Run(World(map[], status), h, samples[..n]);
      var c := samples[n].1;
      var next := Sampled(w, h, samples[n].0, c);
      assert Run(World(map[], status), h, samples) == next;
      if samples[n].0 == id {
        AppliedCounts(Lookup(w.pending, id), h, start, Of(samples[..n], id), c);
        assert Of(samples, id) == Of(samples[..n], id) + [c];
      } else {
        assert Of(samples, id) == Of(samples[..n], id);
        assert StatusOf(next, id) == StatusOf(w, id) && Lookup(next.pending, id) == Lookup(w.pending, id);
      }
    }
  }

  lemma {:induction false} NothingYet(h: nat, start: Status)
    ensures Settled(h, start, []) == start && Counts(None, start, [])
  {
  }

  // ------------------------------------------------ what that comes to

  /** All of the last `n` candidates. */
  ghost predicate LastAll(cs: seq<Status>, n: nat, c: Status) {
    n <= |cs| && forall k :: |cs| - n <= k < |cs| ==> cs[k] == c
  }

  lemma {:induction false} StreakIsLastAll(cs: seq<Status>, n: nat)
    requires cs != []
    ensures Streak(cs) >= n <==> LastAll(cs, n, cs[|cs| - 1])
    decreases |cs|
  {
    var m := |cs| - 1;
    if m >= 1 && cs[m - 1] == cs[m] {
      if n >= 1 {
        StreakIsLastAll(cs[..m], n - 1);
        assert LastAll(cs, n, cs[m]) <==> LastAll(cs[..m], n - 1, cs[m]);
      }
    }
  }

  /** A status gets worse exactly when the last `hysteresis` candidates were
      all the one it takes; anything not worse is taken at once. */
  lemma {:induction false} WorseExactly(h: nat, start: Status, cs: seq<Status>, c: Status)
    ensures var before, after := Settled(h, start, cs), Settled(h, start, cs + [c]);
      && (Rank(c) <= Rank(before) ==> after == c)
      && (Rank(c) > Rank(before) ==> (after == c <==> LastAll(cs + [c], h, c)) && (after != c ==> after == before))
  {
    assert (cs + [c])[..|cs|] == cs;
    StreakIsLastAll(cs + [c], h);
  }

  /** So after `hysteresis` equal candidates the status is that candidate. */
  lemma {:induction false} EnoughIsTaken(h: nat, start: Status, cs: seq<Status>, c: Status)
    requires cs != [] && h >= 1 && LastAll(cs, h, c)
    ensures Settled(h, start, cs) == c
  {
    StreakIsLastAll(cs, h);
  }

  /** Some `h` candidates in a row were all one status, `atLeast` or worse. */
  ghost predicate HadRow(cs: seq<Status>, h: nat, atLeast: Status) {
    exists k, c :: 0 <= k <= |cs| && Rank(c) >= Rank(atLeast) && LastAll(cs[..k], h, c)
  }

  lemma {:induction false} RowLasts(cs: seq<Status>, h: nat, worse: Status, atLeast: Status)
    requires cs != [] && HadRow(cs[..|cs| - 1], h, worse) && Rank(worse) >= Rank(atLeast)
    ensures HadRow(cs, h, atLeast)
  {
    var before := cs[..|cs| - 1];
    var k, c :| 0 <= k <= |before| && Rank(c) >= Rank(worse) && LastAll(before[..k], h, c);
    assert before[..k] == cs[..k];
  }

  /** Over any run, a drive is worse than at the start only if that many
      candidates in a row were all one status at least as bad as it now is:
      no lesser noise ever adds up to it. */
  lemma {:induction false} WorseNeedsRow(h: nat, start: Status, cs: seq<Status>)
    requires Rank(Settled(h, start, cs)) > Rank(start)
    ensures HadRow(cs, h, Settled(h, start, cs))
    decreases |cs|
  {
    if cs != [] {
      var m := |cs| - 1;
      var before, after := Settled(h, start, cs[..m]), Settled(h, start, cs);
      StreakIsLastAll(cs, h);
      if Rank(after) <= Rank(before) {
        WorseNeedsRow(h, start, cs[..m]);
        RowLasts(cs, h, before, after);
      } else {
        assert cs[..|cs|] == cs;
        assert LastAll(cs[..|cs|], h, cs[m]);
      }
    }
  }

  /** The order puts an unknown drive below a good one, so its first good
      verdict waits like any worsening. */
  lemma {:induction false} FirstGoodWaits(h: nat, n: nat)
    requires 1 <= n
    ensures Settled(h, Unknown, seq(n, _ => Good)) == if n >= h then Good else Unknown
    decreases n
  {
    var cs := seq(n, _ => Good);
    var before := seq(n - 1, _ => Good);
    assert cs == before + [Good];
    hide Settled;
    WorseExactly(h, Unknown, before, Good);
    assert LastAll(cs, h, Good) <==> h <= n;
    if n == 1 {
      assert before == [];
      NothingYet(h, Unknown);
    } else {
      FirstGoodWaits(h, n - 1);
    }
  }
}
