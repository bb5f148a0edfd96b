/** The rolling update of a shelf's IOMs: one after another, the next only when
    the drives have their paths back. */
module IomRoll {
  import opened Common

  // ------------------------------------------------ paths

  /** How many of a drive's paths are up: `cable[i]` run through IOM `i`. */
  function Live(cable: seq<nat>, down: set<nat>): nat
    decreases |cable|
  {
    if cable == [] then 0
    else
      var i := |cable| - 1;
      Live(cable[..i], down) + if i in down then 0 else cable[i]
  }

  lemma {:induction false} LiveMonotone(cable: seq<nat>, a: set<nat>, b: set<nat>)
    requires a <= b
    ensures Live(cable, b) <= Live(cable, a)
    decreases |cable|
  {
    if cable != [] { LiveMonotone(cable[..|cable| - 1], a, b); }
  }

  lemma {:induction false} LivePath(cable: seq<nat>, down: set<nat>, i: nat)
    requires i < |cable| && cable[i] > 0 && i !in down
    ensures Live(cable, down) > 0
    decreases |cable|
  {
    if i < |cable| - 1 { LivePath(cable[..|cable| - 1], down, i); }
  }

  lemma {:induction false} FullMeans(cable: seq<nat>, down: set<nat>, i: nat)
    requires Live(cable, down) == Live(cable, {}) && i < |cable| && i in down
    ensures cable[i] == 0
    decreases |cable|
  {
    LiveMonotone(cable[..|cable| - 1], {}, down);
    if i < |cable| - 1 { FullMeans(cable[..|cable| - 1], down, i); }
  }

  lemma {:induction false} NothingLeft(cable: seq<nat>, down: set<nat>)
    requires forall i :: 0 <= i < |cable| && cable[i] > 0 ==> i in down
    ensures Live(cable, down) == 0
    decreases |cable|
  {
    if cable != [] { NothingLeft(cable[..|cable| - 1], down); }
  }

  /** Paths through at least two IOMs. */
  ghost predicate TwoWays(cable: seq<nat>) {
    exists i, j :: 0 <= i < j < |cable| && cable[i] > 0 && cable[j] > 0
  }

  // ------------------------------------------------ the run

  datatype Phase = Queued | Updating | Paths | Done | Failed | Skipped

  /** `down` are the IOMs that answer nothing now; `seen` the path counts the
      inventory has, `before` those it had when the IOM at `at` was taken. */
  datatype State = State(phases: seq<Phase>, at: nat, over: bool, down: set<nat>, seen: map<string, nat>, before: map<string, nat>)

  datatype Step =
    | Take
    | Updated(ok: bool)
    | PathsBack
    | GiveUp
    | Goes(i: nat)                        // an IOM restarts
    | Returns(i: nat)
    | Looks(counts: map<string, nat>)     // discovery

  function Start(n: nat, seen: map<string, nat>): State { State(seq(n, _ => Queued), 0, n == 0, {}, seen, map[]) }

  predicate AllBack(before: map<string, nat>, seen: map<string, nat>) {
    forall d :: d in before ==> d in seen && seen[d] >= before[d]
  }

  predicate AtPhase(s: State, p: Phase) { !s.over && s.at < |s.phases| && s.phases[s.at] == p }

  /** Only an IOM whose update was begun and not finished may be away. */
  predicate Possible(s: State, step: Step) {
    match step
    case Take => AtPhase(s, Queued)
    case Updated(_) => AtPhase(s, Updating)
    case PathsBack => AtPhase(s, Paths) && AllBack(s.before, s.seen)
    case GiveUp => AtPhase(s, Paths) && !AllBack(s.before, s.seen)
    case Goes(i) => i < |s.phases| && (s.phases[i] == Updating || s.phases[i] == Paths || s.phases[i] == Failed)
    case _ => true
  }

  function Enter(s: State, p: Phase): State
    requires s.at < |s.phases|
  {
    s.(phases := s.phases[s.at := p])
  }

  /** A failure ends the run; what was queued is skipped. */
  function Stopped(s: State): State
    requires s.at < |s.phases|
  {
    s.(phases := seq(|s.phases|, k requires 0 <= k < |s.phases| =>
        if k == s.at then Failed else if s.phases[k] == Queued then Skipped else s.phases[k]),
       over := true)
  }

  function Next(s: State, step: Step): State
    requires Possible(s, step)
  {
    match step
    case Take => Enter(s, Updating).(before := s.seen)
    case Updated(ok) => if ok then Enter(s, Paths) else Stopped(s)
    case PathsBack => Enter(s, Done).(at := s.at + 1, over := s.at + 1 == |s.phases|)
    case GiveUp => Stopped(s)
    case Goes(i) => s.(down := s.down + {i})
    case Returns(i) => s.(down := s.down - {i})
    case Looks(counts) => s.(seen := counts)
  }

  predicate PossibleRun(s: State, run: seq<Step>)
    decreases |run|
  {
    run == [] || (Possible(s, run[0]) && PossibleRun(Next(s, run[0]), run[1..]))
  }

  function After(s: State, run: seq<Step>): State
    requires PossibleRun(s, run)
    decreases |run|
  {
    if run == [] then s else After(Next(s, run[0]), run[1..])
  }

  // ------------------------------------------------ one at a time

  predicate Underway(p: Phase) { p == Queued || p == Updating || p == Paths }

  /** Everything before `at` is done; at most the one there is being updated;
      nothing after it was ever touched, and after a failure never will be. */
  ghost predicate InTurn(s: State) {
    && s.at <= |s.phases|
    && (forall k :: 0 <= k < s.at ==> s.phases[k] == Done)
    && (!s.over ==> s.at < |s.phases| && Underway(s.phases[s.at]) && forall k :: s.at < k < |s.phases| ==> s.phases[k] == Queued)
    && (s.over && s.at < |s.phases| ==> s.phases[s.at] == Failed && forall k :: s.at < k < |s.phases| ==> s.phases[k] == Skipped)
  }

  lemma {:induction false} TurnKept(s: State, step: Step)
    requires InTurn(s) && Possible(s, step)
    ensures InTurn(Next(s, step)) && |Next(s, step).phases| == |s.phases|
  {
  }

  /** Every run of an update of `n` IOMs takes them one at a time, in order,
      and stops at the first failure with the rest untouched. */
  lemma {:induction false} OneAtATime(s: State, run: seq<Step>)
    requires InTurn(s) && PossibleRun(s, run)
    ensures InTurn(After(s, run)) && |After(s, run).phases| == |s.phases|
    decreases |run|
  {
    hide InTurn, Next, Possible;
    if run != [] {
      TurnKept(s, run[0]);
      OneAtATime(Next(s, run[0]), run[1..]);
    }
  }

  lemma {:induction false} StartInTurn(n: nat, seen: map<string, nat>)
    ensures InTurn(Start(n, seen))
  {
  }

  // ------------------------------------------------ a failure stops it

  /** An update that failed, or paths that did not come back. */
  predicate Fails(step: Step) { step == Updated(false) || step == GiveUp }

  predicate NoFailure(run: seq<Step>) { forall k :: 0 <= k < |run| ==> !Fails(run[k]) }

  /** Ended at IOM `at`, which failed; none after it was or will be touched. */
  ghost predicate EndedAt(s: State, at: nat) {
    && s.over && s.at == at < |s.phases| && s.phases[at] == Failed
    && (forall k :: 0 <= k < at ==> s.phases[k] == Done) && (forall k :: at < k < |s.phases| ==> s.phases[k] == Skipped)
  }

  lemma {:induction false} FailureEnds(s: State, step: Step)
    requires InTurn(s) && Possible(s, step) && Fails(step)
    ensures EndedAt(Next(s, step), s.at) && |Next(s, step).phases| == |s.phases|
    // the wait is given up only while some drive has fewer paths than before
    ensures step == GiveUp ==> exists d :: d in s.before && (d !in s.seen || s.seen[d] < s.before[d])
  {
  }

  /** Once ended, nothing is begun, and only discovery and the IOMs themselves
      go on. */
  lemma {:induction false} EndedStays(s: State, step: Step, at: nat)
    requires EndedAt(s, at) && Possible(s, step)
    ensures EndedAt(Next(s, step), at) && |Next(s, step).phases| == |s.phases|
    ensures !Fails(step) && step != Take && step != Updated(true) && step != PathsBack
  {
  }

  lemma {:induction false} EndedRun(s: State, run: seq<Step>, at: nat)
    requires EndedAt(s, at) && PossibleRun(s, run)
    ensures EndedAt(After(s, run), at) && NoFailure(run)
    ensures forall k :: 0 <= k < |run| ==> run[k] != Take && run[k] != Updated(true) && run[k] != PathsBack
    decreases |run|
  {
    hide EndedAt, Next, Possible;
    if run != [] {
      EndedStays(s, run[0], at);
      EndedRun(Next(s, run[0]), run[1..], at);
    }
  }

  lemma {:induction false} RunPrefix(s: State, run: seq<Step>, k: nat)
    requires PossibleRun(s, run) && k <= |run|
    ensures PossibleRun(s, run[..k])
    ensures PossibleRun(After(s, run[..k]), run[k..]) && After(After(s, run[..k]), run[k..]) == After(s, run)
    decreases |run|
  {
    hide Possible, Next;
    if k == 0 {
      assert run[..0] == [] && run[0..] == run;
    } else {
      RunPrefix(Next(s, run[0]), run[1..], k - 1);
      assert run[..k][1..] == run[1..][..k - 1] && run[1..][k - 1..] == run[k..];
    }
  }

  /** Over any run: from a failure on it is over, at every later moment the IOM
      it came to is failed, those before it are done, those after it skipped,
      and none is ever taken again. */
  lemma {:induction false} FailureStops(s: State, run: seq<Step>, k: nat, j: nat)
    requires InTurn(s) && PossibleRun(s, run) && k < |run| && Fails(run[k]) && k < j <= |run|
    ensures PossibleRun(s, run[..k]) && PossibleRun(s, run[..j])
    ensures EndedAt(After(s, run[..j]), After(s, run[..k]).at)
    ensures j < |run| ==> run[j] != Take && !Fails(run[j])
    decreases |run|
  {
    hide InTurn, EndedAt, Next, Possible, Fails;
    var u, rest := Next(s, run[0]), run[1..];
    RunPrefix(s, run, k);
    RunPrefix(s, run, j);
    assert run[..j][1..] == rest[..j - 1];
    if k == 0 {
      FailureEnds(s, run[0]);
      RunPrefix(u, rest, j - 1);
      EndedRun(u, rest[..j - 1], s.at);
      EndedRun(u, rest, s.at);
    } else {
      TurnKept(s, run[0]);
      FailureStops(u, rest, k - 1, j - 1);
      assert run[..k][1..] == rest[..k - 1];
    }
  }

  /** Over only by having come through all of them. */
  ghost predicate NotStopped(s: State) { s.over ==> s.at == |s.phases| }

  lemma {:induction false} NoFailureRun(s: State, run: seq<Step>)
    requires InTurn(s) && PossibleRun(s, run) && NotStopped(s) && NoFailure(run)
    ensures NotStopped(After(s, run))
    decreases |run|
  {
    hide InTurn, Possible;
    if run != [] {
      TurnKept(s, run[0]);
      NotStoppedStep(s, run[0]);
      hide Next, NotStopped;
      NoFailureRun(Next(s, run[0]), run[1..]);
    }
  }

  lemma {:induction false} NotStoppedStep(s: State, step: Step)
    requires InTurn(s) && Possible(s, step) && NotStopped(s) && !Fails(step)
    ensures NotStopped(Next(s, step))
  {
  }

  /** An update that is over has all IOMs done exactly if nothing failed. */
  lemma {:induction false} AllDoneExactly(n: nat, seen: map<string, nat>, run: seq<Step>)
    requires PossibleRun(Start(n, seen), run) && After(Start(n, seen), run).over
    ensures (forall k :: 0 <= k < |After(Start(n, seen), run).phases| ==> After(Start(n, seen), run).phases[k] == Done) <==> NoFailure(run)
  {
    var s := Start(n, seen);
    StartInTurn(n, seen);
    OneAtATime(s, run);
    if NoFailure(run) {
      NoFailureRun(s, run);
    } else {
      var k :| 0 <= k < |run| && Fails(run[k]);
      hide Fails, PossibleRun, After;
      FailureStops(s, run, k, |run|);
      assert run[..|run|] == run;
      var at := After(s, run[..k]).at;
      assert After(s, run).phases[at] == Failed;
    }
  }

  // ------------------------------------------------ paths kept

  type Cables = map<string, seq<nat>>

  /** The inventory knows of every drive's paths what is so. */
  ghost predicate Fresh(s: State, cables: Cables) {
    forall d :: d in cables ==> d in s.seen && s.seen[d] == Live(cables[d], s.down)
  }

  /** The one IOM that may rightly be away. */
  function Away(s: State): set<nat> {
    if s.at < |s.phases| && s.phases[s.at] != Queued then {s.at} else {}
  }

  /** But for that one, nothing is missing; and that is what the run waits for. */
  ghost predicate Whole(s: State, cables: Cables) {
    && (forall d :: d in cables ==> Live(cables[d], s.down - Away(s)) == Live(cables[d], {}))
    && (Away(s) != {} && !s.over ==> forall d :: d in cables ==> d in s.before && s.before[d] == Live(cables[d], {}))
  }

  /** The two moments when the inventory is believed. */
  ghost predicate Believed(s: State, step: Step, cables: Cables) { step == Take || step == PathsBack ==> Fresh(s, cables) }

  /** What the two moments take: every count is a full one when an IOM is
      taken, and every path is up when the next may follow. */
  ghost predicate Right(s: State, step: Step, cables: Cables) {
    match step
    case Take => forall d :: d in cables ==> d in s.seen && s.seen[d] == Live(cables[d], {})
    case PathsBack => forall d :: d in cables ==> Live(cables[d], s.down) == Live(cables[d], {})
    case _ => true
  }

  /** A step keeps the other IOMs whole exactly when it is right. */
  lemma {:induction false} WholeExactly(s: State, step: Step, cables: Cables)
    requires InTurn(s) && Possible(s, step) && Whole(s, cables)
    ensures Whole(Next(s, step), cables) <==> Right(s, step, cables)
  {
    var t := Next(s, step);
    match step {
      case Goes(i) => SameMinus(s, i);
      case Returns(i) =>
        forall d | d in cables ensures Live(cables[d], t.down - Away(t)) == Live(cables[d], {}) {
          LiveMonotone(cables[d], t.down - Away(t), s.down - Away(s));
          LiveMonotone(cables[d], {}, t.down - Away(t));
        }
      case Take =>
        assert s.down - {} == s.down;
        forall d | d in cables ensures Live(cables[d], t.down - Away(t)) == Live(cables[d], {}) {
          LiveMonotone(cables[d], t.down - Away(t), s.down);
          LiveMonotone(cables[d], {}, t.down - Away(t));
        }
      case PathsBack =>
        assert Away(t) == {};
        assert t.down - {} == s.down;
      case _ =>
        assert Away(t) == Away(s);
    }
  }

  lemma {:induction false} WholeKept(s: State, step: Step, cables: Cables)
    requires InTurn(s) && Possible(s, step) && Whole(s, cables) && Believed(s, step, cables)
    ensures Whole(Next(s, step), cables)
  {
    WholeExactly(s, step, cables);
    if step == Take {
      assert s.down - {} == s.down;
    } else if step == PathsBack {
      forall d | d in cables ensures Live(cables[d], s.down) == Live(cables[d], {}) { LiveMonotone(cables[d], {}, s.down); }
    }
  }

  ghost predicate AlwaysRight(s: State, run: seq<Step>, cables: Cables)
    requires PossibleRun(s, run)
    decreases |run|
  {
    run == [] || (Right(s, run[0], cables) && AlwaysRight(Next(s, run[0]), run[1..], cables))
  }

  ghost predicate WholeThroughout(s: State, run: seq<Step>, cables: Cables)
    requires PossibleRun(s, run)
    decreases |run|
  {
    Whole(s, cables) && (run == [] || WholeThroughout(Next(s, run[0]), run[1..], cables))
  }

  /** Over a whole run: nothing but the IOM under way was ever missing, and the
      run always waited for all of it, exactly when both moments were right
      every time. */
  lemma {:induction false} WholeRunExactly(s: State, run: seq<Step>, cables: Cables)
    requires InTurn(s) && PossibleRun(s, run) && Whole(s, cables)
    ensures WholeThroughout(s, run, cables) <==> AlwaysRight(s, run, cables)
    decreases |run|
  {
    hide InTurn, Next, Possible, Whole, Right;
    if run != [] {
      TurnKept(s, run[0]);
      WholeExactly(s, run[0], cables);
      if Whole(Next(s, run[0]), cables) { WholeRunExactly(Next(s, run[0]), run[1..], cables); }
    }
  }

  lemma {:induction false} SameMinus(s: State, i: nat)
    requires InTurn(s) && Possible(s, Goes(i))
    ensures (s.down + {i}) - Away(s) == s.down - Away(s)
  {
  }

  ghost predicate AlwaysBelieved(s: State, run: seq<Step>, cables: Cables)
    requires PossibleRun(s, run)
    decreases |run|
  {
    run == [] || (Believed(s, run[0], cables) && AlwaysBelieved(Next(s, run[0]), run[1..], cables))
  }

  lemma {:induction false} WholeRun(s: State, run: seq<Step>, cables: Cables)
    requires InTurn(s) && PossibleRun(s, run) && Whole(s, cables) && AlwaysBelieved(s, run, cables)
    ensures Whole(After(s, run), cables)
    decreases |run|
  {
    hide InTurn, Next, Possible, Whole, Believed;
    if run != [] {
      TurnKept(s, run[0]);
      WholeKept(s, run[0], cables);
      WholeRun(Next(s, run[0]), run[1..], cables);
    }
  }

  /** A drive with paths through two IOMs has a live one at every moment of
      every run in which the inventory is right at those two moments. */
  lemma {:induction false} PathAlwaysLive(n: nat, seen: map<string, nat>, run: seq<Step>, cables: Cables, d: string)
    requires PossibleRun(Start(n, seen), run) && AlwaysBelieved(Start(n, seen), run, cables)
    requires d in cables && TwoWays(cables[d])
    ensures Live(cables[d], After(Start(n, seen), run).down) > 0
  {
    var s := Start(n, seen);
    StartInTurn(n, seen);
    assert Whole(s, cables) by { assert s.down - Away(s) == {}; }
    WholeRun(s, run, cables);
    var t, c := After(s, run), cables[d];
    var i, j :| 0 <= i < j < |c| && c[i] > 0 && c[j] > 0;
    var k := if i in Away(t) then j else i;
    assert k !in Away(t);
    if k in t.down { FullMeans(c, t.down - Away(t), k); }
    LivePath(c, t.down, k);
  }

  /** And only such a drive: while IOM `at` restarts, a drive whose other
      paths are all up is cut off exactly when it has none elsewhere. */
  lemma {:induction false} CutOffExactly(s: State, cables: Cables, d: string)
    requires InTurn(s) && Whole(s, cables) && d in cables && Possible(s, Goes(s.at))
    ensures Live(cables[d], Next(s, Goes(s.at)).down) == 0 <==> (forall i :: 0 <= i < |cables[d]| && cables[d][i] > 0 ==> i == s.at)
  {
    var c, down := cables[d], s.down + {s.at};
    if forall i :: 0 <= i < |c| && c[i] > 0 ==> i == s.at {
      NothingLeft(c, down);
    } else {
      var i :| 0 <= i < |c| && c[i] > 0 && i != s.at;
      if i in s.down { FullMeans(c, s.down - Away(s), i); }
      LivePath(c, down, i);
    }
  }

  // ------------------------------------------------ the loop

  lemma {:induction false} Snoc(s: State, run: seq<Step>, step: Step)
    requires PossibleRun(s, run) && Possible(After(s, run), step)
    ensures PossibleRun(s, run + [step]) && After(s, run + [step]) == Next(After(s, run), step)
    decreases |run|
  {
    hide Possible, Next;
    if run == [] {
      assert [step][1..] == [];
    } else {
      Snoc(Next(s, run[0]), run[1..], step);
      assert (run + [step])[1..] == run[1..] + [step];
    }
  }

  lemma {:induction false} NoRun(s: State)
    ensures PossibleRun(s, []) && After(s, []) == s
  {
  }

  method Do(ghost first: State, s: State, ghost run: seq<Step>, step: Step) returns (t: State, ghost longer: seq<Step>)
    requires PossibleRun(first, run) && After(first, run) == s && InTurn(s) && Possible(s, step)
    ensures PossibleRun(first, longer) && After(first, longer) == t
    ensures t == Next(s, step) && InTurn(t) && longer == run + [step]
  {
    TurnKept(s, step);
    Snoc(first, run, step);
    t, longer := Next(s, step), run + [step];
  }

  /** The wait for paths is given up only after `polls` looks in a row. */
  ghost predicate Patient(run: seq<Step>, polls: nat) {
    forall k :: 0 <= k < |run| && run[k] == GiveUp ==> k >= polls && forall j :: k - polls <= j < k ==> run[j].Looks?
  }

  lemma {:induction false} PatientMore(run: seq<Step>, step: Step, polls: nat)
    requires Patient(run, polls)
    requires step == GiveUp ==> |run| >= polls && forall j :: |run| - polls <= j < |run| ==> run[j].Looks?
    ensures Patient(run + [step], polls)
  {
    var longer := run + [step];
    forall k | 0 <= k < |longer| && longer[k] == GiveUp ensures k >= polls && forall j :: k - polls <= j < k ==> longer[j].Looks? {
      if k < |run| { assert run[k] == GiveUp; }
    }
  }

  /** Updates the IOMs of a shelf, `polls` being how often the wait for paths
      looks before it gives up: always to the end of a possible run, which
      leaves every IOM done, or one failed and those after it skipped. */
  method Roll(n: nat, seen: map<string, nat>, polls: nat) returns (s: State, ghost run: seq<Step>)
    ensures PossibleRun(Start(n, seen), run) && After(Start(n, seen), run) == s
    ensures s.over && |s.phases| == n && InTurn(s)
    // all done exactly if no update failed and all paths came back
    ensures (forall k :: 0 <= k < n ==> s.phases[k] == Done) <==> NoFailure(run)
    ensures Patient(run, polls)
  {
    hide PossibleRun, After, NoFailure;
    s := Start(n, seen);
    StartInTurn(n, seen);
    run := [];
    NoRun(s);
    while !s.over
      invariant PossibleRun(Start(n, seen), run) && After(Start(n, seen), run) == s
      invariant Patient(run, polls)
      invariant InTurn(s) && |s.phases| == n && (!s.over ==> AtPhase(s, Queued))
      decreases n - s.at, !s.over
    {
      var at := s.at;
      PatientMore(run, Take, polls);
      s, run := Do(Start(n, seen), s, run, Take);
      var ok: bool := *;
      PatientMore(run, Updated(ok), polls);
      s, run := Do(Start(n, seen), s, run, Updated(ok));
      if ok {
        var left := polls;
        while left > 0 && !AllBack(s.before, s.seen)
          invariant Patient(run, polls) && left <= polls <= |run| + left
          invariant forall j :: |run| + left - polls <= j < |run| ==> run[j].Looks?
          invariant PossibleRun(Start(n, seen), run) && After(Start(n, seen), run) == s
          invariant InTurn(s) && |s.phases| == n && AtPhase(s, Paths) && s.at == at
        {
          var counts: map<string, nat> := *;
          PatientMore(run, Looks(counts), polls);
          s, run := Do(Start(n, seen), s, run, Looks(counts));
          left := left - 1;
        }
        var end := if AllBack(s.before, s.seen) then PathsBack else GiveUp;
        PatientMore(run, end, polls);
        s, run := Do(Start(n, seen), s, run, end);
      }
    }
    AllDoneExactly(n, seen, run);
  }

  // ------------------------------------------------ the check before

  datatype Drive = Drive(name: string, shelf: Option<string>, serves: bool, missing: bool, paths: nat)

  predicate AtRisk(d: Drive, key: string, esps: nat) {
    d.shelf == Some(key) && d.serves && !d.missing && (esps < 2 || d.paths < 2)
  }

  method PathLossBlocker(key: string, drives: seq<Drive>, esps: nat) returns (names: seq<string>)
    ensures names == [] <==> forall d :: d in drives ==> !AtRisk(d, key, esps)
    ensures forall x :: x in names <==> exists d :: d in drives && AtRisk(d, key, esps) && d.name == x
    // nothing blocks exactly if there are two IOMs and two paths to every drive there in use
    ensures names == [] <==>
      forall d :: d in drives && d.shelf == Some(key) && d.serves && !d.missing ==> esps >= 2 && d.paths >= 2
  {
    names := [];
    for i := 0 to |drives|
      invariant names == [] <==> forall d :: d in drives[..i] ==> !AtRisk(d, key, esps)
      invariant forall x :: x in names <==> exists d :: d in drives[..i] && AtRisk(d, key, esps) && d.name == x
    {
      assert drives[..i + 1] == drives[..i] + [drives[i]];
      if AtRisk(drives[i], key, esps) {
        ghost var was := names;
        names := names + [drives[i].name];
        assert forall x :: x in names <==> x in was || x == drives[i].name;
      }
    }
    assert drives[..|drives|] == drives;
  }

  /** The check counts paths, not IOMs: a drive with two paths through one IOM
      passes it and is cut off all the same. */
  lemma {:induction false} TwoPathsOneIom()
    ensures var d := Drive("sdb", Some("shelf"), true, false, Live([2, 0], {}));
      !AtRisk(d, "shelf", 2) && !TwoWays([2, 0]) && Live([2, 0], {0}) == 0
  {
    assert [2, 0][..1] == [2] && [2][..0] == [];
  }

  /** Two IOMs, the first updated and still away. */
  function FirstAway(): State {
    var seen: map<string, nat> := map["sdb" := 2];
    State([Paths, Queued], 0, false, {0}, seen, seen)
  }

  function BothAway(): State {
    var seen: map<string, nat> := map["sdb" := 2];
    State([Done, Updating], 1, false, {0, 1}, seen, seen)
  }

  lemma {:induction false} ToFirstAway()
    ensures var s, run := Start(2, map["sdb" := 2]), [Take, Goes(0), Updated(true)];
      PossibleRun(s, run) && After(s, run) == FirstAway()
  {
    hide PossibleRun, After;
    var seen: map<string, nat> := map["sdb" := 2];
    var s := Start(2, seen);
    assert s.phases == [Queued, Queued];
    var s1, s2 := State([Updating, Queued], 0, false, {}, seen, seen), State([Updating, Queued], 0, false, {0}, seen, seen);
    assert [Take] + [Goes(0), Updated(true)] == [Take, Goes(0), Updated(true)];
    assert [Goes(0)] + [Updated(true)] == [Goes(0), Updated(true)];
    assert [Updated(true)] + [] == [Updated(true)];
    NoRun(FirstAway());
    Unroll(s2, Updated(true), FirstAway(), []);
    Unroll(s1, Goes(0), s2, [Updated(true)]);
    Unroll(s, Take, s1, [Goes(0), Updated(true)]);
  }

  lemma {:induction false} ToBothAway()
    ensures var run := [PathsBack, Take, Goes(1)];
      PossibleRun(FirstAway(), run) && After(FirstAway(), run) == BothAway()
  {
    hide PossibleRun, After;
    var seen: map<string, nat> := map["sdb" := 2];
    var s4, s5 := State([Done, Queued], 1, false, {0}, seen, seen), State([Done, Updating], 1, false, {0}, seen, seen);
    assert [PathsBack] + [Take, Goes(1)] == [PathsBack, Take, Goes(1)];
    assert [Take] + [Goes(1)] == [Take, Goes(1)];
    assert [Goes(1)] + [] == [Goes(1)];
    NoRun(BothAway());
    assert s5.down + {1} == {0, 1};
    Unroll(s5, Goes(1), BothAway(), []);
    Unroll(s4, Take, s5, [Goes(1)]);
    Unroll(FirstAway(), PathsBack, s4, [Take, Goes(1)]);
  }

  /** With counts left over from before the restart, the second IOM is taken
      while the first is still away, and a drive cabled to both is cut off. */
  lemma {:induction false} StaleCountsCutOff()
    ensures TwoWays([1, 1])
    ensures var s := Start(2, map["sdb" := 2]);
      exists run :: PossibleRun(s, run) && Live([1, 1], After(s, run).down) == 0
  {
    hide PossibleRun, After;
    var s := Start(2, map["sdb" := 2]);
    var c: seq<nat> := [1, 1];
    assert c[0] > 0 && c[1] > 0;
    ToFirstAway();
    ToBothAway();
    TwoRuns(s, [Take, Goes(0), Updated(true)], [PathsBack, Take, Goes(1)]);
    NothingLeft(c, {0, 1});
  }

  lemma {:induction false} TwoRuns(s: State, a: seq<Step>, b: seq<Step>)
    requires PossibleRun(s, a) && PossibleRun(After(s, a), b)
    ensures PossibleRun(s, a + b) && After(s, a + b) == After(After(s, a), b)
    decreases |a|
  {
    hide Next, Possible;
    if a == [] {
      assert a + b == b;
    } else {
      TwoRuns(Next(s, a[0]), a[1..], b);
      assert (a + b)[1..] == a[1..] + b;
    }
  }

  lemma {:induction false} Unroll(s: State, step: Step, t: State, rest: seq<Step>)
    requires Possible(s, step) && Next(s, step) == t && PossibleRun(t, rest)
    ensures PossibleRun(s, [step] + rest) && After(s, [step] + rest) == After(t, rest)
  {
    hide Possible, Next;
    assert ([step] + rest)[1..] == rest;
  }
}
