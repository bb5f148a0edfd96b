/** Runs in which two tasks meet on one drive and the daemon's words stop
    being true, each possible step by step from a quiet start; and exactly
    what has to stay away for that not to happen. */
module DrainRaces {
  import opened Common
  import opened Drain

  /** `t` can come about from `s`. */
  ghost predicate Reachable(s: State, t: State) {
    exists run :: PossibleRun(s, run) && After(s, run) == t
  }

  lemma {:induction false} Here(s: State)
    ensures Reachable(s, s)
  {
    assert PossibleRun(s, []) && After(s, []) == s;
  }

  lemma {:induction false} There(s: State, t: State, step: Step)
    requires Reachable(s, t) && Possible(t, step)
    ensures Reachable(s, Next(t, step))
  {
    hide Possible, Next, PossibleRun, After;
    var run :| PossibleRun(s, run) && After(s, run) == t;
    AfterSnoc(s, run, step);
  }

  function Leave(): Intent { Intent("leave", true) }

  /** A fleet drive whose drain runs, to be retired; nothing in flight. */
  function Started(): State {
    State(Some(Drive(Fleet, Draining, Some(Record(Running, Leave())))), Engine(true, 0, false), map[], [])
  }

  lemma {:induction false} Follow(s: State, t: State, step: Step) returns (u: State)
    requires Reachable(s, t) && Possible(t, step)
    ensures u == Next(t, step) && Reachable(s, u)
  {
    There(s, t, step);
    u := Next(t, step);
  }

  function Drained(): Drive { Drive(Fleet, Draining, Some(Record(Empty, Leave()))) }

  lemma {:induction false} HeardEmpty(s: State)
    requires s == Started()
    ensures Reachable(s, State(Some(Drained()), Engine(true, 0, false), map[0 := Retiring], [ReportedEmpty(0)]))
  {
    hide PossibleRun, After, Reachable;
    Here(s);
    var t := Follow(s, s, Begin(0, Polling(true)));
    assert t.tasks == map[0 := Polling(true)];
    t := Follow(s, t, Advance(0, Says(Empty)));
    assert t.tasks == map[0 := Noting(true, Empty)];
    t := Follow(s, t, Advance(0, No));
    assert t.tasks == map[0 := Retiring] && t.log == [ReportedEmpty(0)];
  }

  function TakenOut(): Drive { Drive(Out, Idle, Some(Record(Empty, Leave()))) }

  function RetiredLog(): seq<Event> { [ReportedEmpty(0), Closed(0), OutOfFleet(0)] }

  lemma {:induction false} TookOut(s: State)
    requires s == Started()
    ensures Reachable(s, State(Some(TakenOut()), Engine(false, 0, false), map[0 := Announcing], RetiredLog()))
  {
    HeardEmpty(s);
    hide PossibleRun, After, Reachable;
    var t := State(Some(Drained()), Engine(true, 0, false), map[0 := Retiring], [ReportedEmpty(0)]);
    t := Follow(s, t, Advance(0, No));
    assert t.tasks == map[0 := Closing];
    t := Follow(s, t, Advance(0, Yes));
    assert t.tasks == map[0 := TakingOut] && t.log == [ReportedEmpty(0), Closed(0)];
    t := Follow(s, t, Advance(0, No));
    assert t.tasks == map[0 := Announcing] && t.log == RetiredLog();
  }

  function Announced(tasks: map<nat, Task>): State {
    State(Some(TakenOut()), Engine(false, 0, false), tasks, RetiredLog())
  }

  lemma {:induction false} JoinBegun(s: State)
    requires s == Started()
    ensures Reachable(s, Announced(map[0 := Announcing, 1 := Joining]))
  {
    TookOut(s);
    NotAbout(1);
    hide PossibleRun, After, Reachable, RetiredLog, About;
    var t := Follow(s, Announced(map[0 := Announcing]), Begin(1, Joining));
    assert t.tasks == map[0 := Announcing, 1 := Joining];
  }

  lemma {:induction false} JoinedAgain(s: State)
    requires s == Started()
    ensures Reachable(s, State(Some(Drive(Fleet, Idle, None)), Engine(true, 0, false), map[0 := Announcing], RetiredLog() + [Opened]))
  {
    JoinBegun(s);
    hide PossibleRun, After, Reachable, RetiredLog;
    var t := Follow(s, Announced(map[0 := Announcing, 1 := Joining]), Advance(1, Yes));
    assert t.tasks == map[0 := Announcing, 1 := JoinWriting];
    t := Follow(s, t, Advance(1, No));
    assert t.tasks == map[0 := Announcing];
  }

  lemma {:induction false} NotAbout(id: nat)
    requires id != 0
    ensures forall e :: e in RetiredLog() ==> !About(e, id)
  {
  }

  /** Between the close and the announcement an operator joins the drive back
      in and data lands on it: it is then called safe to pull, with legs. */
  lemma {:induction false} ReopenedBeforeAnnounced(s: State)
    requires s == Started()
    ensures Initial(s)
    ensures Reachable(s, State(Some(Drive(Fleet, Idle, None)), Engine(true, 5, false), map[], RetiredLog() + [Opened] + [SafeToPull(0)]))
  {
    JoinedAgain(s);
    hide PossibleRun, After, Reachable, RetiredLog;
    var t := State(Some(Drive(Fleet, Idle, None)), Engine(true, 0, false), map[0 := Announcing], RetiredLog() + [Opened]);
    t := Follow(s, t, Legs(5));
    t := Follow(s, t, Advance(0, No));
    assert t.tasks == map[];
  }

  function Waiting(): State {
    State(Some(Drive(Fleet, Idle, Some(Record(Pending, Leave())))), Engine(true, 3, false), map[], [])
  }

  function CancelledDrive(): Drive { Drive(Fleet, Idle, Some(Record(Cancelled, Leave()))) }

  function RunningDrive(): Drive { Drive(Fleet, Draining, Some(Record(Running, Leave()))) }

  lemma {:induction false} RetryInFlight(s: State)
    requires s == Waiting()
    ensures Reachable(s, s.(tasks := map[0 := Posting(Leave(), true)]))
  {
    hide PossibleRun, After, Reachable;
    Here(s);
    var t := Follow(s, s, Retry(0));
    assert t.tasks == map[0 := Asking(Leave(), true)];
    t := Follow(s, t, Advance(0, NoRecord));
    assert t.tasks == map[0 := Posting(Leave(), true)];
  }

  lemma {:induction false} CancelledMeanwhile(s: State)
    requires s == Waiting()
    ensures Reachable(s, s.(drive := Some(CancelledDrive()), tasks := map[0 := Posting(Leave(), true)]))
  {
    RetryInFlight(s);
    hide PossibleRun, After, Reachable;
    var t := s.(tasks := map[0 := Posting(Leave(), true)]);
    t := Follow(s, t, Begin(1, Cancelling));
    assert t.tasks == map[0 := Posting(Leave(), true), 1 := Cancelling];
    t := Follow(s, t, Advance(1, Yes));
    assert t.tasks == map[0 := Posting(Leave(), true), 1 := CancelWriting];
    t := Follow(s, t, Advance(1, No));
    assert t.tasks == map[0 := Posting(Leave(), true)];
  }

  lemma {:induction false} StartedAfterAll(s: State)
    requires s == Waiting()
    ensures Reachable(s, State(Some(RunningDrive()), Engine(true, 0, false), map[], []))
  {
    CancelledMeanwhile(s);
    hide PossibleRun, After, Reachable;
    var t := s.(drive := Some(CancelledDrive()), tasks := map[0 := Posting(Leave(), true)]);
    t := Follow(s, t, Advance(0, Says(Running)));
    assert t.tasks == map[0 := Recording(Leave(), Running)];
    t := Follow(s, t, Advance(0, No));
    assert t.tasks == map[];
    t := Follow(s, t, Legs(0));
  }

  lemma {:induction false} DrainedAfterAll(s: State)
    requires s == Waiting()
    ensures Reachable(s, State(Some(Drained()), Engine(true, 0, false), map[2 := Retiring], [ReportedEmpty(2)]))
  {
    StartedAfterAll(s);
    hide PossibleRun, After, Reachable;
    var t := State(Some(RunningDrive()), Engine(true, 0, false), map[], []);
    t := Follow(s, t, Begin(2, Polling(true)));
    assert t.tasks == map[2 := Polling(true)];
    t := Follow(s, t, Advance(2, Says(Empty)));
    assert t.tasks == map[2 := Noting(true, Empty)];
    t := Follow(s, t, Advance(2, No));
    assert t.tasks == map[2 := Retiring] && t.log == [ReportedEmpty(2)];
  }

  lemma {:induction false} ClosedAfterAll(s: State)
    requires s == Waiting()
    ensures Reachable(s, State(Some(Drained()), Engine(false, 0, false), map[2 := TakingOut], [ReportedEmpty(2), Closed(2)]))
  {
    DrainedAfterAll(s);
    hide PossibleRun, After, Reachable;
    var t := State(Some(Drained()), Engine(true, 0, false), map[2 := Retiring], [ReportedEmpty(2)]);
    t := Follow(s, t, Advance(2, No));
    assert t.tasks == map[2 := Closing];
    t := Follow(s, t, Advance(2, Yes));
    assert t.tasks == map[2 := TakingOut] && t.log == [ReportedEmpty(2), Closed(2)];
  }

  /** A pending drain is being retried when the operator cancels it; the retry
      then orders and records it, and the drive is retired after all. */
  lemma {:induction false} CancelledDrainComesBack(s: State)
    requires s == Waiting()
    ensures Initial(s)
    ensures Reachable(s, s.(drive := Some(CancelledDrive()), tasks := map[0 := Posting(Leave(), true)]))
    ensures Reachable(s, State(Some(TakenOut()), Engine(false, 0, false), map[], [ReportedEmpty(2), Closed(2), OutOfFleet(2), SafeToPull(2)]))
  {
    CancelledMeanwhile(s);
    ClosedAfterAll(s);
    hide PossibleRun, After, Reachable;
    var t := State(Some(Drained()), Engine(false, 0, false), map[2 := TakingOut], [ReportedEmpty(2), Closed(2)]);
    t := Follow(s, t, Advance(2, No));
    assert t.tasks == map[2 := Announcing] && t.log == [ReportedEmpty(2), Closed(2), OutOfFleet(2)];
    t := Follow(s, t, Advance(2, No));
    assert t.tasks == map[];
  }

  // a join that takes its time: the drive is listed, enters the fleet and is
  // drained before the join's own write comes

  function Unjoined(): State { State(Some(Drive(Out, Idle, None)), Engine(false, 0, false), map[], []) }

  function Joined(d: Drive, tasks: map<nat, Task>): State { State(Some(d), Engine(true, 0, false), tasks, [Opened]) }

  lemma {:induction false} JoinUnderWay(s: State)
    requires s == Unjoined()
    ensures Reachable(s, Joined(Drive(Out, Idle, None), map[1 := JoinWriting]))
  {
    hide PossibleRun, After, Reachable;
    Here(s);
    var t := Follow(s, s, Begin(1, Joining));
    assert t.tasks == map[1 := Joining];
    t := Follow(s, t, Advance(1, Yes));
    assert t.tasks == map[1 := JoinWriting] && t.log == [Opened];
  }

  lemma {:induction false} ListingMeanwhile(s: State)
    requires s == Unjoined()
    ensures Reachable(s, Joined(Drive(Out, Idle, None), map[1 := JoinWriting, 2 := Listing]))
  {
    JoinUnderWay(s);
    hide PossibleRun, After, Reachable;
    var t := Follow(s, Joined(Drive(Out, Idle, None), map[1 := JoinWriting]), Begin(2, Listing));
    assert t.tasks == map[1 := JoinWriting, 2 := Listing];
  }

  lemma {:induction false} ListedMeanwhile(s: State)
    requires s == Unjoined()
    ensures Reachable(s, Joined(Drive(Fleet, Idle, None), map[1 := JoinWriting]))
  {
    ListingMeanwhile(s);
    hide PossibleRun, After, Reachable;
    var t := Follow(s, Joined(Drive(Out, Idle, None), map[1 := JoinWriting, 2 := Listing]), Advance(2, Lists(true)));
    assert t.tasks == map[1 := JoinWriting, 2 := Reconciling(true)];
    t := Follow(s, t, Advance(2, No));
    assert t.tasks == map[1 := JoinWriting];
  }

  lemma {:induction false} AskedMeanwhile(s: State)
    requires s == Unjoined()
    ensures Reachable(s, Joined(Drive(Fleet, Idle, None), map[1 := JoinWriting, 3 := Posting(Leave(), false)]))
  {
    ListedMeanwhile(s);
    hide PossibleRun, After, Reachable;
    var t := Follow(s, Joined(Drive(Fleet, Idle, None), map[1 := JoinWriting]), Begin(3, Asking(Leave(), false)));
    assert t.tasks == map[1 := JoinWriting, 3 := Asking(Leave(), false)];
    t := Follow(s, t, Advance(3, NoRecord));
    assert t.tasks == map[1 := JoinWriting, 3 := Posting(Leave(), false)];
  }

  lemma {:induction false} DrainedMeanwhile(s: State)
    requires s == Unjoined()
    ensures Reachable(s, Joined(RunningDrive(), map[1 := JoinWriting]))
  {
    AskedMeanwhile(s);
    hide PossibleRun, After, Reachable;
    var t := Follow(s, Joined(Drive(Fleet, Idle, None), map[1 := JoinWriting, 3 := Posting(Leave(), false)]), Advance(3, Says(Running)));
    assert t.tasks == map[1 := JoinWriting, 3 := Recording(Leave(), Running)];
    t := Follow(s, t, Advance(3, No));
    assert t.tasks == map[1 := JoinWriting];
  }

  /** The join's write then leaves the drive draining with no drain on record,
      which nothing follows. */
  lemma {:induction false} JoinOrphansDrain(s: State)
    requires s == Unjoined()
    ensures Initial(s)
    ensures var t := Joined(Drive(Fleet, Draining, None), map[]); Reachable(s, t) && !Coherent(t)
  {
    DrainedMeanwhile(s);
    hide PossibleRun, After, Reachable;
    var t := Follow(s, Joined(RunningDrive(), map[1 := JoinWriting]), Advance(1, No));
    assert t.tasks == map[];
  }

  lemma {:induction false} PollUnanswered(s: State)
    requires s == Unjoined()
    ensures Reachable(s, Joined(RunningDrive(), map[1 := JoinWriting, 4 := Forgotten(true)]))
  {
    DrainedMeanwhile(s);
    hide PossibleRun, After, Reachable;
    var t := Follow(s, Joined(RunningDrive(), map[1 := JoinWriting]), Begin(4, Polling(true)));
    assert t.tasks == map[1 := JoinWriting, 4 := Polling(true)];
    t := Follow(s, t, Advance(4, NoRecord));
    assert t.tasks == map[1 := JoinWriting, 4 := Forgotten(true)];
  }

  /** A poll that heard the drain is unknown, and writes after the join has
      cleared it, makes up a drain with a reason nobody gave. */
  lemma {:induction false} DrainOutOfNothing(s: State)
    requires s == Unjoined()
    ensures Initial(s)
    ensures Reachable(s, Joined(Drive(Fleet, Draining, None), map[4 := Forgotten(true)]))
    ensures var d := Drive(Fleet, Idle, Some(Record(Pending, Intent("resumed", true))));
      DrainDue(d) && Reachable(s, Joined(d, map[]))
  {
    PollUnanswered(s);
    hide PossibleRun, After, Reachable;
    var t := Follow(s, Joined(RunningDrive(), map[1 := JoinWriting, 4 := Forgotten(true)]), Advance(1, No));
    assert t.tasks == map[4 := Forgotten(true)];
    t := Follow(s, t, Advance(4, No));
    assert t.tasks == map[];
  }

  /** A request to leave, made while a drain without that flag runs, is
      answered with the running drain and changes nothing. */
  lemma {:induction false} LeaveWhileDrainingIgnored(s: State, id: nat, i: Intent, insist: bool)
    requires Possible(s, Begin(id, Asking(i, insist)))
    requires s.drive.Some? && s.drive.value.membership == Fleet && InState(s.drive.value, Running)
    ensures Next(s, Begin(id, Asking(i, insist))) == s
  {
  }

  // ------------------------------------------------ when those do not happen

  ghost predicate IsCancelled(s: State) { s.drive.Some? && InState(s.drive.value, Cancelled) }

  /** The writes that take a cancelled drain's word away. */
  predicate Uncancels(s: State, step: Step)
    requires Possible(s, step) && s.drive.Some?
  {
    match step
    case Advance(id, _) =>
      (match s.tasks[id]
       case Recording(_, p) => p != Cancelled
       case Noting(_, p) => p != Cancelled
       case Marking(_) => s.drive.value.membership == Fleet
       case Forgotten(_) => true
       case JoinWriting => true
       case _ => false)
    case Forgets => true
    case _ => false
  }

  /** A step leaves a cancelled drain cancelled exactly when it is none of
      them. */
  lemma {:induction false} CancelledExactly(s: State, step: Step)
    requires Possible(s, step) && IsCancelled(s)
    ensures IsCancelled(Next(s, step)) <==> !Uncancels(s, step)
  {
    if step.Advance? {
      hide Advanced;
      DriveWritten(s, step.id, step.answer);
    }
  }

  /** No drain on record. */
  ghost predicate Undrained(s: State) { s.drive.Some? ==> s.drive.value.drain.None? }

  predicate Records(s: State, step: Step)
    requires Possible(s, step)
  {
    step.Advance? && s.drive.Some? &&
    var t := s.tasks[step.id];
    t.Recording? || t.Forgotten? || (t.Marking? && s.drive.value.membership == Fleet)
  }

  /** A step puts a drain on record where there is none exactly when it is the
      write of a start, of a request that failed on a fleet drive, or of a
      poll that was told the drain is unknown. */
  lemma {:induction false} UndrainedExactly(s: State, step: Step)
    requires Possible(s, step) && Undrained(s)
    ensures Undrained(Next(s, step)) <==> !Records(s, step)
  {
    if step.Advance? {
      hide Advanced;
      DriveWritten(s, step.id, step.answer);
    }
  }

  ghost predicate NeverUncancels(s: State, run: seq<Step>)
    requires PossibleRun(s, run)
    decreases |run|
  {
    run == [] || (s.drive.Some? && !Uncancels(s, run[0]) && NeverUncancels(Next(s, run[0]), run[1..]))
  }

  lemma {:induction false} CancelledRun(s: State, run: seq<Step>)
    requires PossibleRun(s, run) && IsCancelled(s) && NeverUncancels(s, run)
    ensures IsCancelled(After(s, run))
    decreases |run|
  {
    hide Next, Possible, Uncancels;
    if run != [] {
      CancelledExactly(s, run[0]);
      CancelledRun(Next(s, run[0]), run[1..]);
    }
  }

  ghost predicate NeverRecords(s: State, run: seq<Step>)
    requires PossibleRun(s, run)
    decreases |run|
  {
    run == [] || (!Records(s, run[0]) && NeverRecords(Next(s, run[0]), run[1..]))
  }

  lemma {:induction false} UndrainedRun(s: State, run: seq<Step>)
    requires PossibleRun(s, run) && Undrained(s) && NeverRecords(s, run)
    ensures Undrained(After(s, run))
    decreases |run|
  {
    hide Next, Possible, Records, Undrained;
    if run != [] {
      UndrainedExactly(s, run[0]);
      UndrainedRun(Next(s, run[0]), run[1..]);
    }
  }

  // and what can be looked at beforehand: nobody in flight to write there

  predicate Writer(t: Task) {
    t.Asking? || t.Posting? || t.Recording? || t.Marking? || t.Polling? || t.Noting? || t.Forgotten?
  }

  predicate Joiner(t: Task) { t.Joining? || t.JoinWriting? }

  ghost predicate NobodyWrites(s: State) { forall id :: id in s.tasks ==> !Writer(s.tasks[id]) }

  ghost predicate NobodyJoins(s: State) { forall id :: id in s.tasks ==> !Joiner(s.tasks[id]) }

  predicate Requests(step: Step) { step.Begin? && step.task.Asking? }

  predicate Disturbs(step: Step) { Requests(step) || (step.Begin? && step.task.Joining?) || step.Forgets? }

  lemma {:induction false} StillNobodyWrites(s: State, id: nat, a: Answer)
    requires id in s.tasks && NobodyWrites(s)
    ensures NobodyWrites(Advanced(s, id, a))
  {
    hide Recorded, MarkedPending, Noted, CancelNoted, ForgottenIntent, InState, AdvanceStart, AdvancePoll;
    assert !Writer(s.tasks[id]);
    if s.tasks[id].Idling? || s.tasks[id].Resetting? { LastPollSteps(s, id, a); }
  }

  lemma {:induction false} LastPollSteps(s: State, id: nat, a: Answer)
    requires id in s.tasks && (s.tasks[id].Idling? || s.tasks[id].Resetting?)
    ensures AdvancePoll(s, id, s.tasks[id], a).tasks == s.tasks - {id}
  {
    hide Noted, MarkedPending, ForgottenIntent;
  }

  lemma {:induction false} StillNobodyJoins(s: State, id: nat, a: Answer)
    requires id in s.tasks && NobodyWrites(s) && NobodyJoins(s)
    ensures NobodyJoins(Advanced(s, id, a))
  {
    hide Recorded, MarkedPending, Noted, CancelNoted, ForgottenIntent, InState, AdvanceStart, AdvancePoll;
    assert !Writer(s.tasks[id]) && !Joiner(s.tasks[id]);
    if s.tasks[id].Idling? || s.tasks[id].Resetting? { LastPollSteps(s, id, a); }
  }

  lemma {:induction false} CancelStep(s: State, step: Step)
    requires Possible(s, step) && IsCancelled(s) && NobodyWrites(s) && NobodyJoins(s) && !Disturbs(step)
    ensures IsCancelled(Next(s, step)) && NobodyWrites(Next(s, step)) && NobodyJoins(Next(s, step))
  {
    CancelledExactly(s, step);
    if step.Advance? {
      StillNobodyWrites(s, step.id, step.answer);
      StillNobodyJoins(s, step.id, step.answer);
      hide Advanced;
    }
  }

  /** A cancel holds over any run if, when it is written, no start, retry, poll
      or join is in flight, and none is asked for after it. */
  lemma {:induction false} CancelHolds(s: State, run: seq<Step>)
    requires PossibleRun(s, run) && IsCancelled(s) && NobodyWrites(s) && NobodyJoins(s)
    requires forall k :: 0 <= k < |run| ==> !Disturbs(run[k])
    ensures IsCancelled(After(s, run))
    decreases |run|
  {
    hide Next, Possible, NobodyWrites, NobodyJoins, Disturbs;
    if run != [] {
      CancelStep(s, run[0]);
      CancelHolds(Next(s, run[0]), run[1..]);
    }
  }

  lemma {:induction false} NothingStep(s: State, step: Step)
    requires Possible(s, step) && Undrained(s) && NobodyWrites(s) && !Requests(step)
    ensures Undrained(Next(s, step)) && NobodyWrites(Next(s, step))
  {
    UndrainedExactly(s, step);
    if step.Advance? {
      StillNobodyWrites(s, step.id, step.answer);
      hide Advanced;
    }
  }

  /** No drain comes of nothing if no start, retry or poll is in flight: joins
      and cancels, listings and removals then never make one up. */
  lemma {:induction false} NothingComesOfNothing(s: State, run: seq<Step>)
    requires PossibleRun(s, run) && Undrained(s) && NobodyWrites(s)
    requires forall k :: 0 <= k < |run| ==> !Requests(run[k])
    ensures Undrained(After(s, run))
    decreases |run|
  {
    hide Next, Possible, Undrained, NobodyWrites, Requests;
    if run != [] {
      NothingStep(s, run[0]);
      NothingComesOfNothing(Next(s, run[0]), run[1..]);
    }
  }

  // from the close to the announcement

  /** Nobody has asked the engine for a join and not been answered yet. */
  ghost predicate NobodyAsksToJoin(s: State) { forall id :: id in s.tasks ==> !s.tasks[id].Joining? }

  predicate AsksToJoin(step: Step) { step.EngineOpens? || (step.Begin? && step.task.Joining?) }

  lemma {:induction false} StartAsksNoJoin(s: State, id: nat, t: Task, a: Answer)
    requires id in s.tasks && s.tasks[id] == t && NobodyAsksToJoin(s)
    requires t.Asking? || t.Posting? || t.Recording? || t.Marking?
    ensures NobodyAsksToJoin(AdvanceStart(s, id, t, a))
  {
    hide Recorded, MarkedPending, Noted, CancelNoted, ForgottenIntent, InState;
  }

  lemma {:induction false} PollAsksNoJoin(s: State, id: nat, t: Task, a: Answer)
    requires id in s.tasks && s.tasks[id] == t && NobodyAsksToJoin(s)
    requires t.Polling? || t.Noting? || t.Forgotten? || t.Idling? || t.Resetting?
    ensures NobodyAsksToJoin(AdvancePoll(s, id, t, a))
  {
    hide Recorded, MarkedPending, Noted, CancelNoted, ForgottenIntent, InState;
  }

  lemma {:induction false} RetireAsksNoJoin(s: State, id: nat, t: Task, a: Answer)
    requires id in s.tasks && s.tasks[id] == t && NobodyAsksToJoin(s)
    requires t.Retiring? || t.Closing? || t.TakingOut? || t.Announcing?
    ensures NobodyAsksToJoin(AdvanceRetire(s, id, t, a))
  {
    hide Recorded, MarkedPending, Noted, CancelNoted, ForgottenIntent, InState;
  }

  lemma {:induction false} OtherAsksNoJoin(s: State, id: nat, t: Task, a: Answer)
    requires id in s.tasks && s.tasks[id] == t && NobodyAsksToJoin(s)
    requires !t.Joining?
    ensures NobodyAsksToJoin(AdvanceOther(s, id, t, a))
  {
    hide Recorded, MarkedPending, Noted, CancelNoted, ForgottenIntent, InState;
  }

  lemma {:induction false} StillNobodyAsksToJoin(s: State, id: nat, a: Answer)
    requires id in s.tasks && NobodyAsksToJoin(s)
    ensures NobodyAsksToJoin(Advanced(s, id, a))
  {
    var t := s.tasks[id];
    assert !t.Joining?;
    hide AdvanceStart, AdvancePoll, AdvanceRetire, AdvanceOther, NobodyAsksToJoin;
    if t.Asking? || t.Posting? || t.Recording? || t.Marking? {
      StartAsksNoJoin(s, id, t, a);
    } else if t.Polling? || t.Noting? || t.Forgotten? || t.Idling? || t.Resetting? {
      PollAsksNoJoin(s, id, t, a);
    } else if t.Retiring? || t.Closing? || t.TakingOut? || t.Announcing? {
      RetireAsksNoJoin(s, id, t, a);
    } else {
      OtherAsksNoJoin(s, id, t, a);
    }
  }

  lemma {:induction false} ClosedStep(s: State, step: Step)
    requires Possible(s, step) && !s.engine.open && NobodyAsksToJoin(s) && !AsksToJoin(step)
    ensures !Next(s, step).engine.open && NobodyAsksToJoin(Next(s, step))
  {
    OpensExactly(s, step);
    if step.Advance? {
      StillNobodyAsksToJoin(s, step.id, step.answer);
      hide Advanced;
    }
  }

  lemma {:induction false} StaysClosed(s: State, run: seq<Step>)
    requires PossibleRun(s, run) && !s.engine.open && NobodyAsksToJoin(s)
    requires forall k :: 0 <= k < |run| ==> !AsksToJoin(run[k])
    ensures !After(s, run).engine.open
    decreases |run|
  {
    hide Next, Possible, NobodyAsksToJoin, AsksToJoin;
    if run != [] {
      ClosedStep(s, run[0]);
      StaysClosed(Next(s, run[0]), run[1..]);
    }
  }

  /** What "safe to pull" takes: a drain's task closes the drive while no join
      is with the engine, and until the announcement none is begun and nobody
      else opens the drive. Then it is closed, with no leg on it (unless a
      forced removal left it there), whatever else goes on. */
  lemma {:induction false} SafeHolds(first: State, before: seq<Step>, id: nat, later: seq<Step>)
    requires Initial(first) && PossibleRun(first, before)
    requires var s := After(first, before);
      && id in s.tasks && s.tasks[id] == Closing && NobodyAsksToJoin(s)
      && Possible(s, Advance(id, Yes)) && PossibleRun(Next(s, Advance(id, Yes)), later)
    requires forall k :: 0 <= k < |later| ==> !AsksToJoin(later[k])
    ensures var e := After(Next(After(first, before), Advance(id, Yes)), later).engine;
      !e.open && (e.legs == 0 || e.forced)
  {
    var s := After(first, before);
    var t := Next(s, Advance(id, Yes));
    RunKeeps(first, before);
    StepEarned(s, Advance(id, Yes));
    StepHonest(s, Advance(id, Yes));
    OpensExactly(s, Advance(id, Yes));
    StillNobodyAsksToJoin(s, id, Yes);
    hide Next, Possible, Earned, EngineHonest, Advanced;
    assert t == Advanced(s, id, Yes) by { NextIsAdvanced(s, id, Yes); }
    RunKeeps(t, later);
    StaysClosed(t, later);
    Honest(After(t, later));
  }

  lemma {:induction false} NextIsAdvanced(s: State, id: nat, a: Answer)
    requires Possible(s, Advance(id, a))
    ensures id in s.tasks && Next(s, Advance(id, a)) == Advanced(s, id, a)
  {
  }

  lemma {:induction false} Honest(s: State)
    requires EngineHonest(s) && !s.engine.open
    ensures s.engine.legs == 0 || s.engine.forced
  {
  }
}
