/** Draining a fleet drive: every block the daemon runs under the inventory
    lock is one step, every call to the engine is another, and any number of
    tasks (the fleet tick, operators, automatic drains) interleave with each
    other and with the engine. One drive is followed; drives do not meet. */
module Drain {
  import opened Common

  // ------------------------------------------------ the drive

  datatype Membership = Fleet | Out

  /** `Busy` stands for testing, formatting, sanitizing, updating firmware. */
  datatype Activity = Idle | Draining | Missing | Busy

  /** A drain record's state: the engine's four words, the daemon's own
      `pending`, and any word the daemon does not know. */
  datatype Progress = Running | Empty | Stuck | Cancelled | Pending | Unknown

  datatype Intent = Intent(reason: string, thenLeave: bool)

  datatype Record = Record(state: Progress, intent: Intent)

  datatype Drive = Drive(membership: Membership, activity: Activity, drain: Option<Record>)

  predicate InState(d: Drive, p: Progress) { d.drain.Some? && d.drain.value.state == p }

  predicate DrainDue(d: Drive) { d.membership == Fleet && d.activity != Missing && InState(d, Pending) }

  /** A drain the engine said it has: recorded whole. */
  function Recorded(d: Drive, p: Progress, i: Intent): Drive {
    d.(drain := Some(Record(p, i)), activity := if p == Running then Draining else d.activity)
  }

  /** `mark_pending`: wanted and not started; who asked first is remembered. */
  function MarkedPending(d: Drive, i: Intent): Drive {
    d.(drain := Some(Record(Pending, if InState(d, Pending) then d.drain.value.intent else i)),
       activity := Reset(d.activity))
  }

  function Reset(a: Activity): Activity { if a == Draining then Idle else a }

  /** A status the engine reported, into the record there is. */
  function Noted(d: Drive, p: Progress): Drive {
    if d.drain.Some? then d.(drain := Some(d.drain.value.(state := p))) else d
  }

  function CancelNoted(d: Drive): Drive { Noted(d, Cancelled).(activity := Reset(d.activity)) }

  // ------------------------------------------------ the engine, and the tasks in flight

  /** `forced`: a forced removal closed the drive over what was on it. */
  datatype Engine = Engine(open: bool, legs: nat, forced: bool)

  datatype Task =
    | Asking(intent: Intent, insist: bool)      // start_drain: before the status is asked
    | Posting(intent: Intent, insist: bool)     // before the drain is ordered
    | Recording(intent: Intent, state: Progress)
    | Marking(intent: Intent)                   // request_drain: the engine will not start it now
    | Polling(leave: bool)
    | Noting(leave: bool, state: Progress)
    | Forgotten(leave: bool)
    | Idling                                    // drained, staying
    | Resetting                                 // ended some other way
    | Retiring
    | Closing
    | TakingOut
    | Announcing
    | Cancelling
    | CancelWriting
    | Dropping                                  // healthy again
    | Joining
    | JoinWriting
    | Leaving(force: bool)
    | LeaveWriting
    | Listing
    | Reconciling(listed: bool)

  /** What matters of what happened, in order. */
  datatype Event = ReportedEmpty(task: nat) | Closed(task: nat) | ForcedOut | ClosedElsewhere | Opened | OutOfFleet(task: nat) | SafeToPull(task: nat)

  /** `drive` is absent while the inventory does not know it. */
  datatype State = State(drive: Option<Drive>, engine: Engine, tasks: map<nat, Task>, log: seq<Event>)

  /** What the engine answers to the call a task makes. */
  datatype Answer = Yes | No | Says(state: Progress) | NoRecord | Lists(listed: bool)

  datatype Step =
    | Begin(id: nat, task: Task)
    | Retry(id: nat)            // the fleet tick takes up a pending drain again
    | Advance(id: nat, answer: Answer)
    | Legs(n: nat)              // the engine moves or places legs
    | EngineOpens               // somebody opens the drive in the engine
    | EngineCloses              // or closes it
    | Disappears | Appears      // the device node
    | Works(a: Activity)        // a test, a format, an update starts or ends
    | Forgets | Discovers

  function OnDrive(s: State, f: Drive -> Drive): State {
    if s.drive.Some? then s.(drive := Some(f(s.drive.value))) else s
  }

  function Goes(s: State, id: nat, t: Task): State { s.(tasks := s.tasks[id := t]) }

  function Ends(s: State, id: nat): State { s.(tasks := s.tasks - {id}) }

  function Logged(s: State, e: Event): State { s.(log := s.log + [e]) }

  /** Whether a task of this kind starts at all, and as what: the first look
      at the inventory that each operation takes. */
  function Started(s: State, t: Task): Option<Task> {
    match t
    case Asking(i, insist) =>
      if s.drive.None? || s.drive.value.membership != Fleet then (if insist then Some(Marking(i)) else None)
      else if InState(s.drive.value, Running) then None
      else Some(Asking(i, insist))
    case Polling(_) =>
      if s.drive.Some? && InState(s.drive.value, Running) then Some(Polling(s.drive.value.drain.value.intent.thenLeave)) else None
    case Cancelling => if s.drive.Some? then Some(Cancelling) else None
    case Dropping => Some(Dropping)
    case Joining =>
      if s.drive.Some? && s.drive.value.membership == Out && s.drive.value.activity == Idle then Some(Joining) else None
    case Leaving(force) => if s.drive.Some? && s.drive.value.membership == Fleet then Some(Leaving(force)) else None
    case Listing => Some(Listing)
    case _ => None
  }

  /** The retry of a pending drain: the intent on record, asked for again. */
  function Retried(s: State): Option<Task> {
    if s.drive.Some? && DrainDue(s.drive.value) then Some(Asking(s.drive.value.drain.value.intent, true)) else None
  }

  function AdvanceStart(s: State, id: nat, t: Task, a: Answer): State
    requires t.Asking? || t.Posting? || t.Recording? || t.Marking?
  {
    match t
    case Asking(i, insist) =>
      (match a
       case Says(p) => if p == Running then Goes(s, id, Recording(i, Running)) else Goes(s, id, Posting(i, insist))
       case NoRecord => Goes(s, id, Posting(i, insist))
       case _ => if insist then Goes(s, id, Marking(i)) else Ends(s, id))
    case Posting(i, insist) =>
      if a.Says? then Goes(s, id, Recording(i, a.state))
      else if insist then Goes(s, id, Marking(i)) else Ends(s, id)
    case Recording(i, p) => Ends(OnDrive(s, (d: Drive) => Recorded(d, p, i)), id)
    case Marking(i) => Ends(OnDrive(s, (d: Drive) => if d.membership == Fleet then MarkedPending(d, i) else d), id)
  }

  function AfterNoting(s: State, id: nat, leave: bool, p: Progress): State {
    match p
    case Running => Ends(s, id)
    case Stuck => Ends(s, id)
    case Empty => Logged(Goes(s, id, if leave then Retiring else Idling), ReportedEmpty(id))
    case _ => Goes(s, id, Resetting)
  }

  function ForgottenIntent(d: Drive, leave: bool): Intent {
    Intent(if d.drain.Some? then d.drain.value.intent.reason else "resumed", leave)
  }

  function AdvancePoll(s: State, id: nat, t: Task, a: Answer): State
    requires t.Polling? || t.Noting? || t.Forgotten? || t.Idling? || t.Resetting?
  {
    match t
    case Polling(leave) =>
      (match a
       case Says(p) => Goes(s, id, Noting(leave, p))
       case NoRecord => Goes(s, id, Forgotten(leave))
       case _ => Ends(s, id))
    case Noting(leave, p) => AfterNoting(OnDrive(s, (d: Drive) => Noted(d, p)), id, leave, p)
    case Forgotten(leave) => Ends(OnDrive(s, (d: Drive) => MarkedPending(d, ForgottenIntent(d, leave))), id)
    case Idling => Ends(OnDrive(s, (d: Drive) => d.(activity := Idle)), id)
    case Resetting => Ends(OnDrive(s, (d: Drive) => d.(activity := Reset(d.activity))), id)
  }

  function EngineClosed(s: State, e: Event): State { Logged(s.(engine := s.engine.(open := false)), e) }

  function EngineOpened(s: State): State { Logged(s.(engine := s.engine.(open := true, forced := false)), Opened) }

  function AdvanceRetire(s: State, id: nat, t: Task, a: Answer): State
    requires t.Retiring? || t.Closing? || t.TakingOut? || t.Announcing?
  {
    match t
    case Retiring => if s.drive.Some? then Goes(s, id, Closing) else Ends(s, id)
    case Closing => if a == Yes then Goes(EngineClosed(s, Closed(id)), id, TakingOut) else Ends(s, id)
    case TakingOut =>
      Logged(Goes(OnDrive(s, (d: Drive) => d.(membership := Out, activity := Idle)), id, Announcing), OutOfFleet(id))
    case Announcing => Logged(Ends(s, id), SafeToPull(id))
  }

  function AdvanceOther(s: State, id: nat, t: Task, a: Answer): State {
    match t
    case Cancelling => if a == Yes then Goes(s, id, CancelWriting) else Ends(s, id)
    case CancelWriting => Ends(OnDrive(s, (d: Drive) => CancelNoted(d)), id)
    case Dropping =>
      Ends(OnDrive(s, (d: Drive) => if InState(d, Pending) && d.drain.value.intent.reason == "health" then d.(drain := None) else d), id)
    case Joining => if a == Yes then Goes(EngineOpened(s), id, JoinWriting) else Ends(s, id)
    case JoinWriting => Ends(OnDrive(s, (d: Drive) => d.(membership := Fleet, drain := None)), id)
    case Leaving(force) =>
      if a != Yes then Ends(s, id)
      else if force then Goes(EngineClosed(s.(engine := s.engine.(forced := true)), ForcedOut), id, LeaveWriting)
      else Goes(EngineClosed(s, Closed(id)), id, LeaveWriting)
    case LeaveWriting => Ends(OnDrive(s, (d: Drive) => d.(membership := Out)), id)
    case Listing => if a.Lists? then Goes(s, id, Reconciling(a.listed)) else Ends(s, id)
    case Reconciling(listed) => Ends(OnDrive(s, (d: Drive) => d.(membership := if listed then Fleet else Out)), id)
    case _ => s
  }

  function Advanced(s: State, id: nat, a: Answer): State
    requires id in s.tasks
  {
    var t := s.tasks[id];
    if t.Asking? || t.Posting? || t.Recording? || t.Marking? then AdvanceStart(s, id, t, a)
    else if t.Polling? || t.Noting? || t.Forgotten? || t.Idling? || t.Resetting? then AdvancePoll(s, id, t, a)
    else if t.Retiring? || t.Closing? || t.TakingOut? || t.Announcing? then AdvanceRetire(s, id, t, a)
    else AdvanceOther(s, id, t, a)
  }

  /** What the engine and the world may do. The engine closes a drive without
      force only when no leg is on it; a retried removal may also find it
      closed already. It never says `pending`. */
  predicate Possible(s: State, step: Step) {
    match step
    case Begin(id, _) => Unused(s, id)
    case Retry(id) => Unused(s, id)
    case Advance(id, a) =>
      && id in s.tasks
      && (a.Says? ==> a.state != Pending)
      && (a == Yes && (s.tasks[id].Closing? || s.tasks[id] == Leaving(false)) ==> !s.engine.open || s.engine.legs == 0)
    case Legs(n) => s.engine.open
    case EngineCloses => s.engine.legs == 0
    case Works(a) => a == Idle || a == Busy
    case _ => true
  }

  predicate Unused(s: State, id: nat) { id !in s.tasks && forall e :: e in s.log ==> !About(e, id) }

  predicate About(e: Event, id: nat) {
    match e
    case ReportedEmpty(t) => t == id
    case Closed(t) => t == id
    case OutOfFleet(t) => t == id
    case SafeToPull(t) => t == id
    case _ => false
  }

  function Begun(s: State, id: nat, t: Option<Task>): State { if t.Some? then Goes(s, id, t.value) else s }

  function Next(s: State, step: Step): State
    requires Possible(s, step)
  {
    match step
    case Begin(id, t) => Begun(s, id, Started(s, t))
    case Retry(id) => Begun(s, id, Retried(s))
    case Advance(id, a) => Advanced(s, id, a)
    case Legs(n) => s.(engine := s.engine.(legs := n))
    case EngineOpens => EngineOpened(s)
    case EngineCloses => EngineClosed(s, ClosedElsewhere)
    case Disappears => OnDrive(s, (d: Drive) => d.(activity := Missing))
    case Appears => OnDrive(s, (d: Drive) => if d.activity == Missing then d.(activity := Idle) else d)
    case Works(a) => OnDrive(s, (d: Drive) => d.(activity := a))
    case Forgets => s.(drive := None)
    case Discovers => if s.drive.None? then s.(drive := Some(Drive(Out, Idle, None))) else s
  }

  predicate PossibleRun(s: State, run: seq<Step>)
    decreases |run|
  {
    run == [] || (Possible(s, run[0]) && PossibleRun(Next(s, run[0]), run[1..]))
  }

  function After(s: State, run: seq<Step>): State
    requires PossibleRun(s, run)
    decreases |run|
  {
    if run == [] then s else After(Next(s, run[0]), run[1..])
  }

  predicate Initial(s: State) {
    && s.tasks == map[] && s.log == []
    && (!s.engine.open ==> s.engine.legs == 0 || s.engine.forced)
    && (s.drive.Some? ==> s.drive.value.activity == Draining ==> s.drive.value.drain.Some? && Live(s.drive.value.drain.value.state))
  }

  predicate Live(p: Progress) { p == Running || p == Empty || p == Stuck }

  // ------------------------------------------------ safe to pull

  /** The log says task `id` heard `empty` and after that closed the drive. */
  ghost predicate ClosedWhenEmpty(log: seq<Event>, id: nat) {
    exists i, j :: 0 <= i < j < |log| && log[i] == ReportedEmpty(id) && log[j] == Closed(id)
  }

  /** Task `id` closed the drive and nobody has opened it since. */
  ghost predicate StillClosed(log: seq<Event>, id: nat) {
    exists j :: 0 <= j < |log| && log[j] == Closed(id) && Opened !in log[j..]
  }

  ghost predicate TaskEarned(log: seq<Event>, id: nat, t: Task) {
    && (t.Retiring? || t.Closing? ==> ReportedEmpty(id) in log)
    && (t.TakingOut? || t.Announcing? ==> ClosedWhenEmpty(log, id))
  }

  /** Every word that the drive is out, or safe to pull, was earned. */
  ghost predicate LogEarned(log: seq<Event>) {
    forall k :: 0 <= k < |log| ==> (log[k].OutOfFleet? || log[k].SafeToPull? ==> ClosedWhenEmpty(log[..k], log[k].task))
  }

  ghost predicate Earned(s: State) {
    && LogEarned(s.log)
    && (forall id :: id in s.tasks ==> TaskEarned(s.log, id, s.tasks[id]))
  }

  /** Nothing is on a closed drive, unless a forced removal left it there. */
  ghost predicate EngineHonest(s: State) {
    && (!s.engine.open ==> s.engine.legs == 0 || s.engine.forced)
    && (forall j :: 0 <= j < |s.log| && s.log[j].Closed? && Opened !in s.log[j..] ==> !s.engine.open)
  }

  lemma {:induction false} ClosedGrows(log: seq<Event>, e: Event, id: nat)
    requires ClosedWhenEmpty(log, id)
    ensures ClosedWhenEmpty(log + [e], id)
  {
    var i, j :| 0 <= i < j < |log| && log[i] == ReportedEmpty(id) && log[j] == Closed(id);
    assert (log + [e])[i] == ReportedEmpty(id) && (log + [e])[j] == Closed(id);
  }

  lemma {:induction false} EarnedGrows(log: seq<Event>, e: Event, id: nat, t: Task)
    requires TaskEarned(log, id, t)
    ensures TaskEarned(log + [e], id, t)
  {
    if t.TakingOut? || t.Announcing? { ClosedGrows(log, e, id); }
  }

  lemma {:induction false} LogGrows(log: seq<Event>, e: Event)
    requires LogEarned(log)
    requires e.OutOfFleet? || e.SafeToPull? ==> ClosedWhenEmpty(log, e.task)
    ensures LogEarned(log + [e])
  {
    var all := log + [e];
    forall k | 0 <= k < |all| && (all[k].OutOfFleet? || all[k].SafeToPull?)
      ensures ClosedWhenEmpty(all[..k], all[k].task)
    {
      if k < |log| { assert all[..k] == log[..k]; } else { assert all[..k] == log; }
    }
  }

  lemma {:induction false} CloseEarns(log: seq<Event>, id: nat)
    requires ReportedEmpty(id) in log
    ensures ClosedWhenEmpty(log + [Closed(id)], id)
  {
    var i :| 0 <= i < |log| && log[i] == ReportedEmpty(id);
    var all := log + [Closed(id)];
    assert all[i] == ReportedEmpty(id) && all[|log|] == Closed(id);
  }

  /** A step adds at most one event and changes at most one task, which the
      event then explains. */
  ghost predicate EarnedStep(s: State, t: State) {
    || (t.log == s.log && TasksEarned(s, t))
    || (exists e :: t.log == s.log + [e] && (e.OutOfFleet? || e.SafeToPull? ==> ClosedWhenEmpty(s.log, e.task)) && TasksEarned(s, t))
  }

  ghost predicate TasksEarned(s: State, t: State) {
    forall id :: id in t.tasks ==> (id in s.tasks && t.tasks[id] == s.tasks[id]) || TaskEarned(t.log, id, t.tasks[id])
  }

  lemma {:induction false} EarnedCarries(s: State, t: State)
    requires Earned(s) && EarnedStep(s, t)
    ensures Earned(t)
  {
    hide TaskEarned, LogEarned, ClosedWhenEmpty;
    if t.log != s.log {
      var e :| t.log == s.log + [e] && (e.OutOfFleet? || e.SafeToPull? ==> ClosedWhenEmpty(s.log, e.task)) && TasksEarned(s, t);
      LogGrows(s.log, e);
      forall id | id in t.tasks ensures TaskEarned(t.log, id, t.tasks[id]) {
        if id in s.tasks && t.tasks[id] == s.tasks[id] { EarnedGrows(s.log, e, id, t.tasks[id]); }
      }
    }
  }

  lemma {:induction false} RetireEarned(s: State, id: nat, a: Answer)
    requires Earned(s) && id in s.tasks
    requires var t := s.tasks[id]; t.Retiring? || t.Closing? || t.TakingOut? || t.Announcing?
    ensures EarnedStep(s, AdvanceRetire(s, id, s.tasks[id], a))
  {
    hide LogEarned, ClosedWhenEmpty;
    var t := s.tasks[id];
    assert TaskEarned(s.log, id, t);
    if t.Closing? && a == Yes { CloseEarns(s.log, id); }
    if t.TakingOut? { ClosedGrows(s.log, OutOfFleet(id), id); }
  }

  lemma {:induction false} StartEarned(s: State, id: nat, a: Answer)
    requires Earned(s) && id in s.tasks
    requires var t := s.tasks[id]; t.Asking? || t.Posting? || t.Recording? || t.Marking?
    ensures EarnedStep(s, AdvanceStart(s, id, s.tasks[id], a))
  {
    hide LogEarned, ClosedWhenEmpty, Recorded, MarkedPending;
  }

  lemma {:induction false} PollEarned(s: State, id: nat, a: Answer)
    requires Earned(s) && id in s.tasks
    requires var t := s.tasks[id]; t.Polling? || t.Noting? || t.Forgotten? || t.Idling? || t.Resetting?
    ensures EarnedStep(s, AdvancePoll(s, id, s.tasks[id], a))
  {
    hide LogEarned, ClosedWhenEmpty, Noted, MarkedPending, AfterNoting;
    var t := s.tasks[id];
    if t.Noting? {
      NotingEarned(OnDrive(s, (d: Drive) => Noted(d, t.state)), id, t.leave, t.state);
    }
  }

  lemma {:induction false} NotingEarned(s: State, id: nat, leave: bool, p: Progress)
    ensures EarnedStep(s, AfterNoting(s, id, leave, p))
  {
    hide LogEarned, ClosedWhenEmpty;
    var t := AfterNoting(s, id, leave, p);
    if p == Empty {
      assert t.log == s.log + [ReportedEmpty(id)];
      assert t.log[|s.log|] == ReportedEmpty(id);
    }
  }

  lemma {:induction false} OtherTaskEarned(s: State, id: nat, a: Answer)
    requires Earned(s) && id in s.tasks
    requires var t := s.tasks[id]; t.Cancelling? || t.CancelWriting? || t.Dropping? || t.Joining? || t.JoinWriting? || t.Leaving? || t.LeaveWriting? || t.Listing? || t.Reconciling?
    ensures EarnedStep(s, AdvanceOther(s, id, s.tasks[id], a))
  {
    hide LogEarned, ClosedWhenEmpty, CancelNoted;
  }

  lemma {:induction false} WorldEarned(s: State, step: Step)
    requires Earned(s) && Possible(s, step) && !step.Advance?
    ensures EarnedStep(s, Next(s, step))
  {
    hide LogEarned, ClosedWhenEmpty;
  }

  lemma {:induction false} StepEarned(s: State, step: Step)
    requires Earned(s) && Possible(s, step)
    ensures Earned(Next(s, step))
  {
    hide Earned, EarnedStep, AdvanceStart, AdvancePoll, AdvanceRetire, AdvanceOther;
    if step.Advance? {
      var id, a := step.id, step.answer;
      var t := s.tasks[id];
      if t.Asking? || t.Posting? || t.Recording? || t.Marking? {
        StartEarned(s, id, a);
      } else if t.Polling? || t.Noting? || t.Forgotten? || t.Idling? || t.Resetting? {
        PollEarned(s, id, a);
      } else if t.Retiring? || t.Closing? || t.TakingOut? || t.Announcing? {
        RetireEarned(s, id, a);
      } else {
        OtherTaskEarned(s, id, a);
      }
    } else {
      WorldEarned(s, step);
    }
    EarnedCarries(s, Next(s, step));
  }

  // what the engine side keeps

  lemma {:induction false} OpenedLater(log: seq<Event>, e: Event, j: nat)
    requires j < |log| && Opened !in (log + [e])[j..]
    ensures Opened !in log[j..]
  {
    assert (log + [e])[j..] == log[j..] + [e];
  }

  /** How a step may touch the engine. */
  ghost predicate EngineStep(s: State, t: State) {
    || (t.log == s.log && t.engine == s.engine)
    || (t.log == s.log && s.engine.open && t.engine.open)
    || (exists e :: t.log == s.log + [e] && EventStep(s, t, e))
  }

  ghost predicate EventStep(s: State, t: State, e: Event) {
    || ((e.ReportedEmpty? || e.OutOfFleet? || e.SafeToPull?) && t.engine == s.engine)
    || (e == ClosedElsewhere && t.engine == s.engine.(open := false) && s.engine.legs == 0)
    || (e == Opened && t.engine.open)
    || (e.Closed? && t.engine == s.engine.(open := false) && (s.engine.open ==> s.engine.legs == 0))
    || (e.ForcedOut? && t.engine == s.engine.(open := false, forced := true))
  }

  lemma {:induction false} EngineCarries(s: State, t: State)
    requires EngineHonest(s) && EngineStep(s, t)
    ensures EngineHonest(t)
  {
    if t.log != s.log {
      var e :| t.log == s.log + [e] && EventStep(s, t, e);
      forall j | 0 <= j < |t.log| && t.log[j].Closed? && Opened !in t.log[j..] ensures !t.engine.open {
        if j < |s.log| {
          OpenedLater(s.log, e, j);
          assert t.log[j..][|s.log| - j] == e;
        } else {
          assert t.log[j] == e;
        }
      }
    }
  }

  lemma {:induction false} StartEngine(s: State, id: nat, t: Task, a: Answer)
    requires t.Asking? || t.Posting? || t.Recording? || t.Marking?
    ensures EngineStep(s, AdvanceStart(s, id, t, a))
  {
    hide Recorded, MarkedPending;
  }

  lemma {:induction false} PollEngine(s: State, id: nat, t: Task, a: Answer)
    requires t.Polling? || t.Noting? || t.Forgotten? || t.Idling? || t.Resetting?
    ensures EngineStep(s, AdvancePoll(s, id, t, a))
  {
    hide Noted, MarkedPending;
    if t.Noting? && t.state == Empty {
      assert AdvancePoll(s, id, t, a).log == s.log + [ReportedEmpty(id)];
      assert EventStep(s, AdvancePoll(s, id, t, a), ReportedEmpty(id));
    }
  }

  lemma {:induction false} RetireEngine(s: State, id: nat, t: Task, a: Answer)
    requires t.Retiring? || t.Closing? || t.TakingOut? || t.Announcing?
    requires a == Yes && t.Closing? && s.engine.open ==> s.engine.legs == 0
    ensures EngineStep(s, AdvanceRetire(s, id, t, a))
  {
    var r := AdvanceRetire(s, id, t, a);
    match t {
      case Retiring =>
      case Closing => if a == Yes { assert EventStep(s, r, Closed(id)); }
      case TakingOut => assert EventStep(s, r, OutOfFleet(id));
      case Announcing => assert EventStep(s, r, SafeToPull(id));
    }
  }

  lemma {:induction false} OtherEngine(s: State, id: nat, t: Task, a: Answer)
    requires a == Yes && t == Leaving(false) && s.engine.open ==> s.engine.legs == 0
    ensures EngineStep(s, AdvanceOther(s, id, t, a))
  {
    hide CancelNoted;
    var r := AdvanceOther(s, id, t, a);
    if a == Yes {
      if t.Joining? { assert EventStep(s, r, Opened); }
      if t == Leaving(true) { assert EventStep(s, r, ForcedOut); }
      if t == Leaving(false) { assert EventStep(s, r, Closed(id)); }
    }
  }

  lemma {:induction false} StepTouches(s: State, step: Step)
    requires Possible(s, step)
    ensures EngineStep(s, Next(s, step))
  {
    hide EngineStep, AdvanceStart, AdvancePoll, AdvanceRetire, AdvanceOther;
    if step.Advance? {
      var id, a := step.id, step.answer;
      var t := s.tasks[id];
      if t.Asking? || t.Posting? || t.Recording? || t.Marking? {
        StartEngine(s, id, t, a);
      } else if t.Polling? || t.Noting? || t.Forgotten? || t.Idling? || t.Resetting? {
        PollEngine(s, id, t, a);
      } else if t.Retiring? || t.Closing? || t.TakingOut? || t.Announcing? {
        RetireEngine(s, id, t, a);
      } else {
        OtherEngine(s, id, t, a);
      }
    } else {
      WorldEngine(s, step);
    }
  }

  lemma {:induction false} StepHonest(s: State, step: Step)
    requires EngineHonest(s) && Possible(s, step)
    ensures EngineHonest(Next(s, step))
  {
    hide EngineHonest, EngineStep, Next, Possible;
    StepTouches(s, step);
    EngineCarries(s, Next(s, step));
  }

  lemma {:induction false} WorldEngine(s: State, step: Step)
    requires Possible(s, step) && !step.Advance?
    ensures EngineStep(s, Next(s, step))
  {
    if step == EngineOpens { assert EventStep(s, EngineOpened(s), Opened); }
    if step == EngineCloses { assert EventStep(s, Next(s, step), ClosedElsewhere); }
  }

  lemma {:induction false} RunKeeps(s: State, run: seq<Step>)
    requires PossibleRun(s, run) && Earned(s) && EngineHonest(s)
    ensures Earned(After(s, run)) && EngineHonest(After(s, run))
    decreases |run|
  {
    hide Earned, EngineHonest, Next;
    if run != [] {
      StepEarned(s, run[0]);
      StepHonest(s, run[0]);
      RunKeeps(Next(s, run[0]), run[1..]);
    }
  }

  /** On every run, every time a drive was taken out of the fleet by its
      drain or called safe to pull, that same task had heard `empty` from the
      engine and had then closed the drive. */
  lemma {:induction false} RetiredOnlyWhenEmpty(s: State, run: seq<Step>)
    requires Initial(s) && PossibleRun(s, run)
    ensures LogEarned(After(s, run).log)
  {
    RunKeeps(s, run);
  }

  /** And when it is about to be called safe to pull, it is closed with no leg
      on it, unless it was opened again in between (or a forced removal left
      legs behind on the closed drive). */
  lemma {:induction false} SafeWhenAnnounced(s: State, run: seq<Step>, id: nat)
    requires Initial(s) && PossibleRun(s, run)
    requires var t := After(s, run); id in t.tasks && t.tasks[id] == Announcing && StillClosed(t.log, id)
    ensures var e := After(s, run).engine; !e.open && (e.legs == 0 || e.forced)
  {
    RunKeeps(s, run);
  }

  /** Whether the drive is open, by the log of what opened and closed it. */
  function OpenBy(log: seq<Event>, first: bool): bool
    decreases |log|
  {
    if log == [] then first
    else
      var n := |log| - 1;
      match log[n]
      case Opened => true
      case Closed(_) => false
      case ForcedOut => false
      case ClosedElsewhere => false
      case _ => OpenBy(log[..n], first)
  }

  lemma {:induction false} OpenCarries(s: State, t: State, first: bool)
    requires EngineStep(s, t) && s.engine.open == OpenBy(s.log, first)
    ensures t.engine.open == OpenBy(t.log, first)
  {
    if t.log != s.log {
      var e :| t.log == s.log + [e] && EventStep(s, t, e);
      assert t.log[..|s.log|] == s.log;
    }
  }

  lemma {:induction false} OpenRun(s: State, run: seq<Step>, first: bool)
    requires PossibleRun(s, run) && s.engine.open == OpenBy(s.log, first)
    ensures var t := After(s, run); t.engine.open == OpenBy(t.log, first)
    decreases |run|
  {
    hide Next, Possible, OpenBy;
    if run != [] {
      StepTouches(s, run[0]);
      OpenCarries(s, Next(s, run[0]), first);
      OpenRun(Next(s, run[0]), run[1..], first);
    }
  }

  /** The steps that open the drive: somebody's own opening, and a join that
      the engine grants. */
  predicate Opens(s: State, step: Step) {
    step.EngineOpens? || (step.Advance? && step.answer == Yes && step.id in s.tasks && s.tasks[step.id].Joining?)
  }

  /** And those that close it. */
  predicate Closes(s: State, step: Step) {
    step.EngineCloses?
    || (step.Advance? && step.answer == Yes && step.id in s.tasks && (s.tasks[step.id].Closing? || s.tasks[step.id].Leaving?))
  }

  /** A step opens a closed drive, or closes an open one, exactly if it is one
      of them. */
  lemma {:induction false} OpensExactly(s: State, step: Step)
    requires Possible(s, step)
    ensures !s.engine.open ==> (Next(s, step).engine.open <==> Opens(s, step))
    ensures s.engine.open ==> (!Next(s, step).engine.open <==> Closes(s, step))
    ensures !(Opens(s, step) && Closes(s, step))
    ensures Opens(s, step) ==> Next(s, step).engine.open
    ensures Closes(s, step) ==> !Next(s, step).engine.open
  {
    hide Recorded, MarkedPending, Noted, CancelNoted, ForgottenIntent, InState;
  }

  ghost predicate NeverCloses(s: State, run: seq<Step>)
    requires PossibleRun(s, run)
    decreases |run|
  {
    run == [] || (!Closes(s, run[0]) && NeverCloses(Next(s, run[0]), run[1..]))
  }

  /** Some step opens the drive, and none after it closes it. */
  ghost predicate Reopens(s: State, run: seq<Step>)
    requires PossibleRun(s, run)
    decreases |run|
  {
    run != [] &&
    ((Opens(s, run[0]) && NeverCloses(Next(s, run[0]), run[1..])) || Reopens(Next(s, run[0]), run[1..]))
  }

  /** A drive is open after a run exactly if it was reopened in it, or was open
      and never closed. */
  lemma {:induction false} OpenExactly(s: State, run: seq<Step>)
    requires PossibleRun(s, run)
    ensures After(s, run).engine.open <==> Reopens(s, run) || (s.engine.open && NeverCloses(s, run))
    decreases |run|
  {
    hide Possible, Next, Opens, Closes;
    if run != [] {
      OpensExactly(s, run[0]);
      OpenExactly(Next(s, run[0]), run[1..]);
    }
  }

  /** Task `id` has closed the drive and has not yet said so. */
  predicate HasClosed(s: State, id: nat) { id in s.tasks && (s.tasks[id].TakingOut? || s.tasks[id].Announcing?) }

  lemma {:induction false} StartClosesNot(s: State, id: nat, t: Task, a: Answer, who: nat)
    requires id in s.tasks && s.tasks[id] == t && !HasClosed(s, who)
    requires t.Asking? || t.Posting? || t.Recording? || t.Marking?
    ensures !HasClosed(AdvanceStart(s, id, t, a), who)
  {
    hide Recorded, MarkedPending, Noted, CancelNoted, ForgottenIntent, InState;
  }

  lemma {:induction false} PollClosesNot(s: State, id: nat, t: Task, a: Answer, who: nat)
    requires id in s.tasks && s.tasks[id] == t && !HasClosed(s, who)
    requires t.Polling? || t.Noting? || t.Forgotten? || t.Idling? || t.Resetting?
    ensures !HasClosed(AdvancePoll(s, id, t, a), who)
  {
    hide Recorded, MarkedPending, Noted, CancelNoted, ForgottenIntent, InState;
  }

  lemma {:induction false} RetireCloses(s: State, id: nat, t: Task, a: Answer, who: nat)
    requires id in s.tasks && s.tasks[id] == t && !HasClosed(s, who)
    requires t.Retiring? || t.Closing? || t.TakingOut? || t.Announcing?
    ensures HasClosed(AdvanceRetire(s, id, t, a), who) ==> t.Closing? && a == Yes
  {
    hide Recorded, MarkedPending, Noted, CancelNoted, ForgottenIntent, InState;
  }

  lemma {:induction false} OtherClosesNot(s: State, id: nat, t: Task, a: Answer, who: nat)
    requires id in s.tasks && s.tasks[id] == t && !HasClosed(s, who)
    ensures !HasClosed(AdvanceOther(s, id, t, a), who)
  {
    hide Recorded, MarkedPending, Noted, CancelNoted, ForgottenIntent, InState;
  }

  lemma {:induction false} ClosedBy(s: State, step: Step, id: nat)
    requires Possible(s, step) && !HasClosed(s, id) && HasClosed(Next(s, step), id)
    ensures Closes(s, step)
  {
    hide Recorded, MarkedPending, Noted, CancelNoted, ForgottenIntent, InState, AdvanceStart, AdvancePoll, AdvanceRetire, AdvanceOther;
    if step.Advance? {
      var t := s.tasks[step.id];
      if t.Asking? || t.Posting? || t.Recording? || t.Marking? {
        StartClosesNot(s, step.id, t, step.answer, id);
      } else if t.Polling? || t.Noting? || t.Forgotten? || t.Idling? || t.Resetting? {
        PollClosesNot(s, step.id, t, step.answer, id);
      } else if t.Retiring? || t.Closing? || t.TakingOut? || t.Announcing? {
        RetireCloses(s, step.id, t, step.answer, id);
      } else {
        OtherClosesNot(s, step.id, t, step.answer, id);
      }
    }
  }

  lemma {:induction false} NotUnclosed(s: State, run: seq<Step>, id: nat)
    requires PossibleRun(s, run) && NeverCloses(s, run) && !HasClosed(s, id)
    ensures !HasClosed(After(s, run), id)
    decreases |run|
  {
    hide Possible, Next, Closes, HasClosed;
    if run != [] {
      if HasClosed(Next(s, run[0]), id) { ClosedBy(s, run[0], id); }
      NotUnclosed(Next(s, run[0]), run[1..], id);
    }
  }

  /** Said exactly: when a drive is about to be called safe to pull, it is open
      again if and only if somebody opened it, or had a join granted, and
      nobody closed it after that; and if it is not open, no leg is on it
      (unless a forced removal left it there). The log says the same. */
  lemma {:induction false} SafeExactly(s: State, run: seq<Step>, id: nat)
    requires Initial(s) && PossibleRun(s, run)
    requires var t := After(s, run); id in t.tasks && t.tasks[id] == Announcing
    ensures var t := After(s, run);
      && (t.engine.open <==> Reopens(s, run))
      && (t.engine.open <==> OpenBy(t.log, s.engine.open))
      && (!t.engine.open ==> t.engine.legs == 0 || t.engine.forced)
      && ClosedWhenEmpty(t.log, id)
  {
    OpenExactly(s, run);
    if NeverCloses(s, run) { NotUnclosed(s, run, id); }
    OpenRun(s, run, s.engine.open);
    RunKeeps(s, run);
    assert TaskEarned(After(s, run).log, id, Announcing);
  }

  lemma {:induction false} AfterSnoc(s: State, run: seq<Step>, step: Step)
    requires PossibleRun(s, run) && Possible(After(s, run), step)
    ensures PossibleRun(s, run + [step]) && After(s, run + [step]) == Next(After(s, run), step)
    decreases |run|
  {
    hide Possible, Next;
    var all := run + [step];
    if run == [] {
      assert all[1..] == [];
    } else {
      AfterSnoc(Next(s, run[0]), run[1..], step);
      assert all[1..] == run[1..] + [step];
    }
  }

  // ------------------------------------------------ a draining drive has its record

  ghost predicate ResetComing(s: State) { exists id :: id in s.tasks && s.tasks[id] == Resetting }

  ghost predicate Coherent(s: State) {
    s.drive.Some? && s.drive.value.activity == Draining ==>
      && s.drive.value.drain.Some?
      && var p := s.drive.value.drain.value.state;
      Live(p) || (p != Pending && ResetComing(s))
  }

  ghost predicate EngineWords(s: State) {
    forall id :: id in s.tasks ==>
      var t := s.tasks[id];
      t.Recording? || t.Noting? ==> t.state != Pending
  }

  /** The two writes that leave a drive draining without a drain to show for
      it: a join, and a start the engine answered with an end. */
  ghost predicate Orphans(s: State, step: Step) {
    && step.Advance? && step.id in s.tasks
    && s.drive.Some? && s.drive.value.activity == Draining
    && var t := s.tasks[step.id];
    || t.JoinWriting?
    || (t.Recording? && !Live(t.state) && !ResetComing(s))
  }

  lemma {:induction false} WordsKeptStart(s: State, id: nat, t: Task, a: Answer)
    requires id in s.tasks && s.tasks[id] == t
    requires t.Asking? || t.Posting? || t.Recording? || t.Marking?
    requires EngineWords(s) && (a.Says? ==> a.state != Pending)
    ensures EngineWords(AdvanceStart(s, id, t, a))
  {
    hide Recorded, MarkedPending, Noted, CancelNoted, Live;
  }

  lemma {:induction false} WordsKeptPoll(s: State, id: nat, t: Task, a: Answer)
    requires id in s.tasks && s.tasks[id] == t
    requires t.Polling? || t.Noting? || t.Forgotten? || t.Idling? || t.Resetting?
    requires EngineWords(s) && (a.Says? ==> a.state != Pending)
    ensures EngineWords(AdvancePoll(s, id, t, a))
  {
    hide Recorded, MarkedPending, Noted, CancelNoted, Live;
  }

  lemma {:induction false} WordsKeptRetire(s: State, id: nat, t: Task, a: Answer)
    requires id in s.tasks && s.tasks[id] == t
    requires t.Retiring? || t.Closing? || t.TakingOut? || t.Announcing?
    requires EngineWords(s) && (a.Says? ==> a.state != Pending)
    ensures EngineWords(AdvanceRetire(s, id, t, a))
  {
    hide Recorded, MarkedPending, Noted, CancelNoted, Live;
  }

  lemma {:induction false} WordsKeptOther(s: State, id: nat, t: Task, a: Answer)
    requires id in s.tasks && s.tasks[id] == t
    requires t.Cancelling? || t.CancelWriting? || t.Dropping? || t.Joining? || t.JoinWriting? || t.Leaving? || t.LeaveWriting? || t.Listing? || t.Reconciling?
    requires EngineWords(s) && (a.Says? ==> a.state != Pending)
    ensures EngineWords(AdvanceOther(s, id, t, a))
  {
    hide Recorded, MarkedPending, Noted, CancelNoted, Live;
  }

  lemma {:induction false} WordsAdvanced(s: State, id: nat, a: Answer)
    requires EngineWords(s) && id in s.tasks && (a.Says? ==> a.state != Pending)
    ensures EngineWords(Advanced(s, id, a))
  {
    hide AdvanceStart, AdvancePoll, AdvanceRetire, AdvanceOther, EngineWords;
    var t := s.tasks[id];
    if t.Asking? || t.Posting? || t.Recording? || t.Marking? {
      WordsKeptStart(s, id, t, a);
    } else if t.Polling? || t.Noting? || t.Forgotten? || t.Idling? || t.Resetting? {
      WordsKeptPoll(s, id, t, a);
    } else if t.Retiring? || t.Closing? || t.TakingOut? || t.Announcing? {
      WordsKeptRetire(s, id, t, a);
    } else {
      WordsKeptOther(s, id, t, a);
    }
  }

  lemma {:induction false} WordsKept(s: State, step: Step)
    requires EngineWords(s) && Possible(s, step)
    ensures EngineWords(Next(s, step))
  {
    if step.Advance? {
      hide Advanced, EngineWords;
      WordsAdvanced(s, step.id, step.answer);
    } else {
      hide Unused;
    }
  }

  lemma {:induction false} StillComing(s: State, t: State, id: nat)
    requires ResetComing(s) && id in s.tasks && s.tasks[id] != Resetting
    requires OnlyTask(s, t, id)
    ensures ResetComing(t)
  {
    var k :| k in s.tasks && s.tasks[k] == Resetting;
    assert k in t.tasks;
  }

  ghost predicate OnlyTask(s: State, t: State, id: nat) {
    forall k :: k in s.tasks && k != id ==> k in t.tasks && t.tasks[k] == s.tasks[k]
  }

  lemma {:induction false} OthersStay(s: State, id: nat, a: Answer)
    requires id in s.tasks
    ensures OnlyTask(s, Advanced(s, id, a), id)
  {
    hide OnlyTask, AdvanceStart, AdvancePoll, AdvanceRetire, AdvanceOther;
    var t := s.tasks[id];
    if t.Asking? || t.Posting? || t.Recording? || t.Marking? {
      OthersStayStart(s, id, t, a);
    } else if t.Polling? || t.Noting? || t.Forgotten? || t.Idling? || t.Resetting? {
      OthersStayPoll(s, id, t, a);
    } else if t.Retiring? || t.Closing? || t.TakingOut? || t.Announcing? {
      OthersStayRetire(s, id, t, a);
    } else {
      OthersStayOther(s, id, t, a);
    }
  }

  lemma {:induction false} OthersStayStart(s: State, id: nat, t: Task, a: Answer)
    requires t.Asking? || t.Posting? || t.Recording? || t.Marking?
    ensures OnlyTask(s, AdvanceStart(s, id, t, a), id)
  {
    hide Recorded, MarkedPending;
  }

  lemma {:induction false} OthersStayPoll(s: State, id: nat, t: Task, a: Answer)
    requires t.Polling? || t.Noting? || t.Forgotten? || t.Idling? || t.Resetting?
    ensures OnlyTask(s, AdvancePoll(s, id, t, a), id)
  {
    hide Noted, MarkedPending, ForgottenIntent;
  }

  lemma {:induction false} OthersStayRetire(s: State, id: nat, t: Task, a: Answer)
    requires t.Retiring? || t.Closing? || t.TakingOut? || t.Announcing?
    ensures OnlyTask(s, AdvanceRetire(s, id, t, a), id)
  {
  }

  lemma {:induction false} OthersStayOther(s: State, id: nat, t: Task, a: Answer)
    ensures OnlyTask(s, AdvanceOther(s, id, t, a), id)
  {
    hide CancelNoted, InState;
  }

  lemma {:induction false} NoNewReset(s: State, id: nat, a: Answer)
    requires id in s.tasks && s.tasks[id].Recording?
    ensures ResetComing(Advanced(s, id, a)) ==> ResetComing(s)
  {
    hide Recorded;
    var t := Advanced(s, id, a);
    if ResetComing(t) {
      var k :| k in t.tasks && t.tasks[k] == Resetting;
      assert k in s.tasks && s.tasks[k] == Resetting;
    }
  }

  /** What a task's next block does to the drive. */
  function Written(d: Drive, t: Task): Drive {
    match t
    case Recording(i, p) => Recorded(d, p, i)
    case Marking(i) => if d.membership == Fleet then MarkedPending(d, i) else d
    case Noting(_, p) => Noted(d, p)
    case Forgotten(leave) => MarkedPending(d, ForgottenIntent(d, leave))
    case Idling => d.(activity := Idle)
    case Resetting => d.(activity := Reset(d.activity))
    case TakingOut => d.(membership := Out, activity := Idle)
    case CancelWriting => CancelNoted(d)
    case Dropping => if InState(d, Pending) && d.drain.value.intent.reason == "health" then d.(drain := None) else d
    case JoinWriting => d.(membership := Fleet, drain := None)
    case LeaveWriting => d.(membership := Out)
    case Reconciling(listed) => d.(membership := if listed then Fleet else Out)
    case _ => d
  }

  lemma {:induction false} DriveWrittenStart(s: State, id: nat, t: Task, a: Answer)
    requires id in s.tasks && s.tasks[id] == t
    requires t.Asking? || t.Posting? || t.Recording? || t.Marking?
    ensures AdvanceStart(s, id, t, a).drive == if s.drive.Some? then Some(Written(s.drive.value, t)) else None
  {
    hide Recorded, MarkedPending, Noted, CancelNoted, ForgottenIntent, InState;
  }

  lemma {:induction false} DriveWrittenPoll(s: State, id: nat, t: Task, a: Answer)
    requires id in s.tasks && s.tasks[id] == t
    requires t.Polling? || t.Noting? || t.Forgotten? || t.Idling? || t.Resetting?
    ensures AdvancePoll(s, id, t, a).drive == if s.drive.Some? then Some(Written(s.drive.value, t)) else None
  {
    hide Recorded, MarkedPending, Noted, CancelNoted, ForgottenIntent, InState;
  }

  lemma {:induction false} DriveWrittenRetire(s: State, id: nat, t: Task, a: Answer)
    requires id in s.tasks && s.tasks[id] == t
    requires t.Retiring? || t.Closing? || t.TakingOut? || t.Announcing?
    ensures AdvanceRetire(s, id, t, a).drive == if s.drive.Some? then Some(Written(s.drive.value, t)) else None
  {
    hide Recorded, MarkedPending, Noted, CancelNoted, ForgottenIntent, InState;
  }

  lemma {:induction false} DriveWrittenOther(s: State, id: nat, t: Task, a: Answer)
    requires id in s.tasks && s.tasks[id] == t
    requires t.Cancelling? || t.CancelWriting? || t.Dropping? || t.Joining? || t.JoinWriting? || t.Leaving? || t.LeaveWriting? || t.Listing? || t.Reconciling?
    ensures AdvanceOther(s, id, t, a).drive == if s.drive.Some? then Some(Written(s.drive.value, t)) else None
  {
    hide Recorded, MarkedPending, Noted, CancelNoted, ForgottenIntent, InState;
  }

  lemma {:induction false} DriveWritten(s: State, id: nat, a: Answer)
    requires id in s.tasks
    ensures Advanced(s, id, a).drive == if s.drive.Some? then Some(Written(s.drive.value, s.tasks[id])) else None
  {
    hide AdvanceStart, AdvancePoll, AdvanceRetire, AdvanceOther, Written;
    var t := s.tasks[id];
    if t.Asking? || t.Posting? || t.Recording? || t.Marking? {
      DriveWrittenStart(s, id, t, a);
    } else if t.Polling? || t.Noting? || t.Forgotten? || t.Idling? || t.Resetting? {
      DriveWrittenPoll(s, id, t, a);
    } else if t.Retiring? || t.Closing? || t.TakingOut? || t.Announcing? {
      DriveWrittenRetire(s, id, t, a);
    } else {
      DriveWrittenOther(s, id, t, a);
    }
  }

  lemma {:induction false} NotingResets(s: State, id: nat, a: Answer)
    requires id in s.tasks && s.tasks[id].Noting?
    ensures var p := s.tasks[id].state; Live(p) || ResetComing(Advanced(s, id, a))
  {
    hide Noted;
    var t := Advanced(s, id, a);
    if !Live(s.tasks[id].state) { assert id in t.tasks && t.tasks[id] == Resetting; }
  }

  /** Of a drive that drains with its record, every step but those two makes
      one that still does. */
  lemma {:induction false} CoherentExactly(s: State, step: Step)
    requires Coherent(s) && EngineWords(s) && Possible(s, step)
    ensures Coherent(Next(s, step)) <==> !Orphans(s, step)
  {
    if step.Advance? {
      var id, a := step.id, step.answer;
      hide Advanced, Coherent, Orphans;
      CoherentAdvance(s, id, a);
    } else {
      hide Live;
      WorldCoherent(s, step);
    }
  }

  lemma {:induction false} WorldCoherent(s: State, step: Step)
    requires Coherent(s) && Possible(s, step) && !step.Advance?
    ensures Coherent(Next(s, step))
  {
    hide Live;
    var t := Next(s, step);
    if ResetComing(s) {
      var k :| k in s.tasks && s.tasks[k] == Resetting;
      assert k in t.tasks && t.tasks[k] == Resetting;
    }
  }

  lemma {:induction false} CoherentAdvance(s: State, id: nat, a: Answer)
    requires Coherent(s) && EngineWords(s) && id in s.tasks
    ensures Coherent(Advanced(s, id, a)) <==> !Orphans(s, Advance(id, a))
  {
    hide Advanced, ResetComing;
    var t, next := s.tasks[id], Advanced(s, id, a);
    DriveWritten(s, id, a);
    OthersStay(s, id, a);
    if t.Recording? { NoNewReset(s, id, a); }
    if t.Noting? { NotingResets(s, id, a); }
    if ResetComing(s) && t != Resetting { StillComing(s, next, id); }
  }

  lemma {:induction false} InitialCoherent(s: State)
    requires Initial(s)
    ensures Coherent(s) && EngineWords(s)
  {
  }

  ghost predicate NoOrphans(s: State, run: seq<Step>)
    requires PossibleRun(s, run)
    decreases |run|
  {
    run == [] || (!Orphans(s, run[0]) && NoOrphans(Next(s, run[0]), run[1..]))
  }

  /** Over whole runs: a drive that is `Draining`, at any point of any run
      without those two writes, has a drain on record that is running, stuck
      or empty (or a poll has just noted its end and is about to reset it). */
  lemma {:induction false} DrainingHasRecord(s: State, run: seq<Step>)
    requires PossibleRun(s, run) && Coherent(s) && EngineWords(s) && NoOrphans(s, run)
    ensures Coherent(After(s, run))
    decreases |run|
  {
    hide Coherent, EngineWords, Next, Orphans;
    if run != [] {
      CoherentExactly(s, run[0]);
      WordsKept(s, run[0]);
      DrainingHasRecord(Next(s, run[0]), run[1..]);
    }
  }

  // ------------------------------------------------ which steps change a drive

  /** A drive leaves the fleet only as a retired drain or a removal writes it
      out, or as the engine does not list it; it enters only as a join writes
      it in or the engine lists it. */
  lemma {:induction false} MembershipMoves(s: State, step: Step)
    requires Possible(s, step) && s.drive.Some? && Next(s, step).drive.Some?
    ensures var was, now := s.drive.value.membership, Next(s, step).drive.value.membership;
      && (was == Fleet ==> (now == Out <==>
            step.Advance? && (s.tasks[step.id] == TakingOut || s.tasks[step.id] == LeaveWriting || s.tasks[step.id] == Reconciling(false))))
      && (was == Out ==> (now == Fleet <==>
            step.Advance? && (s.tasks[step.id] == JoinWriting || s.tasks[step.id] == Reconciling(true))))
  {
    hide Advanced, Recorded, MarkedPending, Noted, CancelNoted, ForgottenIntent;
    if step.Advance? {
      DriveWritten(s, step.id, step.answer);
      MembershipKept(s.drive.value, s.tasks[step.id]);
    }
  }

  lemma {:induction false} MembershipKept(d: Drive, t: Task)
    ensures t.Recording? || t.Marking? || t.Noting? || t.Forgotten? || t.CancelWriting? ==> Written(d, t).membership == d.membership
  {
  }

  /** Ends a drain in some other way than by the record being written: asked
      for again, forgotten by the engine, ended, or cancelled. */
  predicate Unsettles(d: Drive, t: Task) {
    t == Resetting || t == CancelWriting || t.Forgotten? || (t.Marking? && d.membership == Fleet)
  }

  /** A drive is `Draining` from the moment its drain is written down as
      running, until the drain is over, asked for again, forgotten or
      cancelled; only the world makes it anything but that and idle. */
  lemma {:induction false} ActivityMoves(s: State, step: Step)
    requires Possible(s, step) && s.drive.Some? && Next(s, step).drive.Some?
    ensures var d, now := s.drive.value, Next(s, step).drive.value.activity;
      match step
      case Advance(id, _) =>
        now == (if s.tasks[id].Recording? && s.tasks[id].state == Running then Draining
                else if s.tasks[id] == Idling || s.tasks[id] == TakingOut then Idle
                else if Unsettles(d, s.tasks[id]) && d.activity == Draining then Idle
                else d.activity)
      case Disappears => now == Missing
      case Appears => now == if d.activity == Missing then Idle else d.activity
      case Works(a) => now == a
      case _ => now == d.activity
  {
    hide Advanced, Written;
    if step.Advance? {
      DriveWritten(s, step.id, step.answer);
      ActivityWritten(s.drive.value, s.tasks[step.id]);
    }
  }

  lemma {:induction false} ActivityWritten(d: Drive, t: Task)
    ensures Written(d, t).activity
      == if t.Recording? && t.state == Running then Draining
         else if t == Idling || t == TakingOut then Idle
         else if Unsettles(d, t) && d.activity == Draining then Idle
         else d.activity
  {
    hide InState;
  }

  /** What begins, and on what: a join only with a drive out of the fleet and
      idle, a removal only with one in it, a poll only of a running drain, with
      the flag it was asked with, and a drain only of a fleet drive that has
      none running; what has to be insisted on is then kept as pending. */
  lemma {:induction false} BegunExactly(s: State, id: nat, t: Task)
    requires Possible(s, Begin(id, t))
    ensures var r := Next(s, Begin(id, t)).tasks;
      var fleet := s.drive.Some? && s.drive.value.membership == Fleet;
      var running := s.drive.Some? && InState(s.drive.value, Running);
      && (t == Joining ==> (id in r <==> s.drive.Some? && s.drive.value.membership == Out && s.drive.value.activity == Idle))
      && (t.Leaving? ==> (id in r <==> fleet))
      && (t.Polling? ==> (id in r <==> running) && (running ==> r[id] == Polling(s.drive.value.drain.value.intent.thenLeave)))
      && (t.Asking? ==> (id in r <==> if fleet then !running else t.insist))
      && (t.Asking? && id in r ==> r[id] == if fleet then t else Marking(t.intent))
      && (t == Cancelling ==> (id in r <==> s.drive.Some?))
      && (id in r && !t.Asking? && !t.Polling? ==> r[id] == t && (t == Joining || t.Leaving? || t == Cancelling || t == Dropping || t == Listing))
  {
  }

  // ------------------------------------------------ a drained drive that stays becomes idle

  ghost predicate IdleComing(s: State) { exists id :: id in s.tasks && s.tasks[id] == Idling }

  /** Drained, with a record that says it stays, and still `Draining`. */
  predicate DrainedStaying(d: Drive) {
    d.activity == Draining && InState(d, Empty) && !d.drain.value.intent.thenLeave
  }

  /** Only between the poll's two writes. */
  ghost predicate Settling(s: State) { s.drive.Some? && DrainedStaying(s.drive.value) ==> IdleComing(s) }

  /** The two writes after which nothing will make it idle: a start recorded as
      empty at once over a draining drive, and a poll that began while the
      record said it was to leave. */
  ghost predicate Strands(s: State, step: Step) {
    && step.Advance? && step.id in s.tasks && !IdleComing(s)
    && s.drive.Some? && s.drive.value.activity == Draining
    && var t := s.tasks[step.id];
    || (t.Recording? && t.state == Empty && !t.intent.thenLeave)
    || (t.Noting? && t.state == Empty && t.leave && s.drive.value.drain.Some? && !s.drive.value.drain.value.intent.thenLeave)
  }

  lemma {:induction false} StillIdling(s: State, t: State, id: nat)
    requires IdleComing(s) && id in s.tasks && s.tasks[id] != Idling && OnlyTask(s, t, id)
    ensures IdleComing(t)
  {
    var k :| k in s.tasks && s.tasks[k] == Idling;
    assert k in t.tasks;
  }

  /** A step brings an `Idling` task about only as a poll that heard `empty` of
      a drive that stays. */
  lemma {:induction false} NewIdling(s: State, id: nat, a: Answer)
    requires id in s.tasks && !IdleComing(s)
    ensures IdleComing(Advanced(s, id, a)) <==> s.tasks[id] == Noting(false, Empty)
  {
    var t, next := s.tasks[id], Advanced(s, id, a);
    hide AdvanceStart, AdvancePoll, AdvanceRetire, AdvanceOther;
    if t.Asking? || t.Posting? || t.Recording? || t.Marking? {
      NewIdlingStart(s, id, t, a);
    } else if t.Polling? || t.Noting? || t.Forgotten? || t.Idling? || t.Resetting? {
      NewIdlingPoll(s, id, t, a);
    } else if t.Retiring? || t.Closing? || t.TakingOut? || t.Announcing? {
      NewIdlingRetire(s, id, t, a);
    } else {
      NewIdlingOther(s, id, t, a);
    }
  }

  lemma {:induction false} NewIdlingStart(s: State, id: nat, t: Task, a: Answer)
    requires id in s.tasks && s.tasks[id] == t && !IdleComing(s) && (t.Asking? || t.Posting? || t.Recording? || t.Marking?)
    ensures !IdleComing(AdvanceStart(s, id, t, a))
  {
    hide Recorded, MarkedPending;
  }

  lemma {:induction false} NewIdlingPoll(s: State, id: nat, t: Task, a: Answer)
    requires id in s.tasks && s.tasks[id] == t && !IdleComing(s)
    requires t.Polling? || t.Noting? || t.Forgotten? || t.Idling? || t.Resetting?
    ensures IdleComing(AdvancePoll(s, id, t, a)) <==> t == Noting(false, Empty)
  {
    hide Noted, MarkedPending, ForgottenIntent;
    if t == Noting(false, Empty) { assert AdvancePoll(s, id, t, a).tasks[id] == Idling; }
  }

  lemma {:induction false} NewIdlingRetire(s: State, id: nat, t: Task, a: Answer)
    requires id in s.tasks && s.tasks[id] == t && !IdleComing(s) && (t.Retiring? || t.Closing? || t.TakingOut? || t.Announcing?)
    ensures !IdleComing(AdvanceRetire(s, id, t, a))
  {
  }

  lemma {:induction false} NewIdlingOther(s: State, id: nat, t: Task, a: Answer)
    requires id in s.tasks && s.tasks[id] == t && !IdleComing(s)
    ensures !IdleComing(AdvanceOther(s, id, t, a))
  {
    hide CancelNoted, InState;
  }

  /** A step keeps a drained drive that stays on its way to idle exactly when
      it is neither of the two. */
  lemma {:induction false} SettlingExactly(s: State, step: Step)
    requires Settling(s) && Possible(s, step)
    ensures Settling(Next(s, step)) <==> !Strands(s, step)
  {
    if step.Advance? {
      var id, a := step.id, step.answer;
      DriveWritten(s, id, a);
      OthersStay(s, id, a);
      if !IdleComing(s) { NewIdling(s, id, a); } else if s.tasks[id] != Idling { StillIdling(s, Advanced(s, id, a), id); }
      hide Advanced, IdleComing;
    } else {
      WorldSettles(s, step);
    }
  }

  lemma {:induction false} WorldSettles(s: State, step: Step)
    requires Settling(s) && Possible(s, step) && !step.Advance?
    ensures Settling(Next(s, step))
  {
    var t := Next(s, step);
    if IdleComing(s) {
      var k :| k in s.tasks && s.tasks[k] == Idling;
      assert k in t.tasks && t.tasks[k] == Idling;
    }
  }

  ghost predicate NoneStranded(s: State, run: seq<Step>)
    requires PossibleRun(s, run)
    decreases |run|
  {
    run == [] || (!Strands(s, run[0]) && NoneStranded(Next(s, run[0]), run[1..]))
  }

  /** Over whole runs: a drive drained to stay that is still `Draining` has the
      task in flight that makes it idle. */
  lemma {:induction false} DrainedBecomesIdle(s: State, run: seq<Step>)
    requires PossibleRun(s, run) && Settling(s) && NoneStranded(s, run)
    ensures Settling(After(s, run))
    decreases |run|
  {
    hide Settling, Next, Strands;
    if run != [] {
      SettlingExactly(s, run[0]);
      DrainedBecomesIdle(Next(s, run[0]), run[1..]);
    }
  }

  /** And what that task does. */
  lemma {:induction false} IdlingMakesIdle(s: State, id: nat, a: Answer)
    requires id in s.tasks && s.tasks[id] == Idling && s.drive.Some?
    ensures Advanced(s, id, a).drive == Some(s.drive.value.(activity := Idle)) && id !in Advanced(s, id, a).tasks
  {
  }

  // ------------------------------------------------ who wants the drive drained, and why

  /** The record carries intent `i`, and so does every task that could write
      one there. */
  ghost predicate Carried(s: State, i: Intent) {
    && s.drive.Some? && s.drive.value.drain.Some? && s.drive.value.drain.value.intent == i
    && (forall id :: id in s.tasks ==> Carries(s.tasks[id], i))
  }

  predicate Carries(t: Task, i: Intent) {
    && (t.Asking? || t.Posting? || t.Recording? || t.Marking? ==> t.intent == i)
    && (t.Polling? || t.Noting? || t.Forgotten? ==> t.leave == i.thenLeave)
  }

  /** A new request, or an end to the record itself. */
  predicate Overrules(s: State, step: Step, i: Intent)
    requires Possible(s, step)
  {
    match step
    case Begin(_, t) => t.Asking? && t.intent != i && Started(s, t).Some?
    case Advance(id, _) =>
      s.tasks[id].JoinWriting? ||
      (s.tasks[id].Dropping? && s.drive.Some? && InState(s.drive.value, Pending) && i.reason == "health")
    case Forgets => true
    case _ => false
  }

  /** An end the engine or the operator puts to the drain. */
  predicate Finishes(s: State, step: Step)
    requires Possible(s, step)
  {
    step.Advance? &&
    var t := s.tasks[step.id];
    t.CancelWriting? || ((t.Noting? || t.Recording?) && t.state != Running)
  }

  predicate Wanted(s: State) {
    s.drive.Some? && s.drive.value.drain.Some? && (s.drive.value.drain.value.state == Running || s.drive.value.drain.value.state == Pending)
  }

  ghost predicate AllCarry(s: State, i: Intent) { forall k :: k in s.tasks ==> Carries(s.tasks[k], i) }

  lemma {:induction false} NextCarriesStart(s: State, id: nat, t: Task, a: Answer, i: Intent)
    requires id in s.tasks && s.tasks[id] == t
    requires t.Asking? || t.Posting? || t.Recording? || t.Marking?
    requires AllCarry(s, i) && Carries(t, i)
    ensures AllCarry(AdvanceStart(s, id, t, a), i)
  {
    hide Recorded, MarkedPending, Noted, CancelNoted, ForgottenIntent, InState;
  }

  lemma {:induction false} NextCarriesPoll(s: State, id: nat, t: Task, a: Answer, i: Intent)
    requires id in s.tasks && s.tasks[id] == t
    requires t.Polling? || t.Noting? || t.Forgotten? || t.Idling? || t.Resetting?
    requires AllCarry(s, i) && Carries(t, i)
    ensures AllCarry(AdvancePoll(s, id, t, a), i)
  {
    hide Recorded, MarkedPending, Noted, CancelNoted, ForgottenIntent, InState;
  }

  lemma {:induction false} NextCarriesRetire(s: State, id: nat, t: Task, a: Answer, i: Intent)
    requires id in s.tasks && s.tasks[id] == t
    requires t.Retiring? || t.Closing? || t.TakingOut? || t.Announcing?
    requires AllCarry(s, i) && Carries(t, i)
    ensures AllCarry(AdvanceRetire(s, id, t, a), i)
  {
    hide Recorded, MarkedPending, Noted, CancelNoted, ForgottenIntent, InState;
  }

  lemma {:induction false} NextCarriesOther(s: State, id: nat, t: Task, a: Answer, i: Intent)
    requires id in s.tasks && s.tasks[id] == t
    requires t.Cancelling? || t.CancelWriting? || t.Dropping? || t.Joining? || t.JoinWriting? || t.Leaving? || t.LeaveWriting? || t.Listing? || t.Reconciling?
    requires AllCarry(s, i) && Carries(t, i)
    ensures AllCarry(AdvanceOther(s, id, t, a), i)
  {
    hide Recorded, MarkedPending, Noted, CancelNoted, ForgottenIntent, InState;
  }

  lemma {:induction false} NextCarries(s: State, id: nat, a: Answer, i: Intent)
    requires Carried(s, i) && id in s.tasks
    ensures forall k :: k in Advanced(s, id, a).tasks ==> Carries(Advanced(s, id, a).tasks[k], i)
  {
    assert AllCarry(s, i) && Carries(s.tasks[id], i);
    assert AllCarry(Advanced(s, id, a), i) by {
      AdvancedCarries(s, id, a, i);
    }
  }

  lemma {:induction false} AdvancedCarries(s: State, id: nat, a: Answer, i: Intent)
    requires AllCarry(s, i) && id in s.tasks && Carries(s.tasks[id], i)
    ensures AllCarry(Advanced(s, id, a), i)
  {
    hide AdvanceStart, AdvancePoll, AdvanceRetire, AdvanceOther, AllCarry, Carries;
    var t := s.tasks[id];
    if t.Asking? || t.Posting? || t.Recording? || t.Marking? {
      NextCarriesStart(s, id, t, a, i);
    } else if t.Polling? || t.Noting? || t.Forgotten? || t.Idling? || t.Resetting? {
      NextCarriesPoll(s, id, t, a, i);
    } else if t.Retiring? || t.Closing? || t.TakingOut? || t.Announcing? {
      NextCarriesRetire(s, id, t, a, i);
    } else {
      NextCarriesOther(s, id, t, a, i);
    }
  }

  /** One step: the intent survives it exactly when it is not overruled. */
  lemma {:induction false} IntentStep(s: State, step: Step, i: Intent)
    requires Carried(s, i) && Possible(s, step)
    ensures !Overrules(s, step, i) <==> Carried(Next(s, step), i)
    ensures !Overrules(s, step, i) && Wanted(s) && !Finishes(s, step) ==> Wanted(Next(s, step))
  {
    if step.Advance? {
      hide Advanced;
      DriveWritten(s, step.id, step.answer);
      NextCarries(s, step.id, step.answer, i);
      assert Carries(s.tasks[step.id], i);
    } else {
      IntentWorld(s, step, i);
    }
  }

  lemma {:induction false} IntentWorld(s: State, step: Step, i: Intent)
    requires Carried(s, i) && Possible(s, step) && !step.Advance?
    ensures !Overrules(s, step, i) <==> Carried(Next(s, step), i)
    ensures !Overrules(s, step, i) && Wanted(s) ==> Wanted(Next(s, step))
  {
    if step.Begin? {
      var t := Started(s, step.task);
      if t.Some? { assert Next(s, step).tasks[step.id] == t.value; }
    }
  }

  ghost predicate Undisturbed(s: State, run: seq<Step>, i: Intent)
    requires PossibleRun(s, run)
    decreases |run|
  {
    run == [] || (!Overrules(s, run[0], i) && Undisturbed(Next(s, run[0]), run[1..], i))
  }

  ghost predicate Unfinished(s: State, run: seq<Step>)
    requires PossibleRun(s, run)
    decreases |run|
  {
    run == [] || (!Finishes(s, run[0]) && Unfinished(Next(s, run[0]), run[1..]))
  }

  /** Through any run of refusals, restarts that forget the drain, and drains
      the engine began by itself, with the tasks interleaved as they come, a
      drain keeps the reason and the retire flag it was asked with; and it
      stays wanted until the engine or an operator ends it. */
  lemma {:induction false} IntentKept(s: State, run: seq<Step>, i: Intent)
    requires PossibleRun(s, run) && Carried(s, i) && Undisturbed(s, run, i)
    ensures Carried(After(s, run), i)
    ensures Wanted(s) && Unfinished(s, run) ==> Wanted(After(s, run))
    decreases |run|
  {
    hide Carried, Next, Overrules, Finishes, Wanted;
    if run != [] {
      IntentStep(s, run[0], i);
      IntentKept(Next(s, run[0]), run[1..], i);
    }
  }
}
