/** The daemon's drain operations as it runs them when no other task meddles:
    each is a run of the steps of `Drain`, and a fleet tick after another
    brings a retiring drive out of the fleet. */
module DrainDaemon {
  import opened Common
  import opened Drain

  // ------------------------------------------------ whole operations

  /** `start_drain`; none when it fails. */
  function StartDone(d: Drive, i: Intent, status: Answer, post: Answer): Option<Drive> {
    if d.membership != Fleet then None
    else if InState(d, Running) then Some(d)
    else if status == Says(Running) then Some(Recorded(d, Running, i))
    else if !status.Says? && !status.NoRecord? then None
    else if post.Says? then Some(Recorded(d, post.state, i))
    else None
  }

  /** `request_drain`: what cannot start now is kept as pending. */
  function RequestDone(d: Drive, i: Intent, status: Answer, post: Answer): Drive {
    var r := StartDone(d, i, status, post);
    if r.Some? then r.value else if d.membership == Fleet then MarkedPending(d, i) else d
  }

  function RetryDone(d: Drive, status: Answer, post: Answer): Drive {
    if DrainDue(d) then RequestDone(d, d.drain.value.intent, status, post) else d
  }

  function RetireDone(d: Drive, closed: Answer): Drive {
    if closed == Yes then d.(membership := Out, activity := Idle) else d
  }

  /** One running drain followed: the drive, and whether it is announced. */
  function PollDone(d: Drive, status: Answer, closed: Answer): (Drive, bool) {
    if !InState(d, Running) then (d, false)
    else
      var leave := d.drain.value.intent.thenLeave;
      match status
      case NoRecord => (MarkedPending(d, ForgottenIntent(d, leave)), false)
      case Says(p) =>
        var n := Noted(d, p);
        (match p
         case Running => (n, false)
         case Stuck => (n, false)
         case Empty => if leave then (RetireDone(n, closed), closed == Yes) else (n.(activity := Idle), false)
         case _ => (n.(activity := Reset(n.activity)), false))
      case _ => (d, false)
  }

  /** The inventory's entry for a drive, as the daemon changes it. */
  class Entry {
    var membership: Membership
    var activity: Activity
    var drain: Option<Record>

    ghost function View(): Drive
      reads this
    {
      Drive(membership, activity, drain)
    }

    constructor (d: Drive)
      ensures View() == d
    {
      membership, activity, drain := d.membership, d.activity, d.drain;
    }

    method StartDrain(i: Intent, status: Answer, post: Answer) returns (ok: bool)
      modifies this
      ensures ok == StartDone(old(View()), i, status, post).Some?
      ensures View() == if ok then StartDone(old(View()), i, status, post).value else old(View())
    {
      if membership != Fleet { return false; }
      if drain.Some? && drain.value.state == Running { return true; }
      var state: Progress;
      if status == Says(Running) {
        state := Running;
      } else if !status.Says? && !status.NoRecord? {
        return false;
      } else if post.Says? {
        state := post.state;
      } else {
        return false;
      }
      drain := Some(Record(state, i));
      if state == Running { activity := Draining; }
      ok := true;
    }

    method MarkPending(i: Intent) returns (first: bool)
      modifies this
      ensures View() == MarkedPending(old(View()), i)
      ensures first <==> !InState(old(View()), Pending)
    {
      var was := drain.Some? && drain.value.state == Pending;
      var intent := if was then drain.value.intent else i;
      drain := Some(Record(Pending, intent));
      if activity == Draining { activity := Idle; }
      first := !was;
    }

    method RequestDrain(i: Intent, status: Answer, post: Answer) returns (ok: bool)
      modifies this
      ensures View() == RequestDone(old(View()), i, status, post)
      ensures ok == StartDone(old(View()), i, status, post).Some?
    {
      ok := StartDrain(i, status, post);
      if !ok && membership == Fleet {
        var first := MarkPending(i);
      }
    }

    method RetryPending(status: Answer, post: Answer)
      modifies this
      ensures View() == RetryDone(old(View()), status, post)
    {
      if membership == Fleet && activity != Missing && drain.Some? && drain.value.state == Pending {
        var ok := RequestDrain(drain.value.intent, status, post);
      }
    }

    method Retire(closed: Answer) returns (announced: bool)
      modifies this
      ensures View() == RetireDone(old(View()), closed) && announced == (closed == Yes)
    {
      announced := closed == Yes;
      if announced {
        membership := Out;
        activity := Idle;
      }
    }

    method PollDrain(status: Answer, closed: Answer) returns (announced: bool)
      modifies this
      ensures (View(), announced) == PollDone(old(View()), status, closed)
    {
      announced := false;
      if drain.None? || drain.value.state != Running { return; }
      var leave := drain.value.intent.thenLeave;
      match status {
        case NoRecord => var first := MarkPending(Intent(drain.value.intent.reason, leave));
        case Says(p) =>
          drain := Some(drain.value.(state := p));
          match p {
            case Running =>
            case Stuck =>
            case Empty =>
              if leave { announced := Retire(closed); } else { activity := Idle; }
            case _ =>
              if activity == Draining { activity := Idle; }
          }
        case _ =>
      }
    }

    method CancelDrain(ok: bool)
      modifies this
      ensures View() == if ok then CancelNoted(old(View())) else old(View())
    {
      if ok {
        if drain.Some? { drain := Some(drain.value.(state := Cancelled)); }
        if activity == Draining { activity := Idle; }
      }
    }
  }

  // ------------------------------------------------ what they come to, answer by answer

  /** The engine still has the drain under way, or did not say. */
  predicate GoesOn(status: Answer) {
    status == Says(Running) || status == Says(Stuck) || (!status.Says? && status != NoRecord)
  }

  /** One poll of a running drain, whatever the answers. Still `Draining`
      exactly while the drain goes on or the close of a drained drive that is
      to leave was refused; out and announced exactly when that close was
      granted; and otherwise idle, if it was draining. The record says what
      the engine said, or that the drain has to be asked for again, and keeps
      its reason and its flag. */
  lemma {:induction false} PollMeans(d: Drive, status: Answer, closed: Answer)
    requires InState(d, Running)
    ensures var (r, announced) := PollDone(d, status, closed);
      var leaves := status == Says(Empty) && d.drain.value.intent.thenLeave;
      && (d.activity == Draining ==> (r.activity == Draining <==> GoesOn(status) || (leaves && closed != Yes)))
      && (r.activity != d.activity ==> r.activity == Idle)
      && (d.activity != Draining ==> (r.activity != d.activity ==> status == Says(Empty) && (leaves ==> closed == Yes)))
      && (status == Says(Empty) && (leaves ==> closed == Yes) ==> r.activity == Idle)
      && (announced <==> leaves && closed == Yes)
      && r.membership == (if announced then Out else d.membership)
      && r.drain.Some? && r.drain.value.intent == d.drain.value.intent
      && r.drain.value.state == (match status case Says(p) => p case NoRecord => Pending case _ => Running)
  {
  }

  /** A request to drain, whatever the answers: nothing for a drive outside the
      fleet or one already draining; else running with this intent exactly if
      the engine has it running or starts it so, on record in whatever other
      word it answers the start with, and else pending, for whoever asked
      first. It is `Draining` from then on exactly if the drain runs. */
  lemma {:induction false} RequestMeans(d: Drive, i: Intent, status: Answer, post: Answer)
    ensures var r := RequestDone(d, i, status, post);
      var asked := d.membership == Fleet && !InState(d, Running);
      var posted := status != Says(Running) && (status.Says? || status == NoRecord) && post.Says?;
      && (!asked ==> r == d)
      && (asked && status == Says(Running) ==> r == Drive(Fleet, Draining, Some(Record(Running, i))))
      && (asked && posted ==> r == Drive(Fleet, if post.state == Running then Draining else d.activity, Some(Record(post.state, i))))
      && (asked && status != Says(Running) && !posted ==>
            r == Drive(Fleet, if d.activity == Draining then Idle else d.activity,
                       Some(Record(Pending, if InState(d, Pending) then d.drain.value.intent else i))))
      && (StartDone(d, i, status, post).Some? <==> d.membership == Fleet && (InState(d, Running) || status == Says(Running) || posted))
  {
  }

  /** A retry asks exactly for a pending drain of a fleet drive that is there,
      with its own intent, which it keeps whatever is answered. */
  lemma {:induction false} RetryMeans(d: Drive, status: Answer, post: Answer)
    ensures var r := RetryDone(d, status, post);
      var due := d.membership == Fleet && d.activity != Missing && InState(d, Pending);
      && (!due ==> r == d)
      && (due ==> r.drain.Some? && r.drain.value.intent == d.drain.value.intent && r.membership == Fleet)
      && (due && d.activity != Draining ==> (r.activity == Draining <==> InState(r, Running)))
      && (due ==> (InState(r, Running) <==> status == Says(Running) || ((status.Says? || status == NoRecord) && post == Says(Running))))
  {
  }

  /** A cancel: the record says so, the rest of it stays, and a drive that was
      draining is idle. */
  lemma {:induction false} CancelMeans(d: Drive)
    ensures var r := CancelNoted(d);
      && r.membership == d.membership && r.activity == (if d.activity == Draining then Idle else d.activity)
      && (d.drain.None? ==> r.drain.None?)
      && (d.drain.Some? ==> r.drain == Some(Record(Cancelled, d.drain.value.intent)))
  {
  }

  // ------------------------------------------------ as runs of steps

  function RetireSteps(id: nat, closed: Answer): seq<Step> {
    [Advance(id, No), Advance(id, closed)] + if closed == Yes then [Advance(id, No), Advance(id, No)] else []
  }

  /** The steps of a poll once it has its status. */
  function HeardSteps(id: nat, leave: bool, status: Answer, closed: Answer): seq<Step> {
    match status
    case NoRecord => [Advance(id, No)]
    case Says(p) =>
      (match p
       case Running => [Advance(id, No)]
       case Stuck => [Advance(id, No)]
       case Empty => [Advance(id, No)] + if leave then RetireSteps(id, closed) else [Advance(id, No)]
       case _ => [Advance(id, No)] + [Advance(id, No)])
    case _ => []
  }

  /** The steps of one poll, its engine answers put where they come. */
  function PollSteps(id: nat, leave: bool, status: Answer, closed: Answer): seq<Step> {
    [Begin(id, Polling(leave))] + ([Advance(id, status)] + HeardSteps(id, leave, status, closed))
  }

  lemma {:induction false} TwoRuns(s: State, a: seq<Step>, b: seq<Step>)
    requires PossibleRun(s, a) && PossibleRun(After(s, a), b)
    ensures PossibleRun(s, a + b) && After(s, a + b) == After(After(s, a), b)
    decreases |a|
  {
    hide Next, Possible;
    if a == [] {
      assert a + b == b;
    } else {
      TwoRuns(Next(s, a[0]), a[1..], b);
      assert (a + b)[1..] == a[1..] + b;
    }
  }

  lemma {:induction false} OneStep(s: State, step: Step)
    requires Possible(s, step)
    ensures PossibleRun(s, [step]) && After(s, [step]) == Next(s, step)
  {
    hide Next, Possible;
    assert [step][1..] == [];
    assert PossibleRun(Next(s, step), []);
  }

  lemma {:induction false} MoreSteps(s: State, step: Step, rest: seq<Step>)
    requires Possible(s, step) && PossibleRun(Next(s, step), rest)
    ensures PossibleRun(s, [step] + rest) && After(s, [step] + rest) == After(Next(s, step), rest)
  {
    hide Next, Possible;
    OneStep(s, step);
    TwoRuns(s, [step], rest);
  }

  /** Retiring, from the moment the drain was reported empty. */
  lemma {:induction false} RetireIsRun(s: State, id: nat, closed: Answer)
    requires id in s.tasks && s.tasks[id] == Retiring && s.drive.Some?
    requires closed == Yes ==> !s.engine.open || s.engine.legs == 0
    requires !closed.Says?
    ensures PossibleRun(s, RetireSteps(id, closed))
    ensures var t := After(s, RetireSteps(id, closed));
      && t.drive == Some(RetireDone(s.drive.value, closed)) && t.tasks == s.tasks - {id}
      && (SafeToPull(id) in t.log <==> SafeToPull(id) in s.log || closed == Yes)
  {
    hide PossibleRun, After;
    var s1 := Next(s, Advance(id, No));
    var s2 := Next(s1, Advance(id, closed));
    if closed == Yes {
      var s3 := Next(s2, Advance(id, No));
      var s4 := Next(s3, Advance(id, No));
      OneStep(s3, Advance(id, No));
      MoreSteps(s2, Advance(id, No), [Advance(id, No)]);
      MoreSteps(s1, Advance(id, closed), [Advance(id, No)] + [Advance(id, No)]);
      MoreSteps(s, Advance(id, No), [Advance(id, closed)] + ([Advance(id, No)] + [Advance(id, No)]));
      assert RetireSteps(id, closed) == [Advance(id, No)] + ([Advance(id, closed)] + ([Advance(id, No)] + [Advance(id, No)]));
      assert s4.tasks == s.tasks - {id};
      assert s4.log == s.log + [Closed(id), OutOfFleet(id), SafeToPull(id)];
    } else {
      OneStep(s1, Advance(id, closed));
      MoreSteps(s, Advance(id, No), [Advance(id, closed)]);
      assert RetireSteps(id, closed) == [Advance(id, No)] + [Advance(id, closed)];
      assert s2.tasks == s.tasks - {id};
    }
  }

  ghost predicate Answers(s: State, status: Answer, closed: Answer) {
    && !closed.Says? && (status.Says? ==> status.state != Pending)
    && (closed == Yes ==> !s.engine.open || s.engine.legs == 0)
  }

  /** What a poll's steps come to, from `s` on: the drive, its own task gone,
      and whether it said the drive is safe to pull. */
  ghost predicate ComesTo(s: State, id: nat, steps: seq<Step>, done: (Drive, bool)) {
    && PossibleRun(s, steps)
    && After(s, steps).drive == Some(done.0)
    && After(s, steps).tasks == s.tasks - {id}
    && (SafeToPull(id) in After(s, steps).log <==> SafeToPull(id) in s.log || done.1)
  }

  lemma {:induction false} NotingIsRun(s: State, id: nat, leave: bool, p: Progress, closed: Answer)
    requires id in s.tasks && s.tasks[id] == Noting(leave, p) && s.drive.Some? && Answers(s, Says(p), closed)
    requires InState(s.drive.value, Running) && s.drive.value.drain.value.intent.thenLeave == leave
    ensures ComesTo(s, id, HeardSteps(id, leave, Says(p), closed), PollDone(s.drive.value, Says(p), closed))
  {
    hide PossibleRun, After, RetireSteps;
    var s1 := Next(s, Advance(id, No));
    OneStep(s, Advance(id, No));
    if p == Running || p == Stuck {
      assert s1.tasks == s.tasks - {id};
    } else if p == Empty && leave {
      RetireIsRun(s1, id, closed);
      MoreSteps(s, Advance(id, No), RetireSteps(id, closed));
      assert s1.tasks - {id} == s.tasks - {id};
      assert s1.log == s.log + [ReportedEmpty(id)];
    } else {
      OneStep(s1, Advance(id, No));
      MoreSteps(s, Advance(id, No), [Advance(id, No)]);
      assert Next(s1, Advance(id, No)).tasks == s.tasks - {id};
    }
  }

  lemma {:induction false} HeardIsRun(s: State, id: nat, leave: bool, status: Answer, closed: Answer)
    requires id in s.tasks && s.tasks[id] == Polling(leave) && s.drive.Some? && Answers(s, status, closed)
    requires InState(s.drive.value, Running) && s.drive.value.drain.value.intent.thenLeave == leave
    ensures ComesTo(s, id, [Advance(id, status)] + HeardSteps(id, leave, status, closed), PollDone(s.drive.value, status, closed))
  {
    hide PossibleRun, After, RetireSteps, MarkedPending, Noted;
    var t := Next(s, Advance(id, status));
    match status {
      case NoRecord =>
        OneStep(t, Advance(id, No));
        assert Next(t, Advance(id, No)).tasks == s.tasks - {id};
      case Says(p) =>
        hide PollDone, HeardSteps;
        NotingIsRun(t, id, leave, p, closed);
        assert t.tasks - {id} == s.tasks - {id};
      case _ =>
        NoSteps(t);
        assert t.tasks == s.tasks - {id};
    }
    MoreSteps(s, Advance(id, status), HeardSteps(id, leave, status, closed));
  }

  /** A poll nobody interrupts is a run of the protocol's steps: what is
      proved of every run is proved of it. */
  lemma {:induction false} PollIsRun(s: State, id: nat, status: Answer, closed: Answer)
    requires Unused(s, id) && s.drive.Some? && Answers(s, status, closed)
    requires InState(s.drive.value, Running)
    ensures ComesTo(s, id, PollSteps(id, s.drive.value.drain.value.intent.thenLeave, status, closed),
                    PollDone(s.drive.value, status, closed))
  {
    hide PossibleRun, After, HeardSteps, PollDone;
    var leave := s.drive.value.drain.value.intent.thenLeave;
    var t := Next(s, Begin(id, Polling(leave)));
    assert t == s.(tasks := s.tasks[id := Polling(leave)]);
    HeardIsRun(t, id, leave, status, closed);
    MoreSteps(s, Begin(id, Polling(leave)), [Advance(id, status)] + HeardSteps(id, leave, status, closed));
    assert t.tasks - {id} == s.tasks - {id};
  }

  lemma {:induction false} NoSteps(s: State)
    ensures PossibleRun(s, []) && After(s, []) == s
  {
  }

  /** The steps of a request that insists (an automatic drain, a retry), after
      the one that begins it. */
  function AskSteps(id: nat, status: Answer, post: Answer): seq<Step> {
    [Advance(id, status)] +
    (if status == Says(Running) then [Advance(id, No)]
     else if !status.Says? && !status.NoRecord? then [Advance(id, No)]
     else [Advance(id, post), Advance(id, No)])
  }

  lemma {:induction false} AskIsRun(s: State, id: nat, i: Intent, status: Answer, post: Answer)
    requires id in s.tasks && s.tasks[id] == Asking(i, true) && s.drive.Some?
    requires s.drive.value.membership == Fleet && !InState(s.drive.value, Running)
    requires (status.Says? ==> status.state != Pending) && (post.Says? ==> post.state != Pending)
    ensures var steps := AskSteps(id, status, post);
      && PossibleRun(s, steps)
      && After(s, steps).drive == Some(RequestDone(s.drive.value, i, status, post))
      && After(s, steps).tasks == s.tasks - {id}
  {
    hide PossibleRun, After;
    var s1 := Next(s, Advance(id, status));
    if s1.tasks[id].Posting? {
      var s2 := Next(s1, Advance(id, post));
      var s3 := Next(s2, Advance(id, No));
      OneStep(s2, Advance(id, No));
      MoreSteps(s1, Advance(id, post), [Advance(id, No)]);
      MoreSteps(s, Advance(id, status), [Advance(id, post)] + [Advance(id, No)]);
      assert AskSteps(id, status, post) == [Advance(id, status)] + ([Advance(id, post)] + [Advance(id, No)]);
      assert s3.tasks == s.tasks - {id};
    } else {
      OneStep(s1, Advance(id, No));
      MoreSteps(s, Advance(id, status), [Advance(id, No)]);
      assert Next(s1, Advance(id, No)).tasks == s.tasks - {id};
    }
  }

  /** And so is a retry. */
  lemma {:induction false} RetryIsRun(s: State, id: nat, status: Answer, post: Answer)
    requires Unused(s, id) && s.drive.Some? && DrainDue(s.drive.value)
    requires (status.Says? ==> status.state != Pending) && (post.Says? ==> post.state != Pending)
    ensures var steps := [Retry(id)] + AskSteps(id, status, post);
      && PossibleRun(s, steps)
      && After(s, steps).drive == Some(RetryDone(s.drive.value, status, post))
      && After(s, steps).tasks == s.tasks
  {
    hide PossibleRun, After, AskSteps, RequestDone;
    var s1 := Next(s, Retry(id));
    var i := s.drive.value.drain.value.intent;
    AskIsRun(s1, id, i, status, post);
    MoreSteps(s, Retry(id), AskSteps(id, status, post));
    assert s1.tasks - {id} == s.tasks;
  }

  // ------------------------------------------------ getting there

  /** A drive and an engine that cooperates: it starts what it is asked to,
      answers what is so, and closes a drained drive. */
  datatype Node = Node(drive: Drive, started: bool, legs: nat, announced: bool)

  function StatusOf(n: Node): Answer {
    if !n.started then NoRecord else if n.legs == 0 then Says(Empty) else Says(Running)
  }

  /** One fleet tick, in its order, and then the engine at work. */
  function Tick(n: Node, moved: nat): Node {
    var poll := PollDone(n.drive, StatusOf(n), Yes);
    var asks := DrainDue(poll.0);
    var d := RetryDone(poll.0, StatusOf(n), Says(Running));
    var started := n.started || asks;
    Node(d, started, if started then n.legs - Min(moved, n.legs) else n.legs, n.announced || poll.1)
  }

  function Ticks(n: Node, work: seq<nat>): Node
    decreases |work|
  {
    if work == [] then n else Ticks(Tick(n, work[0]), work[1..])
  }

  ghost predicate OnItsWay(n: Node) {
    && n.drive.membership == Fleet && n.drive.activity != Missing
    && n.drive.drain.Some? && n.drive.drain.value.intent.thenLeave
    && (InState(n.drive, Pending) || (InState(n.drive, Running) && n.started))
  }

  ghost predicate Retired(n: Node) { n.drive.membership == Out && n.drive.activity == Idle && n.legs == 0 && n.announced }

  /** Pending, then running with the legs to go, then out. */
  function Stage(n: Node): nat {
    if n.drive.membership == Out then 0 else if InState(n.drive, Pending) then 2 else 1
  }

  /** Every tick of a retiring drive lowers (stage, legs), lexicographically. */
  lemma {:induction false} TickFalls(n: Node, moved: nat)
    requires OnItsWay(n) && moved >= 1
    ensures var t := Tick(n, moved);
      && (Stage(t) < Stage(n) || (Stage(t) == Stage(n) && t.legs < n.legs))
      && (OnItsWay(t) || Retired(t))
      && (OnItsWay(t) ==> InState(t.drive, Running))
  {
  }

  lemma {:induction false} RetiresWhenRunning(n: Node, work: seq<nat>)
    requires OnItsWay(n) && InState(n.drive, Running)
    requires (forall k :: 0 <= k < |work| ==> work[k] >= 1) && |work| > n.legs
    ensures Retired(Ticks(n, work))
    decreases |work|
  {
    hide Tick, OnItsWay, Retired, InState, Stage;
    TickFalls(n, work[0]);
    var t := Tick(n, work[0]);
    if Retired(t) {
      StaysRetired(t, work[1..]);
    } else {
      RunningLegs(n, work[0]);
      RetiresWhenRunning(t, work[1..]);
    }
  }

  lemma {:induction false} RunningLegs(n: Node, moved: nat)
    requires OnItsWay(n) && InState(n.drive, Running) && moved >= 1
    ensures var t := Tick(n, moved); Retired(t) || t.legs < n.legs
  {
  }

  lemma {:induction false} StaysRetired(n: Node, work: seq<nat>)
    requires Retired(n)
    ensures Retired(Ticks(n, work))
    decreases |work|
  {
    hide Retired, PollDone, RetryDone;
    if work != [] {
      RetiredTick(n, work[0]);
      StaysRetired(Tick(n, work[0]), work[1..]);
    }
  }

  lemma {:induction false} RetiredTick(n: Node, moved: nat)
    requires Retired(n)
    ensures Retired(Tick(n, moved))
  {
  }

  /** Which drives marked to leave the ticks bring out: with an engine that
      cooperates and work enough, exactly those whose drain is pending or
      running. One recorded as `empty` when it was started (or stuck, or
      cancelled) stays in the fleet for ever: no poll follows it. */
  lemma {:induction false} RetiredExactly(n: Node, work: seq<nat>)
    requires n.drive.membership == Fleet && n.drive.activity != Missing
    requires n.drive.drain.Some? && n.drive.drain.value.intent.thenLeave && (InState(n.drive, Running) ==> n.started)
    requires (forall k :: 0 <= k < |work| ==> work[k] >= 1) && |work| > n.legs + 1
    ensures Retired(Ticks(n, work)) <==> InState(n.drive, Pending) || InState(n.drive, Running)
  {
    hide Ticks, Tick;
    if InState(n.drive, Running) {
      RetiresWhenRunning(n, work);
    } else if InState(n.drive, Pending) {
      TickFalls(n, work[0]);
      var t := Tick(n, work[0]);
      TicksUnfold(n, work);
      LegsOnlyFall(n, work[0]);
      if Retired(t) { StaysRetired(t, work[1..]); } else { RetiresWhenRunning(t, work[1..]); }
    } else {
      NeverFollowed(n, work);
    }
  }

  lemma {:induction false} TicksUnfold(n: Node, work: seq<nat>)
    requires work != []
    ensures Ticks(n, work) == Ticks(Tick(n, work[0]), work[1..])
  {
  }

  lemma {:induction false} LegsOnlyFall(n: Node, moved: nat)
    ensures Tick(n, moved).legs <= n.legs
  {
  }

  lemma {:induction false} NeverFollowed(n: Node, work: seq<nat>)
    requires !InState(n.drive, Running) && !InState(n.drive, Pending)
    ensures Ticks(n, work).drive == n.drive
    decreases |work|
  {
    if work != [] { NeverFollowed(Tick(n, work[0]), work[1..]); }
  }

  /** The drive whose drain is answered `empty` at once. */
  lemma {:induction false} StartedEmptyNeverLeaves(i: Intent, work: seq<nat>)
    requires i.thenLeave
    ensures var d := RequestDone(Drive(Fleet, Idle, None), i, NoRecord, Says(Empty));
      !Retired(Ticks(Node(d, true, 0, false), work))
  {
    hide Retired, Ticks;
    var n := Node(RequestDone(Drive(Fleet, Idle, None), i, NoRecord, Says(Empty)), true, 0, false);
    NeverFollowed(n, work);
    StillFleet(n, work);
  }

  lemma {:induction false} StillFleet(n: Node, work: seq<nat>)
    requires Ticks(n, work).drive == n.drive && n.drive.membership == Fleet
    ensures !Retired(Ticks(n, work))
  {
  }
}
