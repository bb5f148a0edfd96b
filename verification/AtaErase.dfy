/** The ATA security erase: SET PASSWORD, ERASE PREPARE, ERASE UNIT, and an
    IDENTIFY that must read security off (Security feature set of ACS-3). Any
    command may fail, a failed one may have taken effect, and a password or an
    erase that was answered good may not have. */
module AtaErase {
  import opened Common

  type Password = string

  /** What the drive really holds. */
  datatype Disk = Disk(password: Option<Password>, erased: bool)

  datatype Command = SetPassword(p: Password) | Prepare | EraseUnit(p: Password, enhanced: bool) | DisablePassword(p: Password)

  /** Taking effect: ERASE UNIT and DISABLE PASSWORD want the right password. */
  predicate CanTake(d: Disk, c: Command) {
    match c
    case EraseUnit(p, _) => d.password == Some(p)
    case DisablePassword(p) => d.password == Some(p) || d.password.None?
    case _ => true
  }

  function Taken(d: Disk, c: Command): Disk {
    match c
    case SetPassword(p) => d.(password := Some(p))
    case Prepare => d
    case EraseUnit(_, _) => Disk(None, true)
    case DisablePassword(_) => d.(password := None)
  }

  /** A good answer that need not be true: a password is not set after all, or
      the erase left everything as it was. Without a password on it a drive
      answers no erase good, and what it says of DISABLE PASSWORD is so. */
  predicate MayLie(d: Disk, c: Command) { c.SetPassword? || c.Prepare? || (c.EraseUnit? && d.password.Some?) }

  /** `ok`: the drive answered that it did it. */
  predicate Effect(before: Disk, c: Command, ok: bool, after: Disk) {
    (CanTake(before, c) && after == Taken(before, c)) || ((!ok || MayLie(before, c)) && after == before)
  }

  // ------------------------------------------------ the plan

  datatype Security = Security(supported: bool, enabled: bool, locked: bool, frozen: bool, countExpired: bool, enhancedSupported: bool, normal: Option<nat>, enhanced: Option<nat>)

  datatype Plan = Plan(setPassword: bool, enhanced: bool, minutes: Option<nat>)

  datatype Refusal = Unsupported | Frozen | CountExpired | ForeignPassword | NoEnhanced

  datatype Planned = Go(plan: Plan) | Refuse(why: Refusal)

  function PlanSecurityErase(sec: Security, ours: bool, enhanced: Option<bool>): Planned {
    if !sec.supported then Refuse(Unsupported)
    else if sec.frozen then Refuse(Frozen)
    else if sec.countExpired then Refuse(CountExpired)
    else if sec.enabled && !ours then Refuse(ForeignPassword)
    else if enhanced == Some(true) && !sec.enhancedSupported then Refuse(NoEnhanced)
    else
      var e := if enhanced.Some? then enhanced.value else sec.enhancedSupported;
      Go(Plan(!sec.enabled, e, if e then sec.enhanced else sec.normal))
  }

  /** Exactly when an erase goes ahead, and with what: never over a password
      that is not the job's, never setting a password over one, enhanced when
      asked or when nothing is asked of a drive that can, and with the
      estimate of the erase it chose. */
  lemma {:induction false} PlannedExactly(sec: Security, ours: bool, enhanced: Option<bool>)
    ensures var r := PlanSecurityErase(sec, ours, enhanced);
      && (r.Go? <==> sec.supported && !sec.frozen && !sec.countExpired && (sec.enabled ==> ours) && (enhanced == Some(true) ==> sec.enhancedSupported))
      && (r.Go? ==> (r.plan.setPassword <==> !sec.enabled) && (r.plan.setPassword || ours))
      && (r.Go? ==> (r.plan.enhanced <==> sec.enhancedSupported && enhanced != Some(false)))
      && (r.Go? ==> r.plan.minutes == if sec.enhancedSupported && enhanced != Some(false) then sec.enhanced else sec.normal)
  {
  }

  const MAX_WAIT: nat := 172_800_000

  function TimeoutMs(minutes: Option<nat>): nat {
    if minutes.Some? && minutes.value < 508 then Min(Min((minutes.value * 3 / 2 + 30) * 60_000, 0xFFFF_FFFF), MAX_WAIT)
    else MAX_WAIT
  }

  /** The wait outlasts the drive's own estimate by half an hour exactly while
      that estimate is at most 2850 minutes: half as long again and half an
      hour below 508 minutes, and from there on 48 hours. */
  lemma {:induction false} TimeoutOutlastsEstimate(m: nat)
    ensures TimeoutMs(Some(m)) <= MAX_WAIT && TimeoutMs(None) == MAX_WAIT
    ensures TimeoutMs(Some(m)) >= (m + 30) * 60_000 <==> m <= 2850
    ensures TimeoutMs(Some(m)) == if m < 508 then (m + m / 2 + 30) * 60_000 else 48 * 60 * 60_000
  {
  }

  // ------------------------------------------------ one run

  datatype Result = Done | Failed(passwordSet: bool)

  /** A drive that answers as it likes. `sent` is what it was sent, each with
      its answer. */
  class Drive {
    var disk: Disk
    ghost var sent: seq<(Command, bool)>

    constructor (start: Disk)
      ensures disk == start && sent == []
    {
      disk, sent := start, [];
    }

    method Send(c: Command) returns (ok: bool)
      modifies this
      ensures sent == old(sent) + [(c, ok)]
      ensures Effect(old(disk), c, ok, disk)
    {
      var takes: bool := *;
      var answers: bool := *;
      ok := answers && (if takes then CanTake(disk, c) else MayLie(disk, c));
      if takes && CanTake(disk, c) { disk := Taken(disk, c); }
      sent := sent + [(c, ok)];
    }

    /** IDENTIFY: nothing when it cannot be read; else whether security is on. */
    method Identify() returns (r: Option<(bool, bool)>)
      ensures r.Some? ==> r.value.0 == disk.password.Some?
    {
      var readable: bool := *;
      var locked: bool := *;
      r := if readable then Some((disk.password.Some?, locked)) else None;
    }
  }

  /** The commands of one run, in the only orders there are. */
  ghost predicate Order(sent: seq<(Command, bool)>, p: Password, plan: Plan, r: Result) {
    var first := if plan.setPassword then 1 else 0;
    && |sent| <= first + 2
    && (plan.setPassword && |sent| >= 1 ==> sent[0].0 == SetPassword(p))
    && (|sent| > first ==> sent[first].0 == Prepare && (plan.setPassword ==> sent[0].1))
    && (|sent| > first + 1 ==> sent[first + 1].0 == if sent[first].1 then EraseUnit(p, plan.enhanced) else DisablePassword(p))
    && (r == Done ==> |sent| == first + 2 && sent[first + 1] == (EraseUnit(p, plan.enhanced), true))
  }

  /** How far a run goes on the answers it gets, and what it makes of them. */
  ghost predicate Told(sent: seq<(Command, bool)>, opens: bool, plan: Plan, read: Option<(bool, bool)>, r: Result) {
    var first := if plan.setPassword then 1 else 0;
    && (opens <==> sent != []) && (opens ==> |sent| == if plan.setPassword && !sent[0].1 then 1 else first + 2)
    && (r == Done <==> opens && (forall k :: 0 <= k < |sent| ==> sent[k].1) && read == Some((false, false)))
    && (r == Failed(false) <==>
          if sent == [] then plan.setPassword else sent[|sent| - 1].0.DisablePassword? && sent[|sent| - 1].1)
  }

  // ------------------------------------------------ a job, run after run

  /** `record` is the job's password in memory, `saved` the one on disk. */
  datatype Job = Job(disk: Disk, record: Option<Password>, saved: Option<Password>, pc: Pc)

  datatype Pc =
    | Idle
    | Setting(p: Password, enhanced: bool)
    | Preparing(p: Password, enhanced: bool)
    | Erasing(p: Password, enhanced: bool)
    | Disabling(p: Password)
    | Checking(p: Password)
    | Ending(keep: bool)

  datatype Step =
    | Start(sec: Security, newOne: Password, enhanced: Option<bool>, saves: bool)
    | OpenFails
    | Answers(ok: bool, disk: Disk)
    | Reads(security: Option<(bool, bool)>)
    | End(saves: bool)
    | Crash

  /** A command is with the drive. */
  predicate Commands(pc: Pc) { pc.Setting? || pc.Preparing? || pc.Erasing? || pc.Disabling? }

  function Sent(pc: Pc): Command
    requires Commands(pc)
  {
    match pc
    case Setting(p, _) => SetPassword(p)
    case Preparing(p, _) => Prepare
    case Erasing(p, e) => EraseUnit(p, e)
    case Disabling(p) => DisablePassword(p)
  }

  /** Where a command answered `ok` leads. */
  function Onward(pc: Pc, ok: bool): Pc
    requires Commands(pc)
  {
    match pc
    case Setting(p, e) => if ok then Preparing(p, e) else Ending(true)
    case Preparing(p, e) => if ok then Erasing(p, e) else Disabling(p)
    case Erasing(p, _) => if ok then Checking(p) else Ending(true)
    case Disabling(p) => Ending(!ok)
  }

  predicate Possible(j: Job, step: Step) {
    match step
    case Start(sec, _, _, _) => j.pc.Idle? && sec.enabled == j.disk.password.Some?
    case OpenFails => j.pc.Setting? || j.pc.Preparing?
    case Answers(ok, after) => Commands(j.pc) && Effect(j.disk, Sent(j.pc), ok, after)
    case Reads(r) => j.pc.Checking? && (r.Some? ==> r.value.0 == j.disk.password.Some?)
    case End(_) => j.pc.Ending?
    case Crash => true
  }

  function Next(j: Job, step: Step): Job
    requires Possible(j, step)
  {
    match step
    case Start(sec, newOne, enhanced, saves) =>
      var planned := PlanSecurityErase(sec, j.record.Some?, enhanced);
      if planned.Refuse? then j
      else
        var p := if j.record.Some? then j.record.value else newOne;
        var k := if j.record.Some? then j else j.(record := Some(p), saved := if saves then Some(p) else j.saved);
        k.(pc := if planned.plan.setPassword then Setting(p, planned.plan.enhanced) else Preparing(p, planned.plan.enhanced))
    case OpenFails => j.(pc := Ending(j.pc.Preparing?))
    case Answers(ok, after) => j.(disk := after, pc := Onward(j.pc, ok))
    case Reads(r) => j.(pc := Ending(r.None? || r.value.0 || r.value.1))
    case End(saves) =>
      var record := if j.pc.keep then j.record else None;
      j.(record := record, saved := if saves then record else j.saved, pc := Idle)
    case Crash => j.(record := j.saved, pc := Idle)
  }

  predicate PossibleRun(j: Job, run: seq<Step>)
    decreases |run|
  {
    run == [] || (Possible(j, run[0]) && PossibleRun(Next(j, run[0]), run[1..]))
  }

  function After(j: Job, run: seq<Step>): Job
    requires PossibleRun(j, run)
    decreases |run|
  {
    if run == [] then j else After(Next(j, run[0]), run[1..])
  }

  /** A job under way, its password on record and on disk. */
  function Running(disk: Disk, p: Password, plan: Plan): Job {
    Job(disk, Some(p), Some(p), if plan.setPassword then Setting(p, plan.enhanced) else Preparing(p, plan.enhanced))
  }

  /** The commands of a run, each with its answer. */
  ghost function Talk(j: Job, run: seq<Step>): seq<(Command, bool)>
    requires PossibleRun(j, run)
    decreases |run|
  {
    if run == [] then []
    else (if run[0].Answers? then [(Sent(j.pc), run[0].ok)] else []) + Talk(Next(j, run[0]), run[1..])
  }

  lemma {:induction false} Longer(j: Job, run: seq<Step>, step: Step) returns (longer: seq<Step>)
    requires PossibleRun(j, run) && Possible(After(j, run), step)
    ensures longer == run + [step] && PossibleRun(j, longer) && After(j, longer) == Next(After(j, run), step)
    ensures Talk(j, longer) == Talk(j, run) + if step.Answers? then [(Sent(After(j, run).pc), step.ok)] else []
    decreases |run|
  {
    hide Possible, Next, Sent;
    longer := run + [step];
    if run == [] {
      assert longer[1..] == [];
    } else {
      var rest := Longer(Next(j, run[0]), run[1..], step);
      assert longer[1..] == rest;
    }
  }

  /** One command of a job under way. */
  method Answered(d: Drive, c: Command, ghost j: Job, ghost run: seq<Step>, ghost pc: Pc, ghost talk: seq<(Command, bool)>)
    returns (ok: bool, ghost longer: seq<Step>)
    requires Commands(pc) && Sent(pc) == c
    requires PossibleRun(j, run) && After(j, run) == Job(d.disk, j.record, j.saved, pc) && Talk(j, run) == talk
    modifies d
    ensures d.sent == old(d.sent) + [(c, ok)] && Effect(old(d.disk), c, ok, d.disk)
    ensures PossibleRun(j, longer) && Talk(j, longer) == talk + [(c, ok)]
    ensures After(j, longer) == Job(d.disk, j.record, j.saved, Onward(pc, ok))
  {
    hide PossibleRun, After, Talk;
    ok := d.Send(c);
    longer := Longer(j, run, Answers(ok, d.disk));
  }

  /** From ERASE PREPARE on, with the password on the drive or on its way. */
  method EraseFrom(d: Drive, p: Password, e: bool, ghost j: Job, ghost run: seq<Step>, ghost talk: seq<(Command, bool)>)
    returns (r: Result, ghost read: Option<(bool, bool)>, ghost longer: seq<Step>, ghost first: bool, ghost second: bool)
    requires PossibleRun(j, run) && After(j, run) == Job(d.disk, j.record, j.saved, Preparing(p, e)) && Talk(j, run) == talk
    modifies d
    ensures var more := [(Prepare, first), (if first then EraseUnit(p, e) else DisablePassword(p), second)];
      d.sent == old(d.sent) + more && PossibleRun(j, longer) && Talk(j, longer) == talk + more
    ensures After(j, longer) == Job(d.disk, j.record, j.saved, Ending(r == Failed(true)))
    ensures r == Done <==> first && second && read == Some((false, false))
    ensures r == Failed(false) <==> !first && second
    ensures read.Some? ==> read.value.0 == d.disk.password.Some?
    ensures r == Done ==> d.disk == Disk(None, true)
    ensures r == Failed(false) ==> d.disk == Disk(None, old(d.disk.erased))
    ensures d.disk.password.Some? ==> d.disk.password == old(d.disk.password)
    ensures d.disk.erased && !old(d.disk.erased) ==> first
  {
    hide PossibleRun, After, Talk, Next, Possible;
    read := None;
    var ready;
    ready, longer := Answered(d, Prepare, j, run, Preparing(p, e), talk);
    first := ready;
    if !ready {
      var off;
      off, longer := Answered(d, DisablePassword(p), j, longer, Disabling(p), talk + [(Prepare, false)]);
      return Failed(!off), None, longer, first, off;
    }
    var erased;
    erased, longer := Answered(d, EraseUnit(p, e), j, longer, Erasing(p, e), talk + [(Prepare, true)]);
    second := erased;
    if !erased { return Failed(true), None, longer, first, second; }
    var after := d.Identify();
    longer := ReadBack(j, longer, after);
    if after.None? || after.value.0 || after.value.1 { return Failed(true), after, longer, first, second; }
    r, read := Done, after;
  }

  /** `opens`: whether the device can be opened; `read`: what the IDENTIFY at
      the end says, if it is asked for and can be read: whether security is on,
      and whether the drive is locked. */
  method AtaSecurityErase(d: Drive, p: Password, plan: Plan, opens: bool)
    returns (r: Result, ghost read: Option<(bool, bool)>, ghost run: seq<Step>, ghost talk: seq<(Command, bool)>)
    requires plan.setPassword ==> d.disk.password.None?
    modifies d
    ensures d.sent == old(d.sent) + talk
    ensures Order(talk, p, plan, r)
    ensures Told(talk, opens, plan, read, r) && (read.Some? ==> read.value.0 == d.disk.password.Some?)
    // the same is a possible run of the job, and what became of the password its end
    ensures var j := Running(old(d.disk), p, plan);
      && PossibleRun(j, run) && Talk(j, run) == talk
      && After(j, run) == Job(d.disk, Some(p), Some(p), Ending(r == Failed(true)))
    // done: security is off and the data is gone, also on a drive that lied about it
    ensures r == Done ==> d.disk == Disk(None, true)
    // a failure that claims no password left one nowhere, and erased nothing
    ensures r == Failed(false) ==> d.disk.password.None? && d.disk.erased == old(d.disk.erased)
    // whatever happened, the drive has no password but this one or its own
    ensures d.disk.password.Some? ==> d.disk.password == Some(p) || d.disk.password == old(d.disk.password)
    ensures d.disk.erased && !old(d.disk.erased) ==> |d.sent| > 0 && d.sent[|d.sent| - 1].0 == EraseUnit(p, plan.enhanced)
  {
    hide PossibleRun, After, Talk, Next, Possible;
    ghost var j := Running(d.disk, p, plan);
    var e := plan.enhanced;
    read, run, talk := None, [], [];
    NoRun(j);
    if !opens {
      run := Unopened(j, run);
      return Failed(!plan.setPassword), None, run, talk;
    }
    if plan.setPassword {
      var ok;
      ok, run := Answered(d, SetPassword(p), j, run, Setting(p, e), talk);
      talk := talk + [(SetPassword(p), ok)];
      // a failed SET PASSWORD may still have set it
      if !ok { return Failed(true), None, run, talk; }
    }
    ghost var first, second;
    r, read, run, first, second := EraseFrom(d, p, e, j, run, talk);
    talk := talk + [(Prepare, first), (if first then EraseUnit(p, e) else DisablePassword(p), second)];
  }

  lemma {:induction false} Unopened(j: Job, run: seq<Step>) returns (longer: seq<Step>)
    requires PossibleRun(j, run) && (After(j, run).pc.Setting? || After(j, run).pc.Preparing?)
    ensures PossibleRun(j, longer) && After(j, longer) == After(j, run).(pc := Ending(After(j, run).pc.Preparing?)) && Talk(j, longer) == Talk(j, run)
  {
    hide PossibleRun, After, Talk;
    longer := Longer(j, run, OpenFails);
  }

  lemma {:induction false} ReadBack(j: Job, run: seq<Step>, r: Option<(bool, bool)>) returns (longer: seq<Step>)
    requires PossibleRun(j, run) && After(j, run).pc.Checking? && (r.Some? ==> r.value.0 == After(j, run).disk.password.Some?)
    ensures PossibleRun(j, longer) && Talk(j, longer) == Talk(j, run)
    ensures After(j, longer) == After(j, run).(pc := Ending(r != Some((false, false))))
  {
    hide PossibleRun, After, Talk;
    longer := Longer(j, run, Reads(r));
  }

  /** The password on the drive, if any, is the one on record and on disk. */
  ghost predicate OnRecord(j: Job) {
    j.disk.password.Some? ==> j.record == j.saved == j.disk.password
  }

  ghost predicate Inv(j: Job) {
    && OnRecord(j)
    && (j.record.Some? ==> j.saved == j.record)
    && match j.pc
       case Idle => true
       case Setting(p, _) => j.record == Some(p) && j.disk.password.None?
       case Preparing(p, _) => j.record == Some(p)
       case Erasing(p, _) => j.record == Some(p)
       case Disabling(p) => j.record == Some(p)
       case Checking(p) => j.record == Some(p) && (j.disk.password.Some? || j.disk.erased)
       case Ending(keep) => !keep ==> j.disk.password.None?
  }

  /** A password is recorded while the job file cannot be written. */
  predicate Unsaved(j: Job, step: Step)
    requires Possible(j, step)
  {
    step.Start? && !step.saves && j.record.None? && PlanSecurityErase(step.sec, false, step.enhanced).Go? && j.saved != Some(step.newOne)
  }

  /** A step loses the password from the record exactly when it is such a one. */
  lemma {:induction false} StepKeeps(j: Job, step: Step)
    requires Inv(j) && Possible(j, step)
    ensures Inv(Next(j, step)) <==> !Unsaved(j, step)
  {
  }

  /** The record goes only with a run that left no password behind: security
      read off and unlocked, DISABLE PASSWORD answered good, or the drive not
      even opened to set one. */
  lemma {:induction false} ForgottenExactly(j: Job, step: Step)
    requires Possible(j, step) && j.record.Some?
    ensures var k := Next(j, step);
      && (k.pc.Ending? && !j.pc.Ending? ==>
            (k.pc.keep <==> step != Reads(Some((false, false))) && !(j.pc.Disabling? && step.Answers? && step.ok) && !(j.pc.Setting? && step == OpenFails)))
      && (k.record.None? <==> (step.End? && !j.pc.keep) || (step.Crash? && j.saved.None?))
      && (k.record.Some? && !step.Crash? ==> k.record == j.record)
      && (k.saved != j.saved ==> step == End(true) && k.saved == k.record)
  {
  }

  /** What the IDENTIFY is for: the erase may have done nothing, but where
      security reads off afterwards the data is gone and no password is left. */
  lemma {:induction false} ReadOffIsErased(j: Job, read: Option<(bool, bool)>)
    requires Inv(j) && Possible(j, Reads(read))
    ensures Next(j, Reads(read)).pc == Ending(false) ==> j.disk == Disk(None, true)
    ensures j.disk.password.Some? ==> Next(j, Reads(read)).pc == Ending(true)
  {
  }

  /** A drive that answers everything good and erases nothing: the job comes to
      the IDENTIFY, reads security on and keeps its password on record. */
  lemma {:induction false} LyingEraseFound(sec: Security, p: Password)
    requires sec.supported && !sec.frozen && !sec.countExpired && !sec.enabled
    ensures var j := Job(Disk(None, false), None, None, Idle);
      var locked := Disk(Some(p), false);
      var run := [Start(sec, p, None, true), Answers(true, locked), Answers(true, locked), Answers(true, locked), Reads(Some((true, false)))];
      && PossibleRun(j, run)
      && After(j, run) == Job(locked, Some(p), Some(p), Ending(true))
  {
    var j := Job(Disk(None, false), None, None, Idle);
    var locked := Disk(Some(p), false);
    var a, b, c := Start(sec, p, None, true), Answers(true, locked), Reads(Some((true, false)));
    var j1 := Next(j, a);
    var j2 := Next(j1, b);
    var j3 := Next(j2, b);
    var j4 := Next(j3, b);
    assert j4 == Job(locked, Some(p), Some(p), Checking(p));
    hide PossibleRun, After;
    Unroll(j4, c, []);
    Unroll(j3, b, [c]);
    Unroll(j2, b, [b, c]);
    Unroll(j1, b, [b, b, c]);
    Unroll(j, a, [b, b, b, c]);
    assert [a] + [b, b, b, c] == [a, b, b, b, c] && [b] + [b, b, c] == [b, b, b, c] && [b] + [b, c] == [b, b, c];
    assert [b] + [c] == [b, c] && [c] + [] == [c];
    NoRun(Next(j4, c));
  }

  lemma {:induction false} NoRun(j: Job)
    ensures PossibleRun(j, []) && After(j, []) == j && Talk(j, []) == []
  {
  }

  lemma {:induction false} Unroll(j: Job, step: Step, run: seq<Step>)
    requires Possible(j, step)
    ensures PossibleRun(j, [step] + run) <==> PossibleRun(Next(j, step), run)
    ensures PossibleRun(j, [step] + run) ==> After(j, [step] + run) == After(Next(j, step), run)
  {
    hide Possible, Next;
    assert ([step] + run)[1..] == run;
  }

  ghost predicate AllSaved(j: Job, run: seq<Step>)
    requires PossibleRun(j, run)
    decreases |run|
  {
    run == [] || (!Unsaved(j, run[0]) && AllSaved(Next(j, run[0]), run[1..]))
  }

  /** Over any series of runs, each cut short wherever it may be, a drive the
      job has put a password on can always be opened again: the password is
      the one in the job file. It takes only that the file could be written
      before the drive saw the password. */
  lemma {:induction false} PasswordNeverLost(j: Job, run: seq<Step>)
    requires Inv(j) && PossibleRun(j, run) && AllSaved(j, run)
    ensures Inv(After(j, run))
    decreases |run|
  {
    hide Inv, Next, Possible, Unsaved;
    if run != [] {
      StepKeeps(j, run[0]);
      PasswordNeverLost(Next(j, run[0]), run[1..]);
    }
  }

  /** Without that: the failed write is only logged, the password goes to the
      drive, and after a restart the job takes its own password for a
      stranger's. */
  lemma {:induction false} UnsavedPasswordLost(sec: Security, p: Password)
    requires sec.supported && !sec.frozen && !sec.countExpired && !sec.enabled
    ensures var j := Job(Disk(None, false), None, None, Idle);
      var run := [Start(sec, p, None, false), Answers(true, Disk(Some(p), false)), Crash];
      && Inv(j) && PossibleRun(j, run)
      && After(j, run) == Job(Disk(Some(p), false), None, None, Idle)
      && PlanSecurityErase(sec.(enabled := true), false, None) == Refuse(ForeignPassword)
  {
    var j := Job(Disk(None, false), None, None, Idle);
    var a, b, c := Start(sec, p, None, false), Answers(true, Disk(Some(p), false)), Crash;
    assert PossibleRun(Next(Next(Next(j, a), b), c), []);
    assert [a, b, c][1..] == [b, c] && [b, c][1..] == [c] && [c][1..] == [];
    assert PossibleRun(Next(Next(j, a), b), [c]) && After(Next(Next(j, a), b), [c]) == Next(Next(Next(j, a), b), c);
    assert PossibleRun(Next(j, a), [b, c]);
  }

  /** A password that is nobody's here is never touched, nor its data. */
  lemma {:induction false} ForeignNeverTouched(j: Job, run: seq<Step>)
    requires j.disk.password.Some? && j.record.None? && j.saved.None? && j.pc.Idle? && PossibleRun(j, run)
    ensures After(j, run) == j
    decreases |run|
  {
    if run != [] { ForeignNeverTouched(Next(j, run[0]), run[1..]); }
  }
}
