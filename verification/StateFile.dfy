/** The daemon's state files: temporary file, data sync, rename, directory
    sync, over a file system that may lose what was not synced. A crash can
    fall between any two calls. */
module StateFile {
  import opened Common
  import opened Buffers

  // ------------------------------------------------ the file system

  datatype Name = Path | Tmp | Aside

  /** `durable`: the data has reached the disk. */
  datatype File = File(data: Bytes, durable: bool)

  type Dir = map<Name, nat>

  /** `since`: the directory as last synced and after every change since then,
      the last being the directory now. A crash leaves one of them: directory
      changes reach the disk in order, and a rename is one change. */
  datatype Fs = Fs(files: map<nat, File>, dir: Dir, since: seq<Dir>, next: nat)

  function Relinked(fs: Fs, dir: Dir): Fs { fs.(dir := dir, since := fs.since + [dir]) }

  /** Open for writing: a new empty file, or the old one cut to nothing. */
  function Create(fs: Fs, n: Name): Fs {
    if n in fs.dir then fs.(files := fs.files[fs.dir[n] := File([], false)])
    else Relinked(fs.(files := fs.files[fs.next := File([], false)], next := fs.next + 1), fs.dir[n := fs.next])
  }

  function Fill(fs: Fs, n: Name, data: Bytes): Fs {
    if n in fs.dir then fs.(files := fs.files[fs.dir[n] := File(data, false)]) else fs
  }

  function SyncData(fs: Fs, n: Name): Fs {
    if n in fs.dir && fs.dir[n] in fs.files then fs.(files := fs.files[fs.dir[n] := fs.files[fs.dir[n]].(durable := true)]) else fs
  }

  function Rename(fs: Fs, from: Name, to: Name): Fs {
    if from in fs.dir then Relinked(fs, (fs.dir - {from})[to := fs.dir[from]]) else fs
  }

  function SyncDir(fs: Fs): Fs { fs.(since := [fs.dir]) }

  /** After a crash: one of the directories, and whatever junk the disk holds
      where data had not reached it. */
  function Crashed(fs: Fs, k: nat, junk: map<nat, Bytes>): Fs
    requires k < |fs.since|
  {
    Fs(map i | i in fs.files :: if fs.files[i].durable then fs.files[i] else File(if i in junk then junk[i] else [], true),
       fs.since[k], [fs.since[k]], fs.next)
  }

  // ------------------------------------------------ writing and loading, call by call

  /** Where the one writer is; `n` counts what was ever meant to be kept. */
  datatype Pc =
    | Stopped
    | Ready
    | Created(bytes: Bytes, n: nat)
    | Filled(bytes: Bytes, n: nat)
    | Synced(bytes: Bytes, n: nat)
    | Renamed(n: nat)

  /** `tried`: what the path was at first, and all it was meant to become:
      contents written, or absence when it was set aside. `safe` is the last
      of them whose directory sync succeeded. */
  datatype State = State(fs: Fs, pc: Pc, tried: seq<Option<Bytes>>, safe: nat)

  datatype Step =
    | Start(readable: bool, moves: bool)
    | Begin(bytes: Bytes, ok: bool)
    | Write(part: Bytes, ok: bool)
    | Sync(ok: bool)
    | Move(ok: bool)
    | SyncDirectory(ok: bool)
    | Exit
    | Crash(k: nat, junk: map<nat, Bytes>)

  predicate Space(b: bv8) { b == 0 || b == 9 || b == 10 || b == 12 || b == 13 || b == 32 }

  predicate IsBlank(bytes: Bytes) { forall i :: 0 <= i < |bytes| ==> Space(bytes[i]) }

  /** Whether `load_state` sets the file aside. */
  predicate SetsAside(fs: Fs, readable: bool, parses: Bytes -> bool) {
    && Path in fs.dir && fs.dir[Path] in fs.files
    && (!readable || (!IsBlank(fs.files[fs.dir[Path]].data) && !parses(fs.files[fs.dir[Path]].data)))
  }

  predicate Possible(s: State, step: Step) {
    match step
    case Start(_, _) => s.pc.Stopped?
    case Begin(_, _) => s.pc.Ready?
    case Write(_, _) => s.pc.Created?
    case Sync(_) => s.pc.Filled?
    case Move(_) => s.pc.Synced?
    case SyncDirectory(_) => s.pc.Renamed?
    case Exit => true
    case Crash(k, _) => k < |s.fs.since|
  }

  function Next(s: State, step: Step, parses: Bytes -> bool): State
    requires Possible(s, step)
  {
    match step
    case Start(readable, moves) =>
      if SetsAside(s.fs, readable, parses) && moves then
        State(Rename(s.fs, Path, Aside), Ready, s.tried + [None], s.safe)
      else s.(pc := Ready)
    case Begin(bytes, ok) =>
      var t := s.(tried := s.tried + [Some(bytes)]);
      if ok then t.(fs := Create(s.fs, Tmp), pc := Created(bytes, |s.tried|)) else t
    case Write(part, ok) =>
      if ok then s.(fs := Fill(s.fs, Tmp, s.pc.bytes), pc := Filled(s.pc.bytes, s.pc.n))
      else s.(fs := Fill(s.fs, Tmp, part), pc := Ready)
    case Sync(ok) =>
      if ok then s.(fs := SyncData(s.fs, Tmp), pc := Synced(s.pc.bytes, s.pc.n)) else s.(pc := Ready)
    case Move(ok) =>
      if ok then s.(fs := Rename(s.fs, Tmp, Path), pc := Renamed(s.pc.n)) else s.(pc := Ready)
    case SyncDirectory(ok) =>
      if ok then s.(fs := SyncDir(s.fs), pc := Ready, safe := s.pc.n) else s.(pc := Ready)
    case Exit => s.(pc := Stopped)
    case Crash(k, junk) => s.(fs := Crashed(s.fs, k, junk), pc := Stopped)
  }

  predicate PossibleRun(s: State, run: seq<Step>, parses: Bytes -> bool)
    decreases |run|
  {
    run == [] || (Possible(s, run[0]) && PossibleRun(Next(s, run[0], parses), run[1..], parses))
  }

  function After(s: State, run: seq<Step>, parses: Bytes -> bool): State
    requires PossibleRun(s, run, parses)
    decreases |run|
  {
    if run == [] then s else After(Next(s, run[0], parses), run[1..], parses)
  }

  // ------------------------------------------------ what the path holds

  /** What a reader finds at a name. */
  function Content(fs: Fs, dir: Dir, n: Name): Option<Bytes> {
    if n in dir && dir[n] in fs.files then Some(fs.files[dir[n]].data) else None
  }

  /** The inode at a name is on the disk and the name really names one. */
  ghost predicate Settled(fs: Fs, dir: Dir, n: Name) {
    n in dir ==> dir[n] in fs.files && fs.files[dir[n]].durable
  }

  ghost predicate OneOf(tried: seq<Option<Bytes>>, safe: nat, content: Option<Bytes>) {
    exists j :: safe <= j < |tried| && tried[j] == content
  }

  /** No two names share an inode. */
  ghost predicate Distinct(dir: Dir) {
    && (Tmp in dir && Path in dir ==> dir[Tmp] != dir[Path])
    && (Tmp in dir && Aside in dir ==> dir[Tmp] != dir[Aside])
  }

  ghost predicate DirOk(fs: Fs, dir: Dir) {
    && (forall n :: n in dir ==> dir[n] in fs.files)
    && Settled(fs, dir, Path) && Settled(fs, dir, Aside) && Distinct(dir)
    // what is being written is no file the directory may come back to
    && (Tmp in fs.dir ==> (Path in dir ==> dir[Path] != fs.dir[Tmp]) && (Aside in dir ==> dir[Aside] != fs.dir[Tmp]))
  }

  ghost predicate FsOk(fs: Fs) {
    && fs.since != [] && fs.since[|fs.since| - 1] == fs.dir
    && (forall i :: i in fs.files ==> i < fs.next)
    && (forall k :: 0 <= k < |fs.since| ==> DirOk(fs, fs.since[k]))
  }

  ghost predicate PcOk(s: State) {
    match s.pc
    case Stopped => true
    case Ready => true
    case Created(b, n) => Tmp in s.fs.dir && s.safe <= n < |s.tried| && s.tried[n] == Some(b)
    case Filled(b, n) => Tmp in s.fs.dir && s.safe <= n < |s.tried| && s.tried[n] == Some(b) && Content(s.fs, s.fs.dir, Tmp) == Some(b)
    case Synced(b, n) =>
      && Tmp in s.fs.dir && s.safe <= n < |s.tried| && s.tried[n] == Some(b) && Content(s.fs, s.fs.dir, Tmp) == Some(b)
      && Settled(s.fs, s.fs.dir, Tmp)
    case Renamed(n) => s.safe <= n < |s.tried| && s.tried[n] == Content(s.fs, s.fs.dir, Path)
  }

  /** Whatever directory a crash leaves, the path is one of the states it was
      meant to have, and none older than the last one made safe. */
  ghost predicate Held(s: State) {
    forall k :: 0 <= k < |s.fs.since| ==> OneOf(s.tried, s.safe, Content(s.fs, s.fs.since[k], Path))
  }

  ghost predicate Inv(s: State) { FsOk(s.fs) && PcOk(s) && Held(s) }

  // each call keeps the file system in order and says what became of the path

  /** Changing the temporary file's data changes nothing anywhere else. */
  lemma {:induction false} TmpDataKeeps(fs: Fs, f: File)
    requires FsOk(fs) && Tmp in fs.dir
    ensures var t := fs.(files := fs.files[fs.dir[Tmp] := f]);
      && FsOk(t)
      && SameShown(fs, t)
  {
    var t := fs.(files := fs.files[fs.dir[Tmp] := f]);
    assert DirOk(fs, fs.dir);
    forall k | 0 <= k < |t.since|
      ensures DirOk(t, t.since[k]) && Shown(t, fs.since[k]) == Shown(fs, fs.since[k])
    {
      assert DirOk(fs, fs.since[k]);
    }
  }

  /** What a reader finds at the path, and set aside. */
  ghost function Shown(fs: Fs, dir: Dir): (Option<Bytes>, Option<Bytes>) { (Content(fs, dir, Path), Content(fs, dir, Aside)) }

  /** That much in one of the directories a crash may leave. */
  ghost predicate Was(fs: Fs, c: (Option<Bytes>, Option<Bytes>)) {
    exists j :: 0 <= j < |fs.since| && Shown(fs, fs.since[j]) == c
  }

  /** Nothing new to see, now or after a crash. */
  ghost predicate AllWere(fs: Fs, t: Fs) {
    && (forall k :: 0 <= k < |t.since| ==> Was(fs, Shown(t, t.since[k])))
    && Shown(t, t.dir) == Shown(fs, fs.dir)
  }

  ghost predicate SameShown(fs: Fs, t: Fs) {
    forall k :: 0 <= k < |fs.since| ==> Shown(t, fs.since[k]) == Shown(fs, fs.since[k])
  }

  lemma {:induction false} CreateKeeps(fs: Fs)
    requires FsOk(fs)
    ensures var t := Create(fs, Tmp); FsOk(t) && Tmp in t.dir && AllWere(fs, t)
  {
    if Tmp in fs.dir {
      TmpDataKeeps(fs, File([], false));
      LastShown(fs, Create(fs, Tmp));
      SameAllWere(fs, Create(fs, Tmp));
    } else {
      NewFile(fs);
    }
  }

  lemma {:induction false} LastShown(fs: Fs, t: Fs)
    requires FsOk(fs) && SameShown(fs, t) && t.dir == fs.dir
    ensures Shown(t, t.dir) == Shown(fs, fs.dir)
  {
    assert Shown(t, fs.since[|fs.since| - 1]) == Shown(fs, fs.since[|fs.since| - 1]);
  }

  lemma {:induction false} SameAllWere(fs: Fs, t: Fs)
    requires t.since == fs.since && t.dir == fs.dir && SameShown(fs, t) && Shown(t, t.dir) == Shown(fs, fs.dir)
    ensures AllWere(fs, t)
  {
    hide Shown;
    forall k | 0 <= k < |t.since| ensures Was(fs, Shown(t, t.since[k])) {
      assert Shown(fs, fs.since[k]) == Shown(t, t.since[k]);
    }
  }

  lemma {:induction false} NewFile(fs: Fs)
    requires FsOk(fs) && Tmp !in fs.dir
    ensures var t := Create(fs, Tmp); FsOk(t) && Tmp in t.dir && AllWere(fs, t)
  {
    var t := Create(fs, Tmp);
    NewFileDir(fs, fs.dir) by { SettledNow(fs); }
    forall k | 0 <= k < |t.since| ensures DirOk(t, t.since[k]) && Was(fs, Shown(t, t.since[k])) {
      var j := if k < |fs.since| then k else |fs.since| - 1;
      assert DirOk(fs, fs.since[j]);
      NewFileDir(fs, fs.since[j]);
      assert Shown(fs, fs.since[j]) == Shown(t, t.since[k]);
    }
  }

  lemma {:induction false} NewFileDir(fs: Fs, dir: Dir)
    requires DirOk(fs, dir) && Tmp !in fs.dir && forall i :: i in fs.files ==> i < fs.next
    ensures var t := Create(fs, Tmp);
      DirOk(t, dir) && Shown(t, dir) == Shown(fs, dir)
    ensures var t := Create(fs, Tmp);
      dir == fs.dir ==> DirOk(t, t.dir) && Shown(t, t.dir) == Shown(fs, dir)
  {
  }

  lemma {:induction false} RenameKeeps(fs: Fs, from: Name, to: Name)
    requires FsOk(fs) && from in fs.dir && Settled(fs, fs.dir, from)
    requires (from == Tmp && to == Path) || (from == Path && to == Aside)
    ensures var t := Rename(fs, from, to);
      && FsOk(t)
      && t.since == fs.since + [t.dir]
      && Content(t, t.dir, to) == Content(fs, fs.dir, from)
      && Content(t, t.dir, from) == None
      && (to == Path ==> Content(t, t.dir, Aside) == Content(fs, fs.dir, Aside))
      && SameShown(fs, t)
  {
    var t := Rename(fs, from, to);
    assert DirOk(fs, fs.since[|fs.since| - 1]);
    assert t.dir == (fs.dir - {from})[to := fs.dir[from]];
    forall k | 0 <= k < |t.since| ensures DirOk(t, t.since[k]) {
      if k < |fs.since| { assert DirOk(fs, fs.since[k]); }
    }
  }

  lemma {:induction false} CrashKeeps(fs: Fs, k: nat, junk: map<nat, Bytes>)
    requires FsOk(fs) && k < |fs.since|
    ensures var t := Crashed(fs, k, junk);
      && FsOk(t) && t.since == [fs.since[k]] && t.dir == fs.since[k]
      && Shown(t, t.dir) == Shown(fs, fs.since[k])
  {
    assert DirOk(fs, fs.since[k]);
  }

  lemma {:induction false} SyncDirKeeps(fs: Fs)
    requires FsOk(fs)
    ensures FsOk(SyncDir(fs))
  {
    assert DirOk(fs, fs.since[|fs.since| - 1]);
  }

  lemma {:induction false} LaterOneOf(tried: seq<Option<Bytes>>, safe: nat, c: Option<Bytes>, more: Option<Bytes>)
    requires OneOf(tried, safe, c)
    ensures OneOf(tried + [more], safe, c)
  {
    var j :| safe <= j < |tried| && tried[j] == c;
    assert (tried + [more])[j] == c;
  }

  lemma {:induction false} HeldLonger(s: State, t: State, more: Option<Bytes>)
    requires Held(s) && t.tried == s.tried + [more] && t.safe == s.safe
    requires AllWere(s.fs, t.fs)
    ensures Held(t)
  {
    hide OneOf, Content;
    forall k | 0 <= k < |t.fs.since| ensures OneOf(t.tried, t.safe, Content(t.fs, t.fs.since[k], Path)) {
      assert Was(s.fs, Shown(t.fs, t.fs.since[k]));
      var j :| 0 <= j < |s.fs.since| && Shown(s.fs, s.fs.since[j]) == Shown(t.fs, t.fs.since[k]);
      LaterOneOf(s.tried, s.safe, Content(s.fs, s.fs.since[j], Path), more);
    }
  }

  lemma {:induction false} HeldMoved(s: State, t: State, n: nat)
    requires Held(s) && t.tried == s.tried && t.safe == s.safe
    requires t.fs.since == s.fs.since + [t.fs.dir] && s.safe <= n < |s.tried| && s.tried[n] == Content(t.fs, t.fs.dir, Path)
    requires SameShown(s.fs, t.fs)
    ensures Held(t)
  {
    forall k | 0 <= k < |t.fs.since| ensures OneOf(t.tried, t.safe, Content(t.fs, t.fs.since[k], Path)) {
      if k < |s.fs.since| {
        assert t.fs.since[k] == s.fs.since[k] && Shown(t.fs, s.fs.since[k]) == Shown(s.fs, s.fs.since[k]);
        assert OneOf(s.tried, s.safe, Content(s.fs, s.fs.since[k], Path));
      } else {
        assert t.fs.since[k] == t.fs.dir;
      }
    }
  }

  lemma {:induction false} StartKeeps(s: State, readable: bool, moves: bool, parses: Bytes -> bool)
    requires Inv(s) && s.pc.Stopped?
    ensures Inv(Next(s, Start(readable, moves), parses))
  {
    hide FsOk, Held;
    var t := Next(s, Start(readable, moves), parses);
    if SetsAside(s.fs, readable, parses) && moves {
      SettledNow(s.fs);
      RenameKeeps(s.fs, Path, Aside);
      var m := s.(tried := s.tried + [None]);
      assert Held(m) by { SameAllWere(s.fs, m.fs); HeldLonger(s, m, None); }
      HeldMoved(m, t, |s.tried|) by { TriedFits(s); }
    } else {
      assert Held(t) by { SameHeld(s, t); }
    }
  }

  lemma {:induction false} TriedFits(s: State)
    requires Inv(s)
    ensures s.safe < |s.tried|
  {
    assert OneOf(s.tried, s.safe, Content(s.fs, s.fs.since[0], Path));
  }

  lemma {:induction false} SettledNow(fs: Fs)
    requires FsOk(fs)
    ensures Settled(fs, fs.dir, Path) && Settled(fs, fs.dir, Aside) && DirOk(fs, fs.dir)
  {
    assert DirOk(fs, fs.since[|fs.since| - 1]);
  }

  lemma {:induction false} SameHeld(s: State, t: State)
    requires Held(s) && t.fs.since == s.fs.since && t.tried == s.tried && t.safe == s.safe
    requires SameShown(s.fs, t.fs)
    ensures Held(t)
  {
    hide OneOf, Content;
    forall k | 0 <= k < |t.fs.since| ensures OneOf(t.tried, t.safe, Content(t.fs, t.fs.since[k], Path)) {
      assert Shown(t.fs, s.fs.since[k]) == Shown(s.fs, s.fs.since[k]);
    }
  }

  lemma {:induction false} BeginKeeps(s: State, bytes: Bytes, ok: bool, parses: Bytes -> bool)
    requires Inv(s) && s.pc.Ready?
    ensures Inv(Next(s, Begin(bytes, ok), parses))
  {
    hide FsOk, Held;
    TriedFits(s);
    var t := Next(s, Begin(bytes, ok), parses);
    if ok { CreateKeeps(s.fs); } else { SameAllWere(s.fs, t.fs); }
    HeldLonger(s, t, Some(bytes));
  }

  lemma {:induction false} DataKeeps(s: State, step: Step, parses: Bytes -> bool)
    requires Inv(s) && Possible(s, step) && (step.Write? || step.Sync?)
    ensures Inv(Next(s, step, parses))
  {
    SettledNow(s.fs);
    hide FsOk, Held;
    var t := Next(s, step, parses);
    var f := if step.Write? then File(if step.ok then s.pc.bytes else step.part, false)
             else if step.ok then s.fs.files[s.fs.dir[Tmp]].(durable := true) else s.fs.files[s.fs.dir[Tmp]];
    TmpDataKeeps(s.fs, f);
    assert s.fs.files[s.fs.dir[Tmp] := s.fs.files[s.fs.dir[Tmp]]] == s.fs.files;
    assert t.fs == s.fs.(files := s.fs.files[s.fs.dir[Tmp] := f]);
    SameHeld(s, t);
  }

  lemma {:induction false} MoveKeeps(s: State, ok: bool, parses: Bytes -> bool)
    requires Inv(s) && s.pc.Synced?
    ensures Inv(Next(s, Move(ok), parses))
  {
    hide FsOk, Held;
    var t := Next(s, Move(ok), parses);
    if ok {
      RenameKeeps(s.fs, Tmp, Path);
      HeldMoved(s, t, s.pc.n);
    } else {
      SameHeld(s, t);
    }
  }

  lemma {:induction false} SyncDirectoryKeeps(s: State, ok: bool, parses: Bytes -> bool)
    requires Inv(s) && s.pc.Renamed?
    ensures Inv(Next(s, SyncDirectory(ok), parses))
  {
    var t := Next(s, SyncDirectory(ok), parses);
    if ok {
      SyncDirKeeps(s.fs);
      assert OneOf(t.tried, t.safe, Content(t.fs, t.fs.since[0], Path)) by {
        assert t.tried[s.pc.n] == Content(t.fs, t.fs.since[0], Path);
      }
    }
  }

  lemma {:induction false} CrashStepKeeps(s: State, k: nat, junk: map<nat, Bytes>, parses: Bytes -> bool)
    requires Inv(s) && k < |s.fs.since|
    ensures Inv(Next(s, Crash(k, junk), parses))
  {
    hide FsOk, OneOf, Content, Crashed;
    CrashKeeps(s.fs, k, junk);
    assert OneOf(s.tried, s.safe, Content(s.fs, s.fs.since[k], Path));
  }

  lemma {:induction false} StepKeeps(s: State, step: Step, parses: Bytes -> bool)
    requires Inv(s) && Possible(s, step)
    ensures Inv(Next(s, step, parses))
  {
    match step {
      case Start(readable, moves) => StartKeeps(s, readable, moves, parses);
      case Begin(bytes, ok) => BeginKeeps(s, bytes, ok, parses);
      case Write(_, _) => DataKeeps(s, step, parses);
      case Sync(_) => DataKeeps(s, step, parses);
      case Move(ok) => MoveKeeps(s, ok, parses);
      case SyncDirectory(ok) => SyncDirectoryKeeps(s, ok, parses);
      case Exit => SameHeld(s, s.(pc := Stopped));
      case Crash(k, junk) => CrashStepKeeps(s, k, junk, parses);
    }
  }

  /** A quiet start: the path absent or holding settled bytes. */
  ghost predicate Initial(s: State) {
    && FsOk(s.fs) && s.fs.since == [s.fs.dir] && s.pc.Stopped?
    && s.tried == [Content(s.fs, s.fs.dir, Path)] && s.safe == 0
  }

  lemma {:induction false} RunKeeps(s: State, run: seq<Step>, parses: Bytes -> bool)
    requires Inv(s) && PossibleRun(s, run, parses)
    ensures Inv(After(s, run, parses))
    decreases |run|
  {
    hide Inv, Next, Possible;
    if run != [] {
      StepKeeps(s, run[0], parses);
      RunKeeps(Next(s, run[0], parses), run[1..], parses);
    }
  }

  /** After any run of writes, failures, restarts and crashes, at whatever
      call: the path now, and after a crash at this very moment, is exactly
      one of the states it was meant to have, none older than the last one
      whose directory sync succeeded. */
  lemma {:induction false} NeverTorn(s: State, run: seq<Step>, k: nat, junk: map<nat, Bytes>, parses: Bytes -> bool)
    requires Initial(s) && PossibleRun(s, run, parses)
    requires k < |After(s, run, parses).fs.since|
    ensures var t := After(s, run, parses);
      var c := Crashed(t.fs, k, junk);
      && OneOf(t.tried, t.safe, Content(t.fs, t.fs.dir, Path))
      && OneOf(t.tried, t.safe, Content(c, c.dir, Path))
  {
    assert Inv(s) by { assert s.tried[0] == Content(s.fs, s.fs.since[0], Path); }
    RunKeeps(s, run, parses);
    hide OneOf, Content, Crashed;
    var t := After(s, run, parses);
    CrashKeeps(t.fs, k, junk);
    assert t.fs.since[|t.fs.since| - 1] == t.fs.dir;
  }

  // ------------------------------------------------ loading at start

  /** Everything the path was ever meant to hold can be read back. */
  ghost predicate AllReadable(tried: seq<Option<Bytes>>, parses: Bytes -> bool) {
    forall j :: 0 <= j < |tried| && tried[j].Some? ==> parses(tried[j].value)
  }

  /** The disk is read, and what is written is what parses. */
  ghost predicate Healthy(step: Step, parses: Bytes -> bool) {
    && (step.Start? ==> step.readable)
    && (step.Begin? ==> parses(step.bytes))
  }

  ghost predicate HealthyRun(run: seq<Step>, parses: Bytes -> bool) {
    forall k :: 0 <= k < |run| ==> Healthy(run[k], parses)
  }

  lemma {:induction false} NotSetAside(s: State, parses: Bytes -> bool)
    requires Inv(s) && AllReadable(s.tried, parses)
    ensures !SetsAside(s.fs, true, parses)
  {
    SettledNow(s.fs);
    assert s.fs.since[|s.fs.since| - 1] == s.fs.dir;
    assert OneOf(s.tried, s.safe, Content(s.fs, s.fs.dir, Path));
  }

  lemma {:induction false} HealthyStep(s: State, step: Step, parses: Bytes -> bool)
    requires Inv(s) && Possible(s, step) && Healthy(step, parses) && AllReadable(s.tried, parses)
    ensures var t := Next(s, step, parses);
      && AllReadable(t.tried, parses) && |s.tried| <= |t.tried| && (forall j :: |s.tried| <= j < |t.tried| ==> t.tried[j].Some?)
      && t.tried[..|s.tried|] == s.tried && s.safe <= t.safe
  {
    NotSetAside(s, parses);
    TriedFits(s);
  }

  lemma {:induction false} HealthyRunKeeps(s: State, run: seq<Step>, parses: Bytes -> bool)
    requires Inv(s) && PossibleRun(s, run, parses) && HealthyRun(run, parses) && AllReadable(s.tried, parses)
    ensures var t := After(s, run, parses);
      && Inv(t) && AllReadable(t.tried, parses) && |s.tried| <= |t.tried| && (forall j :: |s.tried| <= j < |t.tried| ==> t.tried[j].Some?)
      && s.safe <= t.safe
    decreases |run|
  {
    hide Inv, Next, Possible, AllReadable, Healthy;
    if run != [] {
      StepKeeps(s, run[0], parses);
      HealthyStep(s, run[0], parses);
      var t := Next(s, run[0], parses);
      HealthyRunKeeps(t, run[1..], parses);
      var u := After(t, run[1..], parses);
      assert forall j :: |s.tried| <= j < |t.tried| ==> t.tried[j] == u.tried[j] by { TriedGrows(t, run[1..], parses); }
    }
  }

  lemma {:induction false} TriedGrows(s: State, run: seq<Step>, parses: Bytes -> bool)
    requires PossibleRun(s, run, parses)
    ensures s.tried <= After(s, run, parses).tried
    decreases |run|
  {
    if run != [] { TriedGrows(Next(s, run[0], parses), run[1..], parses); }
  }

  /** With a disk that reads and a path that was absent or readable at first,
      however many crashes there were: a start sets nothing aside, and once
      one write was made safe the path is there and reads as one of the writes
      from that one on. */
  lemma {:induction false} WritesReadBack(s: State, run: seq<Step>, parses: Bytes -> bool)
    requires Initial(s) && AllReadable(s.tried, parses) && PossibleRun(s, run, parses) && HealthyRun(run, parses)
    ensures var t := After(s, run, parses);
      && !SetsAside(t.fs, true, parses)
      && (t.safe >= 1 ==> var c := Content(t.fs, t.fs.dir, Path); c.Some? && parses(c.value))
  {
    assert Inv(s) by { assert s.tried[0] == Content(s.fs, s.fs.since[0], Path); }
    hide Next, Possible, Healthy, Initial;
    HealthyRunKeeps(s, run, parses);
    var t := After(s, run, parses);
    assert |s.tried| == 1 by { assert Initial(s); InitialTried(s); }
    NotSetAside(t, parses);
    SettledNow(t.fs);
    assert t.fs.since[|t.fs.since| - 1] == t.fs.dir;
    assert OneOf(t.tried, t.safe, Content(t.fs, t.fs.dir, Path));
  }

  lemma {:induction false} InitialTried(s: State)
    requires Initial(s)
    ensures |s.tried| == 1
  {
  }

  // ------------------------------------------------ bytes that did not parse

  /** `b` is at the path or set aside, whatever a crash does; and once the
      service has started, set aside. */
  ghost predicate Kept(s: State, b: Bytes) {
    && (forall k :: 0 <= k < |s.fs.since| ==> Shows(Shown(s.fs, s.fs.since[k]), b))
    && (!s.pc.Stopped? ==> Shown(s.fs, s.fs.dir).1 == Some(b))
  }

  predicate Shows(c: (Option<Bytes>, Option<Bytes>), b: Bytes) { c.0 == Some(b) || c.1 == Some(b) }

  /** The two ways to lose them, both at a start: the file cannot be moved out
      of the way, or another one is moved over it. */
  ghost predicate Loses(s: State, step: Step, b: Bytes, parses: Bytes -> bool) {
    step.Start? &&
    var c := Shown(s.fs, s.fs.dir);
    if c.1 == Some(b) then SetsAside(s.fs, step.readable, parses) && step.moves && c.0 != Some(b) else !step.moves
  }

  lemma {:induction false} StartKept(s: State, readable: bool, moves: bool, b: Bytes, parses: Bytes -> bool)
    requires FsOk(s.fs) && s.pc.Stopped? && Kept(s, b) && !IsBlank(b) && !parses(b)
    ensures Kept(Next(s, Start(readable, moves), parses), b) <==> !Loses(s, Start(readable, moves), b, parses)
  {
    hide FsOk;
    SettledNow(s.fs);
    LastOfSince(s.fs);
    var t := Next(s, Start(readable, moves), parses);
    assert Shows(Shown(s.fs, s.fs.since[|s.fs.since| - 1]), b);
    if SetsAside(s.fs, readable, parses) && moves {
      RenameKeeps(s.fs, Path, Aside);
      forall k | 0 <= k < |s.fs.since| ensures Shows(Shown(t.fs, t.fs.since[k]), b) {
        assert t.fs.since[k] == s.fs.since[k] && Shows(Shown(s.fs, s.fs.since[k]), b);
      }
      assert t.fs.since[|s.fs.since|] == t.fs.dir;
    }
  }

  lemma {:induction false} LastOfSince(fs: Fs)
    requires FsOk(fs)
    ensures fs.since != [] && fs.since[|fs.since| - 1] == fs.dir
  {
  }

  lemma {:induction false} WereKept(s: State, t: State, b: Bytes)
    requires Kept(s, b) && AllWere(s.fs, t.fs) && (s.pc.Stopped? ==> t.pc.Stopped?)
    ensures Kept(t, b)
  {
    hide Shows, Shown;
    forall k | 0 <= k < |t.fs.since| ensures Shows(Shown(t.fs, t.fs.since[k]), b) {
      assert Was(s.fs, Shown(t.fs, t.fs.since[k]));
      var j :| 0 <= j < |s.fs.since| && Shown(s.fs, s.fs.since[j]) == Shown(t.fs, t.fs.since[k]);
      assert Shows(Shown(s.fs, s.fs.since[j]), b);
    }
  }

  lemma {:induction false} DataKept(s: State, step: Step, b: Bytes, parses: Bytes -> bool)
    requires Inv(s) && Possible(s, step) && (step.Write? || step.Sync?) && Kept(s, b)
    ensures Kept(Next(s, step, parses), b)
  {
    SettledNow(s.fs);
    hide FsOk, Held, Kept;
    var t := Next(s, step, parses);
    var f := if step.Write? then File(if step.ok then s.pc.bytes else step.part, false)
             else if step.ok then s.fs.files[s.fs.dir[Tmp]].(durable := true) else s.fs.files[s.fs.dir[Tmp]];
    TmpDataKeeps(s.fs, f);
    assert s.fs.files[s.fs.dir[Tmp] := s.fs.files[s.fs.dir[Tmp]]] == s.fs.files;
    assert t.fs == s.fs.(files := s.fs.files[s.fs.dir[Tmp] := f]);
    LastShown(s.fs, t.fs);
    SameAllWere(s.fs, t.fs);
    WereKept(s, t, b);
  }

  lemma {:induction false} MoveKept(s: State, b: Bytes, parses: Bytes -> bool)
    requires Inv(s) && s.pc.Synced? && Kept(s, b)
    ensures Kept(Next(s, Move(true), parses), b)
  {
    hide FsOk, Held;
    var t := Next(s, Move(true), parses);
    RenameKeeps(s.fs, Tmp, Path);
    forall k | 0 <= k < |t.fs.since| ensures Shows(Shown(t.fs, t.fs.since[k]), b) {
      if k < |s.fs.since| {
        assert t.fs.since[k] == s.fs.since[k] && Shows(Shown(s.fs, s.fs.since[k]), b);
      } else {
        assert t.fs.since[k] == t.fs.dir;
      }
    }
  }

  /** One step: bytes that did not parse are kept exactly when it is not one
      of the two. */
  lemma {:induction false} KeptExactly(s: State, step: Step, b: Bytes, parses: Bytes -> bool)
    requires Inv(s) && Possible(s, step) && Kept(s, b) && !IsBlank(b) && !parses(b)
    ensures Kept(Next(s, step, parses), b) <==> !Loses(s, step, b, parses)
  {
    match step {
      case Start(readable, moves) => StartKept(s, readable, moves, b, parses);
      case Begin(bytes, ok) =>
        hide Kept, FsOk;
        var t := Next(s, step, parses);
        if ok { CreateKeeps(s.fs); } else { SameAllWere(s.fs, t.fs); }
        WereKept(s, t, b);
      case Write(_, _) => DataKept(s, step, b, parses);
      case Sync(_) => DataKept(s, step, b, parses);
      case Move(ok) =>
        hide FsOk, Shows, Shown, Held;
        if ok { MoveKept(s, b, parses); }
      case SyncDirectory(ok) =>
        hide Shows, Shown;
        LastOfSince(s.fs);
        assert Shows(Shown(s.fs, s.fs.since[|s.fs.since| - 1]), b);
        assert forall d :: Shown(SyncDir(s.fs), d) == Shown(s.fs, d) by { SyncShows(s.fs); }
      case Exit => SameAllWere(s.fs, s.fs); WereKept(s, s.(pc := Stopped), b);
      case Crash(k, junk) =>
        hide Shows, Shown, FsOk, Crashed;
        CrashKeeps(s.fs, k, junk);
        assert Shows(Shown(s.fs, s.fs.since[k]), b);
    }
  }

  lemma {:induction false} SyncShows(fs: Fs)
    ensures forall d :: Shown(SyncDir(fs), d) == Shown(fs, d)
  {
  }

  ghost predicate NothingLost(s: State, run: seq<Step>, b: Bytes, parses: Bytes -> bool)
    requires PossibleRun(s, run, parses)
    decreases |run|
  {
    run == [] || (!Loses(s, run[0], b, parses) && NothingLost(Next(s, run[0], parses), run[1..], b, parses))
  }

  /** Bytes at the path that do not parse are never destroyed: through any run
      of starts, writes, failures and crashes without one of those two. */
  lemma {:induction false} UnreadableKept(s: State, run: seq<Step>, b: Bytes, parses: Bytes -> bool)
    requires Inv(s) && PossibleRun(s, run, parses) && Kept(s, b) && !IsBlank(b) && !parses(b)
    requires NothingLost(s, run, b, parses)
    ensures Kept(After(s, run, parses), b)
    decreases |run|
  {
    hide Inv, Next, Possible, Kept, Loses, IsBlank;
    if run != [] {
      StepKeeps(s, run[0], parses);
      KeptExactly(s, run[0], b, parses);
      UnreadableKept(Next(s, run[0], parses), run[1..], b, parses);
    }
  }

  // ------------------------------------------------ the calls as the daemon makes them

  /** Which call fails, if any; `part` is what a failing write got out. */
  datatype Faults = Faults(create: bool, write: bool, part: Bytes, sync: bool, rename: bool, syncDir: bool)

  /** The steps of one `write_atomic`, up to the call that fails. */
  function WriteSteps(bytes: Bytes, f: Faults): seq<Step> {
    if !f.create then [Begin(bytes, false)]
    else if !f.write then [Begin(bytes, true), Write(f.part, false)]
    else if !f.sync then [Begin(bytes, true), Write([], true), Sync(false)]
    else if !f.rename then [Begin(bytes, true), Write([], true), Sync(true), Move(false)]
    else [Begin(bytes, true), Write([], true), Sync(true), Move(true), SyncDirectory(f.syncDir)]
  }

  function Written(fs: Fs, bytes: Bytes, f: Faults): Fs {
    if !f.create then fs
    else if !f.write then Fill(Create(fs, Tmp), Tmp, f.part)
    else
      var filled := Fill(Create(fs, Tmp), Tmp, bytes);
      if !f.sync then filled
      else if !f.rename then SyncData(filled, Tmp)
      else
        var renamed := Rename(SyncData(filled, Tmp), Tmp, Path);
        if f.syncDir then SyncDir(renamed) else renamed
  }

  class Disk {
    var fs: Fs

    constructor (start: Fs)
      ensures fs == start
    {
      fs := start;
    }

    /** `write_synced` and the rename after it; only the directory sync may
        fail unnoticed. */
    method WriteAtomic(bytes: Bytes, f: Faults) returns (ok: bool)
      modifies this
      ensures fs == Written(old(fs), bytes, f)
      ensures ok <==> f.create && f.write && f.sync && f.rename
    {
      if !f.create { return false; }
      fs := Create(fs, Tmp);
      if !f.write {
        fs := Fill(fs, Tmp, f.part);
        return false;
      }
      fs := Fill(fs, Tmp, bytes);
      if !f.sync { return false; }
      fs := SyncData(fs, Tmp);
      if !f.rename { return false; }
      fs := Rename(fs, Tmp, Path);
      if f.syncDir { fs := SyncDir(fs); }
      ok := true;
    }

    /** Never fails: a value when the bytes parse, and otherwise what is not
        blank is moved out of the way, if it can be. */
    method LoadState<V>(parse: Bytes -> Option<V>, readable: bool, moves: bool) returns (v: Option<V>, note: bool)
      modifies this
      ensures fs == if SetsAside(old(fs), readable, b => parse(b).Some?) && moves then Rename(old(fs), Path, Aside) else old(fs)
      ensures var c := Content(old(fs), old(fs).dir, Path);
        && (v.Some? <==> c.Some? && readable && !IsBlank(c.value) && parse(c.value).Some?)
        && (v.Some? ==> v == parse(c.value))
        && (note <==> c.Some? && v.None?)
    {
      if !(Path in fs.dir && fs.dir[Path] in fs.files) { return None, false; }
      var bytes := fs.files[fs.dir[Path]].data;
      if readable && IsBlank(bytes) { return None, true; }
      if readable {
        v := parse(bytes);
        if v.Some? { return v, false; }
      }
      if moves { fs := Rename(fs, Path, Aside); }
      v, note := None, true;
    }
  }

  // what one write comes to

  /** Whatever a crash would leave of `t`, it would have left of `fs`. */
  ghost predicate NothingNew(fs: Fs, t: Fs) { FsOk(t) && AllWere(fs, t) }

  lemma {:induction false} DataAddsNothing(fs: Fs, t: Fs, f: File)
    requires NothingNew(fs, t) && Tmp in t.dir
    ensures NothingNew(fs, t.(files := t.files[t.dir[Tmp] := f]))
  {
    var u := t.(files := t.files[t.dir[Tmp] := f]);
    TmpDataKeeps(t, f);
    LastShown(t, u);
    hide Shown, FsOk;
    forall k | 0 <= k < |u.since| ensures Was(fs, Shown(u, u.since[k])) {
      assert Shown(u, t.since[k]) == Shown(t, t.since[k]);
      assert Was(fs, Shown(t, t.since[k]));
    }
  }

  /** The file system just before the rename. */
  function Prepared(fs: Fs, bytes: Bytes): Fs { SyncData(Fill(Create(fs, Tmp), Tmp, bytes), Tmp) }

  lemma {:induction false} PreparedAddsNothing(fs: Fs, bytes: Bytes)
    requires FsOk(fs)
    ensures NothingNew(fs, Create(fs, Tmp)) && NothingNew(fs, Fill(Create(fs, Tmp), Tmp, bytes)) && NothingNew(fs, Prepared(fs, bytes))
    ensures var t := Prepared(fs, bytes); Tmp in t.dir && Settled(t, t.dir, Tmp) && Content(t, t.dir, Tmp) == Some(bytes)
  {
    CreateKeeps(fs);
    var a := Create(fs, Tmp);
    hide Create, FsOk, AllWere, NothingNew;
    assert NothingNew(fs, a) by { Unfold(fs, a); }
    DataAddsNothing(fs, a, File(bytes, false));
    var b := Fill(a, Tmp, bytes);
    assert b == a.(files := a.files[a.dir[Tmp] := File(bytes, false)]);
    DataAddsNothing(fs, b, File(bytes, true));
  }

  lemma {:induction false} Unfold(fs: Fs, t: Fs)
    requires FsOk(t) && AllWere(fs, t)
    ensures NothingNew(fs, t)
  {
  }

  /** What of the path a crash may leave after a write that came this far. */
  ghost predicate CrashLeaves(fs: Fs, t: Fs, bytes: Option<Bytes>) {
    forall k, junk :: 0 <= k < |t.since| ==>
      var c := Crashed(t, k, junk);
      Was(fs, Shown(c, c.dir)) || (bytes.Some? && Content(c, c.dir, Path) == bytes)
  }

  ghost predicate CrashLeavesOnly(t: Fs, bytes: Bytes) {
    forall k, junk :: 0 <= k < |t.since| ==> var c := Crashed(t, k, junk); Content(c, c.dir, Path) == Some(bytes)
  }

  lemma {:induction false} RenamedMeans(fs: Fs, p: Fs, bytes: Bytes)
    requires NothingNew(fs, p) && Tmp in p.dir && Settled(p, p.dir, Tmp) && Content(p, p.dir, Tmp) == Some(bytes)
    ensures var u := Rename(p, Tmp, Path);
      && Content(u, u.dir, Path) == Some(bytes) && Content(u, u.dir, Aside) == Content(fs, fs.dir, Aside) && Content(u, u.dir, Tmp) == None
      && FsOk(u) && CrashLeaves(fs, u, Some(bytes))
  {
    var u := Rename(p, Tmp, Path);
    RenameKeeps(p, Tmp, Path);
    assert Shown(p, p.dir) == Shown(fs, fs.dir);
    forall k, junk | 0 <= k < |u.since|
      ensures var c := Crashed(u, k, junk); Was(fs, Shown(c, c.dir)) || Content(c, c.dir, Path) == Some(bytes)
    {
      CrashKeeps(u, k, junk);
      hide Crashed, FsOk, Rename;
      if k < |p.since| {
        assert Shown(u, p.since[k]) == Shown(p, p.since[k]);
        assert Was(fs, Shown(p, p.since[k]));
      }
    }
  }

  lemma {:induction false} SyncedMeans(u: Fs, bytes: Bytes)
    requires FsOk(u) && Content(u, u.dir, Path) == Some(bytes)
    ensures CrashLeavesOnly(SyncDir(u), bytes)
  {
    SyncDirKeeps(u);
    var t := SyncDir(u);
    forall k, junk | 0 <= k < |t.since| ensures var c := Crashed(t, k, junk); Content(c, c.dir, Path) == Some(bytes) {
      CrashKeeps(t, k, junk);
    }
  }

  lemma {:induction false} UnrenamedMeans(fs: Fs, t: Fs)
    requires NothingNew(fs, t)
    ensures Shown(t, t.dir) == Shown(fs, fs.dir) && CrashLeaves(fs, t, None)
  {
    forall k, junk | 0 <= k < |t.since| ensures var c := Crashed(t, k, junk); Was(fs, Shown(c, c.dir)) {
      CrashKeeps(t, k, junk);
      hide Crashed, FsOk, Shown;
      assert Was(fs, Shown(t, t.since[k]));
    }
  }

  /** One write, and it is said to have succeeded. The path holds the new bytes,
      nothing else of it is left, and what was set aside is untouched; a crash
      leaves the new bytes whole, or what it would have left before, and after
      the directory sync only the new bytes. */
  lemma {:induction false} WriteSucceeds(fs: Fs, bytes: Bytes, f: Faults)
    requires FsOk(fs) && f.create && f.write && f.sync && f.rename
    ensures var t := Written(fs, bytes, f);
      && Content(t, t.dir, Path) == Some(bytes) && Content(t, t.dir, Aside) == Content(fs, fs.dir, Aside) && Content(t, t.dir, Tmp) == None
      && (!f.syncDir ==> CrashLeaves(fs, t, Some(bytes)))
      && (f.syncDir ==> CrashLeavesOnly(t, bytes))
  {
    PreparedAddsNothing(fs, bytes);
    RenamedMeans(fs, Prepared(fs, bytes), bytes);
    RenamedLast(fs, bytes, f);
    hide Prepared, Rename, Written, CrashLeaves, CrashLeavesOnly, FsOk;
    if f.syncDir { SyncedMeans(Rename(Prepared(fs, bytes), Tmp, Path), bytes); }
  }

  /** And one that failed: the path, what was set aside, and what a crash would
      leave of them are as they were. */
  lemma {:induction false} WriteFails(fs: Fs, bytes: Bytes, f: Faults)
    requires FsOk(fs) && !(f.create && f.write && f.sync && f.rename)
    ensures var t := Written(fs, bytes, f);
      && Content(t, t.dir, Path) == Content(fs, fs.dir, Path) && Content(t, t.dir, Aside) == Content(fs, fs.dir, Aside)
      && CrashLeaves(fs, t, None)
  {
    FailedWas(fs, bytes, f);
    UnrenamedMeans(fs, Written(fs, bytes, f));
  }

  lemma {:induction false} RenamedLast(fs: Fs, bytes: Bytes, f: Faults)
    requires f.create && f.write && f.sync && f.rename
    ensures var u := Rename(Prepared(fs, bytes), Tmp, Path); Written(fs, bytes, f) == if f.syncDir then SyncDir(u) else u
  {
    hide Create, Fill, SyncData, Rename;
  }

  lemma {:induction false} SameWas(fs: Fs)
    requires FsOk(fs)
    ensures NothingNew(fs, fs)
  {
    SameAllWere(fs, fs);
  }

  lemma {:induction false} FailedWas(fs: Fs, bytes: Bytes, f: Faults)
    requires FsOk(fs) && !(f.create && f.write && f.sync && f.rename)
    ensures NothingNew(fs, Written(fs, bytes, f))
  {
    PreparedAddsNothing(fs, bytes);
    PreparedAddsNothing(fs, f.part);
    SameWas(fs);
    hide Create, Fill, SyncData, FsOk, NothingNew;
  }

  /** A start sets a file aside exactly if it cannot be read, or does not parse
      and has a byte that is neither NUL nor white space. */
  lemma {:induction false} SetsAsideExactly(fs: Fs, readable: bool, parses: Bytes -> bool)
    ensures var c := Content(fs, fs.dir, Path);
      SetsAside(fs, readable, parses) <==>
        c.Some? && (!readable || (!parses(c.value) && exists i :: 0 <= i < |c.value| && c.value[i] !in {0x00, 0x09, 0x0A, 0x0C, 0x0D, 0x20}))
  {
  }

  /** A write nothing interrupts is a run of the steps above. */
  lemma {:induction false} WriteIsRun(s: State, bytes: Bytes, f: Faults, parses: Bytes -> bool)
    requires s.pc.Ready?
    ensures PossibleRun(s, WriteSteps(bytes, f), parses)
    ensures var t := After(s, WriteSteps(bytes, f), parses);
      t.fs == Written(s.fs, bytes, f) && t.pc.Ready? && t.tried == s.tried + [Some(bytes)]
    ensures f.create && f.write && f.sync && f.rename && f.syncDir ==> After(s, WriteSteps(bytes, f), parses).safe == |s.tried|
  {
    hide Create, Fill, SyncData, Rename, SyncDir, PossibleRun, After;
    var s1 := Next(s, Begin(bytes, f.create), parses);
    OneStep(s, Begin(bytes, f.create), parses);
    if f.create {
      var w := Write(if f.write then [] else f.part, f.write);
      var s2 := Next(s1, w, parses);
      OneStep(s1, w, parses);
      if f.write {
        var s3 := Next(s2, Sync(f.sync), parses);
        OneStep(s2, Sync(f.sync), parses);
        if f.sync {
          var s4 := Next(s3, Move(f.rename), parses);
          OneStep(s3, Move(f.rename), parses);
          if f.rename {
            OneStep(s4, SyncDirectory(f.syncDir), parses);
            MoreSteps(s3, Move(true), [SyncDirectory(f.syncDir)], parses);
            MoreSteps(s2, Sync(true), [Move(true)] + [SyncDirectory(f.syncDir)], parses);
            MoreSteps(s1, w, [Sync(true)] + ([Move(true)] + [SyncDirectory(f.syncDir)]), parses);
            MoreSteps(s, Begin(bytes, true), [w] + ([Sync(true)] + ([Move(true)] + [SyncDirectory(f.syncDir)])), parses);
            assert WriteSteps(bytes, f) == [Begin(bytes, true)] + ([w] + ([Sync(true)] + ([Move(true)] + [SyncDirectory(f.syncDir)])));
          } else {
            MoreSteps(s2, Sync(true), [Move(false)], parses);
            MoreSteps(s1, w, [Sync(true)] + [Move(false)], parses);
            MoreSteps(s, Begin(bytes, true), [w] + ([Sync(true)] + [Move(false)]), parses);
            assert WriteSteps(bytes, f) == [Begin(bytes, true)] + ([w] + ([Sync(true)] + [Move(false)]));
          }
        } else {
          MoreSteps(s1, w, [Sync(false)], parses);
          MoreSteps(s, Begin(bytes, true), [w] + [Sync(false)], parses);
          assert WriteSteps(bytes, f) == [Begin(bytes, true)] + ([w] + [Sync(false)]);
        }
      } else {
        MoreSteps(s, Begin(bytes, true), [w], parses);
        assert WriteSteps(bytes, f) == [Begin(bytes, true)] + [w];
      }
    }
  }

  lemma {:induction false} OneStep(s: State, step: Step, parses: Bytes -> bool)
    requires Possible(s, step)
    ensures PossibleRun(s, [step], parses) && After(s, [step], parses) == Next(s, step, parses)
  {
    hide Next, Possible;
    assert [step][1..] == [];
    assert PossibleRun(Next(s, step, parses), [], parses);
  }

  lemma {:induction false} MoreSteps(s: State, step: Step, rest: seq<Step>, parses: Bytes -> bool)
    requires Possible(s, step) && PossibleRun(Next(s, step, parses), rest, parses)
    ensures PossibleRun(s, [step] + rest, parses)
    ensures After(s, [step] + rest, parses) == After(Next(s, step, parses), rest, parses)
  {
    hide Next, Possible;
    assert ([step] + rest)[1..] == rest;
  }

  /** The other side of `Loses`: a file that did not parse and could not be
      moved is gone after the next write that succeeds. */
  lemma {:induction false} StuckFileDestroyed(s: State, bytes: Bytes, f: Faults, b: Bytes)
    requires FsOk(s.fs) && Content(s.fs, s.fs.dir, Path) == Some(b) && Content(s.fs, s.fs.dir, Aside) != Some(b)
    requires f.create && f.write && f.sync && f.rename && bytes != b
    ensures var t := Written(s.fs, bytes, f);
      Content(t, t.dir, Path) == Some(bytes) && Content(t, t.dir, Aside) == Content(s.fs, s.fs.dir, Aside) != Some(b)
  {
  }
}
