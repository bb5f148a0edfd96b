/** The event log: a ring of numbered events that continues over a restart,
    and the clients that poll it. */
module EventRing {
  import opened Common

  datatype Event = Event(seqNo: nat, message: string)

  datatype Saved = Saved(nextSeq: nat, events: seq<Event>)

  datatype Log = Log(nextSeq: nat, ring: seq<Event>, cap: nat)

  /** The numbers in the ring run up to the last one given out. */
  ghost predicate Contiguous(nextSeq: nat, ring: seq<Event>) {
    && nextSeq > |ring|
    && forall i :: 0 <= i < |ring| ==> ring[i].seqNo == nextSeq - |ring| + i
  }

  ghost predicate Valid(l: Log) { Contiguous(l.nextSeq, l.ring) && (l.cap >= 1 ==> |l.ring| <= l.cap) }

  function New(cap: nat): Log { Log(1, [], cap) }

  function Pushed(l: Log, message: string): Log {
    var kept := if |l.ring| == l.cap && l.ring != [] then l.ring[1..] else l.ring;
    Log(l.nextSeq + 1, kept + [Event(l.nextSeq, message)], l.cap)
  }

  function Snapshot(l: Log, tail: nat): Saved { Saved(l.nextSeq, Tail(l.ring, tail)) }

  function FromSaved(cap: nat, saved: Option<Saved>): Log {
    if saved.None? then New(cap)
    else
      var ring := Tail(saved.value.events, cap);
      var afterLast := if ring == [] then 1 else ring[|ring| - 1].seqNo + 1;
      Log(Max(saved.value.nextSeq, afterLast), ring, cap)
  }

  /** What a client that has seen everything up to `n` is given. */
  ghost predicate Since(l: Log, n: nat, r: seq<Event>) {
    && |r| <= |l.ring| && r == l.ring[|l.ring| - |r|..]
    && (forall i :: 0 <= i < |r| ==> r[i].seqNo > n)
    && (forall i :: 0 <= i < |l.ring| - |r| ==> l.ring[i].seqNo <= n)
  }

  class EventLog {
    var nextSeq: nat
    var ring: seq<Event>
    const cap: nat

    ghost function View(): Log
      reads this
    {
      Log(nextSeq, ring, cap)
    }

    constructor (capacity: nat)
      ensures View() == New(capacity)
    {
      nextSeq, ring, cap := 1, [], capacity;
    }

    constructor Restore(capacity: nat, saved: Option<Saved>)
      ensures View() == FromSaved(capacity, saved)
    {
      nextSeq, ring, cap := 1, [], capacity;
      new;
      if saved.Some? {
        var events := saved.value.events;
        var skip := if |events| > capacity then |events| - capacity else 0;
        ring := events[skip..];
        var afterLast := if ring == [] then 1 else ring[|ring| - 1].seqNo + 1;
        nextSeq := if saved.value.nextSeq >= afterLast then saved.value.nextSeq else afterLast;
      }
    }

    method Push(message: string) returns (s: nat)
      modifies this
      ensures View() == Pushed(old(View()), message) && s == old(nextSeq)
    {
      s := nextSeq;
      nextSeq := nextSeq + 1;
      if |ring| == cap && ring != [] { ring := ring[1..]; }
      ring := ring + [Event(s, message)];
    }

    /** Filters the ring; what is found is always its end. */
    method SinceSeq(n: nat) returns (r: seq<Event>)
      requires Valid(View())
      ensures Since(View(), n, r)
    {
      r := [];
      for i := 0 to |ring|
        invariant |r| <= i && r == ring[i - |r|..i]
        invariant forall k :: 0 <= k < |r| ==> r[k].seqNo > n
        invariant forall k :: 0 <= k < i - |r| ==> ring[k].seqNo <= n
      {
        if ring[i].seqNo > n {
          r := r + [ring[i]];
        }
      }
      assert ring[|ring| - |r|..|ring|] == ring[|ring| - |r|..];
    }

    method TakeSnapshot(tail: nat) returns (s: Saved)
      ensures s == Snapshot(View(), tail)
    {
      var skip := if |ring| > tail then |ring| - tail else 0;
      s := Saved(nextSeq, ring[skip..]);
    }
  }

  // ------------------------------------------------ what every operation keeps

  lemma {:induction false} PushedValid(l: Log, message: string)
    requires Valid(l)
    ensures Valid(Pushed(l, message))
  {
  }

  lemma {:induction false} TailContiguous(nextSeq: nat, ring: seq<Event>, n: nat)
    requires Contiguous(nextSeq, ring)
    ensures Contiguous(nextSeq, Tail(ring, n))
  {
  }

  /** A restored log carries on exactly where the saved one was; whatever the
      file holds, it is a valid log exactly when the events kept of it run on
      to the number it gives out next. */
  lemma {:induction false} RestoredExactly(cap: nat, saved: Saved)
    ensures var l := FromSaved(cap, Some(saved));
      var kept := Tail(saved.events, cap);
      && l.ring == kept
      && (Valid(l) <==> exists next: nat :: Contiguous(next, kept) && (kept != [] ==> saved.nextSeq <= next))
  {
    var l := FromSaved(cap, Some(saved));
    var kept := Tail(saved.events, cap);
    if Valid(l) { assert Contiguous(l.nextSeq, kept); }
    if next: nat :| Contiguous(next, kept) && (kept != [] ==> saved.nextSeq <= next) {
      if kept != [] { assert kept[|kept| - 1].seqNo == next - 1; }
    }
  }

  lemma {:induction false} RestartContinues(l: Log, tail: nat, cap: nat)
    requires Valid(l)
    ensures var r := FromSaved(cap, Some(Snapshot(l, tail)));
      && r.nextSeq == l.nextSeq && r.ring == Tail(Tail(l.ring, tail), cap)
      && Contiguous(r.nextSeq, r.ring)
  {
    TailContiguous(l.nextSeq, l.ring, tail);
    TailContiguous(l.nextSeq, Tail(l.ring, tail), cap);
  }

  /** A capacity of nothing holds everything: the one pop finds nothing, and
      after it the ring never has its capacity again. */
  lemma {:induction false} NoCapacityNoBound(messages: seq<string>)
    ensures var l := PushAll(New(0), messages); |l.ring| == |messages| && l.nextSeq == |messages| + 1 && l.cap == 0
    decreases |messages|
  {
    if messages != [] { NoCapacityNoBound(messages[..|messages| - 1]); }
  }

  function PushAll(l: Log, messages: seq<string>): Log
    decreases |messages|
  {
    if messages == [] then l else Pushed(PushAll(l, messages[..|messages| - 1]), messages[|messages| - 1])
  }

  // ------------------------------------------------ a client, over restarts

  /** `all` are the events ever logged, `got` those the client was given,
      `cursor` the number of the last of them; `saved` is the file. */
  datatype World = World(log: Log, saved: Option<Saved>, all: seq<Event>, cursor: nat, got: seq<Event>)

  datatype Step = Push(message: string) | Save(tail: nat) | Restart | Poll(given: seq<Event>)

  ghost predicate Allowed(w: World, step: Step) { step.Poll? ==> Since(w.log, w.cursor, step.given) }

  function Next(w: World, step: Step): World {
    match step
    case Push(m) => w.(log := Pushed(w.log, m), all := w.all + [Event(w.log.nextSeq, m)])
    case Save(tail) => w.(saved := Some(Snapshot(w.log, tail)))
    case Restart => w.(log := FromSaved(w.log.cap, w.saved))
    case Poll(given) =>
      w.(got := w.got + given, cursor := if given == [] then w.cursor else given[|given| - 1].seqNo)
  }

  /** The file is what the log is: nothing was logged since it was written. */
  ghost predicate Current(w: World) { w.saved.Some? && w.saved.value.nextSeq == w.log.nextSeq }

  /** The client is not further behind than what the ring keeps. */
  predicate InReach(w: World) { w.cursor + |w.log.ring| >= |w.all| }

  ghost predicate Faithful(w: World) {
    && Valid(w.log) && w.log.nextSeq == |w.all| + 1
    && |w.log.ring| <= |w.all| && w.log.ring == w.all[|w.all| - |w.log.ring|..]
    && (w.saved.Some? ==>
          && Contiguous(w.saved.value.nextSeq, w.saved.value.events) && w.saved.value.nextSeq <= |w.all| + 1
          && w.saved.value.events == w.all[w.saved.value.nextSeq - 1 - |w.saved.value.events|..w.saved.value.nextSeq - 1])
    && (forall i :: 0 <= i < |w.all| ==> w.all[i].seqNo == i + 1)
    && w.cursor <= |w.all| && w.got == w.all[..w.cursor]
  }

  lemma {:induction false} TailOfEnd(all: seq<Event>, ring: seq<Event>, n: nat)
    requires |ring| <= |all| && ring == all[|all| - |ring|..]
    ensures Tail(ring, n) == all[|all| - |Tail(ring, n)|..]
  {
  }

  lemma {:induction false} PushFaithful(w: World, m: string)
    requires Faithful(w)
    ensures Faithful(Next(w, Push(m)))
  {
    var t := Next(w, Push(m));
    PushedValid(w.log, m);
    var e := Event(w.log.nextSeq, m);
    var kept := t.log.ring[..|t.log.ring| - 1];
    assert kept == w.all[|w.all| - |kept|..];
    assert t.log.ring == kept + [e] && t.all == w.all + [e];
    assert t.log.ring == t.all[|t.all| - |t.log.ring|..];
    if w.saved.Some? {
      var s := w.saved.value;
      assert t.all[s.nextSeq - 1 - |s.events|..s.nextSeq - 1] == w.all[s.nextSeq - 1 - |s.events|..s.nextSeq - 1];
    }
  }

  lemma {:induction false} SaveFaithful(w: World, tail: nat)
    requires Faithful(w)
    ensures Faithful(Next(w, Save(tail)))
  {
    TailContiguous(w.log.nextSeq, w.log.ring, tail);
    TailOfEnd(w.all, w.log.ring, tail);
    assert w.all[|w.all| - |Tail(w.log.ring, tail)|..] == w.all[|w.all| - |Tail(w.log.ring, tail)|..|w.all|];
  }

  /** Events saved from the end of `all` restore to the end of it. */
  lemma {:induction false} RestoredEnd(all: seq<Event>, s: Saved, cap: nat)
    requires Contiguous(s.nextSeq, s.events) && s.nextSeq == |all| + 1
    requires s.events == all[s.nextSeq - 1 - |s.events|..s.nextSeq - 1]
    ensures var r := FromSaved(cap, Some(s));
      && Valid(r) && r.nextSeq == s.nextSeq && |r.ring| <= |all| && r.ring == all[|all| - |r.ring|..]
  {
    TailContiguous(s.nextSeq, s.events, cap);
    assert s.events == all[|all| - |s.events|..];
    TailOfEnd(all, s.events, cap);
    var r := FromSaved(cap, Some(s));
    if r.ring != [] { assert r.ring[|r.ring| - 1].seqNo == s.nextSeq - 1; }
  }

  lemma {:induction false} RestartFaithful(w: World)
    requires Faithful(w) && Current(w)
    ensures Faithful(Next(w, Restart))
  {
    hide FromSaved, Valid, Contiguous;
    RestoredEnd(w.all, w.saved.value, w.log.cap);
  }

  /** How much a poll gives: the newer events, as far as they are kept. */
  lemma {:induction false} SinceCount(l: Log, n: nat, r: seq<Event>)
    requires Contiguous(l.nextSeq, l.ring) && Since(l, n, r) && n < l.nextSeq
    ensures |r| == Min(|l.ring|, l.nextSeq - 1 - n)
  {
    var k := |l.ring| - |r|;
    if r != [] { assert r[0] == l.ring[k] && l.ring[k].seqNo == l.nextSeq - |r|; }
    if k > 0 { assert l.ring[k - 1].seqNo == l.nextSeq - |r| - 1; }
  }

  lemma {:induction false} EndOf(all: seq<Event>, ring: seq<Event>, r: seq<Event>)
    requires |r| <= |ring| <= |all| && ring == all[|all| - |ring|..] && r == ring[|ring| - |r|..]
    ensures r == all[|all| - |r|..]
  {
  }

  lemma {:induction false} PollParts(w: World, given: seq<Event>)
    requires Faithful(w) && Since(w.log, w.cursor, given)
    ensures |given| == Min(|w.log.ring|, |w.all| - w.cursor) && |given| <= |w.all|
    ensures given == w.all[|w.all| - |given|..] && (|given| == |w.log.ring| ==> given == w.log.ring)
    ensures w.cursor <= |w.all| && w.got == w.all[..w.cursor]
    ensures given != [] ==> given[|given| - 1].seqNo == |w.all|
  {
    SinceCount(w.log, w.cursor, given);
    EndOf(w.all, w.log.ring, given);
    if given != [] { assert given[|given| - 1] == w.all[|w.all| - 1]; }
  }

  lemma {:induction false} RestOf(all: seq<Event>, n: nat, got: seq<Event>, given: seq<Event>)
    requires n <= |all| && got == all[..n] && |given| == |all| - n && given == all[|all| - |given|..]
    ensures given == all[n..] && got + given == all
  {
  }

  lemma {:induction false} PollInReach(w: World, given: seq<Event>)
    requires Faithful(w) && Since(w.log, w.cursor, given) && InReach(w)
    ensures given == w.all[w.cursor..] && Next(w, Poll(given)).got == w.all && Next(w, Poll(given)).cursor == |w.all|
  {
    PollParts(w, given);
    hide Faithful, Since, FromSaved, Pushed, Snapshot;
    RestOf(w.all, w.cursor, w.got, given);
  }

  lemma {:induction false} PollBehind(w: World, given: seq<Event>)
    requires Faithful(w) && Since(w.log, w.cursor, given) && !InReach(w)
    ensures given == w.log.ring && (given != [] ==> Next(w, Poll(given)).got != w.all[..Next(w, Poll(given)).cursor])
  {
    PollParts(w, given);
    hide Faithful, Since, FromSaved, Pushed, Snapshot;
    var t := Next(w, Poll(given));
    assert |t.got| == w.cursor + |w.log.ring|;
  }

  /** What a poll gives: all that is left to see, when it is in reach, and
      otherwise only the kept end of it. */
  lemma {:induction false} PollGives(w: World, given: seq<Event>)
    requires Faithful(w) && Since(w.log, w.cursor, given)
    ensures InReach(w) ==> given == w.all[w.cursor..] && Next(w, Poll(given)).got == w.all && Next(w, Poll(given)).cursor == |w.all|
    ensures !InReach(w) ==> given == w.log.ring && (given != [] ==> Next(w, Poll(given)).got != w.all[..Next(w, Poll(given)).cursor])
  {
    if InReach(w) {
      PollInReach(w, given);
    } else {
      PollBehind(w, given);
    }
  }

  lemma {:induction false} PollFaithful(w: World, given: seq<Event>)
    requires Faithful(w) && Since(w.log, w.cursor, given) && InReach(w)
    ensures Faithful(Next(w, Poll(given)))
  {
    PollGives(w, given);
    assert w.all[..|w.all|] == w.all;
    hide Since, InReach;
    var t := Next(w, Poll(given));
    assert t.cursor == |t.all| && t.got == t.all;
  }

  ghost predicate GoodRun(w: World, run: seq<Step>)
    decreases |run|
  {
    run == [] ||
    (Allowed(w, run[0]) && (run[0].Restart? ==> Current(w)) && (run[0].Poll? ==> InReach(w)) && GoodRun(Next(w, run[0]), run[1..]))
  }

  function After(w: World, run: seq<Step>): World
    decreases |run|
  {
    if run == [] then w else After(Next(w, run[0]), run[1..])
  }

  /** Over any run of pushes, saves, polls and restarts from a current file,
      in which the client never falls behind what is kept: it has been given
      every event up to its cursor, each once, in order. */
  lemma {:induction false} EachEventOnce(w: World, run: seq<Step>)
    requires Faithful(w) && GoodRun(w, run)
    ensures Faithful(After(w, run))
    decreases |run|
  {
    hide Faithful, Next, Current, InReach;
    if run != [] {
      match run[0] {
        case Push(m) => PushFaithful(w, m);
        case Save(tail) => SaveFaithful(w, tail);
        case Restart => RestartFaithful(w);
        case Poll(given) => PollFaithful(w, given);
      }
      EachEventOnce(Next(w, run[0]), run[1..]);
    }
  }

  lemma {:induction false} StartFaithful(cap: nat)
    ensures Faithful(World(New(cap), None, [], 0, []))
  {
  }

  /** A restart from an older file gives numbers out again: to a client that
      had seen everything, the next event is new exactly when nothing had been
      logged since the file was written. */
  lemma {:induction false} StaleRestartHides(w: World, m: string, given: seq<Event>)
    requires Faithful(w) && w.saved.Some? && w.cursor == |w.all| && w.log.cap >= 1
    requires Since(Next(Next(w, Restart), Push(m)).log, w.cursor, given)
    ensures Current(w) <==> given == [Event(w.log.nextSeq, m)]
    ensures !Current(w) ==> given == []
  {
    var s := w.saved.value;
    TailContiguous(s.nextSeq, s.events, w.log.cap);
    var r := Next(w, Restart).log;
    assert r.nextSeq == s.nextSeq && Contiguous(r.nextSeq, r.ring);
    var p := Pushed(r, m);
    PushedValid(r, m);
    var n := |p.ring|;
    assert p.ring[n - 1] == Event(s.nextSeq, m);
    if given != [] { assert given[|given| - 1] == p.ring[n - 1]; }
    if Current(w) {
      SinceCount(p, w.cursor, given);
      assert |given| == 1;
    }
  }
}
