/** Starting exactly the format that was asked for: MODE SELECT with the block
    length, FORMAT UNIT with the protection, and no fallback. The drive answers
    as it likes; a command that met trouble on the way may have taken effect. */
module FormatUnit {
  import opened Common

  datatype Protection = Plain | Type1 | Type2 | Type3

  datatype Form = Long10 | Short10 | Six

  datatype Command = ModeSense | ModeSelect(length: nat, form: Form) | Format(immediate: bool, protection: Protection)

  /** `Illegal` is ILLEGAL REQUEST: the drive's no, and nothing done. */
  datatype Reply = Good | Illegal | Trouble

  /** `took`: what really happened, which only the drive knows. */
  datatype Entry = Entry(command: Command, reply: Reply, took: bool)

  predicate Honest(e: Entry) { (e.reply == Good ==> e.took) && (e.reply == Illegal ==> !e.took) }

  predicate AllHonest(log: seq<Entry>) { forall k :: 0 <= k < |log| ==> Honest(log[k]) }

  // ------------------------------------------------ reading a command log

  /** The formats the drive accepted. */
  function Accepted(log: seq<Entry>): seq<Protection> {
    if log == [] then []
    else
      var e := log[|log| - 1];
      Accepted(log[..|log| - 1]) + if e.command.Format? && e.reply == Good then [e.command.protection] else []
  }

  /** The length in the last MODE SELECT the drive accepted, and in the last
      one it was sent. */
  function LastSet(log: seq<Entry>): Option<nat> {
    if log == [] then None
    else
      var e := log[|log| - 1];
      if e.command.ModeSelect? && e.reply == Good then Some(e.command.length) else LastSet(log[..|log| - 1])
  }

  function LastAsked(log: seq<Entry>): Option<nat> {
    if log == [] then None
    else
      var e := log[|log| - 1];
      if e.command.ModeSelect? then Some(e.command.length) else LastAsked(log[..|log| - 1])
  }

  /** The drive's block length: what it was, until a MODE SELECT took. */
  function Length(first: nat, log: seq<Entry>): nat {
    if log == [] then first
    else
      var e := log[|log| - 1];
      if e.command.ModeSelect? && e.took then e.command.length else Length(first, log[..|log| - 1])
  }

  /** The formats that really began, each with the length it formats to. */
  function Begun(first: nat, log: seq<Entry>): seq<(nat, Protection)> {
    if log == [] then []
    else
      var e, before := log[|log| - 1], log[..|log| - 1];
      Begun(first, before) + if e.command.Format? && e.took then [(Length(first, before), e.command.protection)] else []
  }

  // ------------------------------------------------ the drive

  class Drive {
    const first: nat
    ghost var log: seq<Entry>

    constructor (length: nat)
      ensures first == length && log == []
    {
      first, log := length, [];
    }

    ghost predicate Valid()
      reads this
    {
      AllHonest(log)
    }

    /** Any answer, and any truth behind it that the answer allows. */
    method Send(c: Command) returns (r: Reply, ghost e: Entry)
      requires Valid()
      modifies this
      ensures Valid()
      ensures log == old(log) + [e] && e.command == c && e.reply == r && Honest(e)
    {
      r := *;
      ghost var took :| Honest(Entry(c, r, took)) by { assert Honest(Entry(c, r, r == Good)); }
      e := Entry(c, r, took);
      log := log + [e];
    }
  }

  // ------------------------------------------------ setting the length

  datatype Selected = Set | Refused | Failed

  /** What `set_length` sends and what it makes of it: MODE SENSE, then the
      same length in one form after another until one is accepted; refused if
      any of them was answered ILLEGAL REQUEST. */
  ghost predicate Selecting(sent: seq<Entry>, length: nat, a: Selected) {
    && |sent| >= 2 && sent[0].command == ModeSense
    && (forall k :: 1 <= k < |sent| ==> sent[k].command.ModeSelect? && sent[k].command.length == length)
    && (forall k :: 1 <= k < |sent| - 1 ==> sent[k].reply != Good)
    && (forall j, k :: 1 <= j < k < |sent| ==> sent[j].command != sent[k].command)
    && (a == Set <==> sent[|sent| - 1].reply == Good)
    && (a == Refused <==> sent[|sent| - 1].reply != Good && exists k :: 1 <= k < |sent| && sent[k].reply == Illegal)
    && (a != Set ==> sent[|sent| - 1].command.form == Six && sent[|sent| - 2].command == ModeSelect(length, Short10))
  }

  function Forms(long: bool): seq<Form> { (if long then [Long10] else []) + [Short10, Six] }

  method SetLength(d: Drive, length: nat, long: bool) returns (a: Selected, ghost sent: seq<Entry>)
    requires d.Valid()
    modifies d
    ensures d.Valid()
    ensures d.log == old(d.log) + sent && Selecting(sent, length, a)
    // the long form first, exactly for a drive that gave a long descriptor
    ensures sent[1].command == ModeSelect(length, if long && sent[0].reply == Good then Long10 else Short10)
  {
    hide Selecting;
    var sense, e0 := d.Send(ModeSense);
    sent := [e0];
    // a MODE SENSE that fails gives no long descriptor
    var forms := Forms(long && sense == Good);
    var refused := false;
    for i := 0 to |forms|
      invariant d.Valid() && d.log == old(d.log) + sent
      invariant Tried(sent, length, forms[..i]) && NoneGood(sent)
      invariant refused <==> SomeIllegal(sent)
      invariant |sent| >= 1 && sent[0] == e0
      invariant i > 0 ==> |sent| >= 2 && sent[1].command == ModeSelect(length, forms[0])
    {
      var r, e := d.Send(ModeSelect(length, forms[i]));
      ghost var more := sent + [e];
      TriedMore(sent, e, length, forms, i);
      sent := more;
      if r == Good {
        a := Set;
        assert SelectedLast(sent);
        TakenOne(sent, length, forms, i);
        return;
      }
      refused := refused || r == Illegal;
    }
    a := if refused then Refused else Failed;
    TakenNone(sent, length, forms, a);
  }

  /** MODE SENSE and one MODE SELECT for each of these forms. */
  ghost predicate Tried(sent: seq<Entry>, length: nat, forms: seq<Form>) {
    && |sent| == 1 + |forms| && sent[0].command == ModeSense
    && (forall k :: 0 <= k < |forms| ==> sent[k + 1].command == ModeSelect(length, forms[k]))
  }

  ghost predicate NoneGood(sent: seq<Entry>) { forall k :: 1 <= k < |sent| ==> sent[k].reply != Good }

  ghost predicate SomeIllegal(sent: seq<Entry>) { exists k :: 1 <= k < |sent| && sent[k].reply == Illegal }

  ghost predicate SelectedLast(sent: seq<Entry>) { |sent| > 1 && sent[|sent| - 1].reply == Good && NoneGood(sent[..|sent| - 1]) }

  lemma {:induction false} TriedMore(sent: seq<Entry>, e: Entry, length: nat, forms: seq<Form>, i: nat)
    requires i < |forms| && Tried(sent, length, forms[..i]) && e.command == ModeSelect(length, forms[i])
    ensures Tried(sent + [e], length, forms[..i + 1])
    ensures SomeIllegal(sent + [e]) <==> SomeIllegal(sent) || e.reply == Illegal
    ensures NoneGood(sent) ==> (NoneGood(sent + [e]) <==> e.reply != Good)
    ensures (sent + [e])[..|sent + [e]| - 1] == sent
  {
    var more := sent + [e];
    assert more[|sent|] == e;
    assert forall k :: 0 <= k < |sent| ==> more[k] == sent[k];
    if SomeIllegal(sent) {
      var k :| 1 <= k < |sent| && sent[k].reply == Illegal;
      assert more[k].reply == Illegal;
    }
  }

  lemma {:induction false} FormsDiffer(sent: seq<Entry>, length: nat, forms: seq<Form>, i: nat)
    requires (forms == Forms(true) || forms == Forms(false)) && i < |forms| && Tried(sent, length, forms[..i + 1])
    ensures forall j, k :: 1 <= j < k < |sent| ==> sent[j].command != sent[k].command
    ensures forall k :: 1 <= k < |sent| ==> sent[k].command.ModeSelect? && sent[k].command.length == length
  {
    forall k | 1 <= k < |sent| ensures sent[k].command == ModeSelect(length, forms[k - 1]) {
      assert sent[(k - 1) + 1].command == ModeSelect(length, forms[..i + 1][k - 1]);
    }
  }

  lemma {:induction false} TakenOne(sent: seq<Entry>, length: nat, forms: seq<Form>, i: nat)
    requires (forms == Forms(true) || forms == Forms(false)) && i < |forms| && Tried(sent, length, forms[..i + 1]) && SelectedLast(sent)
    ensures Selecting(sent, length, Set)
  {
    FormsDiffer(sent, length, forms, i);
    assert forall k :: 1 <= k < |sent| - 1 ==> sent[k] == sent[..|sent| - 1][k];
  }

  lemma {:induction false} TakenNone(sent: seq<Entry>, length: nat, forms: seq<Form>, a: Selected)
    requires (forms == Forms(true) || forms == Forms(false)) && Tried(sent, length, forms[..|forms|]) && NoneGood(sent)
    requires a == if SomeIllegal(sent) then Refused else Failed
    ensures Selecting(sent, length, a)
  {
    FormsDiffer(sent, length, forms, |forms| - 1);
    var n := |forms|;
    assert forms[..n] == forms && forms[n - 1] == Six && forms[n - 2] == Short10;
    assert sent[(n - 1) + 1].command == ModeSelect(length, forms[..n][n - 1]);
    assert sent[(n - 2) + 1].command == ModeSelect(length, forms[..n][n - 2]);
  }

  /** After those commands the drive's length is the one asked for if it was
      taken, and otherwise that or the old one; no format began. */
  lemma {:induction false} SelectingMeans(first: nat, before: seq<Entry>, sent: seq<Entry>, length: nat, a: Selected)
    requires Selecting(sent, length, a) && AllHonest(sent)
    ensures Begun(first, before + sent) == Begun(first, before) && Accepted(before + sent) == Accepted(before)
    ensures LastAsked(before + sent) == Some(length)
    ensures LastSet(before + sent) == if a == Set then Some(length) else LastSet(before)
    ensures Length(first, before + sent) == length || (a != Set && Length(first, before + sent) == Length(first, before))
  {
    var n := |sent| - 1;
    var e, init := sent[n], before + sent[..n];
    assert (before + sent)[..|before + sent| - 1] == init;
    Unset(first, before, sent[..n], length);
  }

  /** None of them accepted so far. */
  lemma {:induction false} Unset(first: nat, before: seq<Entry>, sent: seq<Entry>, length: nat)
    requires forall k :: 0 <= k < |sent| ==> sent[k].command == ModeSense || (sent[k].command.ModeSelect? && sent[k].command.length == length)
    requires forall k :: 1 <= k < |sent| ==> sent[k].command.ModeSelect? && sent[k].reply != Good
    requires sent != [] ==> sent[0].command == ModeSense
    ensures Begun(first, before + sent) == Begun(first, before) && Accepted(before + sent) == Accepted(before)
    ensures LastSet(before + sent) == LastSet(before)
    ensures Length(first, before + sent) == length || Length(first, before + sent) == Length(first, before)
    decreases |sent|
  {
    if sent == [] {
      assert before + sent == before;
    } else {
      var n := |sent| - 1;
      Unset(first, before, sent[..n], length);
      assert (before + sent)[..|before + sent| - 1] == before + sent[..n];
    }
  }

  // ------------------------------------------------ starting the format

  datatype Attempt = Started(immediate: bool) | AttemptRefused | AttemptFailed

  /** What `begin` may send after the length is set, and its outcome. */
  ghost predicate Formatting(sent: seq<Entry>, p: Protection, a: Attempt) {
    && 1 <= |sent| <= 2 && sent[0].command == Format(true, p)
    && (|sent| == 2 ==> p == Plain && sent[0].reply == Illegal && sent[1].command == Format(false, Plain))
    && var last := sent[|sent| - 1].reply;
    && (last == Good <==> a.Started?) && (last == Illegal <==> a.AttemptRefused?)
    && (a.Started? ==> a.immediate == (|sent| == 1))
    && (p == Plain && |sent| == 1 ==> last != Illegal)
  }

  ghost predicate Beginning(sent: seq<Entry>, length: nat, p: Protection, a: Attempt) {
    exists n: nat, s: Selected :: n <= |sent| && Selecting(sent[..n], length, s) && AfterSelect(sent[n..], s, p, a)
  }

  ghost predicate AfterSelect(sent: seq<Entry>, s: Selected, p: Protection, a: Attempt) {
    match s
    case Set => Formatting(sent, p, a)
    case Refused => sent == [] && a == AttemptRefused
    case Failed => sent == [] && a == AttemptFailed
  }

  method Begin(d: Drive, length: nat, p: Protection, long: bool) returns (a: Attempt, ghost sent: seq<Entry>)
    requires d.Valid()
    modifies d
    ensures d.Valid()
    ensures d.log == old(d.log) + sent && Beginning(sent, length, p, a)
  {
    hide Selecting;
    var s, first := SetLength(d, length, long);
    ghost var rest: seq<Entry> := [];
    if s != Set {
      a := if s == Refused then AttemptRefused else AttemptFailed;
    } else {
      var r, e := d.Send(Format(true, p));
      rest := [e];
      if r == Good {
        a := Started(true);
      } else if r == Illegal && p != Plain {
        a := AttemptRefused;
      } else if r == Illegal {
        var q, f := d.Send(Format(false, Plain));
        rest := [e, f];
        a := if q == Good then Started(false) else if q == Illegal then AttemptRefused else AttemptFailed;
      } else {
        a := AttemptFailed;
      }
    }
    sent := first + rest;
    assert sent[..|first|] == first && sent[|first|..] == rest;
    assert AfterSelect(rest, s, p, a);
  }

  datatype Outcome = Running(immediate: bool) | WasRefused | HasFailed

  /** What the answers of one attempt come to. It ended with a FORMAT UNIT, of
      the protection asked for, or with no form of the length accepted: running
      if that FORMAT UNIT was answered good; refused if it was answered ILLEGAL
      REQUEST, or no form of the length was accepted and one was answered so;
      failed otherwise. A plain format refused is tried once more, blocking. */
  ghost predicate Told(attempt: seq<Entry>, to: nat, p: Protection, o: Outcome) {
    && |attempt| >= 2 && attempt[0].command == ModeSense
    && var last := attempt[|attempt| - 1];
    && (last.command.Format? || (last.command == ModeSelect(to, Six) && last.reply != Good))
    && (last.command.Format? ==> last.command.protection == p && (last.command == Format(true, Plain) ==> last.reply != Illegal))
    && (last.command.Format? && !last.command.immediate ==> attempt[|attempt| - 2].command == Format(true, Plain) && attempt[|attempt| - 2].reply == Illegal)
    && (o.Running? <==> last.command.Format? && last.reply == Good)
    && (o.Running? ==> (o.immediate <==> last.command.immediate))
    && (o.WasRefused? <==> (last.command.Format? && last.reply == Illegal) || (last.command.ModeSelect? && SomeIllegal(attempt)))
    && (o.HasFailed? <==> (last.command.Format? && last.reply == Trouble) || (last.command.ModeSelect? && !SomeIllegal(attempt)))
  }

  lemma {:induction false} SelectingTold(sent: seq<Entry>, to: nat, s: Selected)
    requires Selecting(sent, to, s)
    ensures |sent| >= 2 && sent[0].command == ModeSense
    ensures s != Set ==> sent[|sent| - 1].command == ModeSelect(to, Six) && sent[|sent| - 1].reply != Good
    ensures s == Refused ==> SomeIllegal(sent)
    ensures s == Failed ==> !SomeIllegal(sent)
  {
  }

  lemma {:induction false} FormattingTold(sent: seq<Entry>, p: Protection, a: Attempt)
    requires Formatting(sent, p, a)
    ensures sent != []
    ensures var last := sent[|sent| - 1];
      && last.command.Format? && last.command.protection == p && (last.command == Format(true, Plain) ==> last.reply != Illegal)
      && (last.reply == Good <==> a.Started?) && (last.reply == Illegal <==> a.AttemptRefused?)
      && (a.Started? ==> (a.immediate <==> last.command.immediate))
      && (!last.command.immediate ==> |sent| == 2 && sent[0].command == Format(true, Plain) && sent[0].reply == Illegal)
  {
  }

  lemma {:induction false} BeginningTold(sent: seq<Entry>, to: nat, p: Protection, a: Attempt)
    requires Beginning(sent, to, p, a)
    ensures Told(sent, to, p, match a case Started(i) => Running(i) case AttemptRefused => WasRefused case AttemptFailed => HasFailed)
  {
    hide Selecting, Formatting;
    var n: nat, s: Selected :| n <= |sent| && Selecting(sent[..n], to, s) && AfterSelect(sent[n..], s, p, a);
    SelectingTold(sent[..n], to, s);
    if s == Set {
      FormattingTold(sent[n..], p, a);
      assert sent[|sent| - 1] == sent[n..][|sent| - n - 1];
    } else {
      assert sent[..n] == sent;
    }
  }

  /** Exactly the format asked for, or none, in terms of the commands sent and
      of what became of the drive. */
  ghost predicate Exactly(first: nat, before: seq<Entry>, after: seq<Entry>, current: nat, to: nat, p: Protection, o: Outcome) {
    // started: one FORMAT UNIT accepted, one begun, as asked
    && (o.Running? ==>
          && Accepted(after) == Accepted(before) + [p] && LastSet(after) == Some(to)
          && Begun(first, after) == Begun(first, before) + [(to, p)])
    // not started: none accepted
    && (!o.Running? ==> Accepted(after) == Accepted(before))
    // refused: none begun, and the old length asked for last
    && (o.WasRefused? ==>
          && Begun(first, after) == Begun(first, before) && LastAsked(after) == Some(current)
          && (after != [] && after[|after| - 1].reply == Good ==> Length(first, after) == current))
    // failed: one may have begun only if the last command of all did not come back
    && (o.HasFailed? ==>
          after != [] &&
          var e := after[|after| - 1];
          && LastAsked(after) == Some(to)
          && (Begun(first, after) == Begun(first, before) ||
              (e.command.Format? && e.reply == Trouble && Begun(first, after) == Begun(first, before) + [(to, p)])))
  }

  lemma {:induction false} FormattingMeans(first: nat, before: seq<Entry>, sent: seq<Entry>, p: Protection, a: Attempt)
    requires Formatting(sent, p, a) && AllHonest(sent)
    ensures LastSet(before + sent) == LastSet(before) && LastAsked(before + sent) == LastAsked(before)
    ensures Length(first, before + sent) == Length(first, before)
    ensures Accepted(before + sent) == Accepted(before) + if a.Started? then [p] else []
    ensures a.Started? ==> Begun(first, before + sent) == Begun(first, before) + [(Length(first, before), p)]
    ensures a.AttemptRefused? ==> Begun(first, before + sent) == Begun(first, before)
    ensures a.AttemptFailed? ==>
      && sent[|sent| - 1].reply == Trouble && sent[|sent| - 1].command.Format?
      && (Begun(first, before + sent) == Begun(first, before) || Begun(first, before + sent) == Begun(first, before) + [(Length(first, before), p)])
  {
    hide LastSet, LastAsked, Length, Accepted, Begun;
    OneFormat(first, before, sent[0]);
    if |sent| == 1 {
      assert sent == [sent[0]];
    } else {
      OneFormat(first, before + [sent[0]], sent[1]);
      assert before + sent == before + [sent[0]] + [sent[1]];
    }
  }

  lemma {:induction false} OneFormat(first: nat, before: seq<Entry>, e: Entry)
    requires e.command.Format?
    ensures var all := before + [e];
      && LastSet(all) == LastSet(before) && LastAsked(all) == LastAsked(before) && Length(first, all) == Length(first, before)
      && Accepted(all) == Accepted(before) + (if e.reply == Good then [e.command.protection] else [])
      && Begun(first, all) == Begun(first, before) + (if e.took then [(Length(first, before), e.command.protection)] else [])
  {
    assert (before + [e])[..|before + [e]| - 1] == before;
  }

  lemma {:induction false} BeginningMeans(first: nat, before: seq<Entry>, sent: seq<Entry>, to: nat, p: Protection, a: Attempt)
    requires Beginning(sent, to, p, a) && AllHonest(sent)
    ensures LastAsked(before + sent) == Some(to) && |sent| >= 1
    ensures Accepted(before + sent) == Accepted(before) + if a.Started? then [p] else []
    ensures a.Started? ==> LastSet(before + sent) == Some(to) && Begun(first, before + sent) == Begun(first, before) + [(to, p)]
    ensures a.AttemptRefused? ==> Begun(first, before + sent) == Begun(first, before)
    ensures a.AttemptFailed? ==>
      var e := sent[|sent| - 1];
      Begun(first, before + sent) == Begun(first, before) ||
      (e.command.Format? && e.reply == Trouble && Begun(first, before + sent) == Begun(first, before) + [(to, p)])
  {
    hide Selecting, Formatting;
    var n: nat, s: Selected :| n <= |sent| && Selecting(sent[..n], to, s) && AfterSelect(sent[n..], s, p, a);
    assert n >= 2 by { SelectingLong(sent[..n], to, s); }
    SelectingMeans(first, before, sent[..n], to, s);
    assert before + sent == (before + sent[..n]) + sent[n..];
    if s == Set {
      assert sent[n..] != [] by { FormattingLong(sent[n..], p, a); }
      FormattingMeans(first, before + sent[..n], sent[n..], p, a);
    } else {
      assert (before + sent[..n]) + [] == before + sent[..n];
    }
  }

  lemma {:induction false} SelectingLong(sent: seq<Entry>, length: nat, a: Selected)
    requires Selecting(sent, length, a)
    ensures |sent| >= 2
  {
  }

  lemma {:induction false} FormattingLong(sent: seq<Entry>, p: Protection, a: Attempt)
    requires Formatting(sent, p, a)
    ensures sent != []
  {
  }

  lemma {:induction false} HonestPart(before: seq<Entry>, sent: seq<Entry>)
    requires AllHonest(before + sent)
    ensures AllHonest(sent)
  {
    forall k | 0 <= k < |sent| ensures Honest(sent[k]) {
      assert (before + sent)[|before| + k] == sent[k];
    }
  }

  method StartExact(d: Drive, current: nat, to: nat, p: Protection, long: bool, longBack: bool)
    returns (o: Outcome, ghost attempt: seq<Entry>)
    requires d.Valid()
    modifies d
    ensures d.Valid()
    ensures |d.log| > |old(d.log)| && d.log[..|old(d.log)|] == old(d.log)
    ensures Exactly(d.first, old(d.log), d.log, current, to, p, o)
    // the outcome is what the answers of the attempt say
    ensures old(d.log) + attempt <= d.log && Told(attempt, to, p, o)
    // after it only a refusal sends anything, and that is the old length
    ensures d.log != old(d.log) + attempt <==> o.WasRefused?
    ensures o.WasRefused? ==> LastAsked(d.log) == Some(current)
  {
    hide Selecting, Beginning, Exactly, Told;
    ghost var before := d.log;
    var a, sent := Begin(d, to, p, long);
    ghost var mid := d.log;
    HonestPart(before, sent);
    BeginningMeans(d.first, before, sent, to, p, a);
    BeginningTold(sent, to, p, a);
    attempt := sent;
    match a {
      case Started(immediate) => o := Running(immediate);
      case AttemptFailed => o := HasFailed;
      case AttemptRefused =>
        var back, put := SetLength(d, current, longBack);
        HonestPart(mid, put);
        SelectingMeans(d.first, mid, put, current, back);
        SelectingEnd(put, current, back);
        o := WasRefused;
    }
    ExactlyFrom(d.first, before, mid, d.log, current, to, p, a, o);
  }

  lemma {:induction false} SelectingEnd(sent: seq<Entry>, length: nat, a: Selected)
    requires Selecting(sent, length, a)
    ensures |sent| >= 2 && (a == Set <==> sent[|sent| - 1].reply == Good)
  {
  }

  lemma {:induction false} ExactlyFrom(first: nat, before: seq<Entry>, mid: seq<Entry>, after: seq<Entry>, current: nat, to: nat, p: Protection, a: Attempt, o: Outcome)
    requires |after| > |before| && |mid| > |before| && |after| >= |mid| && after[..|mid|] == mid
    requires Accepted(mid) == Accepted(before) + if a.Started? then [p] else []
    requires a.Started? ==> LastSet(mid) == Some(to) && Begun(first, mid) == Begun(first, before) + [(to, p)]
    requires a.AttemptRefused? ==> Begun(first, mid) == Begun(first, before)
    requires LastAsked(mid) == Some(to)
    requires a.AttemptFailed? ==>
      var e := mid[|mid| - 1];
      Begun(first, mid) == Begun(first, before) ||
      (e.command.Format? && e.reply == Trouble && Begun(first, mid) == Begun(first, before) + [(to, p)])
    requires !a.AttemptRefused? ==> after == mid
    requires a.AttemptRefused? ==>
      && Begun(first, after) == Begun(first, mid) && Accepted(after) == Accepted(mid) && LastAsked(after) == Some(current)
      && (after[|after| - 1].reply == Good ==> Length(first, after) == current)
    requires o == match a case Started(i) => Running(i) case AttemptRefused => WasRefused case AttemptFailed => HasFailed
    ensures Exactly(first, before, after, current, to, p, o)
  {
  }
}
