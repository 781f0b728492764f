/** The promises of the activation service, for every reachable state and every history. */
module ActivationTheorems {
  import opened Prelude
  import opened Outcomes
  import opened Activation
  import opened ActivationInvariant
  import opened ActivationSafety

  // ----- how a run ends -----

  /**
   * However a run that wrote its row ends, returned or dropped: staging and row are both gone, or
   * cleanup is blocked for the whole process, or the row says UncertainNoReplay.
   */
  lemma ExitTrichotomy(s: State, labels: seq<Label>, x: Id)
    requires Initial(s)
    requires var t := Execute(s, labels); (x in t.runs && t.runs[x].pc.Leaving? && t.runs[x].journaled)
    ensures var t := Execute(s, labels); Settled(t.disk, t.flags, x, t.runs[x].mode)
  {
    hide Execute;
    ReachableIsSafe(s, labels);
    var t := Execute(s, labels);
    assert PointOk(t.disk, t.flags, x, t.runs[x]);
  }

  /** A completed outcome is exactly an Ok return, reached only past every milestone in order. */
  lemma CompletedMeansCompleted(s: State, labels: seq<Label>, x: Id)
    requires Initial(s)
    requires var t := Execute(s, labels); (x in t.runs && t.runs[x].pc.Leaving?)
    ensures var t := Execute(s, labels); var r := t.runs[x];
      && (Classify(r.pc.result) == Success(Completed) <==> r.pc.result.Success?)
      && (r.pc.result.Success? ==> r.trail == FULL_TRAIL && Gone(t.disk, x))
  {
    hide Execute;
    ReachableIsSafe(s, labels);
    var r := Execute(s, labels).runs[x];
    assert ResultOk(Execute(s, labels).disk, x, r, r.pc.result);
  }

  /** While a receipt of completion is being written, everything it vouches for has happened. */
  lemma ReceiptComesLast(s: State, labels: seq<Label>, x: Id)
    requires Initial(s)
    requires var t := Execute(s, labels); (x in t.runs && t.runs[x].pc.SendingCompleted?)
    ensures var t := Execute(s, labels); t.runs[x].trail == TRAIL_5 && Gone(t.disk, x)
  {
    hide Execute;
    ReachableIsSafe(s, labels);
    var t := Execute(s, labels);
    assert PointOk(t.disk, t.flags, x, t.runs[x]);
  }

  // ----- no replay -----

  /** A clipboard row in an uncertain state that no run owns any more. */
  predicate Poisoned(s: State, x: Id) {
    MarkedRow(s.disk, x) && !(x in s.runs && s.runs[x].journaled)
  }

  /** A clipboard run that reports UncertainNoReplay leaves its mark behind. */
  lemma UncertainEndPoisons(s: State, x: Id, c: Choice)
    requires Inv(s) && x in s.runs && s.runs[x].mode == Clipboard
    requires s.runs[x].pc.Leaving? && Classify(s.runs[x].pc.result) == Success(UncertainNoReplayOutcome)
    ensures Poisoned(Next(s, Step(x, c)), x)
  {
    assert ResultOk(s.disk, x, s.runs[x], s.runs[x].pc.result);
  }

  lemma TouchIsOnRecord(d: Disk, f: Flags, x: Id, r: Run)
    requires PointOk(d, f, x, r)
    ensures TouchOk(d, x, r)
  {
    var ok := TouchOk(d, x, r);
    assert ok;
    hide TouchOk;
  }

  /**
   * A crash after a run changed the clipboard leaves the mark too, unless the run had already put
   * the completed state in the journal.
   */
  lemma CrashAfterTouchPoisons(s: State, x: Id)
    requires Inv(s) && x in s.runs && s.runs[x].touched
    requires !RowIs(s.disk, x, Clipboard, CompletedState) && !s.runs[x].trail.Reached(RowRemoved)
    ensures Poisoned(Next(s, Crash), x)
  {
    hide PointOk;
    assert RunOk(s.disk, s.flags, x, s.runs[x], s.log);
    TouchIsOnRecord(s.disk, s.flags, x, s.runs[x]);
  }

  predicate Rejournals(s: State, l: Label, x: Id) {
    l == Step(x, Proceed) && x in s.runs && s.runs[x].pc.Journaling?
  }

  lemma UnjournaledRunKeepsDisk(d: Disk, f: Flags, x: Id, r: Run, c: Choice, now: nat)
    requires PointOk(d, f, x, r) && !r.journaled && !r.pc.Leaving? && !(r.pc.Journaling? && c == Proceed)
    ensures Act(d, f, x, r, c, now).disk == d && !Act(d, f, x, r, c, now).run.journaled
  {
    assert IsAdmission(r.pc) || r.pc.Closing? || r.pc.Returning?;
    hide PointOk, ActPreparation, ActTransfer, ActApplication, ActAnswer, ActCompletion, ActUncertainty;
  }

  /** The mark survives every step but one: a new run that journals the same id over it. */
  lemma MarkSurvivesIffNotRejournaled(s: State, l: Label, x: Id)
    requires Inv(s) && Poisoned(s, x)
    ensures Poisoned(Next(s, l), x) <==> !Rejournals(s, l, x)
    ensures Rejournals(s, l, x) ==> s.runs[x].mode == Save
  {
    hide PointOk, Act;
    match l
    case Activate(y, mode, kind) =>
    case DropFuture(y) =>
    case Crash =>
    case Step(y, c) =>
      if y in s.runs && !s.runs[y].pc.Leaving? { StepKeepsMark(s, y, c, x); }
    case Recover(y, c) => RecoveryKeepsMarks(s, y, c, x);
  }

  lemma StepKeepsMark(s: State, y: Id, c: Choice, x: Id)
    requires Inv(s) && Poisoned(s, x) && y in s.runs && !s.runs[y].pc.Leaving?
    ensures Poisoned(StepRun(s, y, c), x) <==> !Rejournals(s, Step(y, c), x)
    ensures Rejournals(s, Step(y, c), x) ==> s.runs[x].mode == Save
  {
    var r := s.runs[y];
    assert RunOk(s.disk, s.flags, y, r, s.log);
    if y != x {
      hide Act, PointOk, OwnRow, OwnStaging, OwnClipboard, OwnCache, OwnEvents;
      ActIsTame(s.disk, s.flags, y, r, c, |s.log|);
      OthersAreAlike(s.disk, y, StepRun(s, y, c).disk, x);
    } else if Rejournals(s, Step(y, c), x) {
      JournalingOverwrites(s.disk, s.flags, x, r, |s.log|);
    } else {
      hide Act, PointOk;
      UnjournaledRunKeepsDisk(s.disk, s.flags, x, r, c, |s.log|);
    }
  }

  lemma JournalingOverwrites(d: Disk, f: Flags, x: Id, r: Run, now: nat)
    requires PointOk(d, f, x, r) && r.pc.Journaling?
    ensures RowIs(Act(d, f, x, r, Proceed, now).disk, x, r.mode, Staging)
    ensures MarkedRow(d, x) ==> r.mode == Save
  {}

  lemma RecoveryKeepsMarks(s: State, y: Id, c: Choice, x: Id)
    requires RecoveryOk(s) && MarkedRow(s.disk, x)
    ensures MarkedRow(StepRecovery(s, y, c).disk, x)
  {}

  lemma NoClipboardCheckUnderUncertainty(d: Disk, f: Flags, y: Id, r: Run, c: Choice, now: nat)
    requires HasUncertainSideEffect(d) && r.mode == Clipboard && r.pc.CheckingStore?
    ensures Act(d, f, y, r, c, now).events == []
  {}

  /** From position `from` on, nothing was admitted to the clipboard by a check made there. */
  ghost predicate NoNewClipboardAdmission(log: seq<Event>, from: nat) {
    forall k :: from <= k < |log| ==>
      match log[k]
      case Checked(_, mode) => mode == Save
      case AcceptedSent(_, mode, at) => mode == Clipboard ==> at < from
      case Called(_, at) => at < from
      case _ => true
  }

  ghost predicate Shut(s: State, x: Id, from: nat) {
    Inv(s) && Poisoned(s, x) && from <= |s.log| && NoNewClipboardAdmission(s.log, from)
  }

  /** A clipboard run that rests on a check made it before the gate shut. */
  lemma ClipboardChecksAreOld(log: seq<Event>, from: nat, y: Id, r: Run)
    requires NoNewClipboardAdmission(log, from) && CheckOk(y, r, log) && NeedsCheck(r) && r.mode == Clipboard
    ensures r.checkedAt < from
  {}

  lemma OwnEventsAdmitNothing(log: seq<Event>, from: nat, y: Id, r: Run, e: Effect)
    requires NoNewClipboardAdmission(log, from) && from <= |log| && CheckOk(y, r, log) && OwnEvents(y, r, |log|, e)
    requires r.pc.Admitting? || r.pc.CallingClipboard? ==> NeedsCheck(r)
    requires r.pc.CallingClipboard? ==> r.mode == Clipboard
    requires r.pc.CheckingStore? && r.mode == Clipboard ==> e.events == []
    ensures NoNewClipboardAdmission(log + e.events, from)
  {
    if NeedsCheck(r) && r.mode == Clipboard { ClipboardChecksAreOld(log, from, y, r); }
    assert forall k :: 0 <= k < |log| ==> (log + e.events)[k] == log[k];
  }

  lemma StepAddsNoAdmission(s: State, x: Id, from: nat, y: Id, c: Choice)
    requires Shut(s, x, from) && y in s.runs && !s.runs[y].pc.Leaving?
    ensures NoNewClipboardAdmission(StepRun(s, y, c).log, from) && from <= |StepRun(s, y, c).log|
  {
    var r, e := s.runs[y], Act(s.disk, s.flags, y, s.runs[y], c, |s.log|);
    if r.mode == Clipboard && r.pc.CheckingStore? {
      NoClipboardCheckUnderUncertainty(s.disk, s.flags, y, r, c, |s.log|);
    }
    assert RunOk(s.disk, s.flags, y, r, s.log);
    hide Act, PointOk, OwnEvents, NoNewClipboardAdmission, CheckOk;
    ActEvents(s.disk, s.flags, y, r, c, s.log);
    if r.pc.Admitting? || r.pc.CallingClipboard? { AtThesePointsChecked(s.disk, s.flags, y, r); }
    OwnEventsAdmitNothing(s.log, from, y, r, e);
  }

  /** What is not an action of a run puts nothing on record that admits or calls. */
  lemma OthersAddNoAdmission(s: State, l: Label, from: nat)
    requires NoNewClipboardAdmission(s.log, from) && from <= |s.log|
    requires l.Step? ==> l.id !in s.runs || s.runs[l.id].pc.Leaving?
    ensures NoNewClipboardAdmission(Next(s, l).log, from) && from <= |Next(s, l).log|
  {
    hide Act, HasUncertainSideEffect;
    var t := Next(s, l);
    assert t.log == s.log || (|t.log| == |s.log| + 1 && t.log == s.log + [t.log[|s.log|]]);
    if t.log != s.log { assert !t.log[|s.log|].Checked? && !t.log[|s.log|].AcceptedSent? && !t.log[|s.log|].Called?; }
    hide Next;
  }

  lemma StayShut(s: State, l: Label, x: Id, from: nat)
    requires Shut(s, x, from) && !Rejournals(s, l, x)
    ensures Shut(Next(s, l), x, from)
  {
    NextOfARun(s, l);
    hide Act, Next, Inv, Poisoned, NoNewClipboardAdmission, Rejournals;
    NextKeepsInv(s, l);
    MarkSurvivesIffNotRejournaled(s, l, x);
    if l.Step? && l.id in s.runs && !s.runs[l.id].pc.Leaving? {
      StepAddsNoAdmission(s, x, from, l.id, l.choice);
    } else {
      OthersAddNoAdmission(s, l, from);
    }
  }

  lemma NextOfARun(s: State, l: Label)
    ensures l.Step? && l.id in s.runs && !s.runs[l.id].pc.Leaving? ==> Next(s, l) == StepRun(s, l.id, l.choice)
  {
    hide Act;
  }

  /** At no point of this history is the id journaled again. */
  predicate NeverRejournaled(s: State, labels: seq<Label>, x: Id) {
    forall i :: 0 <= i < |labels| ==> !Rejournals(Execute(s, labels[..i]), labels[i], x)
  }

  lemma NeverRejournaledBefore(s: State, labels: seq<Label>, x: Id)
    requires labels != [] && NeverRejournaled(s, labels, x)
    ensures NeverRejournaled(s, labels[..|labels| - 1], x)
    ensures !Rejournals(Execute(s, labels[..|labels| - 1]), labels[|labels| - 1], x)
  {
    hide Execute, Rejournals;
    var most := labels[..|labels| - 1];
    forall i | 0 <= i < |most|
      ensures !Rejournals(Execute(s, most[..i]), most[i], x)
    {
      assert most[..i] == labels[..i] && most[i] == labels[i];
    }
  }

  /**
   * Once a clipboard row is left in an uncertain state, then through any activations, drops, crashes
   * and recoveries, as long as its id is not journaled again, the row stays and no later admission
   * check lets a clipboard activation through: nothing is accepted for, or written to, the clipboard
   * except by runs that had passed their check before.
   */
  lemma {:induction false} NoReplay(s: State, labels: seq<Label>, x: Id)
    requires Inv(s) && Poisoned(s, x) && NeverRejournaled(s, labels, x)
    ensures Shut(Execute(s, labels), x, |s.log|)
  {
    if labels != [] {
      hide Inv, Next, Poisoned, Rejournals, NeverRejournaled, Shut;
      var most := labels[..|labels| - 1];
      NeverRejournaledBefore(s, labels, x);
      NoReplay(s, most, x);
      StayShut(Execute(s, most), labels[|labels| - 1], x, |s.log|);
    }
  }

  /** The row is there all along exactly when its id is never journaled again. */
  lemma {:induction false} MarkStaysIffNeverRejournaled(s: State, labels: seq<Label>, x: Id)
    requires Inv(s) && Poisoned(s, x)
    ensures NeverRejournaled(s, labels, x) <==> forall i :: 0 <= i <= |labels| ==> Poisoned(Execute(s, labels[..i]), x)
  {
    hide Inv, Next, Poisoned, Rejournals;
    if NeverRejournaled(s, labels, x) {
      forall i | 0 <= i <= |labels|
        ensures Poisoned(Execute(s, labels[..i]), x)
      {
        hide Execute;
        var part := labels[..i];
        assert forall k :: 0 <= k < i ==> part[..k] == labels[..k] && part[k] == labels[k];
        assert NeverRejournaled(s, part, x);
        NoReplay(s, part, x);
        ShutMeansPoisoned(Execute(s, part), x, |s.log|);
      }
    } else {
      var i :| 0 <= i < |labels| && Rejournals(Execute(s, labels[..i]), labels[i], x);
      var t := Execute(s, labels[..i]);
      assert labels[..i + 1][..i] == labels[..i] && Execute(s, labels[..i + 1]) == Next(t, labels[i]);
      ExecuteKeepsInv(s, labels[..i]);
      if Poisoned(t, x) { MarkSurvivesIffNotRejournaled(t, labels[i], x); }
    }
  }

  lemma ShutMeansPoisoned(s: State, x: Id, from: nat)
    requires Shut(s, x, from)
    ensures Poisoned(s, x)
  {
    hide Inv, Poisoned;
  }

  /** The same after a crash at any point at which a clipboard row was in an uncertain state. */
  lemma NoReplayAfterCrash(s: State, before: seq<Label>, after: seq<Label>, x: Id)
    requires Initial(s) && MarkedRow(Execute(s, before).disk, x)
    requires NeverRejournaled(Next(Execute(s, before), Crash), after, x)
    ensures var crashed := Next(Execute(s, before), Crash); Shut(Execute(crashed, after), x, |crashed.log|)
  {
    hide Execute, MarkedRow, Inv, Shut, NeverRejournaled;
    var t := Execute(s, before);
    ReachableIsSafe(s, before);
    NextKeepsInv(t, Crash);
    NoReplay(Next(t, Crash), after, x);
  }

  // ----- at most one native call per activation -----

  function Calls(log: seq<Event>, x: Id): nat {
    if log == [] then 0
    else Calls(log[..|log| - 1], x) + (if log[|log| - 1].Called? && log[|log| - 1].id == x then 1 else 0)
  }

  /** The clipboard activations of an id that a history starts; refused ones do not count. */
  function Activations(s: State, labels: seq<Label>, x: Id): nat {
    if labels == [] then 0
    else
      var most := labels[..|labels| - 1];
      Activations(s, most, x) + (if StartsClipboard(Execute(s, most), labels[|labels| - 1], x) then 1 else 0)
  }

  predicate MayStillCall(r: Run) { r.mode == Clipboard && !IsLate(r.pc) }

  /** One native call spends the run's right to make one, and nothing gives it back. */
  lemma CallSpendsTheRight(d: Disk, f: Flags, x: Id, r: Run, c: Choice, log: seq<Event>)
    requires RunOk(d, f, x, r, log) && !r.pc.Leaving? && LogOk(log)
    ensures var e := Act(d, f, x, r, c, |log|);
      && (MayStillCall(e.run) ==> MayStillCall(r))
      && (|e.events| == 1 && e.events[0].Called? ==> e.events[0].id == x && MayStillCall(r) && !MayStillCall(e.run))
  {
    hide Act, PointOk, OwnRow, OwnStaging, OwnClipboard, OwnCache, CheckOk, LogOk;
    ActIsTame(d, f, x, r, c, |log|);
    if r.pc.CallingClipboard? { AtThesePointsChecked(d, f, x, r); }
  }

  lemma CallsAfter(log: seq<Event>, more: seq<Event>, x: Id)
    requires |more| <= 1
    ensures Calls(log + more, x) == Calls(log, x) + (if |more| == 1 && more[0].Called? && more[0].id == x then 1 else 0)
  {
    if |more| == 1 {
      assert (log + more)[..|log|] == log;
    } else {
      assert log + more == log;
    }
  }

  function Right(s: State, x: Id): nat {
    if x in s.runs && MayStillCall(s.runs[x]) then 1 else 0
  }

  function Budget(s: State, x: Id): nat { Calls(s.log, x) + Right(s, x) }

  lemma CallBudgetOfRun(s: State, y: Id, c: Choice, x: Id)
    requires Inv(s) && y in s.runs && !s.runs[y].pc.Leaving?
    ensures Budget(StepRun(s, y, c), x) <= Budget(s, x)
  {
    hide Act, RunOk, MayStillCall, Calls, OwnEvents, LogOk;
    var e := Act(s.disk, s.flags, y, s.runs[y], c, |s.log|);
    assert RunOk(s.disk, s.flags, y, s.runs[y], s.log);
    ActEvents(s.disk, s.flags, y, s.runs[y], c, s.log);
    CallSpendsTheRight(s.disk, s.flags, y, s.runs[y], c, s.log);
    CallsAfter(s.log, e.events, x);
  }

  predicate StartsClipboard(s: State, l: Label, x: Id) {
    l.Activate? && l.id == x && l.mode == Clipboard && CanActivate(s, x)
  }

  lemma CallBudgetStep(s: State, l: Label, x: Id)
    requires Inv(s)
    ensures Budget(Next(s, l), x) <= Budget(s, x) + (if StartsClipboard(s, l, x) then 1 else 0)
  {
    hide Act, RunOk, Calls;
    var t := Next(s, l);
    if l.Step? && l.id in s.runs && !s.runs[l.id].pc.Leaving? {
      CallBudgetOfRun(s, l.id, l.choice, x);
    } else if t.log != s.log {
      assert |t.log| == |s.log| + 1 && t.log == s.log + [t.log[|s.log|]];
      CallsAfter(s.log, [t.log[|s.log|]], x);
    }
  }

  /**
   * The native clipboard is called at most once per clipboard activation that is started, whatever
   * refused attempts, crashes and recoveries come between; recovery itself never calls it.
   */
  lemma {:induction false} AtMostOneCallPerActivation(s: State, labels: seq<Label>, x: Id)
    requires Initial(s)
    ensures Budget(Execute(s, labels), x) <= Activations(s, labels, x)
    ensures Calls(Execute(s, labels).log, x) <= Activations(s, labels, x)
  {
    hide Next, Inv;
    if labels != [] {
      var most, last := labels[..|labels| - 1], labels[|labels| - 1];
      AtMostOneCallPerActivation(s, most, x);
      ReachableIsSafe(s, most);
      CallBudgetStep(Execute(s, most), last, x);
    }
  }

  // ----- a definite clipboard failure is harmless -----

  /** The clipboard changes only inside a run's own native call, and that run remembers it. */
  lemma ClipboardChangesAreOwned(s: State, l: Label)
    requires Next(s, l).disk.clipboard != s.disk.clipboard
    ensures l.Step? && l.id in s.runs && s.runs[l.id].pc.InsideCall?
    ensures l.id in Next(s, l).runs && Next(s, l).runs[l.id].touched
  {
    hide Act;
    if l.Step? && l.id in s.runs && !s.runs[l.id].pc.Leaving? {
      ActIsTame(s.disk, s.flags, l.id, s.runs[l.id], l.choice, |s.log|);
    }
  }

  /** A run that reports ClipboardFailed never changed the clipboard. */
  lemma ClipboardFailedMeansUntouched(s: State, labels: seq<Label>, x: Id)
    requires Initial(s)
    requires x in Execute(s, labels).runs
    requires Execute(s, labels).runs[x].pc == Leaving(Failure(CLIPBOARD_FAILED))
    ensures !Execute(s, labels).runs[x].touched
  {
    hide Execute;
    ReachableIsSafe(s, labels);
    var t := Execute(s, labels);
    assert ResultOk(t.disk, x, t.runs[x], t.runs[x].pc.result);
  }
}
