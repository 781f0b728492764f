/** A definite clipboard failure is harmless, whatever else goes on meanwhile. */
module ActivationHarmless {
  import opened Prelude
  import opened Outcomes
  import opened NativeClipboards
  import opened Activation
  import opened ActivationInvariant
  import opened ActivationSafety

  /** The completed record, the clipboard and the other objects that were there are as they were. */
  ghost predicate Elsewhere(before: Disk, d: Disk, x: Id) {
    && d.completed == before.completed && d.clipboard == before.clipboard
    && (forall y :: y != x && y in before.objects ==> y in d.objects && d.objects[y] == before.objects[y])
  }

  /** And the candidate is gone and the index is gone or as it was, or cleanup is blocked. */
  ghost predicate Harmless(before: Disk, d: Disk, f: Flags, x: Id) {
    && Elsewhere(before, d, x)
    && (f.cleanupBlocked || ((d.inFlight == None || d.inFlight == before.inFlight) && x !in d.objects))
  }

  /** The result a run on its way out is going to return. */
  function Reported(pc: Pc): Result<(), NetError>
    requires IsExit(pc) || IsCleanup(pc)
  {
    if pc.Cleaning? || pc.RemovingRow? || pc.Closing? then Failure(pc.after) else pc.result
  }

  predicate ReportsFailure(pc: Pc) { (IsCleanup(pc) || IsExit(pc)) && Reported(pc) == Failure(CLIPBOARD_FAILED) }

  /** The points from the indexing of a candidate on. */
  predicate IsSettling(pc: Pc) { IsLate(pc) || pc.Indexing? || pc.DroppingUnindexed? || pc.CallingClipboard? }

  /** What holds of a file or folder from the indexing of its candidate to the return of a definite failure. */
  ghost predicate Failing(before: Disk, d: Disk, f: Flags, x: Id, r: Run) {
    && r.kind != Text
    && (r.pc.Indexing? || r.pc.DroppingUnindexed? ==> Elsewhere(before, d, x) && d.inFlight == before.inFlight)
    && (r.pc.CallingClipboard? ==> Elsewhere(before, d, x))
    && ((r.pc.InsideCall? && Innocent(r.pc.at)) || r.pc.DroppingIndex? ==> Elsewhere(before, d, x))
    && (r.pc.DroppingObject? ==> Elsewhere(before, d, x) && (f.cleanupBlocked || d.inFlight == None))
    && (ReportsFailure(r.pc) ==> Harmless(before, d, f, x))
  }

  // ----- the run itself: one obligation per program point, under a local name that survives `hide *` -----

  lemma FailingIndexing(before: Disk, d: Disk, f: Flags, x: Id, r: Run, c: Choice)
    requires Failing(before, d, f, x, r) && (r.pc.Indexing? || r.pc.DroppingUnindexed? || r.pc.CallingClipboard?)
    ensures var e := ActApplication(d, f, x, r, c);
      Failing(before, e.disk, e.flags, x, e.run) && IsSettling(e.run.pc)
  {
    var e := ActApplication(d, f, x, r, c);
    var ok := Failing(before, e.disk, e.flags, x, e.run) && IsSettling(e.run.pc);
    match r.pc {
      case Indexing => assert ok;
      case DroppingUnindexed => assert ok;
      case CallingClipboard => assert ok;
    }
    hide *;
  }

  lemma FailingCall(before: Disk, d: Disk, f: Flags, x: Id, r: Run, event: NativeEvent<ClipboardContent>)
    requires Failing(before, d, f, x, r) && r.pc.InsideCall?
    ensures var e := ActInsideCall(d, f, x, r, r.pc.at, event); Failing(before, e.disk, e.flags, x, e.run)
  {
    StepKeepsInnocence(JobFor(x, r.kind), r.pc.at, d.clipboard, event);
    hide NativeStep, Innocent;
    var e := ActInsideCall(d, f, x, r, r.pc.at, event);
    var ok := Failing(before, e.disk, e.flags, x, e.run);
    assert ok;
    hide *;
  }

  lemma FailingAnswer(before: Disk, d: Disk, f: Flags, x: Id, r: Run, c: Choice)
    requires Failing(before, d, f, x, r) && (r.pc.DroppingIndex? || r.pc.DroppingObject?)
    ensures var e := ActAnswer(d, f, x, r, c); Failing(before, e.disk, e.flags, x, e.run)
  {
    var e := ActAnswer(d, f, x, r, c);
    var ok := Failing(before, e.disk, e.flags, x, e.run);
    match r.pc {
      case DroppingIndex => assert ok;
      case DroppingObject => assert ok;
    }
    hide *;
  }

  /** Points from which a definite failure can no longer come, or has not been decided. */
  predicate IsSilent(pc: Pc) {
    IsCompletion(pc) || IsUncertainty(pc) || pc.Promoting? || pc.DroppingPrevious? || pc.ClearingFlag?
    || ((pc.Closing? || pc.Returning?) && Reported(pc) != Failure(CLIPBOARD_FAILED))
  }

  lemma SilentIsFailing(before: Disk, d: Disk, f: Flags, x: Id, r: Run)
    requires r.kind != Text && IsSilent(r.pc)
    ensures Failing(before, d, f, x, r)
  {
    hide Elsewhere, Harmless;
  }

  lemma FailingPlaced(before: Disk, d: Disk, f: Flags, x: Id, r: Run, c: Choice)
    requires r.kind != Text && (r.pc.Promoting? || r.pc.DroppingPrevious? || r.pc.ClearingFlag?)
    ensures var e := ActAnswer(d, f, x, r, c); Failing(before, e.disk, e.flags, x, e.run)
  {
    var e := ActAnswer(d, f, x, r, c);
    assert e.run.kind != Text && IsSilent(e.run.pc);
    hide *;
    SilentIsFailing(before, e.disk, e.flags, x, e.run);
  }

  lemma FailingCompletion(before: Disk, d: Disk, f: Flags, x: Id, r: Run, c: Choice)
    requires r.kind != Text && IsCompletion(r.pc)
    ensures var e := ActCompletion(d, f, x, r, c); Failing(before, e.disk, e.flags, x, e.run)
  {
    CompletionIsSilent(d, f, x, r, c);
    hide *;
    var e := ActCompletion(d, f, x, r, c);
    SilentIsFailing(before, e.disk, e.flags, x, e.run);
  }

  lemma CompletionIsSilent(d: Disk, f: Flags, x: Id, r: Run, c: Choice)
    requires r.kind != Text && IsCompletion(r.pc)
    ensures var e := ActCompletion(d, f, x, r, c); e.run.kind != Text && IsSilent(e.run.pc)
  {
    var e := ActCompletion(d, f, x, r, c);
    assert e.run.kind == r.kind;
    assert || e.run.pc == r.pc || e.run.pc.MarkingUncertain? || e.run.pc.MarkingCompleted?
           || e.run.pc.RecordingCompleted? || e.run.pc.RemovingFinalRow? || e.run.pc.SendingCompleted?
           || (e.run.pc.Returning? && e.run.pc.result != Failure(CLIPBOARD_FAILED));
    hide ActCompletion;
  }

  lemma FailingUncertainty(before: Disk, d: Disk, f: Flags, x: Id, r: Run, c: Choice)
    requires r.kind != Text && IsUncertainty(r.pc)
    ensures var e := ActUncertainty(d, f, x, r, c); Failing(before, e.disk, e.flags, x, e.run)
  {
    var e := ActUncertainty(d, f, x, r, c);
    assert e.run.kind != Text && IsSilent(e.run.pc);
    hide *;
    SilentIsFailing(before, e.disk, e.flags, x, e.run);
  }

  lemma FailingCleanup(before: Disk, d: Disk, f: Flags, x: Id, r: Run, c: Choice)
    requires Failing(before, d, f, x, r) && (IsCleanup(r.pc) || r.pc.Closing?)
    ensures var e := ActCleanup(d, f, x, r, c); Failing(before, e.disk, e.flags, x, e.run)
  {
    var e := ActCleanup(d, f, x, r, c);
    var ok := Failing(before, e.disk, e.flags, x, e.run);
    match r.pc {
      case Cleaning(_) => assert ok;
      case RemovingRow(_) => assert ok;
      case Closing(_) => assert ok;
    }
    hide *;
  }

  lemma FailingExit(before: Disk, d: Disk, f: Flags, x: Id, r: Run, c: Choice)
    requires Failing(before, d, f, x, r) && (r.pc.Returning? || r.pc.GuardTree? || r.pc.GuardRow?)
    ensures var e := ActExit(d, f, x, r, c); Failing(before, e.disk, e.flags, x, e.run)
  {
    var e := ActExit(d, f, x, r, c);
    var ok := Failing(before, e.disk, e.flags, x, e.run);
    match r.pc {
      case Returning(_) => assert ok;
      case GuardTree(_) => assert ok;
      case GuardRow(_, _) => assert ok;
    }
    hide *;
  }

  lemma FailingStep(before: Disk, d: Disk, f: Flags, x: Id, r: Run, c: Choice, now: nat)
    requires Failing(before, d, f, x, r) && IsSettling(r.pc) && !r.pc.Leaving?
    ensures var e := Act(d, f, x, r, c, now); Failing(before, e.disk, e.flags, x, e.run)
    ensures var e := Act(d, f, x, r, c, now); !IsLate(r.pc) ==> IsSettling(e.run.pc)
  {
    assert r.kind != Text;
    hide Failing, ActAdmission, ActPreparation, ActTransfer, ActInsideCall, ActAnswer, ActCompletion, ActUncertainty,
      ActCleanup, ActExit;
    if r.pc.InsideCall? {
      if c.Native? { FailingCall(before, d, f, x, r, c.event); }
    } else if IsApplication(r.pc) {
      FailingIndexing(before, d, f, x, r, c);
    } else if r.pc.Promoting? || r.pc.DroppingPrevious? || r.pc.ClearingFlag? {
      FailingPlaced(before, d, f, x, r, c);
    } else if IsAnswer(r.pc) {
      FailingAnswer(before, d, f, x, r, c);
    } else if IsCompletion(r.pc) {
      FailingCompletion(before, d, f, x, r, c);
    } else if IsUncertainty(r.pc) {
      FailingUncertainty(before, d, f, x, r, c);
    } else if IsCleanup(r.pc) || r.pc.Closing? {
      FailingCleanup(before, d, f, x, r, c);
    } else {
      FailingExit(before, d, f, x, r, c);
    }
  }

  // ----- and everything else that goes on -----

  /** No other run is in its own clipboard application. */
  predicate NoOverlap(s: State, x: Id) {
    forall y :: y in s.runs && y != x ==> !IsClipboardOnly(s.runs[y].pc)
  }

  lemma OthersKeepFailing(before: Disk, d: Disk, f: Flags, y: Id, q: Run, e: Effect, x: Id, r: Run)
    requires Failing(before, d, f, x, r) && y != x && !IsClipboardOnly(q.pc)
    requires OwnCache(d, y, q, e.disk) && OwnClipboard(d, q, e) && (f.cleanupBlocked ==> e.flags.cleanupBlocked)
    ensures Failing(before, e.disk, e.flags, x, r)
  {
    var ok := Failing(before, e.disk, e.flags, x, r);
    assert ok;
    hide *;
  }

  lemma DroppedWhileFailing(before: Disk, d: Disk, f: Flags, x: Id, r: Run)
    requires Failing(before, d, f, x, r)
    ensures Failing(before, d, f, x, r.(dropped := true, pc := Returning(Failure(OtherError))))
  {}

  lemma FailingNext(before: Disk, s: State, l: Label, x: Id)
    requires Inv(s) && x in s.runs && NoOverlap(s, x)
    requires Failing(before, s.disk, s.flags, x, s.runs[x]) && IsSettling(s.runs[x].pc)
    requires x in Next(s, l).runs
    ensures var t := Next(s, l); Failing(before, t.disk, t.flags, x, t.runs[x]) && IsSettling(t.runs[x].pc)
  {
    hide Failing, Act, RunOk, LogOk, HasUncertainSideEffect;
    match l
    case Activate(y, mode, kind) => assert y == x ==> !CanActivate(s, x);
    case Crash =>
    case DropFuture(y) => DroppedWhileFailing(before, s.disk, s.flags, x, s.runs[x]);
    case Recover(y, c) => assert s.recovered && s.recovery == Idle;
    case Step(y, c) =>
      if y in s.runs && !s.runs[y].pc.Leaving? {
        hide OwnRow, OwnStaging, OwnClipboard, OwnCache, OwnEvents;
        ActIsTame(s.disk, s.flags, y, s.runs[y], c, |s.log|);
        if y == x {
          FailingStep(before, s.disk, s.flags, x, s.runs[x], c, |s.log|);
        } else {
          var e := Act(s.disk, s.flags, y, s.runs[y], c, |s.log|);
          OthersKeepFailing(before, s.disk, s.flags, y, s.runs[y], e, x, s.runs[x]);
        }
      }
  }

  /** The run is still there, and overlapped by no other clipboard application, after every part of a history. */
  predicate Undisturbed(s: State, labels: seq<Label>, x: Id) {
    forall i :: 0 <= i <= |labels| ==> x in Execute(s, labels[..i]).runs && NoOverlap(Execute(s, labels[..i]), x)
  }

  lemma UndisturbedBefore(s: State, labels: seq<Label>, x: Id)
    requires Undisturbed(s, labels, x)
    ensures x in Execute(s, labels).runs && NoOverlap(Execute(s, labels), x)
    ensures labels != [] ==> Undisturbed(s, labels[..|labels| - 1], x)
  {
    hide Execute, NoOverlap;
    assert labels[..|labels|] == labels;
    if labels != [] {
      var most := labels[..|labels| - 1];
      assert forall i :: 0 <= i <= |most| ==> most[..i] == labels[..i];
    }
  }

  lemma {:induction false} FailingThroughout(before: Disk, s: State, labels: seq<Label>, x: Id)
    requires Inv(s) && x in s.runs && Failing(before, s.disk, s.flags, x, s.runs[x]) && IsSettling(s.runs[x].pc)
    requires Undisturbed(s, labels, x)
    ensures var t := Execute(s, labels);
      x in t.runs && Failing(before, t.disk, t.flags, x, t.runs[x]) && IsSettling(t.runs[x].pc)
  {
    hide Inv, Next, Failing, IsSettling, NoOverlap, Undisturbed;
    UndisturbedBefore(s, labels, x);
    if labels != [] {
      var most := labels[..|labels| - 1];
      UndisturbedBefore(s, most, x);
      FailingThroughout(before, s, most, x);
      ExecuteKeepsInv(s, most);
      FailingNext(before, Execute(s, most), labels[|labels| - 1], x);
    }
  }

  lemma ApplicationStartsFailing(before: Disk, s: State, x: Id)
    requires x in s.runs && s.runs[x].kind != Text && Elsewhere(before, s.disk, x)
    requires (s.runs[x].pc.Indexing? && s.disk.inFlight == before.inFlight) || s.runs[x].pc == InsideCall(Queued)
    ensures Failing(before, s.disk, s.flags, x, s.runs[x]) && IsSettling(s.runs[x].pc)
  {}

  lemma FailingEndsHarmless(before: Disk, d: Disk, f: Flags, x: Id, r: Run)
    requires Failing(before, d, f, x, r) && r.pc == Leaving(Failure(CLIPBOARD_FAILED))
    ensures Harmless(before, d, f, x)
  {}

  /**
   * Whatever other activations do meanwhile, short of their own clipboard application: when a
   * `set_files` ends in a definite failure, the previous completed record, the objects that were
   * there and the clipboard are as they were at the call, and the candidate and its index are gone
   * unless cleanup is blocked.
   */
  lemma DefiniteFileFailureIsHarmless(s: State, labels: seq<Label>, x: Id)
    requires Inv(s) && x in s.runs && s.runs[x].pc == InsideCall(Queued) && s.runs[x].kind != Text
    requires Undisturbed(s, labels, x) && x in Execute(s, labels).runs
    requires Execute(s, labels).runs[x].pc == Leaving(Failure(CLIPBOARD_FAILED))
    ensures Harmless(s.disk.(inFlight := None), Execute(s, labels).disk, Execute(s, labels).flags, x)
  {
    hide Inv, Execute, Failing, Undisturbed, Harmless;
    var before, t := s.disk.(inFlight := None), Execute(s, labels);
    ApplicationStartsFailing(before, s, x);
    FailingThroughout(before, s, labels, x);
    FailingEndsHarmless(before, t.disk, t.flags, x, t.runs[x]);
  }

  /** The same from the indexing of the candidate on; a failed indexing leaves the index as it was. */
  lemma FailureFromIndexingIsHarmless(s: State, labels: seq<Label>, x: Id)
    requires Inv(s) && x in s.runs && s.runs[x].pc.Indexing? && s.runs[x].kind != Text
    requires Undisturbed(s, labels, x) && x in Execute(s, labels).runs
    requires Execute(s, labels).runs[x].pc == Leaving(Failure(CLIPBOARD_FAILED))
    ensures Harmless(s.disk, Execute(s, labels).disk, Execute(s, labels).flags, x)
  {
    hide Inv, Execute, Failing, Undisturbed, Harmless;
    var t := Execute(s, labels);
    ApplicationStartsFailing(s.disk, s, x);
    FailingThroughout(s.disk, s, labels, x);
    FailingEndsHarmless(s.disk, t.disk, t.flags, x, t.runs[x]);
  }

  // ----- the failure before it: the mark that announces the application -----

  /** A run on its way out, its candidate still in the cache. */
  predicate LeavingBehind(d: Disk, x: Id, r: Run, kind: ContentKind) {
    (IsCleanup(r.pc) || IsExit(r.pc)) && x in d.objects && d.objects[x] == kind
  }

  lemma CleanupLeavesBehind(d: Disk, f: Flags, x: Id, r: Run, c: Choice)
    requires IsCleanup(r.pc) || r.pc.Closing?
    ensures var e := ActCleanup(d, f, x, r, c);
      e.disk.objects == d.objects && (IsCleanup(e.run.pc) || IsExit(e.run.pc))
  {}

  lemma ExitLeavesBehind(d: Disk, f: Flags, x: Id, r: Run, c: Choice)
    requires r.pc.Returning? || r.pc.GuardTree? || r.pc.GuardRow?
    ensures var e := ActExit(d, f, x, r, c); e.disk.objects == d.objects && IsExit(e.run.pc)
  {}

  lemma LeavingBehindStep(d: Disk, f: Flags, x: Id, r: Run, c: Choice, now: nat, kind: ContentKind)
    requires LeavingBehind(d, x, r, kind) && !r.pc.Leaving?
    ensures var e := Act(d, f, x, r, c, now); LeavingBehind(e.disk, x, e.run, kind)
  {
    hide ActAdmission, ActPreparation, ActTransfer, ActApplication, ActAnswer, ActCompletion, ActUncertainty,
      ActCleanup, ActExit;
    if IsCleanup(r.pc) || r.pc.Closing? {
      CleanupLeavesBehind(d, f, x, r, c);
    } else {
      ExitLeavesBehind(d, f, x, r, c);
    }
  }

  lemma LeavingBehindNext(s: State, l: Label, x: Id, kind: ContentKind)
    requires Inv(s) && x in s.runs && NoOverlap(s, x) && LeavingBehind(s.disk, x, s.runs[x], kind)
    requires x in Next(s, l).runs
    ensures var t := Next(s, l); LeavingBehind(t.disk, x, t.runs[x], kind)
  {
    hide Act, RunOk, LogOk, HasUncertainSideEffect;
    match l
    case Activate(y, _, _) => assert y == x ==> !CanActivate(s, x);
    case Crash =>
    case DropFuture(y) =>
    case Recover(y, c) => assert s.recovered && s.recovery == Idle;
    case Step(y, c) =>
      if y in s.runs && !s.runs[y].pc.Leaving? {
        hide OwnRow, OwnStaging, OwnClipboard, OwnEvents;
        ActIsTame(s.disk, s.flags, y, s.runs[y], c, |s.log|);
        if y == x { LeavingBehindStep(s.disk, s.flags, x, s.runs[x], c, |s.log|, kind); }
      }
  }

  lemma {:induction false} LeavingBehindThroughout(s: State, labels: seq<Label>, x: Id, kind: ContentKind)
    requires Inv(s) && x in s.runs && LeavingBehind(s.disk, x, s.runs[x], kind) && Undisturbed(s, labels, x)
    ensures var t := Execute(s, labels); x in t.runs && LeavingBehind(t.disk, x, t.runs[x], kind)
  {
    hide Inv, Next, LeavingBehind, NoOverlap, Undisturbed;
    UndisturbedBefore(s, labels, x);
    if labels != [] {
      var most := labels[..|labels| - 1];
      UndisturbedBefore(s, most, x);
      LeavingBehindThroughout(s, most, x, kind);
      ExecuteKeepsInv(s, most);
      LeavingBehindNext(Execute(s, most), labels[|labels| - 1], x, kind);
    }
  }

  lemma MarkingStep(s: State, x: Id, c: Choice)
    requires x in s.runs && s.runs[x].pc.MarkingApplying? && s.runs[x].kind != Text && x in s.disk.objects
    ensures var t := Next(s, Step(x, c));
      && x in t.runs && t.runs[x].kind != Text && t.flags == s.flags
      && if c == Proceed && x in s.disk.journal then t.runs[x].pc.Indexing?
         else LeavingBehind(t.disk, x, t.runs[x], s.disk.objects[x])
  {
    hide ActInsideCall;
  }

  /**
   * A published candidate whose activation then reports a definite clipboard failure, with cleanup not
   * blocked, is gone exactly when the mark that precedes its indexing was written: a failed mark leaves it.
   */
  lemma FailureDropsCandidateIffMarked(s: State, c: Choice, labels: seq<Label>, x: Id)
    requires Inv(s) && x in s.runs && s.runs[x].pc.MarkingApplying? && s.runs[x].kind != Text && x in s.disk.objects
    requires var t := Next(s, Step(x, c)); Undisturbed(t, labels, x) && x in Execute(t, labels).runs
    requires var u := Execute(Next(s, Step(x, c)), labels);
      u.runs[x].pc == Leaving(Failure(CLIPBOARD_FAILED)) && !u.flags.cleanupBlocked
    ensures var u := Execute(Next(s, Step(x, c)), labels);
      x !in u.disk.objects <==> c == Proceed && x in s.disk.journal
  {
    hide Inv, Execute, Next, Undisturbed, LeavingBehind, Harmless;
    var t := Next(s, Step(x, c));
    MarkingStep(s, x, c);
    NextKeepsInv(s, Step(x, c));
    if c == Proceed && x in s.disk.journal {
      FailureFromIndexingIsHarmless(t, labels, x);
      HarmlessDropsCandidate(t.disk, Execute(t, labels), x);
    } else {
      LeavingBehindThroughout(t, labels, x, s.disk.objects[x]);
      LeftBehind(Execute(t, labels), x, s.disk.objects[x]);
    }
  }

  lemma HarmlessDropsCandidate(before: Disk, u: State, x: Id)
    requires Harmless(before, u.disk, u.flags, x) && !u.flags.cleanupBlocked
    ensures x !in u.disk.objects
  {}

  lemma LeftBehind(u: State, x: Id, kind: ContentKind)
    requires x in u.runs && LeavingBehind(u.disk, x, u.runs[x], kind)
    ensures x in u.disk.objects
  {}
}
