/** What a completed activation has done: its own payload is where its mode says it should be. */
module ActivationCompletion {
  import opened Prelude
  import opened NativeClipboards
  import opened Activation
  import opened ActivationInvariant
  import opened ActivationSafety
  import opened ActivationHarmless

  /** What the clipboard is to hold for one activation. */
  function Payload(x: Id, kind: ContentKind): ClipboardContent { if kind == Text then TextOf(x) else FilesOf(x) }

  const PLACED := InsideCall(Replying(Placed))

  // ----- most actions neither publish nor place anything -----

  predicate IsPlain(d: Disk, r: Run, e: Effect) {
    e.disk.saved == d.saved && e.run.trail == r.trail && e.run.pc != PLACED
    && !e.run.pc.Publish? && !e.run.pc.Unlinking?
  }

  predicate Publishes(pc: Pc) { pc.MarkingPublishing? || pc.Publish? || pc.Unlinking? }

  lemma AdmissionIsPlain(d: Disk, f: Flags, x: Id, r: Run, c: Choice, now: nat)
    requires IsAdmission(r.pc)
    ensures IsPlain(d, r, ActAdmission(d, f, x, r, c, now))
  {
    var ok := IsPlain(d, r, ActAdmission(d, f, x, r, c, now));
    match r.pc {
      case Starting => assert ok;
      case Negotiating => assert ok;
      case CheckingFlag => assert ok;
      case CheckingStore(_) => assert ok;
      case Reserving => assert ok;
      case Journaling => assert ok;
    }
    hide *;
  }

  lemma PreparationIsPlain(d: Disk, f: Flags, x: Id, r: Run, c: Choice)
    requires IsPreparation(r.pc)
    ensures IsPlain(d, r, ActPreparation(d, f, x, r, c))
  {
    var ok := IsPlain(d, r, ActPreparation(d, f, x, r, c));
    match r.pc {
      case Preparing => assert ok;
      case CheckingRoot => assert ok;
      case Admitting => assert ok;
      case MarkingTransferring => assert ok;
    }
    hide *;
  }

  lemma TransferIsPlain(d: Disk, f: Flags, x: Id, r: Run, c: Choice)
    requires IsTransfer(r.pc) && !Publishes(r.pc)
    ensures IsPlain(d, r, ActTransfer(d, f, x, r, c))
  {
    var ok := IsPlain(d, r, ActTransfer(d, f, x, r, c));
    match r.pc {
      case Receiving => assert ok;
      case MarkingVerified => assert ok;
    }
    hide *;
  }

  lemma ApplicationIsPlain(d: Disk, f: Flags, x: Id, r: Run, c: Choice)
    requires IsApplication(r.pc) && !r.pc.InsideCall?
    ensures IsPlain(d, r, ActApplication(d, f, x, r, c))
  {
    var ok := IsPlain(d, r, ActApplication(d, f, x, r, c));
    match r.pc {
      case MarkingApplying => assert ok;
      case Indexing => assert ok;
      case DroppingUnindexed => assert ok;
      case CallingClipboard => assert ok;
    }
    hide *;
  }

  lemma AnswerIsPlain(d: Disk, f: Flags, x: Id, r: Run, c: Choice)
    requires IsAnswer(r.pc)
    ensures IsPlain(d, r, ActAnswer(d, f, x, r, c))
  {
    var ok := IsPlain(d, r, ActAnswer(d, f, x, r, c));
    match r.pc {
      case DroppingIndex => assert ok;
      case DroppingObject => assert ok;
      case Promoting => assert ok;
      case DroppingPrevious(_) => assert ok;
      case ClearingFlag => assert ok;
    }
    hide *;
  }

  lemma UncertaintyIsPlain(d: Disk, f: Flags, x: Id, r: Run, c: Choice)
    requires IsUncertainty(r.pc)
    ensures IsPlain(d, r, ActUncertainty(d, f, x, r, c))
  {
    var ok := IsPlain(d, r, ActUncertainty(d, f, x, r, c));
    match r.pc {
      case MarkingUncertain => assert ok;
      case RecordingUncertain => assert ok;
      case RaisingFlag => assert ok;
    }
    hide *;
  }

  lemma CleanupIsPlain(d: Disk, f: Flags, x: Id, r: Run, c: Choice)
    requires IsCleanup(r.pc) || r.pc.Closing?
    ensures IsPlain(d, r, ActCleanup(d, f, x, r, c))
  {
    var ok := IsPlain(d, r, ActCleanup(d, f, x, r, c));
    match r.pc {
      case Cleaning(_) => assert ok;
      case RemovingRow(_) => assert ok;
      case Closing(_) => assert ok;
    }
    hide *;
  }

  lemma ExitIsPlain(d: Disk, f: Flags, x: Id, r: Run, c: Choice)
    requires r.pc.Returning? || r.pc.GuardTree? || r.pc.GuardRow?
    ensures IsPlain(d, r, ActExit(d, f, x, r, c))
  {
    var ok := IsPlain(d, r, ActExit(d, f, x, r, c));
    match r.pc {
      case Returning(_) => assert ok;
      case GuardTree(_) => assert ok;
      case GuardRow(_, _) => assert ok;
    }
    hide *;
  }

  lemma ActIsPlain(d: Disk, f: Flags, x: Id, r: Run, c: Choice, now: nat)
    requires !r.pc.Leaving? && !Publishes(r.pc) && !r.pc.InsideCall? && !IsCompletion(r.pc)
    ensures IsPlain(d, r, Act(d, f, x, r, c, now))
  {
    hide IsPlain, ActAdmission, ActPreparation, ActTransfer, ActApplication, ActAnswer, ActCompletion, ActUncertainty,
      ActCleanup, ActExit;
    if IsAdmission(r.pc) {
      AdmissionIsPlain(d, f, x, r, c, now);
    } else if IsPreparation(r.pc) {
      PreparationIsPlain(d, f, x, r, c);
    } else if IsTransfer(r.pc) {
      TransferIsPlain(d, f, x, r, c);
    } else if IsApplication(r.pc) {
      ApplicationIsPlain(d, f, x, r, c);
    } else if IsAnswer(r.pc) {
      AnswerIsPlain(d, f, x, r, c);
    } else if IsUncertainty(r.pc) {
      UncertaintyIsPlain(d, f, x, r, c);
    } else if IsCleanup(r.pc) || r.pc.Closing? {
      CleanupIsPlain(d, f, x, r, c);
    } else {
      ExitIsPlain(d, f, x, r, c);
    }
  }

  /** What the closing steps of a run do to it, as far as it matters here. */
  predicate IsClosing(d: Disk, r: Run, e: Effect) {
    && e.disk.saved == d.saved && e.run.pc != PLACED && !e.run.pc.Publish? && !e.run.pc.Unlinking?
    && (|| e.run.trail == r.trail
        || (e.run.trail.After? && e.run.trail.earlier == r.trail && e.run.trail.milestone != SideEffectDone))
  }

  lemma FarewellIsPlain(d: Disk, f: Flags, x: Id, r: Run, c: Choice)
    requires r.pc.RecordingCompleted? || r.pc.RemovingFinalRow? || r.pc.SendingCompleted?
    ensures IsClosing(d, r, ActCompletion(d, f, x, r, c))
  {
    var ok := IsClosing(d, r, ActCompletion(d, f, x, r, c));
    match r.pc {
      case RecordingCompleted => assert ok;
      case RemovingFinalRow => assert ok;
      case SendingCompleted => assert ok;
    }
    hide *;
  }

  lemma FinalCleaningIsPlain(d: Disk, f: Flags, x: Id, r: Run, c: Choice)
    requires r.pc.FinalCleaning? || r.pc.MarkingCompleted?
    ensures IsClosing(d, r, ActCompletion(d, f, x, r, c))
  {
    var ok := IsClosing(d, r, ActCompletion(d, f, x, r, c));
    match r.pc {
      case FinalCleaning => assert ok;
      case MarkingCompleted => assert ok;
    }
    hide *;
  }

  lemma CompletionIsPlain(d: Disk, f: Flags, x: Id, r: Run, c: Choice)
    requires IsCompletion(r.pc)
    ensures IsClosing(d, r, ActCompletion(d, f, x, r, c))
  {
    hide ActCompletion, IsClosing;
    if r.pc.FinalCleaning? || r.pc.MarkingCompleted? {
      FinalCleaningIsPlain(d, f, x, r, c);
    } else {
      FarewellIsPlain(d, f, x, r, c);
    }
  }

  // ----- a completed save is published -----

  /** A save that got past its publication has its payload in the user's folder; text is never published. */
  predicate SaveOk(d: Disk, x: Id, r: Run) {
    && (r.pc.Publish? || r.pc.Unlinking? ==> r.kind != Text)
    && (r.mode == Save && (r.pc.Unlinking? || r.trail.Reached(SideEffectDone)) ==>
          r.kind != Text && x in d.saved && d.saved[x] == r.kind)
  }

  /** An action saves nothing, or its own payload. */
  predicate OwnSaved(d: Disk, x: Id, r: Run, e: Effect) {
    e.disk.saved == d.saved || e.disk.saved == d.saved[x := r.kind]
  }

  lemma PublishSaves(d: Disk, f: Flags, x: Id, r: Run, c: Choice)
    requires r.pc.Publish? && SaveOk(d, x, r) && r.trail == Nothing
    ensures var e := ActPublish(d, f, x, r, c); SaveOk(e.disk, x, e.run) && OwnSaved(d, x, r, e)
  {
    var e := ActPublish(d, f, x, r, c);
    var ok := SaveOk(e.disk, x, e.run) && OwnSaved(d, x, r, e);
    assert ok;
    hide *;
  }

  lemma PublishingSaves(d: Disk, f: Flags, x: Id, r: Run, c: Choice)
    requires Publishes(r.pc) && SaveOk(d, x, r) && r.trail == Nothing
    ensures var e := ActTransfer(d, f, x, r, c); SaveOk(e.disk, x, e.run) && OwnSaved(d, x, r, e)
  {
    hide ActPublish;
    var e := ActTransfer(d, f, x, r, c);
    var ok := SaveOk(e.disk, x, e.run) && OwnSaved(d, x, r, e);
    match r.pc {
      case MarkingPublishing => assert ok;
      case Publish =>
        PublishSaves(d, f, x, r, c);
        assert ok;
      case Unlinking => assert ok;
    }
    hide *;
  }

  lemma CallSavesNothing(d: Disk, f: Flags, x: Id, r: Run, c: Choice)
    requires r.pc.InsideCall? && r.mode == Clipboard
    ensures var e := ActApplication(d, f, x, r, c);
      e.disk.saved == d.saved && e.run.mode == r.mode && !Publishes(e.run.pc)
  {
    hide NativeStep;
  }

  /** At these points nothing is done yet, or the run is a clipboard run. */
  lemma PointsBefore(d: Disk, f: Flags, x: Id, r: Run)
    requires PointOk(d, f, x, r)
    ensures Publishes(r.pc) ==> r.trail == Nothing
    ensures r.pc.InsideCall? ==> r.mode == Clipboard && r.trail == Nothing
    ensures IsCompletion(r.pc) ==> r.trail.Reached(SideEffectDone)
  {}

  lemma PlainIsClosing(d: Disk, r: Run, e: Effect)
    requires IsPlain(d, r, e)
    ensures IsClosing(d, r, e)
  {}

  lemma PlainKeepsSaveOk(d: Disk, x: Id, r: Run, e: Effect)
    requires SaveOk(d, x, r) && e.run.kind == r.kind && e.run.mode == r.mode && IsClosing(d, r, e)
    ensures SaveOk(e.disk, x, e.run) && OwnSaved(d, x, r, e)
  {}

  lemma ActKeepsSaveOk(d: Disk, f: Flags, x: Id, r: Run, c: Choice, now: nat)
    requires PointOk(d, f, x, r) && SaveOk(d, x, r) && !r.pc.Leaving?
    ensures var e := Act(d, f, x, r, c, now); SaveOk(e.disk, x, e.run) && OwnSaved(d, x, r, e)
  {
    PointsBefore(d, f, x, r);
    hide PointOk, Tame, ActAdmission, ActPreparation, ActTransfer, ActApplication, ActAnswer, ActCompletion,
      ActUncertainty, ActCleanup, ActExit;
    if Publishes(r.pc) {
      PublishingSaves(d, f, x, r, c);
    } else if r.pc.InsideCall? {
      CallSavesNothing(d, f, x, r, c);
    } else {
      var e := Act(d, f, x, r, c, now);
      if IsCompletion(r.pc) {
        CompletionIsPlain(d, f, x, r, c);
      } else {
        ActIsPlain(d, f, x, r, c, now);
        PlainIsClosing(d, r, e);
      }
      hide *;
      ActIsTame(d, f, x, r, c, now);
      TameKeepsKind(d, f, x, r, now, e);
      PlainKeepsSaveOk(d, x, r, e);
    }
  }

  ghost predicate AllSaved(s: State) { forall x :: x in s.runs ==> SaveOk(s.disk, x, s.runs[x]) }

  lemma NextKeepsSaved(s: State, l: Label)
    requires Inv(s) && AllSaved(s)
    ensures AllSaved(Next(s, l))
  {
    hide Act, PointOk, LogOk, CheckOk, HasUncertainSideEffect;
    match l
    case Activate(x, mode, kind) =>
    case Crash =>
    case DropFuture(x) =>
    case Recover(x, c) => assert s.runs != map[] ==> s.recovered && s.recovery == Idle;
    case Step(y, c) =>
      if y in s.runs && !s.runs[y].pc.Leaving? {
        assert RunOk(s.disk, s.flags, y, s.runs[y], s.log);
        ActKeepsSaveOk(s.disk, s.flags, y, s.runs[y], c, |s.log|);
      }
  }

  lemma {:induction false} SavedThroughout(s: State, labels: seq<Label>)
    requires Initial(s)
    ensures AllSaved(Execute(s, labels))
  {
    if labels != [] {
      hide Inv, Next, AllSaved;
      var most := labels[..|labels| - 1];
      SavedThroughout(s, most);
      ReachableIsSafe(s, most);
      NextKeepsSaved(Execute(s, most), labels[|labels| - 1]);
    }
  }

  /** In every history a save that ends Ok, which text never does, has put its payload into the user's folder. */
  lemma CompletedSaveIsPublished(s: State, labels: seq<Label>, x: Id)
    requires Initial(s)
    requires var t := Execute(s, labels);
      x in t.runs && t.runs[x].mode == Save && t.runs[x].pc == Leaving(Success(()))
    ensures var t := Execute(s, labels);
      t.runs[x].kind != Text && x in t.disk.saved && t.disk.saved[x] == t.runs[x].kind
  {
    hide Execute, Initial;
    SavedThroughout(s, labels);
    ReachableIsSafe(s, labels);
    var t := Execute(s, labels);
    assert ResultOk(t.disk, x, t.runs[x], t.runs[x].pc.result);
    assert SaveOk(t.disk, x, t.runs[x]);
  }

  // ----- a completed clipboard run has placed its payload -----

  /** A clipboard run whose native call has succeeded. */
  predicate HasPlaced(r: Run) { r.mode == Clipboard && (r.pc == PLACED || r.trail.Reached(SideEffectDone)) }

  lemma CallPlaces(d: Disk, f: Flags, x: Id, r: Run, c: Choice)
    requires r.pc.InsideCall? && r.trail == Nothing
    ensures var e := ActApplication(d, f, x, r, c);
      HasPlaced(e.run) ==> r.pc == PLACED || (e.run.pc == PLACED && e.disk.clipboard == Payload(x, r.kind))
  {
    if c.Native? {
      StepPlaces(x, r.kind, r.pc.at, d.clipboard, c.event);
      hide NativeStep, JobFor, Payload;
    }
  }

  /** Only the answer that says so means that the payload is placed. */
  lemma StepPlaces(x: Id, kind: ContentKind, at: CallPoint, content: ClipboardContent,
                   event: NativeEvent<ClipboardContent>)
    ensures var step := NativeStep(JobFor(x, kind), at, content, event);
      && (step.Going? && step.at == Replying(Placed) ==> step.content == Payload(x, kind))
      && (step.Answered? && step.answer == Placed ==> at == Replying(Placed))
  {}

  lemma PublishingPlacesNothing(d: Disk, f: Flags, x: Id, r: Run, c: Choice)
    requires Publishes(r.pc) && r.trail == Nothing
    ensures !HasPlaced(ActTransfer(d, f, x, r, c).run)
  {}

  lemma ActPlaces(d: Disk, f: Flags, x: Id, r: Run, c: Choice, now: nat)
    requires PointOk(d, f, x, r) && !r.pc.Leaving?
    ensures var e := Act(d, f, x, r, c, now);
      && e.run.kind == r.kind
      && (HasPlaced(e.run) ==>
            || HasPlaced(r)
            || (r.pc.InsideCall? && e.run.pc == PLACED && e.disk.clipboard == Payload(x, r.kind)))
  {
    ActIsTame(d, f, x, r, c, now);
    PointsBefore(d, f, x, r);
    hide Tame, PointOk, ActAdmission, ActPreparation, ActTransfer, ActApplication, ActAnswer, ActCompletion,
      ActUncertainty, ActCleanup, ActExit;
    TameKeepsKind(d, f, x, r, now, Act(d, f, x, r, c, now));
    if Publishes(r.pc) {
      PublishingPlacesNothing(d, f, x, r, c);
    } else if r.pc.InsideCall? {
      CallPlaces(d, f, x, r, c);
    } else if IsCompletion(r.pc) {
      CompletionIsPlain(d, f, x, r, c);
    } else {
      ActIsPlain(d, f, x, r, c, now);
    }
  }

  lemma TameKeepsKind(d: Disk, f: Flags, x: Id, r: Run, now: nat, e: Effect)
    requires Tame(d, f, x, r, now, e)
    ensures e.run.kind == r.kind && e.run.mode == r.mode
  {}

  /** The step at which a run's native call succeeds, its payload in the clipboard. */
  ghost predicate PlacesAt(s: State, labels: seq<Label>, i: nat, x: Id, kind: ContentKind) {
    && i < |labels| && labels[i].Step? && labels[i].id == x
    && var u := Execute(s, labels[..i + 1]);
       x in u.runs && u.runs[x].pc == PLACED && u.runs[x].kind == kind && u.disk.clipboard == Payload(x, kind)
  }

  /** The same run is there from position `from` on. */
  ghost predicate SinceThen(s: State, labels: seq<Label>, from: nat, x: Id) {
    forall j :: from < j <= |labels| ==> x in Execute(s, labels[..j]).runs && HasPlaced(Execute(s, labels[..j]).runs[x])
  }

  lemma NextPlaces(s: State, l: Label, x: Id)
    requires Inv(s) && x in Next(s, l).runs && HasPlaced(Next(s, l).runs[x])
    ensures var r := Next(s, l).runs[x];
      || (x in s.runs && HasPlaced(s.runs[x]) && r.kind == s.runs[x].kind)
      || (l.Step? && l.id == x && r.pc == PLACED && Next(s, l).disk.clipboard == Payload(x, r.kind))
  {
    hide Act, PointOk, LogOk, CheckOk, HasUncertainSideEffect;
    if l.Step? && l.id == x && x in s.runs && !s.runs[x].pc.Leaving? {
      assert RunOk(s.disk, s.flags, x, s.runs[x], s.log);
      ActPlaces(s.disk, s.flags, x, s.runs[x], l.choice, |s.log|);
    }
  }

  /**
   * In every history a clipboard run that has reported success went through a step that left its own
   * payload in the clipboard, and that step was its own.
   */
  lemma {:induction false} PayloadWasPlaced(s: State, labels: seq<Label>, x: Id) returns (i: nat)
    requires Initial(s) && x in Execute(s, labels).runs && HasPlaced(Execute(s, labels).runs[x])
    ensures PlacesAt(s, labels, i, x, Execute(s, labels).runs[x].kind) && SinceThen(s, labels, i, x)
  {
    hide Inv, Next, HasPlaced;
    assert labels[..|labels|] == labels;
    if labels == [] {
      InitialHasNoRuns(s);
      assert false;
    } else {
      var most, last := labels[..|labels| - 1], labels[|labels| - 1];
      var t := Execute(s, most);
      ReachableIsSafe(s, most);
      NextPlaces(t, last, x);
      if last.Step? && last.id == x && PlacesAt(s, labels, |most|, x, Execute(s, labels).runs[x].kind) {
        i := |most|;
      } else {
        i := PayloadWasPlaced(s, most, x);
        PlacedEarlier(s, labels, i, x);
      }
    }
  }

  lemma InitialHasNoRuns(s: State)
    requires Initial(s)
    ensures s.runs == map[]
  {}

  lemma PlacedEarlier(s: State, labels: seq<Label>, i: nat, x: Id)
    requires labels != [] && x in Execute(s, labels).runs && HasPlaced(Execute(s, labels).runs[x])
    requires var most := labels[..|labels| - 1];
      PlacesAt(s, most, i, x, Execute(s, labels).runs[x].kind) && SinceThen(s, most, i, x)
    ensures PlacesAt(s, labels, i, x, Execute(s, labels).runs[x].kind) && SinceThen(s, labels, i, x)
  {
    hide Execute, HasPlaced;
    var most := labels[..|labels| - 1];
    assert most[..i + 1] == labels[..i + 1] && labels[..|labels|] == labels;
    assert forall j :: 0 <= j <= |most| ==> most[..j] == labels[..j];
  }

  /** In particular one that ends Ok. */
  lemma CompletedClipboardRunHasPlaced(s: State, labels: seq<Label>, x: Id) returns (i: nat)
    requires Initial(s)
    requires var t := Execute(s, labels);
      x in t.runs && t.runs[x].mode == Clipboard && t.runs[x].pc == Leaving(Success(()))
    ensures PlacesAt(s, labels, i, x, Execute(s, labels).runs[x].kind) && SinceThen(s, labels, i, x)
  {
    hide Execute, Initial, PlacesAt, SinceThen;
    ReachableIsSafe(s, labels);
    var t := Execute(s, labels);
    assert ResultOk(t.disk, x, t.runs[x], t.runs[x].pc.result);
    i := PayloadWasPlaced(s, labels, x);
  }

  /** A file or folder gets to its final cleaning only past the step that lowers the uncertainty flag. */
  lemma PlacedFilesLowerFlag(d: Disk, f: Flags, x: Id, r: Run, c: Choice, now: nat)
    requires !r.pc.Leaving? && !r.pc.FinalCleaning? && r.kind != Text && r.mode == Clipboard
    ensures var e := Act(d, f, x, r, c, now); e.run.pc.FinalCleaning? ==> !e.flags.uncertainClipboard
  {
    hide ActAdmission, ActPreparation, ActTransfer, ActApplication, ActAnswer, ActCompletion, ActUncertainty,
      ActCleanup, ActExit;
    if IsAdmission(r.pc) {
      AdmissionDoesNotFinish(d, f, x, r, c, now);
    } else if IsPreparation(r.pc) {
      PreparationDoesNotFinish(d, f, x, r, c);
    } else if IsTransfer(r.pc) {
      TransferDoesNotFinish(d, f, x, r, c);
    } else if IsApplication(r.pc) {
      ApplicationDoesNotFinish(d, f, x, r, c);
    } else if IsAnswer(r.pc) {
      AnswerLowersFlag(d, f, x, r, c);
    } else if IsCompletion(r.pc) {
      CompletionGoesOn(d, f, x, r, c);
    } else {
      FailureDoesNotFinish(d, f, x, r, c);
    }
  }

  lemma AdmissionDoesNotFinish(d: Disk, f: Flags, x: Id, r: Run, c: Choice, now: nat)
    requires IsAdmission(r.pc)
    ensures !ActAdmission(d, f, x, r, c, now).run.pc.FinalCleaning?
  {
    hide HasUncertainSideEffect;
  }

  lemma PreparationDoesNotFinish(d: Disk, f: Flags, x: Id, r: Run, c: Choice)
    requires IsPreparation(r.pc)
    ensures !ActPreparation(d, f, x, r, c).run.pc.FinalCleaning?
  {}

  lemma PublicationDoesNotFinish(d: Disk, f: Flags, x: Id, r: Run, c: Choice)
    requires r.pc.Publish? && r.mode == Clipboard
    ensures !ActPublish(d, f, x, r, c).run.pc.FinalCleaning?
  {}

  lemma TransferDoesNotFinish(d: Disk, f: Flags, x: Id, r: Run, c: Choice)
    requires IsTransfer(r.pc) && r.mode == Clipboard
    ensures !ActTransfer(d, f, x, r, c).run.pc.FinalCleaning?
  {
    hide ActPublish;
    if r.pc.Publish? { PublicationDoesNotFinish(d, f, x, r, c); }
  }

  lemma ApplicationDoesNotFinish(d: Disk, f: Flags, x: Id, r: Run, c: Choice)
    requires IsApplication(r.pc) && r.kind != Text
    ensures !ActApplication(d, f, x, r, c).run.pc.FinalCleaning?
  {
    hide NativeStep;
  }

  lemma AnswerLowersFlag(d: Disk, f: Flags, x: Id, r: Run, c: Choice)
    requires IsAnswer(r.pc)
    ensures var e := ActAnswer(d, f, x, r, c); e.run.pc.FinalCleaning? ==> !e.flags.uncertainClipboard
  {}

  lemma CompletionGoesOn(d: Disk, f: Flags, x: Id, r: Run, c: Choice)
    requires IsCompletion(r.pc) && !r.pc.FinalCleaning?
    ensures !ActCompletion(d, f, x, r, c).run.pc.FinalCleaning?
  {}

  lemma FailureDoesNotFinish(d: Disk, f: Flags, x: Id, r: Run, c: Choice)
    requires IsUncertainty(r.pc) || IsCleanup(r.pc) || IsExit(r.pc)
    ensures IsUncertainty(r.pc) ==> !ActUncertainty(d, f, x, r, c).run.pc.FinalCleaning?
    ensures IsCleanup(r.pc) || r.pc.Closing? ==> !ActCleanup(d, f, x, r, c).run.pc.FinalCleaning?
    ensures IsExit(r.pc) && !r.pc.Leaving? && !r.pc.Closing? ==> !ActExit(d, f, x, r, c).run.pc.FinalCleaning?
  {
    if IsUncertainty(r.pc) {
      UncertaintyDoesNotFinish(d, f, x, r, c);
    } else if IsCleanup(r.pc) || r.pc.Closing? {
      CleanupDoesNotFinish(d, f, x, r, c);
    }
    hide ActUncertainty, ActCleanup;
  }

  lemma UncertaintyDoesNotFinish(d: Disk, f: Flags, x: Id, r: Run, c: Choice)
    requires IsUncertainty(r.pc)
    ensures !ActUncertainty(d, f, x, r, c).run.pc.FinalCleaning?
  {}

  lemma CleanupDoesNotFinish(d: Disk, f: Flags, x: Id, r: Run, c: Choice)
    requires IsCleanup(r.pc) || r.pc.Closing?
    ensures !ActCleanup(d, f, x, r, c).run.pc.FinalCleaning?
  {}

  // ----- and nothing else is left behind -----

  /** The clipboard and the cache behind it. */
  datatype Cache = Cache(completed: Option<Id>, inFlight: Option<Id>, objects: map<Id, ContentKind>,
                         clipboard: ClipboardContent)

  function CacheOf(d: Disk): Cache { Cache(d.completed, d.inFlight, d.objects, d.clipboard) }

  predicate Holds(now: Cache, x: Id, kind: ContentKind) { x in now.objects && now.objects[x] == kind }

  /** The candidate is the completed record, nothing is in flight, and the previous object is gone. */
  predicate Promoted(before: Cache, idle: bool, now: Cache, x: Id, kind: ContentKind) {
    && now.completed == Some(x) && now.inFlight == None && Holds(now, x, kind)
    && (idle && before.completed.Some? && before.completed.value != x ==> before.completed.value !in now.objects)
  }

  /** What a finished clipboard run leaves. */
  predicate Finished(before: Cache, idle: bool, now: Cache, x: Id, kind: ContentKind) {
    && now.clipboard == Payload(x, kind)
    && (if kind == Text then now.completed == before.completed else Promoted(before, idle, now, x, kind))
  }

  /** The candidate of a file or folder lies in the cache beside the record that was there. */
  predicate Ready(before: Cache, now: Cache, x: Id, kind: ContentKind) {
    now.completed == before.completed && (kind != Text ==> Holds(now, x, kind))
  }

  /** And is in flight. */
  predicate Underway(before: Cache, now: Cache, x: Id, kind: ContentKind) {
    Ready(before, now, x, kind) && (kind != Text ==> now.inFlight == Some(x))
  }

  /** How far a clipboard run has come. */
  datatype Stage =
    | Early | Stored | Flying | Asking(at: CallPoint) | Promotion | Replacing(previous: Id) | Replaced | Done
    /** It will not end Ok. */
    | Lost

  predicate IsEarly(pc: Pc) {
    IsAdmission(pc) || IsPreparation(pc) || pc.Receiving? || pc.MarkingVerified? || pc.MarkingPublishing? || pc.Publish?
  }

  predicate EndsOk(pc: Pc) {
    (pc.Returning? || pc.GuardTree? || pc.GuardRow? || pc.Leaving?) && pc.result.Success?
  }

  predicate IsLost(pc: Pc) {
    || IsUncertainty(pc) || IsCleanup(pc) || pc.Closing? || pc.DroppingUnindexed? || pc.DroppingIndex?
    || pc.DroppingObject? || ((pc.Returning? || pc.GuardTree? || pc.GuardRow? || pc.Leaving?) && pc.result.Failure?)
  }

  function StageOf(pc: Pc): Stage {
    if IsEarly(pc) then Early
    else if pc.Unlinking? || pc.MarkingApplying? || pc.Indexing? then Stored
    else if pc.CallingClipboard? then Flying
    else if pc.InsideCall? then Asking(pc.at)
    else if pc.Promoting? then Promotion
    else if pc.DroppingPrevious? then Replacing(pc.previous)
    else if pc.ClearingFlag? then Replaced
    else if IsCompletion(pc) || EndsOk(pc) then Done
    else Lost
  }

  /** What holds of a clipboard run that no other clipboard application overlaps. */
  predicate OnCourse(before: Cache, idle: bool, now: Cache, x: Id, kind: ContentKind, stage: Stage) {
    match stage
    case Early => now.completed == before.completed
    case Stored => Ready(before, now, x, kind)
    case Flying => Underway(before, now, x, kind)
    case Asking(at) =>
      Underway(before, now, x, kind) && (at == Replying(Placed) ==> now.clipboard == Payload(x, kind))
    case Promotion => kind != Text && Underway(before, now, x, kind) && now.clipboard == Payload(x, kind)
    case Replacing(p) =>
      && kind != Text && now.completed == Some(x) && now.inFlight == None && Holds(now, x, kind)
      && before.completed == Some(p) && p != x && now.clipboard == Payload(x, kind)
    case Replaced => kind != Text && Finished(before, idle, now, x, kind)
    case Done => Finished(before, idle, now, x, kind)
    case Lost => true
  }

  /** An action leaves clipboard and cache alone. */
  predicate IsQuiet(d: Disk, r: Run, e: Effect) { CacheOf(e.disk) == CacheOf(d) && e.run.kind == r.kind }

  lemma NegotiationIsQuiet(d: Disk, f: Flags, x: Id, r: Run, c: Choice, now: nat)
    requires r.pc.Starting? || r.pc.Negotiating? || r.pc.CheckingFlag?
    ensures var e := ActAdmission(d, f, x, r, c, now); IsQuiet(d, r, e) && (IsEarly(e.run.pc) || IsLost(e.run.pc))
  {
    var e := ActAdmission(d, f, x, r, c, now);
    var ok := IsQuiet(d, r, e) && (IsEarly(e.run.pc) || IsLost(e.run.pc));
    match r.pc {
      case Starting => assert ok;
      case Negotiating => assert ok;
      case CheckingFlag => assert ok;
    }
    hide *;
  }

  lemma AdmissionIsQuiet(d: Disk, f: Flags, x: Id, r: Run, c: Choice, now: nat)
    requires r.pc.CheckingStore? || r.pc.Reserving? || r.pc.Journaling?
    ensures var e := ActAdmission(d, f, x, r, c, now); IsQuiet(d, r, e) && (IsEarly(e.run.pc) || IsLost(e.run.pc))
  {
    var e := ActAdmission(d, f, x, r, c, now);
    var ok := IsQuiet(d, r, e) && (IsEarly(e.run.pc) || IsLost(e.run.pc));
    match r.pc {
      case CheckingStore(_) => assert ok;
      case Reserving => assert ok;
      case Journaling => assert ok;
    }
    hide *;
  }

  lemma PreparationIsQuiet(d: Disk, f: Flags, x: Id, r: Run, c: Choice)
    requires IsPreparation(r.pc)
    ensures var e := ActPreparation(d, f, x, r, c); IsQuiet(d, r, e) && (IsEarly(e.run.pc) || IsLost(e.run.pc))
  {
    var e := ActPreparation(d, f, x, r, c);
    var ok := IsQuiet(d, r, e) && (IsEarly(e.run.pc) || IsLost(e.run.pc));
    match r.pc {
      case Preparing => assert ok;
      case CheckingRoot => assert ok;
      case Admitting => assert ok;
      case MarkingTransferring => assert ok;
    }
    hide *;
  }

  lemma ReceptionIsQuiet(d: Disk, f: Flags, x: Id, r: Run, c: Choice)
    requires r.pc.Receiving? || r.pc.MarkingVerified?
    ensures var e := ActTransfer(d, f, x, r, c); IsQuiet(d, r, e) && (IsEarly(e.run.pc) || IsLost(e.run.pc))
  {
    var e := ActTransfer(d, f, x, r, c);
    var ok := IsQuiet(d, r, e) && (IsEarly(e.run.pc) || IsLost(e.run.pc));
    match r.pc {
      case Receiving => assert ok;
      case MarkingVerified => assert ok;
    }
    hide *;
  }

  lemma MarkingPublishingIsQuiet(d: Disk, f: Flags, x: Id, r: Run, c: Choice)
    requires r.pc.MarkingPublishing? && r.mode == Clipboard
    ensures var e := ActTransfer(d, f, x, r, c);
      && IsQuiet(d, r, e)
      && (IsEarly(e.run.pc) || IsLost(e.run.pc) || (r.kind == Text && e.run.pc.MarkingApplying?))
  {}

  lemma UnlinkingIsQuiet(d: Disk, f: Flags, x: Id, r: Run, c: Choice)
    requires r.pc.Unlinking? && r.mode == Clipboard
    ensures var e := ActTransfer(d, f, x, r, c); IsQuiet(d, r, e) && (e.run.pc.MarkingApplying? || IsLost(e.run.pc))
  {}

  lemma CompletionIsQuiet(d: Disk, f: Flags, x: Id, r: Run, c: Choice)
    requires r.pc.FinalCleaning? || r.pc.MarkingCompleted? || r.pc.RecordingCompleted?
    ensures var e := ActCompletion(d, f, x, r, c);
      IsQuiet(d, r, e) && (IsCompletion(e.run.pc) || EndsOk(e.run.pc) || IsLost(e.run.pc))
  {
    var e := ActCompletion(d, f, x, r, c);
    var ok := IsQuiet(d, r, e) && (IsCompletion(e.run.pc) || EndsOk(e.run.pc) || IsLost(e.run.pc));
    match r.pc {
      case FinalCleaning => assert ok;
      case MarkingCompleted => assert ok;
      case RecordingCompleted => assert ok;
    }
    hide *;
  }

  lemma FarewellIsQuiet(d: Disk, f: Flags, x: Id, r: Run, c: Choice)
    requires r.pc.RemovingFinalRow? || r.pc.SendingCompleted?
    ensures var e := ActCompletion(d, f, x, r, c);
      IsQuiet(d, r, e) && (IsCompletion(e.run.pc) || EndsOk(e.run.pc) || IsLost(e.run.pc))
  {
    var e := ActCompletion(d, f, x, r, c);
    var ok := IsQuiet(d, r, e) && (IsCompletion(e.run.pc) || EndsOk(e.run.pc) || IsLost(e.run.pc));
    match r.pc {
      case RemovingFinalRow => assert ok;
      case SendingCompleted => assert ok;
    }
    hide *;
  }

  lemma ExitIsQuiet(d: Disk, f: Flags, x: Id, r: Run, c: Choice)
    requires EndsOk(r.pc) && !r.pc.Leaving?
    ensures var e := ActExit(d, f, x, r, c); IsQuiet(d, r, e) && EndsOk(e.run.pc)
  {
    var e := ActExit(d, f, x, r, c);
    var ok := IsQuiet(d, r, e) && EndsOk(e.run.pc);
    match r.pc {
      case Returning(_) => assert ok;
      case GuardTree(_) => assert ok;
      case GuardRow(_, _) => assert ok;
    }
    hide *;
  }

  lemma LostAnswer(d: Disk, f: Flags, x: Id, r: Run, c: Choice)
    requires r.pc.DroppingUnindexed? || r.pc.DroppingIndex? || r.pc.DroppingObject?
    ensures var e := if r.pc.DroppingUnindexed? then ActApplication(d, f, x, r, c) else ActAnswer(d, f, x, r, c);
      IsLost(e.run.pc)
  {}

  lemma LostUncertain(d: Disk, f: Flags, x: Id, r: Run, c: Choice)
    requires IsUncertainty(r.pc)
    ensures var e := ActUncertainty(d, f, x, r, c); IsLost(e.run.pc)
  {
    var e := ActUncertainty(d, f, x, r, c);
    var ok := IsLost(e.run.pc);
    match r.pc {
      case MarkingUncertain => assert ok;
      case RecordingUncertain => assert ok;
      case RaisingFlag => assert ok;
    }
    hide *;
  }

  lemma LostCleanup(d: Disk, f: Flags, x: Id, r: Run, c: Choice)
    requires IsCleanup(r.pc) || r.pc.Closing?
    ensures var e := ActCleanup(d, f, x, r, c); IsLost(e.run.pc)
  {
    var e := ActCleanup(d, f, x, r, c);
    var ok := IsLost(e.run.pc);
    match r.pc {
      case Cleaning(_) => assert ok;
      case RemovingRow(_) => assert ok;
      case Closing(_) => assert ok;
    }
    hide *;
  }

  lemma LostExit(d: Disk, f: Flags, x: Id, r: Run, c: Choice)
    requires IsLost(r.pc) && (r.pc.Returning? || r.pc.GuardTree? || r.pc.GuardRow?)
    ensures IsLost(ActExit(d, f, x, r, c).run.pc)
  {}

  /** What is lost stays lost. */
  lemma LostStaysLost(d: Disk, f: Flags, x: Id, r: Run, c: Choice, now: nat)
    requires IsLost(r.pc) && !r.pc.Leaving?
    ensures IsLost(Act(d, f, x, r, c, now).run.pc)
  {
    hide ActAdmission, ActPreparation, ActTransfer, ActApplication, ActAnswer, ActCompletion, ActUncertainty,
      ActCleanup, ActExit;
    if IsUncertainty(r.pc) {
      LostUncertain(d, f, x, r, c);
    } else if IsCleanup(r.pc) || r.pc.Closing? {
      LostCleanup(d, f, x, r, c);
    } else if IsExit(r.pc) {
      LostExit(d, f, x, r, c);
    } else {
      LostAnswer(d, f, x, r, c);
    }
  }

  lemma PublishOnCourse(before: Cache, idle: bool, d: Disk, f: Flags, x: Id, r: Run, c: Choice)
    requires r.pc.Publish? && r.mode == Clipboard && OnCourse(before, idle, CacheOf(d), x, r.kind, StageOf(r.pc))
    ensures var e := ActPublish(d, f, x, r, c);
      OnCourse(before, idle, CacheOf(e.disk), x, e.run.kind, StageOf(e.run.pc))
  {
    PublishGoes(d, f, x, r, c);
    Stages(ActPublish(d, f, x, r, c).run.pc);
    hide ActPublish, Finished, Payload, IsLost, StageOf;
  }

  lemma PublishGoes(d: Disk, f: Flags, x: Id, r: Run, c: Choice)
    requires r.pc.Publish? && r.mode == Clipboard
    ensures var e := ActPublish(d, f, x, r, c);
      && e.run.kind == r.kind && (e.run.pc.Unlinking? || e.run.pc.MarkingApplying? || IsLost(e.run.pc))
      && (!IsLost(e.run.pc) ==> CacheOf(e.disk) == CacheOf(d).(objects := d.objects[x := r.kind]))
  {}

  lemma ApplicationGoes(d: Disk, f: Flags, x: Id, r: Run, c: Choice)
    requires r.pc.MarkingApplying? || r.pc.Indexing? || r.pc.CallingClipboard?
    ensures var e := ActApplication(d, f, x, r, c);
      && e.run.kind == r.kind
      && (e.run.pc.Indexing? ==> r.pc.MarkingApplying? && CacheOf(e.disk) == CacheOf(d))
      && (e.run.pc.CallingClipboard? ==>
            || (r.pc.MarkingApplying? && r.kind == Text && CacheOf(e.disk) == CacheOf(d))
            || (r.pc.Indexing? && CacheOf(e.disk) == CacheOf(d).(inFlight := Some(x))))
      && (e.run.pc.InsideCall? ==> r.pc.CallingClipboard? && e.run.pc.at == Queued && CacheOf(e.disk) == CacheOf(d))
      && (e.run.pc.Indexing? || e.run.pc.CallingClipboard? || e.run.pc.InsideCall? || IsLost(e.run.pc))
  {
    hide ActInsideCall;
  }

  lemma ApplicationOnCourse(before: Cache, idle: bool, d: Disk, f: Flags, x: Id, r: Run, c: Choice)
    requires r.pc.MarkingApplying? || r.pc.Indexing? || r.pc.CallingClipboard?
    requires OnCourse(before, idle, CacheOf(d), x, r.kind, StageOf(r.pc))
    ensures var e := ActApplication(d, f, x, r, c);
      OnCourse(before, idle, CacheOf(e.disk), x, e.run.kind, StageOf(e.run.pc))
  {
    ApplicationGoes(d, f, x, r, c);
    Stages(ActApplication(d, f, x, r, c).run.pc);
    hide ActApplication, Finished, Payload, IsLost, CacheOf;
  }

  lemma NativeCallGoes(x: Id, kind: ContentKind, at: CallPoint, content: ClipboardContent,
                       event: NativeEvent<ClipboardContent>)
    requires at == Replying(Placed) ==> content == Payload(x, kind)
    ensures var step := NativeStep(JobFor(x, kind), at, content, event);
      && (step.Going? && step.at == Replying(Placed) ==> step.content == Payload(x, kind))
      && (step.Answered? && step.answer == Placed ==> step.content == Payload(x, kind))
  {
    StepKeepsGoal(JobFor(x, kind), at, content, event);
  }

  lemma CallGoes(d: Disk, f: Flags, x: Id, r: Run, event: NativeEvent<ClipboardContent>)
    requires r.pc.InsideCall?
    ensures var e := ActInsideCall(d, f, x, r, r.pc.at, event);
      var step := NativeStep(JobFor(x, r.kind), r.pc.at, d.clipboard, event);
      && e.run.kind == r.kind && CacheOf(e.disk) == CacheOf(d).(clipboard := step.content)
      && (step.Going? ==> e.run.pc == InsideCall(step.at))
      && (step.Answered? && step.answer == Placed ==> e.run.pc == if r.kind == Text then FinalCleaning else Promoting)
      && (step.Answered? && step.answer != Placed ==> IsLost(e.run.pc))
  {
    hide NativeStep, JobFor;
  }

  lemma CallOnCourse(before: Cache, idle: bool, d: Disk, f: Flags, x: Id, r: Run, event: NativeEvent<ClipboardContent>)
    requires r.pc.InsideCall? && OnCourse(before, idle, CacheOf(d), x, r.kind, Asking(r.pc.at))
    ensures var e := ActInsideCall(d, f, x, r, r.pc.at, event);
      OnCourse(before, idle, CacheOf(e.disk), x, e.run.kind, StageOf(e.run.pc))
  {
    var e := ActInsideCall(d, f, x, r, r.pc.at, event);
    var step := NativeStep(JobFor(x, r.kind), r.pc.at, d.clipboard, event);
    NativeCallGoes(x, r.kind, r.pc.at, d.clipboard, event);
    CallGoes(d, f, x, r, event);
    Stages(e.run.pc);
    hide ActInsideCall, NativeStep, Payload, JobFor, IsLost, Finished, Promoted;
    if step.Answered? && step.answer == Placed {
      assert r.kind == Text ==> Finished(before, idle, CacheOf(e.disk), x, r.kind) by {
        TextIsFinished(before, idle, CacheOf(d), step.content, x, r.kind);
      }
    }
  }

  lemma TextIsFinished(before: Cache, idle: bool, now: Cache, content: ClipboardContent, x: Id, kind: ContentKind)
    requires Underway(before, now, x, kind) && content == Payload(x, kind)
    ensures kind == Text ==> Finished(before, idle, now.(clipboard := content), x, kind)
  {}

  lemma PromotingOnCourse(before: Cache, idle: bool, d: Disk, f: Flags, x: Id, r: Run, c: Choice)
    requires r.pc.Promoting? && OnCourse(before, idle, CacheOf(d), x, r.kind, Promotion)
    ensures var e := ActAnswer(d, f, x, r, c); OnCourse(before, idle, CacheOf(e.disk), x, e.run.kind, StageOf(e.run.pc))
  {
    var e := ActAnswer(d, f, x, r, c);
    if c == Proceed {
      var another := d.completed.Some? && d.completed.value != x;
      assert e.run.kind == r.kind && StageOf(e.run.pc) == if another then Replacing(d.completed.value) else Replaced;
      assert CacheOf(e.disk) == CacheOf(d).(completed := Some(x), inFlight := None);
    } else {
      assert StageOf(e.run.pc) == Lost;
    }
    hide ActAnswer, StageOf, Payload;
  }

  lemma ReplacingOnCourse(before: Cache, idle: bool, d: Disk, f: Flags, x: Id, r: Run, c: Choice)
    requires r.pc.DroppingPrevious? && OnCourse(before, idle, CacheOf(d), x, r.kind, Replacing(r.pc.previous))
    ensures var e := ActAnswer(d, f, x, r, c); OnCourse(before, idle, CacheOf(e.disk), x, e.run.kind, StageOf(e.run.pc))
  {
    var e := ActAnswer(d, f, x, r, c);
    if c == Proceed {
      assert e.run.kind == r.kind && StageOf(e.run.pc) == Replaced;
      assert CacheOf(e.disk) == CacheOf(d).(objects := d.objects - {r.pc.previous});
    } else {
      assert StageOf(e.run.pc) == Lost;
    }
    hide ActAnswer, StageOf, Payload;
  }

  lemma ClearingOnCourse(before: Cache, idle: bool, d: Disk, f: Flags, x: Id, r: Run, c: Choice)
    requires r.pc.ClearingFlag? && OnCourse(before, idle, CacheOf(d), x, r.kind, Replaced)
    ensures var e := ActAnswer(d, f, x, r, c); OnCourse(before, idle, CacheOf(e.disk), x, e.run.kind, StageOf(e.run.pc))
  {
    hide Finished, Payload;
  }

  lemma AnswerOnCourse(before: Cache, idle: bool, d: Disk, f: Flags, x: Id, r: Run, c: Choice)
    requires r.pc.Promoting? || r.pc.DroppingPrevious? || r.pc.ClearingFlag?
    requires OnCourse(before, idle, CacheOf(d), x, r.kind, StageOf(r.pc))
    ensures var e := ActAnswer(d, f, x, r, c); OnCourse(before, idle, CacheOf(e.disk), x, e.run.kind, StageOf(e.run.pc))
  {
    hide OnCourse, ActAnswer, CacheOf;
    if r.pc.Promoting? {
      PromotingOnCourse(before, idle, d, f, x, r, c);
    } else if r.pc.ClearingFlag? {
      ClearingOnCourse(before, idle, d, f, x, r, c);
    } else {
      ReplacingOnCourse(before, idle, d, f, x, r, c);
    }
  }

  lemma QuietOnCourse(before: Cache, idle: bool, now: Cache, x: Id, kind: ContentKind, stage: Stage, next: Stage)
    requires OnCourse(before, idle, now, x, kind, stage)
    requires next == stage || next == Lost || (stage == Early && next == Stored && kind == Text)
    ensures OnCourse(before, idle, now, x, kind, next)
  {
    hide Finished, Payload;
  }

  lemma Stages(pc: Pc)
    ensures IsEarly(pc) <==> StageOf(pc) == Early
    ensures IsLost(pc) <==> StageOf(pc) == Lost
    ensures IsCompletion(pc) || EndsOk(pc) <==> StageOf(pc) == Done
    ensures pc.Unlinking? || pc.MarkingApplying? ==> StageOf(pc) == Stored
    ensures IsAdmission(pc) || IsPreparation(pc) || (IsTransfer(pc) && !pc.Unlinking?) ==> IsEarly(pc)
  {}

  /** The points that only take steps which leave clipboard and cache alone, or are lost. */
  predicate IsSteady(pc: Pc) {
    (IsEarly(pc) && !pc.Publish?) || pc.Unlinking? || IsCompletion(pc) || EndsOk(pc) || IsLost(pc)
  }

  lemma SteadyOnCourse(before: Cache, idle: bool, d: Disk, f: Flags, x: Id, r: Run, c: Choice, now: nat)
    requires IsSteady(r.pc) && !r.pc.Leaving? && r.mode == Clipboard
    requires OnCourse(before, idle, CacheOf(d), x, r.kind, StageOf(r.pc))
    ensures var e := Act(d, f, x, r, c, now); OnCourse(before, idle, CacheOf(e.disk), x, e.run.kind, StageOf(e.run.pc))
  {
    var e := Act(d, f, x, r, c, now);
    Stages(r.pc);
    Stages(e.run.pc);
    hide StageOf, IsLost, OnCourse, CacheOf, ActAdmission, ActPreparation, ActTransfer, ActApplication, ActAnswer,
      ActCompletion, ActUncertainty, ActCleanup, ActExit;
    if IsLost(r.pc) {
      LostStaysLost(d, f, x, r, c, now);
      LostIsOnCourse(before, idle, CacheOf(e.disk), x, e.run.kind);
    } else {
      if IsAdmission(r.pc) {
        if r.pc.CheckingStore? || r.pc.Reserving? || r.pc.Journaling? {
          AdmissionIsQuiet(d, f, x, r, c, now);
        } else {
          NegotiationIsQuiet(d, f, x, r, c, now);
        }
      } else if IsPreparation(r.pc) {
        PreparationIsQuiet(d, f, x, r, c);
      } else if IsTransfer(r.pc) {
        if r.pc.Unlinking? {
          UnlinkingIsQuiet(d, f, x, r, c);
        } else if r.pc.MarkingPublishing? {
          MarkingPublishingIsQuiet(d, f, x, r, c);
        } else {
          ReceptionIsQuiet(d, f, x, r, c);
        }
      } else if IsCompletion(r.pc) {
        if r.pc.RemovingFinalRow? || r.pc.SendingCompleted? {
          FarewellIsQuiet(d, f, x, r, c);
        } else {
          CompletionIsQuiet(d, f, x, r, c);
        }
      } else {
        ExitIsQuiet(d, f, x, r, c);
      }
      QuietOnCourse(before, idle, CacheOf(d), x, r.kind, StageOf(r.pc), StageOf(e.run.pc));
    }
  }

  lemma LostIsOnCourse(before: Cache, idle: bool, now: Cache, x: Id, kind: ContentKind)
    ensures OnCourse(before, idle, now, x, kind, Lost)
  {}

  lemma ActOnCourse(before: Cache, idle: bool, d: Disk, f: Flags, x: Id, r: Run, c: Choice, now: nat)
    requires OnCourse(before, idle, CacheOf(d), x, r.kind, StageOf(r.pc)) && !r.pc.Leaving? && r.mode == Clipboard
    ensures var e := Act(d, f, x, r, c, now); OnCourse(before, idle, CacheOf(e.disk), x, e.run.kind, StageOf(e.run.pc))
  {
    hide OnCourse, ActAdmission, ActPreparation, ActPublish, ActInsideCall, ActAnswer, ActCompletion,
      ActUncertainty, ActCleanup, ActExit;
    if IsSteady(r.pc) {
      SteadyOnCourse(before, idle, d, f, x, r, c, now);
    } else if r.pc.Publish? {
      PublishOnCourse(before, idle, d, f, x, r, c);
    } else if r.pc.InsideCall? {
      if c.Native? { CallOnCourse(before, idle, d, f, x, r, c.event); }
    } else if IsApplication(r.pc) {
      ApplicationOnCourse(before, idle, d, f, x, r, c);
    } else {
      AnswerOnCourse(before, idle, d, f, x, r, c);
    }
  }

  /** No run of the id whose object the cache record names. */
  predicate PreviousIsIdle(before: Cache, s: State, x: Id) {
    before.completed.Some? && before.completed.value != x ==> before.completed.value !in s.runs
  }

  lemma OthersKeepCourse(before: Cache, idle: bool, d: Disk, y: Id, q: Run, e: Effect, x: Id, kind: ContentKind,
                         stage: Stage)
    requires OnCourse(before, idle, CacheOf(d), x, kind, stage) && y != x && !IsClipboardOnly(q.pc)
    requires OwnCache(d, y, q, e.disk) && OwnClipboard(d, q, e)
    requires idle && before.completed.Some? && before.completed.value != x ==> before.completed.value != y
    ensures OnCourse(before, idle, CacheOf(e.disk), x, kind, stage)
  {
    var d', e' := CacheOf(d), CacheOf(e.disk);
    assert e'.completed == d'.completed && e'.inFlight == d'.inFlight && e'.clipboard == d'.clipboard;
    assert e'.objects == d'.objects || e'.objects == d'.objects[y := q.kind];
    hide Payload, OwnCache, OwnClipboard, CacheOf;
    CourseIsKept(before, idle, d', e', x, kind, stage, y, q.kind);
  }

  lemma CourseIsKept(before: Cache, idle: bool, d: Cache, e: Cache, x: Id, kind: ContentKind, stage: Stage, y: Id,
                     other: ContentKind)
    requires OnCourse(before, idle, d, x, kind, stage) && y != x
    requires e.completed == d.completed && e.inFlight == d.inFlight && e.clipboard == d.clipboard
    requires e.objects == d.objects || e.objects == d.objects[y := other]
    requires idle && before.completed.Some? && before.completed.value != x ==> before.completed.value != y
    ensures OnCourse(before, idle, e, x, kind, stage)
  {
    hide Payload;
    var ok := OnCourse(before, idle, e, x, kind, stage);
    assert Holds(d, x, kind) ==> Holds(e, x, kind);
    assert Promoted(before, idle, d, x, kind) ==> Promoted(before, idle, e, x, kind);
    hide Promoted, Holds;
    assert ok;
    hide *;
  }

  predicate Sails(before: Cache, idle: bool, d: Disk, x: Id, r: Run) {
    r.mode == Clipboard && OnCourse(before, idle, CacheOf(d), x, r.kind, StageOf(r.pc))
  }

  lemma ActSails(before: Cache, idle: bool, d: Disk, f: Flags, x: Id, r: Run, c: Choice, now: nat)
    requires Sails(before, idle, d, x, r) && !r.pc.Leaving?
    ensures var e := Act(d, f, x, r, c, now); Sails(before, idle, e.disk, x, e.run)
  {
    ActIsTame(d, f, x, r, c, now);
    TameKeepsKind(d, f, x, r, now, Act(d, f, x, r, c, now));
    hide OnCourse, Tame, CacheOf;
    ActOnCourse(before, idle, d, f, x, r, c, now);
    hide Act;
  }

  lemma NextSails(before: Cache, idle: bool, s: State, l: Label, x: Id)
    requires Inv(s) && x in s.runs && NoOverlap(s, x) && x in Next(s, l).runs
    requires Sails(before, idle, s.disk, x, s.runs[x]) && (idle ==> PreviousIsIdle(before, s, x))
    ensures var t := Next(s, l); Sails(before, idle, t.disk, x, t.runs[x])
  {
    hide OnCourse, CacheOf, Act, RunOk, LogOk, HasUncertainSideEffect;
    match l
    case Activate(y, mode, kind) => assert y == x ==> !CanActivate(s, x);
    case Crash =>
    case DropFuture(y) =>
      LostIsOnCourse(before, idle, CacheOf(s.disk), x, s.runs[x].kind);
    case Recover(y, c) => assert s.recovered && s.recovery == Idle;
    case Step(y, c) =>
      if y in s.runs && !s.runs[y].pc.Leaving? {
        hide OwnRow, OwnStaging, OwnClipboard, OwnCache, OwnEvents;
        if y == x {
          ActSails(before, idle, s.disk, s.flags, x, s.runs[x], c, |s.log|);
        } else {
          ActIsTame(s.disk, s.flags, y, s.runs[y], c, |s.log|);
          var e := Act(s.disk, s.flags, y, s.runs[y], c, |s.log|);
          OthersKeepCourse(before, idle, s.disk, y, s.runs[y], e, x, s.runs[x].kind, StageOf(s.runs[x].pc));
        }
      }
  }

  /** The id of the previous record is not activated meanwhile. */
  predicate StaysIdle(s: State, labels: seq<Label>, x: Id) {
    forall i :: 0 <= i <= |labels| ==> PreviousIsIdle(CacheOf(s.disk), Execute(s, labels[..i]), x)
  }

  lemma StaysIdleBefore(s: State, labels: seq<Label>, x: Id)
    requires labels != [] && StaysIdle(s, labels, x)
    ensures var most := labels[..|labels| - 1];
      StaysIdle(s, most, x) && PreviousIsIdle(CacheOf(s.disk), Execute(s, most), x)
  {
    hide Execute, PreviousIsIdle;
    var most := labels[..|labels| - 1];
    assert forall i :: 0 <= i <= |most| ==> most[..i] == labels[..i];
  }

  lemma {:induction false} SailsThroughout(s: State, labels: seq<Label>, x: Id, idle: bool)
    requires Inv(s) && x in s.runs && Sails(CacheOf(s.disk), idle, s.disk, x, s.runs[x]) && Undisturbed(s, labels, x)
    requires idle ==> StaysIdle(s, labels, x)
    ensures var t := Execute(s, labels); x in t.runs && Sails(CacheOf(s.disk), idle, t.disk, x, t.runs[x])
  {
    hide Inv, Next, Sails, NoOverlap, Undisturbed, PreviousIsIdle, StaysIdle;
    UndisturbedBefore(s, labels, x);
    if labels != [] {
      var most := labels[..|labels| - 1];
      if idle { StaysIdleBefore(s, labels, x); }
      UndisturbedBefore(s, most, x);
      SailsThroughout(s, most, x, idle);
      ExecuteKeepsInv(s, most);
      NextSails(CacheOf(s.disk), idle, Execute(s, most), labels[|labels| - 1], x);
    }
  }

  lemma EarlyRunSails(s: State, x: Id, idle: bool)
    requires x in s.runs && s.runs[x].mode == Clipboard && StageOf(s.runs[x].pc) == Early
    ensures Sails(CacheOf(s.disk), idle, s.disk, x, s.runs[x])
  {}

  lemma SailedHome(before: Cache, idle: bool, d: Disk, x: Id, r: Run)
    requires Sails(before, idle, d, x, r) && r.pc == Leaving(Success(()))
    ensures Finished(before, idle, CacheOf(d), x, r.kind)
  {
    hide Finished;
  }

  /**
   * A clipboard run that no other clipboard application overlaps and that ends Ok leaves its payload in
   * the clipboard; a file or folder is then the completed cache record, still in the cache, with
   * nothing in flight, and the object of the previous record is gone.
   */
  lemma UndisturbedCompletion(s: State, labels: seq<Label>, x: Id)
    requires Inv(s) && x in s.runs && s.runs[x].mode == Clipboard && StageOf(s.runs[x].pc) == Early
    requires Undisturbed(s, labels, x) && x in Execute(s, labels).runs
    requires Execute(s, labels).runs[x].pc == Leaving(Success(()))
    ensures var t := Execute(s, labels);
      Finished(CacheOf(s.disk), StaysIdle(s, labels, x), CacheOf(t.disk), x, t.runs[x].kind)
  {
    hide Inv, Execute, Undisturbed, Finished, StaysIdle, Sails;
    var idle, t := StaysIdle(s, labels, x), Execute(s, labels);
    EarlyRunSails(s, x, idle);
    SailsThroughout(s, labels, x, idle);
    SailedHome(CacheOf(s.disk), idle, t.disk, x, t.runs[x]);
  }
}
