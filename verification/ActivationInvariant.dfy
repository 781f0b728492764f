/** What holds of a run at each of its program points, and that every action keeps it. */
module ActivationInvariant {
  import opened Prelude
  import opened Outcomes
  import opened NativeClipboards
  import opened Activation

  const TRAIL_1 := After(Nothing, SideEffectDone)
  const TRAIL_2 := After(TRAIL_1, StagingRemoved)
  const TRAIL_3 := After(TRAIL_2, StateCompleted)
  const TRAIL_4 := After(TRAIL_3, AttemptRecorded)
  const TRAIL_5 := After(TRAIL_4, RowRemoved)
  const FULL_TRAIL := After(TRAIL_5, ReceiptSent)

  const KEPT := Guard(false, true)

  const CLIPBOARD_FAILED := FetchTerminal(ClipboardFailedReceipt)
  const UNCERTAIN := FetchTerminal(UncertainReceipt)

  predicate RowIs(d: Disk, x: Id, mode: Mode, state: ActivationState) {
    x in d.journal && d.journal[x] == Row(mode, state)
  }

  predicate Gone(d: Disk, x: Id) { x !in d.journal && x !in d.staging }

  /** How an activation may be left behind. */
  predicate Settled(d: Disk, f: Flags, x: Id, mode: Mode) {
    Gone(d, x) || f.cleanupBlocked || RowIs(d, x, mode, UncertainNoReplay)
  }

  function AppliedState(mode: Mode): ActivationState {
    if mode == Clipboard then ApplyingClipboard else Publishing
  }

  // ----- the invariant, point by point -----

  /** Nothing written yet. */
  predicate Fresh(r: Run) {
    !r.journaled && r.guard == INACTIVE && !r.touched && r.trail == Nothing && !r.dropped
  }

  /** A row in this state, and a guard that would clean it up. */
  predicate Armed(d: Disk, x: Id, r: Run, state: ActivationState) {
    && r.journaled && r.guard == ARMED && RowIs(d, x, r.mode, state)
    && !r.touched && r.trail == Nothing && !r.dropped
  }

  /** A row in this state, and a guard that keeps it. */
  predicate Held(d: Disk, x: Id, r: Run, state: ActivationState) {
    && r.journaled && r.guard == KEPT && RowIs(d, x, r.mode, state)
    && (r.touched ==> r.mode == Clipboard) && !r.dropped
  }

  /** On the way to the native call and back from a definite failure of it. */
  predicate Applying(d: Disk, x: Id, r: Run) {
    Held(d, x, r, ApplyingClipboard) && r.mode == Clipboard && r.trail == Nothing
  }

  /** The side effect is done and the cache is being put in order. */
  predicate Applied(d: Disk, x: Id, r: Run) {
    Held(d, x, r, ApplyingClipboard) && r.mode == Clipboard && r.trail == TRAIL_1
  }

  /** Cleaning up after a failure that did not touch the clipboard. */
  predicate Undoing(d: Disk, x: Id, r: Run, after: NetError) {
    && r.journaled && !r.guard.disarmed && !r.dropped && !r.touched
    && x in d.journal && d.journal[x].mode == r.mode && !LooksCompleted(after) && after != UNCERTAIN
  }

  /** What the value a run is about to return says about it. */
  predicate ResultOk(d: Disk, x: Id, r: Run, result: Result<(), NetError>) {
    && (result.Success? ==> r.trail == FULL_TRAIL && Gone(d, x) && r.guard.disarmed && r.journaled)
    && (result.Failure? ==> !LooksCompleted(result.error))
    && (r.dropped ==> result == Failure(OtherError))
    && (result == Failure(UNCERTAIN) ==> r.journaled && r.guard == KEPT && RowIs(d, x, r.mode, UncertainNoReplay))
    && (result == Failure(CLIPBOARD_FAILED) ==> !r.touched)
    && (!r.journaled ==> r.guard == INACTIVE)
  }

  /** A run that changed the clipboard keeps a row that says so until its removal is on record. */
  predicate TouchOk(d: Disk, x: Id, r: Run) {
    r.touched ==>
      && r.journaled && r.mode == Clipboard && r.guard.keep
      && (|| (x in d.journal && d.journal[x].mode == Clipboard
              && (IsUncertainSideEffect(d.journal[x].state) || d.journal[x].state == CompletedState))
          || r.trail.Reached(RowRemoved))
  }

  predicate PointOk(d: Disk, f: Flags, x: Id, r: Run) {
    match r.pc
    case Starting | Negotiating | CheckingFlag | CheckingStore(_) => Fresh(r)
    case Reserving | Journaling => Fresh(r) && (r.mode == Clipboard ==> !MarkedRow(d, x))
    case Preparing | CheckingRoot | Admitting | MarkingTransferring => Armed(d, x, r, Staging)
    case Receiving | MarkingVerified => Armed(d, x, r, Transferring)
    case MarkingPublishing => Armed(d, x, r, Verified)
    case Publish | Unlinking => Armed(d, x, r, Publishing)
    case MarkingApplying => Held(d, x, r, Publishing) && r.mode == Clipboard && !r.touched && r.trail == Nothing
    case Indexing | DroppingUnindexed | CallingClipboard | DroppingIndex | DroppingObject =>
      Applying(d, x, r) && !r.touched
    case InsideCall(at) => Applying(d, x, r) && (Innocent(at) ==> !r.touched)
    case Promoting | DroppingPrevious(_) | ClearingFlag => Applied(d, x, r)
    case FinalCleaning => Held(d, x, r, AppliedState(r.mode)) && r.trail == TRAIL_1
    case MarkingCompleted => Held(d, x, r, AppliedState(r.mode)) && x !in d.staging && r.trail == TRAIL_2
    case RecordingCompleted => Held(d, x, r, CompletedState) && x !in d.staging && r.trail == TRAIL_3
    case RemovingFinalRow => Held(d, x, r, CompletedState) && x !in d.staging && r.trail == TRAIL_4
    case SendingCompleted =>
      && r.journaled && r.guard == Guard(true, true) && !r.dropped && Gone(d, x) && r.trail == TRAIL_5
      && (r.touched ==> r.mode == Clipboard)
    case MarkingUncertain => Held(d, x, r, AppliedState(r.mode)) || Held(d, x, r, CompletedState)
    case RecordingUncertain | RaisingFlag => Held(d, x, r, UncertainNoReplay)
    case Cleaning(after) => Undoing(d, x, r, after)
    case RemovingRow(after) => Undoing(d, x, r, after) && x !in d.staging
    case Closing(after) =>
      && ResultOk(d, x, r, Failure(after)) && TouchOk(d, x, r) && !r.dropped
      && (r.journaled && after != UNCERTAIN ==> r.guard.disarmed && Gone(d, x))
    case Returning(result) =>
      ResultOk(d, x, r, result) && TouchOk(d, x, r) && (r.journaled ==> r.guard.Cleans() || Settled(d, f, x, r.mode))
    case GuardTree(result) => ResultOk(d, x, r, result) && TouchOk(d, x, r) && r.journaled && r.guard == ARMED
    case GuardRow(result, treeFailed) =>
      && ResultOk(d, x, r, result) && TouchOk(d, x, r) && r.journaled && r.guard == ARMED
      && (treeFailed || x !in d.staging)
    case Leaving(result) =>
      ResultOk(d, x, r, result) && TouchOk(d, x, r) && (r.journaled ==> Settled(d, f, x, r.mode))
  }

  // The lemmas below prove one obligation per program point, through a local name for the claim, and
  // then hide every definition: the postcondition is that claim, and is not to be taken apart again.

  lemma AdmissionKeeps(d: Disk, f: Flags, x: Id, r: Run, c: Choice, now: nat)
    requires PointOk(d, f, x, r) && IsAdmission(r.pc)
    ensures var e := ActAdmission(d, f, x, r, c, now); PointOk(e.disk, e.flags, x, e.run)
  {
    var e := ActAdmission(d, f, x, r, c, now);
    var ok := PointOk(e.disk, e.flags, x, e.run);
    match r.pc {
      case Starting => assert ok;
      case Negotiating => assert ok;
      case CheckingFlag => assert ok;
      case CheckingStore(_) => assert ok;
      case Reserving => assert ok;
      case Journaling => assert ok;
    }
    hide *;
  }

  lemma PreparationKeeps(d: Disk, f: Flags, x: Id, r: Run, c: Choice)
    requires PointOk(d, f, x, r) && IsPreparation(r.pc)
    ensures var e := ActPreparation(d, f, x, r, c); PointOk(e.disk, e.flags, x, e.run)
  {
    var e := ActPreparation(d, f, x, r, c);
    var ok := PointOk(e.disk, e.flags, x, e.run);
    match r.pc {
      case Preparing => assert ok;
      case CheckingRoot => assert ok;
      case Admitting => assert ok;
      case MarkingTransferring => assert ok;
    }
    hide *;
  }

  lemma PublishKeeps(d: Disk, f: Flags, x: Id, r: Run, c: Choice)
    requires PointOk(d, f, x, r) && r.pc.Publish?
    ensures var e := ActPublish(d, f, x, r, c); PointOk(e.disk, e.flags, x, e.run)
  {
    var e := ActPublish(d, f, x, r, c);
    var ok := PointOk(e.disk, e.flags, x, e.run);
    assert ok;
    hide *;
  }

  lemma TransferKeeps(d: Disk, f: Flags, x: Id, r: Run, c: Choice)
    requires PointOk(d, f, x, r) && IsTransfer(r.pc)
    ensures var e := ActTransfer(d, f, x, r, c); PointOk(e.disk, e.flags, x, e.run)
  {
    hide ActPublish;
    var e := ActTransfer(d, f, x, r, c);
    var ok := PointOk(e.disk, e.flags, x, e.run);
    match r.pc {
      case Receiving => assert ok;
      case MarkingVerified => assert ok;
      case MarkingPublishing => assert ok;
      case Publish =>
        PublishKeeps(d, f, x, r, c);
        assert ok;
      case Unlinking => assert ok;
    }
    hide *;
  }

  lemma CallKeeps(d: Disk, f: Flags, x: Id, r: Run, event: NativeEvent<ClipboardContent>)
    requires PointOk(d, f, x, r) && r.pc.InsideCall?
    ensures var e := ActInsideCall(d, f, x, r, r.pc.at, event); PointOk(e.disk, e.flags, x, e.run)
  {
    StepKeepsInnocence(JobFor(x, r.kind), r.pc.at, d.clipboard, event);
    hide NativeStep, Innocent;
  }

  lemma ApplicationKeeps(d: Disk, f: Flags, x: Id, r: Run, c: Choice)
    requires PointOk(d, f, x, r) && IsApplication(r.pc)
    ensures var e := ActApplication(d, f, x, r, c); PointOk(e.disk, e.flags, x, e.run)
  {
    hide ActInsideCall;
    var e := ActApplication(d, f, x, r, c);
    var ok := PointOk(e.disk, e.flags, x, e.run);
    match r.pc {
      case MarkingApplying => assert ok;
      case Indexing => assert ok;
      case DroppingUnindexed => assert ok;
      case CallingClipboard => assert ok;
      case InsideCall(_) =>
        if c.Native? { CallKeeps(d, f, x, r, c.event); }
        assert ok;
    }
    hide *;
  }

  lemma AnswerKeeps(d: Disk, f: Flags, x: Id, r: Run, c: Choice)
    requires PointOk(d, f, x, r) && IsAnswer(r.pc)
    ensures var e := ActAnswer(d, f, x, r, c); PointOk(e.disk, e.flags, x, e.run)
  {
    var e := ActAnswer(d, f, x, r, c);
    var ok := PointOk(e.disk, e.flags, x, e.run);
    match r.pc {
      case DroppingIndex => assert ok;
      case DroppingObject => assert ok;
      case Promoting => assert ok;
      case DroppingPrevious(_) => assert ok;
      case ClearingFlag => assert ok;
    }
    hide *;
  }

  lemma CompletionKeeps(d: Disk, f: Flags, x: Id, r: Run, c: Choice)
    requires PointOk(d, f, x, r) && (r.pc.FinalCleaning? || r.pc.MarkingCompleted? || r.pc.RecordingCompleted?)
    ensures var e := ActCompletion(d, f, x, r, c); PointOk(e.disk, e.flags, x, e.run)
  {
    var e := ActCompletion(d, f, x, r, c);
    var ok := PointOk(e.disk, e.flags, x, e.run);
    match r.pc {
      case FinalCleaning => assert ok;
      case MarkingCompleted => assert ok;
      case RecordingCompleted => assert ok;
    }
    hide *;
  }

  lemma FarewellKeeps(d: Disk, f: Flags, x: Id, r: Run, c: Choice)
    requires PointOk(d, f, x, r) && (r.pc.RemovingFinalRow? || r.pc.SendingCompleted?)
    ensures var e := ActCompletion(d, f, x, r, c); PointOk(e.disk, e.flags, x, e.run)
  {
    var e := ActCompletion(d, f, x, r, c);
    var ok := PointOk(e.disk, e.flags, x, e.run);
    match r.pc {
      case RemovingFinalRow => assert ok;
      case SendingCompleted => assert ok;
    }
    hide *;
  }

  lemma UncertaintyKeeps(d: Disk, f: Flags, x: Id, r: Run, c: Choice)
    requires PointOk(d, f, x, r) && IsUncertainty(r.pc)
    ensures var e := ActUncertainty(d, f, x, r, c); PointOk(e.disk, e.flags, x, e.run)
  {
    var e := ActUncertainty(d, f, x, r, c);
    var ok := PointOk(e.disk, e.flags, x, e.run);
    match r.pc {
      case MarkingUncertain => assert ok;
      case RecordingUncertain => assert ok;
      case RaisingFlag => assert ok;
    }
    hide *;
  }

  lemma CleanupKeeps(d: Disk, f: Flags, x: Id, r: Run, c: Choice)
    requires PointOk(d, f, x, r) && (IsCleanup(r.pc) || r.pc.Closing?)
    ensures var e := ActCleanup(d, f, x, r, c); PointOk(e.disk, e.flags, x, e.run)
  {
    var e := ActCleanup(d, f, x, r, c);
    var ok := PointOk(e.disk, e.flags, x, e.run);
    match r.pc {
      case Cleaning(_) => assert ok;
      case RemovingRow(_) => assert ok;
      case Closing(_) => assert ok;
    }
    hide *;
  }

  lemma ExitKeeps(d: Disk, f: Flags, x: Id, r: Run, c: Choice)
    requires PointOk(d, f, x, r) && (r.pc.Returning? || r.pc.GuardTree? || r.pc.GuardRow?)
    ensures var e := ActExit(d, f, x, r, c); PointOk(e.disk, e.flags, x, e.run)
  {
    var e := ActExit(d, f, x, r, c);
    var ok := PointOk(e.disk, e.flags, x, e.run);
    match r.pc {
      case Returning(_) => assert ok;
      case GuardTree(_) => assert ok;
      case GuardRow(_, _) => assert ok;
    }
    hide *;
  }

  // ----- what an action leaves alone -----

  /** The actions that only a clipboard activation reaches. */
  predicate IsClipboardOnly(pc: Pc) { IsApplication(pc) || IsAnswer(pc) }

  /** A run that has passed its admission check, or rests on it. */
  predicate NeedsCheck(r: Run) { r.journaled || r.pc.Reserving? || r.pc.Journaling? }

  predicate OwnRow(d: Disk, x: Id, after: Disk) {
    || after.journal == d.journal || after.journal == d.journal - {x}
    || (x in after.journal && after.journal == d.journal[x := after.journal[x]])
  }

  predicate OwnStaging(d: Disk, x: Id, after: Disk) {
    after.staging == d.staging || after.staging == d.staging - {x} || after.staging == d.staging + {x}
  }

  /** The clipboard changes only inside the run's own native call, which remembers it. */
  predicate OwnClipboard(d: Disk, r: Run, e: Effect) {
    || (e.disk.clipboard == d.clipboard && e.run.touched == r.touched)
    || (r.pc.InsideCall? && e.run.touched)
  }

  /** Outside its own clipboard application a run at most adds its object to the cache. */
  predicate OwnCache(d: Disk, x: Id, r: Run, after: Disk) {
    || IsClipboardOnly(r.pc)
    || (&& after.completed == d.completed && after.inFlight == d.inFlight
        && (after.objects == d.objects || (x !in d.objects && after.objects == d.objects[x := r.kind])))
  }

  /** What goes on record quotes the run itself and the check it passed. */
  predicate OwnEvents(x: Id, r: Run, now: nat, e: Effect) {
    if e.events == [] then e.run.checkedAt == r.checkedAt && (NeedsCheck(e.run) ==> NeedsCheck(r))
    else if r.pc.CheckingStore? then e.events == [Checked(x, r.mode)] && e.run.checkedAt == now
    else
      && e.run.checkedAt == r.checkedAt
      && (|| (r.pc.Journaling? && e.events == [Journaled(x, r.mode)])
          || (r.pc.Admitting? && e.events == [AcceptedSent(x, r.mode, r.checkedAt)])
          || (r.pc.CallingClipboard? && e.events == [Called(x, r.checkedAt)] && e.run.pc.InsideCall?))
  }

  predicate IsExit(pc: Pc) {
    pc.Closing? || pc.Returning? || pc.GuardTree? || pc.GuardRow? || pc.Leaving?
  }

  /** The points from the native call on. */
  predicate IsLate(pc: Pc) {
    match pc
    case Starting | Negotiating | CheckingFlag | CheckingStore(_) | Reserving | Journaling => false
    case Preparing | CheckingRoot | Admitting | MarkingTransferring => false
    case Receiving | MarkingVerified | MarkingPublishing | Publish | Unlinking => false
    case MarkingApplying | Indexing | DroppingUnindexed | CallingClipboard => false
    case _ => true
  }

  /** An action touches only what is its run's own, never unblocks cleanup, and never changes what the run is for. */
  predicate Tame(d: Disk, f: Flags, x: Id, r: Run, now: nat, e: Effect) {
    && OwnRow(d, x, e.disk) && OwnStaging(d, x, e.disk) && OwnClipboard(d, r, e) && OwnCache(d, x, r, e.disk)
    && OwnEvents(x, r, now, e)
    && (f.cleanupBlocked ==> e.flags.cleanupBlocked)
    && e.run.mode == r.mode && e.run.kind == r.kind && e.run.dropped == r.dropped
    && (IsLate(r.pc) ==> IsLate(e.run.pc))
  }

  lemma NegotiationIsTame(d: Disk, f: Flags, x: Id, r: Run, c: Choice, now: nat)
    requires r.pc.Starting? || r.pc.Negotiating? || r.pc.CheckingFlag?
    ensures Tame(d, f, x, r, now, ActAdmission(d, f, x, r, c, now))
  {
    var ok := Tame(d, f, x, r, now, ActAdmission(d, f, x, r, c, now));
    match r.pc {
      case Starting => assert ok;
      case Negotiating => assert ok;
      case CheckingFlag => assert ok;
    }
    hide *;
  }

  lemma AdmissionIsTame(d: Disk, f: Flags, x: Id, r: Run, c: Choice, now: nat)
    requires r.pc.CheckingStore? || r.pc.Reserving? || r.pc.Journaling?
    ensures Tame(d, f, x, r, now, ActAdmission(d, f, x, r, c, now))
  {
    var ok := Tame(d, f, x, r, now, ActAdmission(d, f, x, r, c, now));
    match r.pc {
      case CheckingStore(_) => assert ok;
      case Reserving => assert ok;
      case Journaling => assert ok;
    }
    hide *;
  }

  lemma PreparationIsTame(d: Disk, f: Flags, x: Id, r: Run, c: Choice, now: nat)
    requires r.pc.Preparing? || r.pc.CheckingRoot?
    ensures Tame(d, f, x, r, now, ActPreparation(d, f, x, r, c))
  {
    var ok := Tame(d, f, x, r, now, ActPreparation(d, f, x, r, c));
    match r.pc {
      case Preparing => assert ok;
      case CheckingRoot => assert ok;
    }
    hide *;
  }

  lemma AcceptanceIsTame(d: Disk, f: Flags, x: Id, r: Run, c: Choice, now: nat)
    requires r.pc.Admitting? || r.pc.MarkingTransferring?
    ensures Tame(d, f, x, r, now, ActPreparation(d, f, x, r, c))
  {
    var ok := Tame(d, f, x, r, now, ActPreparation(d, f, x, r, c));
    match r.pc {
      case Admitting => assert ok;
      case MarkingTransferring => assert ok;
    }
    hide *;
  }

  lemma PublishIsTame(d: Disk, f: Flags, x: Id, r: Run, c: Choice, now: nat)
    requires r.pc.Publish?
    ensures Tame(d, f, x, r, now, ActPublish(d, f, x, r, c))
  {
    var ok := Tame(d, f, x, r, now, ActPublish(d, f, x, r, c));
    if c == Proceed {
      assert ok;
    } else if c == LateFault {
      assert ok;
    } else {
      assert ok;
    }
    hide *;
  }

  lemma CallIsTame(d: Disk, f: Flags, x: Id, r: Run, event: NativeEvent<ClipboardContent>, now: nat)
    requires r.pc.InsideCall?
    ensures Tame(d, f, x, r, now, ActInsideCall(d, f, x, r, r.pc.at, event))
  {
    hide NativeStep;
    var ok := Tame(d, f, x, r, now, ActInsideCall(d, f, x, r, r.pc.at, event));
    match NativeStep(JobFor(x, r.kind), r.pc.at, d.clipboard, event) {
      case Going(_, _) => assert ok;
      case Answered(Placed, _) => assert ok;
      case Answered(Definite, _) => assert ok;
      case Answered(Unsure, _) => assert ok;
    }
    hide *;
  }

  lemma TransferIsTame(d: Disk, f: Flags, x: Id, r: Run, c: Choice, now: nat)
    requires r.pc.Receiving? || r.pc.MarkingVerified? || r.pc.MarkingPublishing?
    ensures Tame(d, f, x, r, now, ActTransfer(d, f, x, r, c))
  {
    hide ActPublish;
    var ok := Tame(d, f, x, r, now, ActTransfer(d, f, x, r, c));
    match r.pc {
      case Receiving => assert ok;
      case MarkingVerified => assert ok;
      case MarkingPublishing => assert ok;
    }
    hide *;
  }

  lemma PublicationIsTame(d: Disk, f: Flags, x: Id, r: Run, c: Choice, now: nat)
    requires r.pc.Publish? || r.pc.Unlinking?
    ensures Tame(d, f, x, r, now, ActTransfer(d, f, x, r, c))
  {
    hide ActPublish;
    var ok := Tame(d, f, x, r, now, ActTransfer(d, f, x, r, c));
    match r.pc {
      case Publish =>
        hide Tame;
        PublishIsTame(d, f, x, r, c, now);
        assert ok;
      case Unlinking => assert ok;
    }
    hide *;
  }

  lemma ApplicationIsTame(d: Disk, f: Flags, x: Id, r: Run, c: Choice, now: nat)
    requires IsApplication(r.pc)
    ensures Tame(d, f, x, r, now, ActApplication(d, f, x, r, c))
  {
    hide ActInsideCall;
    var ok := Tame(d, f, x, r, now, ActApplication(d, f, x, r, c));
    match r.pc {
      case MarkingApplying => assert ok;
      case Indexing => assert ok;
      case DroppingUnindexed => assert ok;
      case CallingClipboard => assert ok;
      case InsideCall(_) =>
        if c.Native? {
          hide Tame;
          CallIsTame(d, f, x, r, c.event, now);
          assert ok;
        } else {
          assert ok;
        }
    }
    hide *;
  }

  lemma AnswerIsTame(d: Disk, f: Flags, x: Id, r: Run, c: Choice, now: nat)
    requires r.pc.DroppingIndex? || r.pc.DroppingObject?
    ensures Tame(d, f, x, r, now, ActAnswer(d, f, x, r, c))
  {
    var ok := Tame(d, f, x, r, now, ActAnswer(d, f, x, r, c));
    match r.pc {
      case DroppingIndex => assert ok;
      case DroppingObject => assert ok;
    }
    hide *;
  }

  lemma PlacedIsTame(d: Disk, f: Flags, x: Id, r: Run, c: Choice, now: nat)
    requires r.pc.Promoting? || r.pc.DroppingPrevious? || r.pc.ClearingFlag?
    ensures Tame(d, f, x, r, now, ActAnswer(d, f, x, r, c))
  {
    var ok := Tame(d, f, x, r, now, ActAnswer(d, f, x, r, c));
    match r.pc {
      case Promoting => assert ok;
      case DroppingPrevious(_) => assert ok;
      case ClearingFlag => assert ok;
    }
    hide *;
  }

  lemma CompletionIsTame(d: Disk, f: Flags, x: Id, r: Run, c: Choice, now: nat)
    requires r.pc.FinalCleaning? || r.pc.MarkingCompleted? || r.pc.RecordingCompleted?
    ensures Tame(d, f, x, r, now, ActCompletion(d, f, x, r, c))
  {
    var ok := Tame(d, f, x, r, now, ActCompletion(d, f, x, r, c));
    match r.pc {
      case FinalCleaning => assert ok;
      case MarkingCompleted => assert ok;
      case RecordingCompleted => assert ok;
    }
    hide *;
  }

  lemma FarewellIsTame(d: Disk, f: Flags, x: Id, r: Run, c: Choice, now: nat)
    requires r.pc.RemovingFinalRow? || r.pc.SendingCompleted?
    ensures Tame(d, f, x, r, now, ActCompletion(d, f, x, r, c))
  {
    var ok := Tame(d, f, x, r, now, ActCompletion(d, f, x, r, c));
    match r.pc {
      case RemovingFinalRow => assert ok;
      case SendingCompleted => assert ok;
    }
    hide *;
  }

  lemma UncertaintyIsTame(d: Disk, f: Flags, x: Id, r: Run, c: Choice, now: nat)
    requires IsUncertainty(r.pc)
    ensures Tame(d, f, x, r, now, ActUncertainty(d, f, x, r, c))
  {
    var ok := Tame(d, f, x, r, now, ActUncertainty(d, f, x, r, c));
    match r.pc {
      case MarkingUncertain => assert ok;
      case RecordingUncertain => assert ok;
      case RaisingFlag => assert ok;
    }
    hide *;
  }

  lemma CleanupIsTame(d: Disk, f: Flags, x: Id, r: Run, c: Choice, now: nat)
    requires IsCleanup(r.pc) || r.pc.Closing?
    ensures Tame(d, f, x, r, now, ActCleanup(d, f, x, r, c))
  {
    var ok := Tame(d, f, x, r, now, ActCleanup(d, f, x, r, c));
    match r.pc {
      case Cleaning(_) => assert ok;
      case RemovingRow(_) => assert ok;
      case Closing(_) => assert ok;
    }
    hide *;
  }

  lemma ExitIsTame(d: Disk, f: Flags, x: Id, r: Run, c: Choice, now: nat)
    requires r.pc.Returning? || r.pc.GuardTree? || r.pc.GuardRow?
    ensures Tame(d, f, x, r, now, ActExit(d, f, x, r, c))
  {
    var ok := Tame(d, f, x, r, now, ActExit(d, f, x, r, c));
    match r.pc {
      case Returning(_) => assert ok;
      case GuardTree(_) => assert ok;
      case GuardRow(_, _) => assert ok;
    }
    hide *;
  }

  lemma ActIsTame(d: Disk, f: Flags, x: Id, r: Run, c: Choice, now: nat)
    requires !r.pc.Leaving?
    ensures Tame(d, f, x, r, now, Act(d, f, x, r, c, now))
  {
    hide Tame, ActAdmission, ActPreparation, ActTransfer, ActApplication, ActAnswer, ActCompletion, ActUncertainty,
      ActCleanup, ActExit;
    if r.pc.Starting? || r.pc.Negotiating? || r.pc.CheckingFlag? {
      NegotiationIsTame(d, f, x, r, c, now);
    } else if IsAdmission(r.pc) {
      AdmissionIsTame(d, f, x, r, c, now);
    } else if r.pc.Admitting? || r.pc.MarkingTransferring? {
      AcceptanceIsTame(d, f, x, r, c, now);
    } else if IsPreparation(r.pc) {
      PreparationIsTame(d, f, x, r, c, now);
    } else if r.pc.Publish? || r.pc.Unlinking? {
      PublicationIsTame(d, f, x, r, c, now);
    } else if IsTransfer(r.pc) {
      TransferIsTame(d, f, x, r, c, now);
    } else if IsApplication(r.pc) {
      ApplicationIsTame(d, f, x, r, c, now);
    } else if r.pc.DroppingIndex? || r.pc.DroppingObject? {
      AnswerIsTame(d, f, x, r, c, now);
    } else if IsAnswer(r.pc) {
      PlacedIsTame(d, f, x, r, c, now);
    } else if r.pc.RemovingFinalRow? || r.pc.SendingCompleted? {
      FarewellIsTame(d, f, x, r, c, now);
    } else if IsCompletion(r.pc) {
      CompletionIsTame(d, f, x, r, c, now);
    } else if IsUncertainty(r.pc) {
      UncertaintyIsTame(d, f, x, r, c, now);
    } else if IsCleanup(r.pc) || r.pc.Closing? {
      CleanupIsTame(d, f, x, r, c, now);
    } else {
      ExitIsTame(d, f, x, r, c, now);
    }
  }

  // ----- the two together -----

  /** A run past its admission check remembers where in the log it passed. */
  predicate CheckOk(x: Id, r: Run, log: seq<Event>) {
    NeedsCheck(r) ==> r.checkedAt < |log| && log[r.checkedAt] == Checked(x, r.mode)
  }

  predicate RunOk(d: Disk, f: Flags, x: Id, r: Run, log: seq<Event>) { PointOk(d, f, x, r) && CheckOk(x, r, log) }

  predicate EventOk(log: seq<Event>, k: nat)
    requires k < |log|
  {
    match log[k]
    case AcceptedSent(y, mode, c) => c < k && log[c] == Checked(y, mode)
    case Called(y, c) => c < k && log[c] == Checked(y, Clipboard)
    case _ => true
  }

  predicate LogOk(log: seq<Event>) { forall k :: 0 <= k < |log| ==> EventOk(log, k) }

  lemma ActKeepsPoint(d: Disk, f: Flags, x: Id, r: Run, c: Choice, now: nat)
    requires PointOk(d, f, x, r) && !r.pc.Leaving?
    ensures var e := Act(d, f, x, r, c, now); PointOk(e.disk, e.flags, x, e.run)
  {
    hide PointOk, ActAdmission, ActPreparation, ActTransfer, ActApplication, ActAnswer, ActCompletion, ActUncertainty,
      ActCleanup, ActExit;
    if IsAdmission(r.pc) {
      AdmissionKeeps(d, f, x, r, c, now);
    } else if IsPreparation(r.pc) {
      PreparationKeeps(d, f, x, r, c);
    } else if IsTransfer(r.pc) {
      TransferKeeps(d, f, x, r, c);
    } else if IsApplication(r.pc) {
      ApplicationKeeps(d, f, x, r, c);
    } else if IsAnswer(r.pc) {
      AnswerKeeps(d, f, x, r, c);
    } else if r.pc.RemovingFinalRow? || r.pc.SendingCompleted? {
      FarewellKeeps(d, f, x, r, c);
    } else if IsCompletion(r.pc) {
      CompletionKeeps(d, f, x, r, c);
    } else if IsUncertainty(r.pc) {
      UncertaintyKeeps(d, f, x, r, c);
    } else if IsCleanup(r.pc) || r.pc.Closing? {
      CleanupKeeps(d, f, x, r, c);
    } else {
      ExitKeeps(d, f, x, r, c);
    }
  }

  lemma OwnEventsKeepCheck(x: Id, r: Run, log: seq<Event>, e: Effect)
    requires CheckOk(x, r, log) && OwnEvents(x, r, |log|, e) && e.run.mode == r.mode
    requires r.pc.Journaling? || r.pc.Admitting? || r.pc.CallingClipboard? ==> NeedsCheck(r)
    ensures CheckOk(x, e.run, log + e.events)
  {}

  lemma AtThesePointsChecked(d: Disk, f: Flags, x: Id, r: Run)
    requires PointOk(d, f, x, r) && (r.pc.Journaling? || r.pc.Admitting? || r.pc.CallingClipboard?)
    ensures NeedsCheck(r) && (r.pc.CallingClipboard? ==> r.mode == Clipboard)
  {}

  /** Every action of a run, whatever fails in it, keeps what holds of the run. */
  lemma ActKeeps(d: Disk, f: Flags, x: Id, r: Run, c: Choice, log: seq<Event>)
    requires RunOk(d, f, x, r, log) && !r.pc.Leaving?
    ensures var e := Act(d, f, x, r, c, |log|); RunOk(e.disk, e.flags, x, e.run, log + e.events)
  {
    var e := Act(d, f, x, r, c, |log|);
    hide Act, PointOk, OwnRow, OwnStaging, OwnClipboard, OwnCache, OwnEvents, CheckOk;
    ActKeepsPoint(d, f, x, r, c, |log|);
    ActIsTame(d, f, x, r, c, |log|);
    if r.pc.Journaling? || r.pc.Admitting? || r.pc.CallingClipboard? { AtThesePointsChecked(d, f, x, r); }
    OwnEventsKeepCheck(x, r, log, e);
  }

  lemma OwnEventsAreOk(x: Id, r: Run, log: seq<Event>, e: Effect)
    requires LogOk(log) && CheckOk(x, r, log) && OwnEvents(x, r, |log|, e)
    requires r.pc.Journaling? || r.pc.Admitting? || r.pc.CallingClipboard? ==> NeedsCheck(r)
    requires r.pc.CallingClipboard? ==> r.mode == Clipboard
    ensures LogOk(log + e.events) && |e.events| <= 1
  {
    forall k | 0 <= k < |log + e.events|
      ensures EventOk(log + e.events, k)
    {
      if k < |log| { assert EventOk(log, k); }
    }
  }

  /** Acceptances and native calls go on record with the run's own earlier admission check. */
  lemma ActEvents(d: Disk, f: Flags, x: Id, r: Run, c: Choice, log: seq<Event>)
    requires RunOk(d, f, x, r, log) && !r.pc.Leaving? && LogOk(log)
    ensures var e := Act(d, f, x, r, c, |log|); OwnEvents(x, r, |log|, e) && |e.events| <= 1 && LogOk(log + e.events)
  {
    var e := Act(d, f, x, r, c, |log|);
    hide Act, PointOk, OwnRow, OwnStaging, OwnClipboard, OwnCache, OwnEvents, CheckOk, LogOk;
    ActIsTame(d, f, x, r, c, |log|);
    if r.pc.Journaling? || r.pc.Admitting? || r.pc.CallingClipboard? { AtThesePointsChecked(d, f, x, r); }
    OwnEventsAreOk(x, r, log, e);
  }
}
