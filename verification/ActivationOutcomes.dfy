/** What the user is told of an activation that breaks off. */
module ActivationOutcomes {
  import opened Prelude
  import opened Outcomes
  import opened Activation
  import opened ActivationInvariant
  import opened ActivationSafety

  /** What the user is to be told of a transfer that broke off like this. */
  function ToldOf(failure: ReceiveFailure): Outcome {
    match failure
    case Aborted(SourceChangedAbort, _, _) => Failed(SourceChangedFail)
    case Aborted(SourceUnavailableAbort, _, _) => Failed(SourceUnavailableFail)
    case Aborted(InternalErrorAbort, _, _) => Failed(InternalFail)
    case Aborted(CancelledAbort, _, _) => Cancelled
    case LocalCancelled => Cancelled
    case Verification(_, _) => Failed(VerificationFail)
    case ProtocolFailure(_, _) => Failed(ProtocolFail)
    case LocalIo => Failed(LocalIoFail)
    case Disconnected(_, _) => Failed(ConnectionLostFail)
    case StreamIo => Failed(ConnectionLostFail)
  }

  /** The conversions from failure to error to outcome say just that. */
  lemma FailuresAreTold(failure: ReceiveFailure)
    ensures Classify(Failure(ReceiveError(failure))) == Success(ToldOf(failure))
  {}

  // ----- through the cleanup to the return -----

  /** A run that has failed like this and is cleaning up, telling the peer, or returning. */
  predicate Unwinds(r: Run, after: NetError) {
    match r.pc
    case Cleaning(a) => a == after
    case RemovingRow(a) => a == after
    case Closing(a) => a == after
    case Returning(result) => result == Failure(after)
    case GuardTree(result) => result == Failure(after)
    case GuardRow(result, _) => result == Failure(after)
    case Leaving(result) => result == Failure(after)
    case _ => false
  }

  lemma CleanupUnwinds(d: Disk, f: Flags, x: Id, r: Run, after: NetError)
    requires Unwinds(r, after) && (IsCleanup(r.pc) || r.pc.Closing?)
    ensures Unwinds(ActCleanup(d, f, x, r, Proceed).run, after)
  {}

  lemma ExitUnwinds(d: Disk, f: Flags, x: Id, r: Run, after: NetError)
    requires Unwinds(r, after) && (r.pc.Returning? || r.pc.GuardTree? || r.pc.GuardRow?)
    ensures Unwinds(ActExit(d, f, x, r, Proceed).run, after)
  {}

  lemma ActUnwinds(d: Disk, f: Flags, x: Id, r: Run, after: NetError, now: nat)
    requires Unwinds(r, after) && !r.pc.Leaving?
    ensures Unwinds(Act(d, f, x, r, Proceed, now).run, after)
  {
    hide ActAdmission, ActPreparation, ActTransfer, ActApplication, ActAnswer, ActCompletion, ActUncertainty,
      ActCleanup, ActExit;
    if IsCleanup(r.pc) || r.pc.Closing? {
      CleanupUnwinds(d, f, x, r, after);
    } else {
      ExitUnwinds(d, f, x, r, after);
    }
  }

  /** Every call that the run itself makes succeeds, and its future is not dropped. */
  predicate OwnCallsSucceed(labels: seq<Label>, x: Id) {
    forall i :: 0 <= i < |labels| ==>
      labels[i] != DropFuture(x) && (labels[i].Step? && labels[i].id == x ==> labels[i].choice == Proceed)
  }

  /** The run is there all along. */
  predicate Lasts(s: State, labels: seq<Label>, x: Id) {
    forall i :: 0 <= i <= |labels| ==> x in Execute(s, labels[..i]).runs
  }

  lemma NextUnwinds(s: State, l: Label, x: Id, after: NetError)
    requires Inv(s) && x in s.runs && Unwinds(s.runs[x], after) && x in Next(s, l).runs
    requires l != DropFuture(x) && (l.Step? && l.id == x ==> l.choice == Proceed)
    ensures Unwinds(Next(s, l).runs[x], after)
  {
    hide Act, RunOk, LogOk, HasUncertainSideEffect;
    assert l.Activate? && l.id == x ==> !CanActivate(s, x);
    if l.Step? && l.id == x && !s.runs[x].pc.Leaving? {
      ActUnwinds(s.disk, s.flags, x, s.runs[x], after, |s.log|);
    }
  }

  /** Whatever other activations do meanwhile, the run returns the failure it set out with. */
  lemma {:induction false} FailureIsReturned(s: State, labels: seq<Label>, x: Id, after: NetError)
    requires Inv(s) && x in s.runs && Unwinds(s.runs[x], after) && OwnCallsSucceed(labels, x) && Lasts(s, labels, x)
    ensures x in Execute(s, labels).runs && Unwinds(Execute(s, labels).runs[x], after)
  {
    hide Inv, Next, Unwinds;
    assert labels[..|labels|] == labels;
    if labels != [] {
      var most := labels[..|labels| - 1];
      assert forall i :: 0 <= i <= |most| ==> most[..i] == labels[..i];
      FailureIsReturned(s, most, x, after);
      ExecuteKeepsInv(s, most);
      NextUnwinds(Execute(s, most), labels[|labels| - 1], x, after);
    }
  }

  lemma LosingStep(s: State, x: Id, failure: ReceiveFailure)
    requires x in s.runs && s.runs[x].pc.Receiving?
    ensures var t := Next(s, Step(x, Lose(failure))); x in t.runs && Unwinds(t.runs[x], ReceiveError(failure))
  {}

  /**
   * A transfer that breaks off is told to the user as what it was, unless the cleanup or the report to
   * the peer fails too; in particular an abort of the sender as what the sender said.
   */
  lemma LostTransferIsTold(s: State, labels: seq<Label>, x: Id, failure: ReceiveFailure)
    requires Inv(s) && x in s.runs && s.runs[x].pc.Receiving? && OwnCallsSucceed(labels, x)
    requires var t := Next(s, Step(x, Lose(failure))); Lasts(t, labels, x) && x in Execute(t, labels).runs
    requires Execute(Next(s, Step(x, Lose(failure))), labels).runs[x].pc.Leaving?
    ensures var t := Execute(Next(s, Step(x, Lose(failure))), labels);
      Classify(t.runs[x].pc.result) == Success(ToldOf(failure))
  {
    hide Inv, Next, Execute, Lasts, OwnCallsSucceed, ToldOf, Classify, ReceiveError;
    var t := Next(s, Step(x, Lose(failure)));
    LosingStep(s, x, failure);
    NextKeepsInv(s, Step(x, Lose(failure)));
    FailureIsReturned(t, labels, x, ReceiveError(failure));
    FailuresAreTold(failure);
  }

  // ----- what each failing call is told as -----

  /** A run that, if nothing more fails, will be told as this. */
  predicate Tells(r: Run, told: Outcome) {
    match r.pc
    case Cleaning(error) => Classify(Failure(error)) == Success(told)
    case Closing(error) => Classify(Failure(error)) == Success(told)
    case Returning(result) => result.Failure? && Classify(result) == Success(told)
    case _ => false
  }

  /** Turned away at once. */
  lemma StartIsTold(d: Disk, f: Flags, x: Id, r: Run, c: Choice, now: nat)
    requires r.pc.Starting?
    ensures var q := ActAdmission(d, f, x, r, c, now).run;
      && (f.cleanupBlocked ==> Tells(q, Refused(BusyCode)))
      && (!f.cleanupBlocked && c == Cancel ==> Tells(q, Cancelled))
  {}

  /** Refused on what the peer announced. */
  lemma NegotiationIsTold(d: Disk, f: Flags, x: Id, r: Run, c: Choice, now: nat)
    requires r.pc.Negotiating?
    ensures var q := ActAdmission(d, f, x, r, c, now).run;
      && (c == Refuse(InvalidManifest) ==> Tells(q, Refused(InvalidManifestCode)))
      && (c == Refuse(TooLarge) ==> Tells(q, Refused(TooLargeCode)))
      && (c == Refuse(DestinationUnavailable) ==> Tells(q, Refused(DestinationUnavailableCode)))
      && (c == Refuse(CancelledAdmission) ==> Tells(q, Cancelled))
  {
    var q := ActAdmission(d, f, x, r, c, now).run;
    if c.Refuse? && NegotiationRefusal(c.code) { assert q.pc == Closing(FetchAdmissionRefused(c.code)); }
    hide ActAdmission;
  }

  /** Refused before anything is stored. */
  lemma ReservationIsTold(d: Disk, f: Flags, x: Id, r: Run, c: Choice, now: nat)
    requires r.pc.Reserving? || r.pc.Journaling?
    ensures var q := ActAdmission(d, f, x, r, c, now).run;
      && (r.pc.Reserving? && c == Refuse(InsufficientSpace) ==> Tells(q, Refused(InsufficientSpaceCode)))
      && (r.pc.Reserving? && c == Refuse(DestinationUnavailable) ==> Tells(q, Refused(DestinationUnavailableCode)))
      && (r.pc.Journaling? && c != Proceed ==> Tells(q, Failed(InternalFail)))
  {
    var q := ActAdmission(d, f, x, r, c, now).run;
    assert r.pc.Reserving? && (c == Refuse(InsufficientSpace) || c == Refuse(DestinationUnavailable)) ==>
      q.pc == Closing(FetchAdmissionRefused(c.code));
    assert r.pc.Journaling? && c != Proceed ==> q.pc == Returning(Failure(FetchServiceOwned));
    hide ActAdmission;
  }

  /** A clipboard activation is refused as busy while an earlier one is uncertain, by flag or by record. */
  lemma UncertaintyIsTold(d: Disk, f: Flags, x: Id, r: Run, now: nat)
    requires r.pc.CheckingStore? && r.mode == Clipboard
    ensures r.pc.sawFlag || HasUncertainSideEffect(d) ==>
              Tells(ActAdmission(d, f, x, r, Proceed, now).run, Refused(BusyCode))
  {
    hide HasUncertainSideEffect;
  }

  /** The flag counts as it is when the run looks at it, whatever the record says later. */
  lemma RaisedFlagIsTold(d: Disk, f: Flags, x: Id, r: Run, c: Choice, later: Disk, g: Flags, now: nat)
    requires r.pc.CheckingFlag? && r.mode == Clipboard && f.uncertainClipboard
    ensures var q := ActAdmission(d, f, x, r, c, now).run;
      q.pc.CheckingStore? && Tells(ActAdmission(later, g, x, q, Proceed, now).run, Refused(BusyCode))
  {
    hide HasUncertainSideEffect;
  }

  /** What goes wrong before the transfer. */
  lemma PreparationFailuresAreTold(d: Disk, f: Flags, x: Id, r: Run, c: Choice)
    requires r.pc.Preparing? || r.pc.CheckingRoot?
    ensures var q := ActPreparation(d, f, x, r, c).run;
      && (r.pc.Preparing? && (c != Proceed || x in d.staging) ==> Tells(q, Refused(AllocationFailedCode)))
      && (r.pc.CheckingRoot? && c != Proceed ==> Tells(q, Failed(ConnectionLostFail)))
  {
    var q := ActPreparation(d, f, x, r, c).run;
    assert r.pc.Preparing? && (c != Proceed || x in d.staging) ==>
      q.pc == Cleaning(FetchAdmissionRefused(AllocationFailed));
    assert r.pc.CheckingRoot? && c != Proceed ==> q.pc == Returning(Failure(Io));
    hide ActPreparation;
  }

  lemma AcceptanceFailuresAreTold(d: Disk, f: Flags, x: Id, r: Run, c: Choice)
    requires r.pc.Admitting? || r.pc.MarkingTransferring?
    ensures var q := ActPreparation(d, f, x, r, c).run;
      && (r.pc.Admitting? && (c == Fault(StreamFault) || c == Fault(TimeoutFault) || c == LateFault) ==>
            Tells(q, Failed(ConnectionLostFail)))
      && (r.pc.MarkingTransferring? && c != Proceed ==> Tells(q, Failed(InternalFail)))
  {
    var q := ActPreparation(d, f, x, r, c).run;
    assert r.pc.Admitting? && c.Fault? ==> q.pc == Returning(Failure(FaultError(c.kind)));
    assert r.pc.Admitting? && c == LateFault ==> q.pc == Returning(Failure(Io));
    assert r.pc.MarkingTransferring? && c != Proceed ==> q.pc == Returning(Failure(FetchServiceOwned));
    hide ActPreparation;
  }

  /** What goes wrong from the transfer to the publication. */
  lemma TransferFailuresAreTold(d: Disk, f: Flags, x: Id, r: Run, c: Choice)
    requires r.pc.Receiving? && (c == Cancel || c.Lose?)
    ensures Tells(ActTransfer(d, f, x, r, c).run, if c == Cancel then Cancelled else ToldOf(c.failure))
  {
    if c.Lose? { FailuresAreTold(c.failure); }
    hide ActPublish, ToldOf, ReceiveError;
  }

  lemma MarkFailuresAreTold(d: Disk, f: Flags, x: Id, r: Run, c: Choice)
    requires c != Proceed
    ensures r.pc.MarkingVerified? || r.pc.MarkingPublishing? ==>
              Tells(ActTransfer(d, f, x, r, c).run, Failed(InternalFail))
    ensures r.pc.Unlinking? ==> Tells(ActTransfer(d, f, x, r, c).run, Failed(LocalIoFail))
  {
    hide ActPublish;
    var q := ActTransfer(d, f, x, r, c).run;
    assert r.pc.MarkingVerified? ==> q.pc == Returning(Failure(FetchServiceOwned));
    assert r.pc.MarkingPublishing? ==> q.pc == Cleaning(FetchTerminal(InternalErrorReceipt));
    assert r.pc.Unlinking? ==> q.pc == Cleaning(FetchLocalIo);
    hide ActTransfer;
  }

  lemma PublicationFailuresAreTold(d: Disk, f: Flags, x: Id, r: Run, c: Choice)
    requires r.pc.Publish?
    ensures var q := ActPublish(d, f, x, r, c).run;
      && (c == LateFault || c == Fault(DiskFault) ==> Tells(q, Failed(LocalIoFail)))
      && (c == Fault(StoreFault) ==> Tells(q, Failed(InternalFail)))
      && (c == Proceed && r.mode == Clipboard && x in d.objects ==> Tells(q, Failed(LocalIoFail)))
  {
    var q := ActPublish(d, f, x, r, c).run;
    assert c == LateFault || c == Fault(DiskFault) ==> q.pc == Cleaning(FetchLocalIo);
    assert c == Fault(StoreFault) ==> q.pc == Cleaning(FetchTerminal(InternalErrorReceipt));
    assert c == Proceed && r.mode == Clipboard && x in d.objects ==> q.pc == Cleaning(FetchLocalIo);
    hide ActPublish;
  }

  /** What goes wrong around the native call; a text that is to be saved fails like it. */
  lemma ClipboardFailuresAreTold(d: Disk, f: Flags, x: Id, r: Run, c: Choice)
    ensures r.pc.MarkingApplying? && c != Proceed ==> Tells(ActApplication(d, f, x, r, c).run, Failed(ClipboardFail))
    ensures r.pc.DroppingUnindexed? ==> Tells(ActApplication(d, f, x, r, c).run, Failed(ClipboardFail))
    ensures r.pc.DroppingObject? ==> Tells(ActAnswer(d, f, x, r, c).run, Failed(ClipboardFail))
  {
    hide ActInsideCall;
    var failed := Cleaning(CLIPBOARD_FAILED);
    assert r.pc.MarkingApplying? && c != Proceed ==> ActApplication(d, f, x, r, c).run.pc == failed;
    assert r.pc.DroppingUnindexed? ==> ActApplication(d, f, x, r, c).run.pc == failed;
    assert r.pc.DroppingObject? ==> ActAnswer(d, f, x, r, c).run.pc == failed;
    hide ActApplication, ActAnswer;
  }

  lemma SavedTextIsTold(d: Disk, f: Flags, x: Id, r: Run)
    requires r.pc.MarkingPublishing? && r.kind == Text && r.mode == Save && x in d.journal
    ensures Tells(ActTransfer(d, f, x, r, Proceed).run, Failed(ClipboardFail))
  {
    hide ActPublish;
  }

  /** The end of an uncertain run: its row says so, then the flag, then the peer and the user. */
  lemma UncertainEndIsTold(d: Disk, f: Flags, x: Id, r: Run)
    requires IsUncertainty(r.pc) && x in d.journal
    ensures var e := ActUncertainty(d, f, x, r, Proceed);
      match r.pc
      case MarkingUncertain =>
        e.run.pc.RecordingUncertain? && x in e.disk.journal && e.disk.journal[x].state == UncertainNoReplay
      case RecordingUncertain => e.run.pc.RaisingFlag?
      case RaisingFlag =>
        Tells(e.run, UncertainNoReplayOutcome) && (r.mode == Clipboard ==> e.flags.uncertainClipboard)
  {}

  lemma TellsUnwinds(r: Run, told: Outcome) returns (after: NetError)
    requires Tells(r, told)
    ensures Unwinds(r, after) && Classify(Failure(after)) == Success(told)
  {
    after := match r.pc
      case Cleaning(error) => error
      case Closing(error) => error
      case Returning(result) => result.error;
  }

  /** Whatever a failing call is to be told as is what the user is told, unless something fails on the way out. */
  lemma FailureIsTold(s: State, labels: seq<Label>, x: Id, told: Outcome)
    requires Inv(s) && x in s.runs && Tells(s.runs[x], told) && OwnCallsSucceed(labels, x) && Lasts(s, labels, x)
    requires x in Execute(s, labels).runs && Execute(s, labels).runs[x].pc.Leaving?
    ensures Classify(Execute(s, labels).runs[x].pc.result) == Success(told)
  {
    var after := TellsUnwinds(s.runs[x], told);
    hide Inv, Execute, Tells, OwnCallsSucceed, Lasts, Classify;
    FailureIsReturned(s, labels, x, after);
  }
}
