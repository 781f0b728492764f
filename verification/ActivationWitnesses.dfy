/** Histories, from an empty disk, that reach the situations in which a stronger promise fails. */
module ActivationWitnesses {
  import opened Prelude
  import opened Outcomes
  import opened NativeClipboards
  import opened Activation
  import opened ActivationInvariant
  import opened ActivationTheorems
  import opened ActivationRecovery

  const EMPTY := Disk(map[], {}, None, None, map[], Cleared, map[])
  const CALM := Flags(false, false)

  /** A process before recovery, on this disk. */
  function Booted(d: Disk, log: seq<Event>): State { State(d, CALM, false, {}, Idle, map[], log) }

  /** A recovered process with one activation. */
  function Solo(d: Disk, f: Flags, x: Id, r: Run, log: seq<Event>): State {
    State(d, f, true, {x}, Idle, map[x := r], log)
  }

  ghost predicate Reaches(s: State, t: State) { exists labels :: Execute(s, labels) == t }

  lemma ReachesItself(s: State)
    ensures Reaches(s, s)
  {
    assert Execute(s, []) == s;
  }

  lemma ReachesNext(s: State, t: State, l: Label)
    requires Reaches(s, t)
    ensures Reaches(s, Next(t, l))
  {
    hide Next;
    var labels :| Execute(s, labels) == t;
    var more := labels + [l];
    assert more[..|more| - 1] == labels && Execute(s, more) == Next(t, l);
  }

  lemma SoloStep(s: State, d: Disk, f: Flags, x: Id, r: Run, log: seq<Event>, c: Choice, e: Effect)
    requires Reaches(s, Solo(d, f, x, r, log)) && !r.pc.Leaving? && e == Act(d, f, x, r, c, |log|)
    ensures Reaches(s, Solo(e.disk, e.flags, x, e.run, log + e.events))
  {
    hide Act, Reaches;
    ReachesNext(s, Solo(d, f, x, r, log), Step(x, c));
    assert Solo(d, f, x, r, log).runs[x := e.run] == map[x := e.run];
  }

  lemma SoloProceeds(s: State, d: Disk, f: Flags, x: Id, r: Run, log: seq<Event>, e: Disk, q: Run)
    requires Reaches(s, Solo(d, f, x, r, log)) && !r.pc.Leaving?
        && Act(d, f, x, r, Proceed, |log|) == Effect(e, f, q, [])
    ensures Reaches(s, Solo(e, f, x, q, log))
  {
    hide Act, Reaches;
    SoloStep(s, d, f, x, r, log, Proceed, Effect(e, f, q, []));
    assert log + [] == log;
  }

  /** Recovery of a disk with nothing to do. */
  lemma RecoversNothing(s: State, log: seq<Event>)
    requires Reaches(s, Booted(EMPTY, log))
    ensures Reaches(s, Booted(EMPTY, log + [RecoveryDone]).(recovered := true))
  {
    hide Reaches, Execute, Act;
    var t0 := Booted(EMPTY, log);
    var t1 := t0.(recovery := Trees({}, {}, {}, false));
    var t2 := t0.(recovery := Marks({}, false));
    var t3 := t0.(recovery := Uncertainty);
    var t4 := t0.(recovery := Sweep({}));
    var l := Recover(0, Proceed);
    ReachesNext(s, t0, l);
    assert EMPTY.journal.Keys == {} && EMPTY.objects.Keys == {};
    assert Next(t0, l) == t1;
    ReachesNext(s, t1, l);
    assert Next(t1, l) == t2 by { assert EMPTY.journal - {} == EMPTY.journal; }
    ReachesNext(s, t2, l);
    ReachesNext(s, t3, l);
    assert Next(t3, l) == t4;
    ReachesNext(s, t4, l);
  }

  lemma Starts(s: State, log: seq<Event>, x: Id, mode: Mode, kind: ContentKind)
    requires Reaches(s, Booted(EMPTY, log).(recovered := true))
    ensures Reaches(s, Solo(EMPTY, CALM, x, NewRun(mode, kind), log))
  {
    hide Reaches, Act;
    ReachesNext(s, Booted(EMPTY, log).(recovered := true), Activate(x, mode, kind));
  }

  /** An admitted run up to the point at which it writes its row. */
  lemma ReachesJournaling(s: State, d: Disk, f: Flags, x: Id, mode: Mode, kind: ContentKind, log: seq<Event>)
    requires Reaches(s, Solo(d, f, x, NewRun(mode, kind), log)) && !f.cleanupBlocked
    requires mode == Clipboard ==> !f.uncertainClipboard && !HasUncertainSideEffect(d)
    ensures Reaches(s,
        Solo(d, f, x, NewRun(mode, kind).(pc := Journaling, checkedAt := |log|), log + [Checked(x, mode)]))
  {
    hide Reaches, HasUncertainSideEffect;
    var r := NewRun(mode, kind);
    SoloProceeds(s, d, f, x, r, log, d, r.(pc := Negotiating));
    SoloProceeds(s, d, f, x, r.(pc := Negotiating), log, d, r.(pc := CheckingFlag));
    SoloProceeds(s, d, f, x, r.(pc := CheckingFlag), log, d, r.(pc := CheckingStore(f.uncertainClipboard)));
    var q := r.(pc := Reserving, checkedAt := |log|);
    SoloStep(s, d, f, x, r.(pc := CheckingStore(f.uncertainClipboard)), log, Proceed,
      Effect(d, f, q, [Checked(x, mode)]));
    SoloProceeds(s, d, f, x, q, log + [Checked(x, mode)], d, q.(pc := Journaling));
  }

  // ----- from there on, whatever is on record -----

  /** Nothing on record is a crash or an abandoned activation. */
  predicate IsCalm(log: seq<Event>) { forall i :: 0 <= i < |log| ==> !log[i].Crashed? && !log[i].Abandoned? }

  ghost predicate ReachesRun(s: State, d: Disk, f: Flags, x: Id, r: Run) {
    exists log: seq<Event> :: IsCalm(log) && Reaches(s, Solo(d, f, x, r, log))
  }

  lemma StepIsCalm(d: Disk, f: Flags, x: Id, r: Run, c: Choice, now: nat)
    requires !r.pc.Leaving?
    ensures IsCalm(Act(d, f, x, r, c, now).events)
  {
    hide Act, OwnRow, OwnStaging, OwnClipboard, OwnCache;
    ActIsTame(d, f, x, r, c, now);
  }

  lemma RunStep(s: State, d: Disk, f: Flags, x: Id, r: Run, c: Choice, e: Disk, g: Flags, q: Run)
    requires ReachesRun(s, d, f, x, r) && !r.pc.Leaving?
    requires forall now: nat :: Act(d, f, x, r, c, now).(events := []) == Effect(e, g, q, [])
    ensures ReachesRun(s, e, g, x, q)
  {
    hide Act, Reaches;
    var log :| IsCalm(log) && Reaches(s, Solo(d, f, x, r, log));
    var effect := Act(d, f, x, r, c, |log|);
    StepIsCalm(d, f, x, r, c, |log|);
    assert effect.(events := []) == Effect(e, g, q, []);
    SoloStep(s, d, f, x, r, log, c, effect);
  }

  /** What the disk holds of the one activation while it runs. */
  function Journaled1(x: Id, mode: Mode, state: ActivationState, staged: bool): Disk {
    EMPTY.(journal := map[x := Row(mode, state)], staging := if staged then {x} else {})
  }

  lemma Remark(x: Id, mode: Mode, a: ActivationState, b: ActivationState)
    ensures var d := Journaled1(x, mode, a, true);
      d.(journal := d.journal[x := d.journal[x].(state := b)]) == Journaled1(x, mode, b, true)
  {
    var d := Journaled1(x, mode, a, true);
    assert d.journal[x := d.journal[x].(state := b)] == map[x := Row(mode, b)];
  }

  lemma ReachesReceiving(s: State, x: Id, r: Run)
    requires ReachesRun(s, EMPTY, CALM, x, r) && r.pc.Journaling?
    ensures ReachesRun(s, Journaled1(x, r.mode, Transferring, true), CALM, x,
                       r.(pc := Receiving, guard := ARMED, journaled := true))
  {
    hide ReachesRun, ActTransfer, ActApplication, ActAnswer, ActCompletion, ActUncertainty, ActCleanup, ActExit;
    var d, e := Journaled1(x, r.mode, Staging, false), Journaled1(x, r.mode, Staging, true);
    var q := r.(guard := ARMED, journaled := true);
    assert EMPTY.journal[x := Row(r.mode, Staging)] == d.journal && {} + {x} == e.staging;
    RunStep(s, EMPTY, CALM, x, r, Proceed, d, CALM, q.(pc := Preparing));
    RunStep(s, d, CALM, x, q.(pc := Preparing), Proceed, e, CALM, q.(pc := CheckingRoot));
    RootIsAdmitted(s, x, q.(pc := CheckingRoot));
  }

  lemma RootIsAdmitted(s: State, x: Id, q: Run)
    requires ReachesRun(s, Journaled1(x, q.mode, Staging, true), CALM, x, q) && q.pc.CheckingRoot?
    ensures ReachesRun(s, Journaled1(x, q.mode, Transferring, true), CALM, x, q.(pc := Receiving))
  {
    hide ReachesRun, ActAdmission, ActTransfer, ActApplication, ActAnswer, ActCompletion, ActUncertainty, ActCleanup,
      ActExit;
    var e := Journaled1(x, q.mode, Staging, true);
    RunStep(s, e, CALM, x, q.(pc := CheckingRoot), Proceed, e, CALM, q.(pc := Admitting));
    RunStep(s, e, CALM, x, q.(pc := Admitting), Proceed, e, CALM, q.(pc := MarkingTransferring));
    Remark(x, q.mode, Staging, Transferring);
    RunStep(s, e, CALM, x, q.(pc := MarkingTransferring), Proceed, Journaled1(x, q.mode, Transferring, true), CALM,
            q.(pc := Receiving));
  }

  lemma ReachesPublishing(s: State, x: Id, r: Run)
    requires ReachesRun(s, Journaled1(x, r.mode, Transferring, true), CALM, x, r) && r.pc.Receiving?
    ensures ReachesRun(s, Journaled1(x, r.mode, Publishing, true), CALM, x,
                       if r.kind == Text then EnterSideEffect(r.(pc := MarkingPublishing)) else r.(pc := Publish))
  {
    hide ReachesRun, ActAdmission, ActPreparation, ActPublish, ActApplication, ActAnswer, ActCompletion, ActUncertainty,
      ActCleanup, ActExit;
    var d, e := Journaled1(x, r.mode, Transferring, true), Journaled1(x, r.mode, Verified, true);
    RunStep(s, d, CALM, x, r, Proceed, d, CALM, r.(pc := MarkingVerified));
    Remark(x, r.mode, Transferring, Verified);
    RunStep(s, d, CALM, x, r.(pc := MarkingVerified), Proceed, e, CALM, r.(pc := MarkingPublishing));
    Remark(x, r.mode, Verified, Publishing);
    RunStep(s, e, CALM, x, r.(pc := MarkingPublishing), Proceed, Journaled1(x, r.mode, Publishing, true), CALM,
            if r.kind == Text then EnterSideEffect(r.(pc := MarkingPublishing)) else r.(pc := Publish));
  }

  /** A run of this job, as it is once its payload is received. */
  function Received(mode: Mode, kind: ContentKind): Run {
    NewRun(mode, kind).(pc := Receiving, guard := ARMED, journaled := true, checkedAt := 1)
  }

  /** From an empty disk, every job gets as far as its publication. */
  lemma EveryJobIsReceived(x: Id, mode: Mode, kind: ContentKind)
    ensures ReachesRun(Booted(EMPTY, []), Journaled1(x, mode, Transferring, true), CALM, x, Received(mode, kind))
  {
    hide Reaches, ReachesRun;
    var s, r := Booted(EMPTY, []), NewRun(mode, kind);
    ReachesItself(s);
    RecoversNothing(s, []);
    assert [] + [RecoveryDone] == [RecoveryDone];
    Starts(s, [RecoveryDone], x, mode, kind);
    ReachesJournaling(s, EMPTY, CALM, x, mode, kind, [RecoveryDone]);
    KnownRun(s, EMPTY, CALM, x, r.(pc := Journaling, checkedAt := 1), [RecoveryDone] + [Checked(x, mode)]);
    ReachesReceiving(s, x, r.(pc := Journaling, checkedAt := 1));
  }

  lemma KnownRun(s: State, d: Disk, f: Flags, x: Id, r: Run, log: seq<Event>)
    requires IsCalm(log) && Reaches(s, Solo(d, f, x, r, log))
    ensures ReachesRun(s, d, f, x, r)
  {
    hide Reaches;
  }

  // ----- when nothing fails, every job completes -----

  /** The disk of a lone run between the mark of its side effect and the removal of its row. */
  function Effected(x: Id, mode: Mode, kind: ContentKind, state: ActivationState, staged: bool): Disk {
    var d := Journaled1(x, mode, state, staged);
    if mode == Save then d.(saved := map[x := kind])
    else if kind == Text then d.(clipboard := TextOf(x))
    else d.(clipboard := FilesOf(x), completed := Some(x), objects := map[x := kind])
  }

  lemma RunProceeds(s: State, d: Disk, x: Id, r: Run, e: Disk, q: Run)
    requires ReachesRun(s, d, CALM, x, r) && !r.pc.Leaving?
    requires forall now: nat :: Act(d, CALM, x, r, Proceed, now).(events := []) == Effect(e, CALM, q, [])
    ensures ReachesRun(s, e, CALM, x, q)
  {
    hide ReachesRun, Act;
    RunStep(s, d, CALM, x, r, Proceed, e, CALM, q);
  }

  lemma RecordsAndRemoves(s: State, d: Disk, x: Id, r: Run) returns (q: Run)
    requires ReachesRun(s, d, CALM, x, r) && r.pc.RecordingCompleted? && !r.dropped
    ensures q.pc == SendingCompleted && q.mode == r.mode && !q.dropped && q.guard.disarmed
    ensures ReachesRun(s, d.(journal := d.journal - {x}), CALM, x, q)
  {
    hide ReachesRun, ActAdmission, ActPreparation, ActTransfer, ActApplication, ActAnswer, ActUncertainty, ActCleanup,
      ActExit;
    var r1 := r.(pc := RemovingFinalRow, trail := After(r.trail, AttemptRecorded));
    q := r1.(pc := SendingCompleted, trail := After(r1.trail, RowRemoved), guard := r1.guard.(disarmed := true));
    RunProceeds(s, d, x, r, d, r1);
    RunProceeds(s, d, x, r1, d.(journal := d.journal - {x}), q);
  }

  lemma CleansAndMarks(s: State, d: Disk, x: Id, r: Run) returns (q: Run)
    requires ReachesRun(s, d, CALM, x, r) && r.pc.FinalCleaning? && !r.dropped && x in d.journal
    ensures q.pc == RecordingCompleted && q.mode == r.mode && !q.dropped
    ensures ReachesRun(s, d.(staging := d.staging - {x}, journal := d.journal[x := Row(d.journal[x].mode,
      CompletedState)]), CALM, x, q)
  {
    hide ReachesRun, ActAdmission, ActPreparation, ActTransfer, ActApplication, ActAnswer, ActUncertainty, ActCleanup,
      ActExit;
    var e := d.(staging := d.staging - {x});
    var r1 := r.(pc := MarkingCompleted, trail := After(r.trail, StagingRemoved));
    q := r1.(pc := RecordingCompleted, trail := After(r1.trail, StateCompleted));
    RunProceeds(s, d, x, r, e, r1);
    RunProceeds(s, e, x, r1, e.(journal := e.journal[x := Row(e.journal[x].mode, CompletedState)]), q);
  }

  lemma Finishes(s: State, x: Id, r: Run) returns (q: Run)
    requires r.pc.FinalCleaning? && !r.dropped
    requires ReachesRun(s, Effected(x, r.mode, r.kind, AppliedState(r.mode), true), CALM, x, r)
    ensures q.pc == SendingCompleted && q.mode == r.mode && !q.dropped && q.guard.disarmed
    ensures ReachesRun(s, Effected(x, r.mode, r.kind, CompletedState, false).(journal := map[]), CALM, x, q)
  {
    hide ReachesRun;
    var d, done := Effected(x, r.mode, r.kind, AppliedState(r.mode), true),
      Effected(x, r.mode, r.kind, CompletedState, false);
    assert d.staging - {x} == {} && d.journal[x := Row(d.journal[x].mode, CompletedState)] == done.journal;
    assert done.journal - {x} == map[];
    q := CleansAndMarks(s, d, x, r);
    q := RecordsAndRemoves(s, done, x, q);
  }

  lemma SendsAndLeaves(s: State, d: Disk, x: Id, q: Run) returns (t: State)
    requires ReachesRun(s, d, CALM, x, q) && q.pc == SendingCompleted && !q.dropped && q.guard.disarmed
    ensures Reaches(s, t) && IsCalm(t.log) && t.log != [] && t == State(d, CALM, true, {}, Idle, map[], t.log)
    ensures t.log[|t.log| - 1] == Ended(x, q.mode, Success(()))
  {
    var back := q.(pc := Returning(Success(())), trail := After(q.trail, ReceiptSent));
    SendsReceipt(s, d, x, q, back);
    var last := back.(pc := Leaving(Success(())));
    hide Act, Reaches;
    var log :| IsCalm(log) && Reaches(s, Solo(d, CALM, x, last, log));
    var u := Solo(d, CALM, x, last, log);
    ReachesNext(s, u, Step(x, Proceed));
    t := Next(u, Step(x, Proceed));
    assert u.runs - {x} == map[] && u.live - {x} == {};
  }

  lemma SendsReceipt(s: State, d: Disk, x: Id, q: Run, back: Run)
    requires ReachesRun(s, d, CALM, x, q) && q.pc == SendingCompleted && q.guard.disarmed
    requires back == q.(pc := Returning(Success(())), trail := After(q.trail, ReceiptSent))
    ensures ReachesRun(s, d, CALM, x, back.(pc := Leaving(Success(()))))
  {
    hide ReachesRun, ActAdmission, ActPreparation, ActTransfer, ActApplication, ActAnswer, ActUncertainty, ActCleanup;
    RunProceeds(s, d, x, q, d, back);
    RunProceeds(s, d, x, back, d, back.(pc := Leaving(Success(()))));
  }

  /** From the Publishing mark on, when nothing fails. */
  lemma SaveIsApplied(s: State, x: Id, r: Run) returns (q: Run)
    requires r == Received(Save, r.kind).(pc := Publish) && r.kind != Text
    requires ReachesRun(s, Journaled1(x, Save, Publishing, true), CALM, x, r)
    ensures q.pc == FinalCleaning && q.guard == KEPT && !q.dropped && q.mode == Save && q.kind == r.kind
    ensures ReachesRun(s, Effected(x, Save, r.kind, Publishing, true), CALM, x, q)
  {
    hide ReachesRun, ActAdmission, ActPreparation, ActApplication, ActAnswer, ActCompletion, ActUncertainty,
      ActCleanup, ActExit;
    var d, e := Journaled1(x, Save, Publishing, true), Effected(x, Save, r.kind, Publishing, true);
    assert d.saved[x := r.kind] == e.saved;
    q := EnterSideEffect(r);
    if r.kind == File {
      RunProceeds(s, d, x, r, e, r.(pc := Unlinking));
      RunProceeds(s, e, x, r.(pc := Unlinking), e, q);
    } else {
      RunProceeds(s, d, x, r, e, q);
    }
  }

  lemma TextIsApplied(s: State, x: Id, r: Run) returns (q: Run)
    requires r.pc == InsideCall(Queued) && r.guard == KEPT && !r.dropped && r.mode == Clipboard && r.kind == Text
    requires ReachesRun(s, Journaled1(x, Clipboard, ApplyingClipboard, true), CALM, x, r)
    ensures q.pc == FinalCleaning && q.guard == KEPT && !q.dropped && q.mode == Clipboard && q.kind == Text
    ensures ReachesRun(s, Effected(x, Clipboard, Text, ApplyingClipboard, true), CALM, x, q)
  {
    hide ReachesRun, ActAdmission, ActPreparation, ActTransfer, ActAnswer, ActCompletion, ActUncertainty,
      ActCleanup, ActExit;
    var d := Journaled1(x, Clipboard, ApplyingClipboard, true);
    var e := Effected(x, Clipboard, Text, ApplyingClipboard, true);
    var works := Native(Works);
    var r1, r2 := r.(pc := InsideCall(Setting)), r.(pc := InsideCall(ReadingBack), touched := true);
    var r3 := r2.(pc := InsideCall(Replying(Placed)));
    q := r3.(pc := FinalCleaning, trail := After(r.trail, SideEffectDone));
    RunStep(s, d, CALM, x, r, works, d, CALM, r1);
    RunStep(s, d, CALM, x, r1, works, e, CALM, r2);
    RunStep(s, e, CALM, x, r2, works, e, CALM, r3);
    RunStep(s, e, CALM, x, r3, works, e, CALM, q);
  }

  /** The disk of a lone file or folder from its publication to the answer of the native call. */
  function Held1(x: Id, kind: ContentKind, state: ActivationState, flying: bool, content: ClipboardContent): Disk {
    Journaled1(x, Clipboard, state, true).(objects := map[x := kind], inFlight := if flying then Some(x) else None,
                                           clipboard := content)
  }

  lemma FilesAreCalled(s: State, x: Id, r: Run) returns (q: Run)
    requires r.pc.MarkingApplying? && r.guard == KEPT && !r.dropped && r.mode == Clipboard && r.kind != Text
    requires ReachesRun(s, Held1(x, r.kind, Publishing, false, Cleared), CALM, x, r)
    ensures q == r.(pc := InsideCall(Queued))
    ensures ReachesRun(s, Held1(x, r.kind, ApplyingClipboard, true, Cleared), CALM, x, q)
  {
    hide ReachesRun, ActAdmission, ActPreparation, ActTransfer, ActInsideCall, ActAnswer, ActCompletion,
      ActUncertainty, ActCleanup, ActExit;
    var d, e := Held1(x, r.kind, Publishing, false, Cleared), Held1(x, r.kind, ApplyingClipboard, false, Cleared);
    var g := Held1(x, r.kind, ApplyingClipboard, true, Cleared);
    assert d.journal[x := d.journal[x].(state := ApplyingClipboard)] == e.journal;
    q := r.(pc := InsideCall(Queued));
    RunProceeds(s, d, x, r, e, r.(pc := Indexing));
    RunProceeds(s, e, x, r.(pc := Indexing), g, r.(pc := CallingClipboard));
    RunProceeds(s, g, x, r.(pc := CallingClipboard), g, q);
  }

  lemma FilesArePlaced(s: State, x: Id, r: Run) returns (q: Run)
    requires r.pc == InsideCall(Queued) && r.guard == KEPT && !r.dropped && r.mode == Clipboard && r.kind != Text
    requires ReachesRun(s, Held1(x, r.kind, ApplyingClipboard, true, Cleared), CALM, x, r)
    ensures q.pc == Promoting && q.guard == KEPT && !q.dropped && q.mode == Clipboard && q.kind == r.kind
    ensures ReachesRun(s, Held1(x, r.kind, ApplyingClipboard, true, FilesOf(x)), CALM, x, q)
  {
    hide ReachesRun, ActAdmission, ActPreparation, ActTransfer, ActAnswer, ActCompletion, ActUncertainty,
      ActCleanup, ActExit;
    var d := Held1(x, r.kind, ApplyingClipboard, true, Cleared);
    var e := Held1(x, r.kind, ApplyingClipboard, true, FilesOf(x));
    var works := Native(Works);
    var r1, r2 := r.(pc := InsideCall(CallPoint.Clearing)), r.(pc := InsideCall(Listing));
    var r3 := r2.(pc := InsideCall(Replying(Placed)), touched := true);
    q := r3.(pc := Promoting, trail := After(r.trail, SideEffectDone));
    RunStep(s, d, CALM, x, r, works, d, CALM, r1);
    RunStep(s, d, CALM, x, r1, works, d, CALM, r2);
    RunStep(s, d, CALM, x, r2, works, e, CALM, r3);
    RunStep(s, e, CALM, x, r3, works, e, CALM, q);
  }

  lemma FilesArePromoted(s: State, x: Id, r: Run) returns (q: Run)
    requires r.pc == Promoting && r.guard == KEPT && !r.dropped && r.mode == Clipboard && r.kind != Text
    requires ReachesRun(s, Held1(x, r.kind, ApplyingClipboard, true, FilesOf(x)), CALM, x, r)
    ensures q.pc == FinalCleaning && q.guard == KEPT && !q.dropped && q.mode == Clipboard && q.kind == r.kind
    ensures ReachesRun(s, Effected(x, Clipboard, r.kind, ApplyingClipboard, true), CALM, x, q)
  {
    hide ReachesRun, ActAdmission, ActPreparation, ActTransfer, ActApplication, ActCompletion, ActUncertainty,
      ActCleanup, ActExit;
    var d, e := Held1(x, r.kind, ApplyingClipboard, true, FilesOf(x)), Effected(x, Clipboard, r.kind, ApplyingClipboard,
      true);
    q := r.(pc := FinalCleaning);
    RunProceeds(s, d, x, r, e, r.(pc := ClearingFlag));
    RunProceeds(s, e, x, r.(pc := ClearingFlag), e, q);
  }

  lemma FilesAreStored(s: State, x: Id, r: Run) returns (q: Run)
    requires r == Received(Clipboard, r.kind).(pc := Publish) && r.kind != Text
    requires ReachesRun(s, Journaled1(x, Clipboard, Publishing, true), CALM, x, r)
    ensures q.pc.MarkingApplying? && q.guard == KEPT && !q.dropped && q.mode == Clipboard && q.kind == r.kind
    ensures ReachesRun(s, Held1(x, r.kind, Publishing, false, Cleared), CALM, x, q)
  {
    hide ReachesRun, ActAdmission, ActPreparation, ActApplication, ActAnswer, ActCompletion, ActUncertainty,
      ActCleanup, ActExit;
    var d, e := Journaled1(x, Clipboard, Publishing, true), Held1(x, r.kind, Publishing, false, Cleared);
    assert d.objects[x := r.kind] == e.objects;
    q := EnterSideEffect(r);
    if r.kind == File {
      RunProceeds(s, d, x, r, e, r.(pc := Unlinking));
      RunProceeds(s, e, x, r.(pc := Unlinking), e, q);
    } else {
      RunProceeds(s, d, x, r, e, q);
    }
  }

  lemma EffectIsReached(x: Id, mode: Mode, kind: ContentKind) returns (q: Run)
    requires !(mode == Save && kind == Text)
    ensures q.pc == FinalCleaning && q.guard == KEPT && !q.dropped && q.mode == mode && q.kind == kind
    ensures ReachesRun(Booted(EMPTY, []), Effected(x, mode, kind, AppliedState(mode), true), CALM, x, q)
  {
    hide ReachesRun, Effected;
    var s := Booted(EMPTY, []);
    if mode == Clipboard && kind == Text {
      var r := ReachesCall(x);
      q := TextIsApplied(s, x, r);
    } else {
      EveryJobIsReceived(x, mode, kind);
      ReachesPublishing(s, x, Received(mode, kind));
      if mode == Save {
        q := SaveIsApplied(s, x, Received(mode, kind).(pc := Publish));
      } else {
        q := FilesAreStored(s, x, Received(mode, kind).(pc := Publish));
        q := FilesAreCalled(s, x, q);
        q := FilesArePlaced(s, x, q);
        q := FilesArePromoted(s, x, q);
      }
    }
  }

  /**
   * Every job that is not the saving of a text ends Ok when nothing fails: row, staging and slot are
   * gone, and what is left on an empty disk is the saved object, or the clipboard and the cache
   * record behind it.
   */
  lemma EveryJobCompletes(x: Id, mode: Mode, kind: ContentKind) returns (t: State)
    requires !(mode == Save && kind == Text)
    ensures Reaches(Booted(EMPTY, []), t) && IsCalm(t.log) && t.log != []
    ensures t.log[|t.log| - 1] == Ended(x, mode, Success(()))
    ensures t == State(t.disk, CALM, true, {}, Idle, map[], t.log)
    ensures t.disk == if mode == Save then EMPTY.(saved := map[x := kind])
                      else if kind == Text then EMPTY.(clipboard := TextOf(x))
                      else EMPTY.(clipboard := FilesOf(x), completed := Some(x), objects := map[x := kind])
  {
    hide ReachesRun, Reaches;
    var s := Booted(EMPTY, []);
    var r := EffectIsReached(x, mode, kind);
    var q := Finishes(s, x, r);
    t := SendsAndLeaves(s, Effected(x, mode, kind, CompletedState, false).(journal := map[]), x, q);
  }

  // ----- an orphaned file in the cache -----

  /** The disk once a single-file candidate is linked. */
  function Linked(x: Id): Disk { Journaled1(x, Clipboard, Publishing, true).(objects := map[x := File]) }

  lemma ReachesUnlinking(x: Id) returns (r: Run)
    ensures r.pc.Unlinking? && !r.dropped && r.guard == ARMED && r.mode == Clipboard && r.kind == File
    ensures ReachesRun(Booted(EMPTY, []), Linked(x), CALM, x, r)
  {
    hide ReachesRun;
    var s, d := Booted(EMPTY, []), Journaled1(x, Clipboard, Publishing, true);
    var p := Received(Clipboard, File).(pc := Publish);
    EveryJobIsReceived(x, Clipboard, File);
    ReachesPublishing(s, x, Received(Clipboard, File));
    assert d.objects[x := File] == map[x := File];
    r := p.(pc := Unlinking);
    RunStep(s, d, CALM, x, p, Proceed, Linked(x), CALM, r);
  }

  /** A crash right after a single-file candidate is linked stops recovery for good. */
  lemma CrashCanWedge(x: Id) returns (labels: seq<Label>)
    ensures Initial(Booted(EMPTY, [])) && Wedged(Execute(Booted(EMPTY, []), labels), x)
  {
    hide Act, Execute;
    var s := Booted(EMPTY, []);
    var r := ReachesUnlinking(x);
    var log :| IsCalm(log) && Reaches(s, Solo(Linked(x), CALM, x, r, log));
    var t := Solo(Linked(x), CALM, x, r, log);
    ReachesNext(s, t, Crash);
    CrashBeforeIndexingWedges(t, x);
    labels :| Execute(s, labels) == Next(t, Crash);
  }

  lemma ReachesDropped(s: State, x: Id, r: Run)
    requires ReachesRun(s, Linked(x), CALM, x, r) && r.pc.Unlinking? && !r.dropped
    ensures ReachesRun(s, Linked(x), CALM, x, r.(dropped := true, pc := Returning(Failure(OtherError))))
  {
    hide Act, Reaches;
    var q := r.(dropped := true, pc := Returning(Failure(OtherError)));
    var log :| IsCalm(log) && Reaches(s, Solo(Linked(x), CALM, x, r, log));
    var t := Solo(Linked(x), CALM, x, r, log);
    ReachesNext(s, t, DropFuture(x));
    assert t.runs[x := q] == map[x := q] && Next(t, DropFuture(x)) == Solo(Linked(x), CALM, x, q, log);
  }

  /** No crash is needed to leave the orphan: a future dropped while the staged name is removed does it too. */
  lemma DropCanOrphan(x: Id) returns (t: State)
    ensures Reaches(Booted(EMPTY, []), t) && t.recovered && t.runs == map[] && Orphan(t.disk, x)
    ensures Wedged(Next(t, Crash), x)
  {
    hide ReachesRun;
    var s := Booted(EMPTY, []);
    var r := ReachesUnlinking(x);
    ReachesDropped(s, x, r);
    var q := r.(dropped := true, pc := Returning(Failure(OtherError)));
    var cleaned := GuardCleans(s, x, q);
    t := LeavesOrphan(s, x, q.(pc := Leaving(q.pc.result)), cleaned);
  }

  lemma GuardCleans(s: State, x: Id, q: Run) returns (cleaned: Disk)
    requires ReachesRun(s, Linked(x), CALM, x, q) && q.pc.Returning? && q.guard == ARMED
    ensures ReachesRun(s, cleaned, CALM, x, q.(pc := Leaving(q.pc.result))) && Orphan(cleaned, x)
  {
    hide ReachesRun, ActAdmission, ActPreparation, ActTransfer, ActApplication, ActAnswer, ActCompletion,
      ActUncertainty;
    var unstaged := Linked(x).(staging := {});
    cleaned := unstaged.(journal := map[]);
    assert Linked(x).staging - {x} == {} && unstaged.journal - {x} == map[];
    RunStep(s, Linked(x), CALM, x, q, Proceed, Linked(x), CALM, q.(pc := GuardTree(q.pc.result)));
    RunStep(s, Linked(x), CALM, x, q.(pc := GuardTree(q.pc.result)), Proceed, unstaged, CALM,
            q.(pc := GuardRow(q.pc.result, false)));
    RunStep(s, unstaged, CALM, x, q.(pc := GuardRow(q.pc.result, false)), Proceed, cleaned, CALM,
            q.(pc := Leaving(q.pc.result)));
  }

  lemma LeavesOrphan(s: State, x: Id, r: Run, d: Disk) returns (t: State)
    requires ReachesRun(s, d, CALM, x, r) && r.pc.Leaving? && Orphan(d, x)
    ensures Reaches(s, t) && t.recovered && t.runs == map[] && Orphan(t.disk, x) && Wedged(Next(t, Crash), x)
  {
    hide Act, Execute;
    var log :| IsCalm(log) && Reaches(s, Solo(d, CALM, x, r, log));
    var u := Solo(d, CALM, x, r, log);
    ReachesNext(s, u, Step(x, Proceed));
    t := Next(u, Step(x, Proceed));
    assert u.runs - {x} == map[];
  }

  /** The disk once the row of the linked candidate cannot be marked and is removed. */
  function Unmarked(x: Id): Disk { EMPTY.(objects := map[x := File]) }

  lemma FailedMarkIsCleaned(s: State, x: Id, r: Run) returns (q: Run)
    requires ReachesRun(s, Linked(x), CALM, x, r) && r.pc.MarkingApplying? && r.mode == Clipboard && !r.dropped
    ensures q.pc == Closing(CLIPBOARD_FAILED) && q.mode == Clipboard && !q.dropped && q.guard.disarmed
    ensures ReachesRun(s, Unmarked(x), CALM, x, q)
  {
    hide ReachesRun, ActAdmission, ActPreparation, ActTransfer, ActInsideCall, ActAnswer, ActCompletion,
      ActUncertainty, ActExit;
    var unstaged := Linked(x).(staging := {});
    assert Linked(x).staging - {x} == {} && unstaged.journal - {x} == map[];
    RunStep(s, Linked(x), CALM, x, r, Fault(StoreFault), Linked(x), CALM, r.(pc := Cleaning(CLIPBOARD_FAILED)));
    RunStep(s, Linked(x), CALM, x, r.(pc := Cleaning(CLIPBOARD_FAILED)), Proceed, unstaged, CALM,
            r.(pc := RemovingRow(CLIPBOARD_FAILED)));
    q := r.(pc := Closing(CLIPBOARD_FAILED), guard := r.guard.(disarmed := true));
    RunStep(s, unstaged, CALM, x, r.(pc := RemovingRow(CLIPBOARD_FAILED)), Proceed, Unmarked(x), CALM, q);
  }

  lemma FailureReturns(s: State, x: Id, q: Run) returns (t: State)
    requires ReachesRun(s, Unmarked(x), CALM, x, q)
    requires q.pc == Closing(CLIPBOARD_FAILED) && q.mode == Clipboard && !q.dropped && q.guard.disarmed
    ensures Reaches(s, t) && IsCalm(t.log) && t.log != []
    ensures t == State(Unmarked(x), CALM, true, {}, Idle, map[], t.log)
    ensures t.log[|t.log| - 1] == Ended(x, Clipboard, Failure(CLIPBOARD_FAILED))
  {
    var out := Failure(CLIPBOARD_FAILED);
    var back, last := q.(pc := Returning(out)), q.(pc := Leaving(out));
    ReturnsAndLeaves(s, Unmarked(x), x, q, back, last, out);
    hide Act, Reaches;
    var log :| IsCalm(log) && Reaches(s, Solo(Unmarked(x), CALM, x, last, log));
    var u := Solo(Unmarked(x), CALM, x, last, log);
    ReachesNext(s, u, Step(x, Proceed));
    t := Next(u, Step(x, Proceed));
    assert u.runs - {x} == map[] && u.live - {x} == {};
  }

  lemma ReturnsAndLeaves(s: State, d: Disk, x: Id, q: Run, back: Run, last: Run, out: Result<(), NetError>)
    requires ReachesRun(s, d, CALM, x, q) && q.pc.Closing? && q.guard.disarmed && out == Failure(q.pc.after)
    requires back == q.(pc := Returning(out)) && last == q.(pc := Leaving(out))
    ensures ReachesRun(s, d, CALM, x, last)
  {
    hide ReachesRun, ActAdmission, ActPreparation, ActTransfer, ActApplication, ActAnswer, ActCompletion,
      ActUncertainty;
    RunStep(s, d, CALM, x, q, Proceed, d, CALM, back);
    RunStep(s, d, CALM, x, back, Proceed, d, CALM, last);
  }

  /**
   * Nor a dropped future: when the mark after publication cannot be written, the activation reports a
   * definite clipboard failure, releases its slot, blocks nothing, and leaves the orphan.
   */
  lemma FailedMarkCanOrphan(x: Id) returns (t: State)
    ensures Reaches(Booted(EMPTY, []), t) && t.recovered && t.runs == map[] && t.live == {} && t.flags == CALM
    ensures IsCalm(t.log) && t.log != [] && t.log[|t.log| - 1] == Ended(x, Clipboard, Failure(CLIPBOARD_FAILED))
    ensures Orphan(t.disk, x) && Wedged(Next(t, Crash), x)
  {
    hide ReachesRun, Reaches;
    var s := Booted(EMPTY, []);
    var r := ReachesUnlinking(x);
    var p := EnterSideEffect(r);
    EntersApplication(s, x, r);
    var q := FailedMarkIsCleaned(s, x, p);
    t := FailureReturns(s, x, q);
  }

  lemma EntersApplication(s: State, x: Id, r: Run)
    requires ReachesRun(s, Linked(x), CALM, x, r) && r.pc.Unlinking? && r.mode == Clipboard && r.kind == File
    ensures ReachesRun(s, Linked(x), CALM, x, EnterSideEffect(r))
  {
    hide ReachesRun, ActAdmission, ActPreparation, ActPublish, ActApplication, ActAnswer, ActCompletion, ActUncertainty,
      ActCleanup, ActExit;
    RunStep(s, Linked(x), CALM, x, r, Proceed, Linked(x), CALM, EnterSideEffect(r));
  }

  // ----- an uncertain row that is journaled over -----

  /** The disk after a crash inside the native call of a text. */
  function Interrupted(x: Id): Disk { Journaled1(x, Clipboard, ApplyingClipboard, true) }

  lemma ReachesCall(x: Id) returns (r: Run)
    ensures r.pc == InsideCall(Queued) && r.guard == KEPT && !r.dropped && r.mode == Clipboard && r.kind == Text
    ensures ReachesRun(Booted(EMPTY, []), Interrupted(x), CALM, x, r)
  {
    hide ReachesRun;
    var s, d := Booted(EMPTY, []), Journaled1(x, Clipboard, Publishing, true);
    var p := EnterSideEffect(Received(Clipboard, Text).(pc := MarkingPublishing));
    EveryJobIsReceived(x, Clipboard, Text);
    ReachesPublishing(s, x, Received(Clipboard, Text));
    Remark(x, Clipboard, Publishing, ApplyingClipboard);
    RunStep(s, d, CALM, x, p, Proceed, Interrupted(x), CALM, p.(pc := CallingClipboard));
    r := p.(pc := InsideCall(Queued));
    RunStep(s, Interrupted(x), CALM, x, p.(pc := CallingClipboard), Proceed, Interrupted(x), CALM, r);
  }

  /** The disk once recovery has marked the interrupted run. */
  function Marked(x: Id): Disk { Journaled1(x, Clipboard, UncertainNoReplay, false) }

  lemma RecoversInterrupted(s: State, x: Id, log: seq<Event>)
    requires Reaches(s, Booted(Interrupted(x), log))
    ensures Reaches(s, Booted(Marked(x), log + [RecoveryDone]).(recovered := true, flags := Flags(false, true)))
  {
    hide Reaches, Execute, Act;
    var d, m := Interrupted(x), Marked(x);
    var e := Journaled1(x, Clipboard, ApplyingClipboard, false);
    var t0, u := Booted(d, log), Booted(e, log);
    assert d.journal.Keys == {x} && d.staging - {x} == {} && {x} - {x} == {} && {} + {x} == {x};
    assert e.journal[x := e.journal[x].(state := UncertainNoReplay)] == m.journal && e.journal - {} == e.journal;
    var t1, t2 := t0.(recovery := Trees({x}, {}, {}, false)), u.(recovery := Trees({}, {}, {x}, false));
    var t3 := u.(recovery := Marks({x}, false));
    ReachesNext(s, t0, Recover(x, Proceed));
    assert Next(t0, Recover(x, Proceed)) == t1;
    ReachesNext(s, t1, Recover(x, Proceed));
    assert Next(t1, Recover(x, Proceed)) == t2;
    ReachesNext(s, t2, Recover(x, Proceed));
    assert Next(t2, Recover(x, Proceed)) == t3;
    ReachesNext(s, t3, Recover(x, Proceed));
    RecoversMarked(s, x, log);
  }

  lemma RecoversMarked(s: State, x: Id, log: seq<Event>)
    requires Reaches(s, Booted(Marked(x), log).(recovery := Marks({}, false)))
    ensures Reaches(s, Booted(Marked(x), log + [RecoveryDone]).(recovered := true, flags := Flags(false, true)))
  {
    hide Reaches, Execute, Act;
    var t := Booted(Marked(x), log);
    var l := Recover(x, Proceed);
    ReachesNext(s, t.(recovery := Marks({}, false)), l);
    assert MarkedRow(t.disk, x);
    ReachesNext(s, t.(recovery := Uncertainty), l);
    assert t.disk.objects.Keys == {};
    ReachesNext(s, t.(recovery := Sweep({}), flags := Flags(false, true)), l);
  }

  /** A save that reuses the id of an uncertain clipboard activation reaches the step that overwrites its row. */
  lemma MarkCanBeRejournaled(x: Id) returns (t: State)
    ensures Reaches(Booted(EMPTY, []), t) && Poisoned(t, x) && Rejournals(t, Step(x, Proceed), x)
  {
    hide Act, Execute, HasUncertainSideEffect;
    var s := Booted(EMPTY, []);
    var r := ReachesCall(x);
    var log :| IsCalm(log) && Reaches(s, Solo(Interrupted(x), CALM, x, r, log));
    ReachesNext(s, Solo(Interrupted(x), CALM, x, r, log), Crash);
    RecoversInterrupted(s, x, log + [Crashed]);
    var more, f := log + [Crashed] + [RecoveryDone], Flags(false, true);
    ReachesNext(s, Booted(Marked(x), more).(recovered := true, flags := f), Activate(x, Save, Text));
    assert Reaches(s, Solo(Marked(x), f, x, NewRun(Save, Text), more));
    ReachesJournaling(s, Marked(x), f, x, Save, Text, more);
    t := Solo(Marked(x), f, x, NewRun(Save, Text).(pc := Journaling, checkedAt := |more|), more + [Checked(x, Save)]);
  }

  // ----- leaked slots -----

  /** A recovered process whose futures for these ids were dropped. */
  function Leaking(ids: set<Id>, log: seq<Event>): State { State(EMPTY, CALM, true, ids, Idle, map[], log) }

  lemma OneMoreLeak(s: State, ids: set<Id>, log: seq<Event>, x: Id)
    requires Reaches(s, Leaking(ids, log)) && x !in ids && |ids| < MAX_CONCURRENT
    ensures exists more :: Reaches(s, Leaking(ids + {x}, more))
  {
    hide Reaches, Act, Execute, HasUncertainSideEffect;
    var t, r := Leaking(ids, log), NewRun(Save, File);
    var begun := t.(live := ids + {x}, runs := map[x := r]);
    ReachesNext(s, t, Activate(x, Save, File));
    assert t.runs[x := r] == begun.runs;
    StartsTalking(s, begun, x, r);
    var talking := begun.(runs := map[x := r.(pc := Negotiating)]);
    var q := r.(dropped := true, pc := Returning(Failure(OtherError)));
    ReachesNext(s, talking, DropFuture(x));
    assert talking.runs[x := q] == map[x := q];
    DroppedRunLeaves(s, ids + {x}, log, x, q);
  }

  lemma StartsTalking(s: State, t: State, x: Id, r: Run)
    requires Reaches(s, t) && t.runs == map[x := r] && r.pc.Starting? && !t.flags.cleanupBlocked
    ensures Reaches(s, t.(runs := map[x := r.(pc := Negotiating)]))
  {
    var q := r.(pc := Negotiating);
    assert Act(t.disk, t.flags, x, r, Proceed, |t.log|) == Effect(t.disk, t.flags, q, []);
    hide Reaches, Act, Execute;
    ReachesNext(s, t, Step(x, Proceed));
    assert t.log + [] == t.log && t.runs[x := q] == map[x := q];
  }

  lemma DroppedRunLeaves(s: State, ids: set<Id>, log: seq<Event>, x: Id, q: Run)
    requires q.dropped && q.pc == Returning(Failure(OtherError)) && q.guard == INACTIVE
    requires Reaches(s, Leaking(ids, log).(runs := map[x := q]))
    ensures exists more :: Reaches(s, Leaking(ids, more))
  {
    hide Execute, HasUncertainSideEffect;
    var t := Leaking(ids, log).(runs := map[x := q]);
    var u := Leaking(ids, log).(runs := map[x := q.(pc := Leaving(q.pc.result))]);
    ReachesNext(s, t, Step(x, Proceed));
    assert log + [] == log && t.runs[x := u.runs[x]] == u.runs;
    assert Next(t, Step(x, Proceed)) == u;
    hide Act;
    ReachesNext(s, u, Step(x, Proceed));
    assert u.runs - {x} == map[];
    assert Next(u, Step(x, Proceed)) == Leaking(ids, log + [Abandoned(x)]);
  }

  /** Two dropped futures of different ids do leak both slots. */
  lemma BothSlotsCanLeak(x: Id, y: Id) returns (t: State)
    requires x != y
    ensures Reaches(Booted(EMPTY, []), t) && Leaked(t) == {x, y} && |Leaked(t)| == MAX_CONCURRENT
  {
    hide Reaches;
    var s := Booted(EMPTY, []);
    ReachesItself(s);
    RecoversNothing(s, []);
    assert Booted(EMPTY, [] + [RecoveryDone]).(recovered := true) == Leaking({}, [RecoveryDone]);
    OneMoreLeak(s, {}, [RecoveryDone], x);
    var log :| Reaches(s, Leaking({} + {x}, log));
    assert {} + {x} == {x} && {x} + {y} == {x, y};
    OneMoreLeak(s, {x}, log, y);
    var more :| Reaches(s, Leaking({x} + {y}, more));
    t := Leaking({x, y}, more);
  }
}
