/**
 * The receiver's activation as a state machine: one step per durable or shared action, any number
 * of activations interleaved, a failure possible at every call and a crash between any two.
 */
module Activation {
  import opened Prelude
  import opened Outcomes
  import opened NativeClipboards

  type Id = nat

  datatype ActivationState =
    | Requested | Planning | Staging | Transferring | Verified | Publishing | ApplyingClipboard
    | CompletedState | FailedState | CancelledState | UncertainNoReplay

  predicate IsUncertainSideEffect(state: ActivationState) {
    state == UncertainNoReplay || state == ApplyingClipboard
  }

  datatype Mode = Clipboard | Save

  datatype Row = Row(mode: Mode, state: ActivationState)

  datatype ClipboardContent = Cleared | Foreign(token: nat) | TextOf(id: Id) | FilesOf(id: Id)

  /**
   * What survives a crash. The cache object of activation `x` is the path `candidate-x`, so the two
   * cache slots and the objects are named by activation ids.
   */
  datatype Disk = Disk(
    journal: map<Id, Row>,
    staging: set<Id>,
    inFlight: Option<Id>,
    completed: Option<Id>,
    objects: map<Id, ContentKind>,
    clipboard: ClipboardContent,
    /** What saves have put into their users' folders. */
    saved: map<Id, ContentKind>)

  predicate MarkedRow(d: Disk, x: Id) {
    x in d.journal && d.journal[x].mode == Clipboard && IsUncertainSideEffect(d.journal[x].state)
  }

  /** `has_uncertain_side_effect`. */
  predicate HasUncertainSideEffect(d: Disk) {
    (exists x :: x in d.journal && MarkedRow(d, x)) || d.inFlight.Some?
  }

  /** The two flags every receiver of one store shares. */
  datatype Flags = Flags(cleanupBlocked: bool, uncertainClipboard: bool)

  /** `StagingGuard`: it cleans when it goes out of scope unless disarmed or told to keep. */
  datatype Guard = Guard(disarmed: bool, keep: bool) {
    predicate Cleans() { !disarmed && !keep }
  }

  const INACTIVE := Guard(true, false)
  const ARMED := Guard(false, false)

  datatype Milestone =
    | SideEffectDone | StagingRemoved | StateCompleted | AttemptRecorded | RowRemoved | ReceiptSent

  /** The milestones a run has passed, latest outermost. */
  datatype Trail = Nothing | After(earlier: Trail, milestone: Milestone) {
    predicate Reached(m: Milestone) {
      match this
      case Nothing => false
      case After(earlier, milestone) => milestone == m || earlier.Reached(m)
    }
  }

  /** The next action of one `receive_one`. */
  datatype Pc =
    | Starting | Negotiating | CheckingFlag | CheckingStore(sawFlag: bool) | Reserving | Journaling
    | Preparing | CheckingRoot | Admitting | MarkingTransferring | Receiving | MarkingVerified
    | MarkingPublishing | Publish | Unlinking
    | MarkingApplying | Indexing | DroppingUnindexed | CallingClipboard | InsideCall(at: CallPoint)
    | DroppingIndex | DroppingObject | Promoting | DroppingPrevious(previous: Id) | ClearingFlag
    | FinalCleaning | MarkingCompleted | RecordingCompleted | RemovingFinalRow | SendingCompleted
    | MarkingUncertain | RecordingUncertain | RaisingFlag
    | Cleaning(after: NetError) | RemovingRow(after: NetError) | Closing(after: NetError)
    | Returning(result: Result<(), NetError>) | GuardTree(result: Result<(), NetError>)
    | GuardRow(result: Result<(), NetError>, treeFailed: bool) | Leaving(result: Result<(), NetError>)

  datatype Run = Run(
    mode: Mode, kind: ContentKind, guard: Guard, pc: Pc,
    /** Whether this run wrote its journal row. */
    journaled: bool,
    /** Whether this run's native call changed the clipboard. */
    touched: bool,
    /** Whether the future was dropped instead of driven to completion. */
    dropped: bool,
    /** The length of the log when this run passed its admission check. */
    checkedAt: nat,
    trail: Trail)

  datatype Event =
    | Checked(id: Id, mode: Mode)
    | Journaled(id: Id, mode: Mode)
    | AcceptedSent(id: Id, mode: Mode, checkedAt: nat)
    | Called(id: Id, checkedAt: nat)
    | Ended(id: Id, mode: Mode, result: Result<(), NetError>)
    | Abandoned(id: Id)
    | Crashed
    | RecoveryDone

  /** `startup_cleanup`, split at its store and filesystem calls. */
  datatype Recovery =
    | Idle
    | Trees(todo: set<Id>, removed: set<Id>, mark: set<Id>, failed: bool)
    | Marks(mark: set<Id>, failed: bool)
    | Uncertainty
    | Sweep(objects: set<Id>)

  datatype State = State(
    disk: Disk, flags: Flags, recovered: bool, live: set<Id>, recovery: Recovery,
    runs: map<Id, Run>, log: seq<Event>)

  const MAX_CONCURRENT: nat := 2

  datatype FaultKind = StoreFault | DiskFault | StreamFault | TimeoutFault | FrameFault

  function FaultError(kind: FaultKind): NetError {
    match kind
    case StoreFault => FetchServiceOwned
    case DiskFault => Io
    case StreamFault => Io
    case TimeoutFault => Timeout
    case FrameFault => Protocol
  }

  /** What the environment decides for one action. */
  datatype Choice =
    | Proceed
    | Fault(kind: FaultKind)
    /** The call took effect, and a later part of it failed. */
    | LateFault
    | Refuse(code: AdmissionCode)
    | GiveUp(error: NetError)
    | Cancel
    | Lose(failure: ReceiveFailure)
    | Native(event: NativeEvent<ClipboardContent>)

  /** What one action changes: the disk, the flags, its own run, and what it adds to the log. */
  datatype Effect = Effect(disk: Disk, flags: Flags, run: Run, events: seq<Event>)

  function Stay(d: Disk, f: Flags, r: Run): Effect { Effect(d, f, r, []) }

  function Goto(d: Disk, f: Flags, r: Run, pc: Pc): Effect { Effect(d, f, r.(pc := pc), []) }

  function Fail(d: Disk, f: Flags, r: Run, error: NetError): Effect {
    Goto(d, f, r, Returning(Failure(error)))
  }

  function Block(f: Flags): Flags { f.(cleanupBlocked := true) }

  /** `update_activation_state`: refused when the row is missing. */
  function MarkState(d: Disk, f: Flags, x: Id, r: Run, c: Choice, state: ActivationState,
                     done: Run, otherwise: Effect): Effect
  {
    if c == Proceed && x in d.journal then
      Effect(d.(journal := d.journal[x := d.journal[x].(state := state)]), f, done, [])
    else otherwise
  }

  /** The errors that can end a run before the admission decision. */
  predicate NegotiationError(e: NetError) {
    || e.FetchRefused? || e == IdentityMismatch || e == OfferStorage || e == Rejected(OtherRejection)
    || e == FetchTerminal(CancelledReceipt) || e == FetchTerminal(ConnectionLostReceipt)
    || e == Io || e == Timeout || e == Protocol || e == UnexpectedMessage || e == FetchServiceOwned
  }

  predicate NegotiationRefusal(code: AdmissionCode) {
    code in {InvalidManifest, TooLarge, DestinationUnavailable, CancelledAdmission}
  }

  function ActAdmission(d: Disk, f: Flags, x: Id, r: Run, c: Choice, now: nat): Effect {
    match r.pc
    case Starting =>
      if f.cleanupBlocked then Fail(d, f, r, FetchAdmissionRefused(RefusedBusy))
      else if c == Cancel then Fail(d, f, r, FetchTerminal(CancelledReceipt))
      else Goto(d, f, r, Negotiating)
    case Negotiating =>
      (match c
       case Proceed => Goto(d, f, r, CheckingFlag)
       case Refuse(code) =>
         if NegotiationRefusal(code) then Goto(d, f, r, Closing(FetchAdmissionRefused(code))) else Stay(d, f, r)
       case GiveUp(e) => if NegotiationError(e) then Fail(d, f, r, e) else Stay(d, f, r)
       case _ => Stay(d, f, r))
    case CheckingFlag => Goto(d, f, r, CheckingStore(f.uncertainClipboard))
    case CheckingStore(sawFlag) =>
      if !sawFlag && c.Fault? then Fail(d, f, r, FetchServiceOwned)
      else if r.mode == Clipboard && (sawFlag || HasUncertainSideEffect(d)) then
        Goto(d, f, r, Closing(FetchAdmissionRefused(RefusedBusy)))
      else
        Effect(d, f, r.(pc := Reserving, checkedAt := now), [Checked(x, r.mode)])
    case Reserving =>
      (match c
       case Proceed => Goto(d, f, r, Journaling)
       case Refuse(code) =>
         if code == InsufficientSpace || code == DestinationUnavailable
         then Goto(d, f, r, Closing(FetchAdmissionRefused(code))) else Stay(d, f, r)
       case _ => Stay(d, f, r))
    case Journaling =>
      if c == Proceed then
        Effect(d.(journal := d.journal[x := Row(r.mode, Staging)]), f,
               r.(guard := ARMED, journaled := true, pc := Preparing), [Journaled(x, r.mode)])
      else Fail(d, f, r, FetchServiceOwned)
    case _ => Stay(d, f, r)
  }

  function ReceiveError(failure: ReceiveFailure): NetError {
    match failure
    case Disconnected(_, _) => FetchTerminal(ConnectionLostReceipt)
    case LocalCancelled => FetchTerminal(CancelledReceipt)
    case Aborted(code, _, _) => FetchAborted(code)
    case Verification(_, _) => FetchTerminal(VerificationFailedReceipt)
    case ProtocolFailure(_, _) => Protocol
    case LocalIo => FetchLocalIo
    case StreamIo => FetchTerminal(ConnectionLostReceipt)
  }

  /** After publication the guard keeps; text goes straight here from the Publishing mark. */
  function EnterSideEffect(r: Run): Run {
    var kept := r.(guard := r.guard.(keep := true));
    match (r.kind, r.mode)
    case (_, Clipboard) => kept.(pc := MarkingApplying)
    case (Text, Save) => kept.(pc := Cleaning(FetchTerminal(ClipboardFailedReceipt)))
    case (_, Save) => kept.(pc := FinalCleaning, trail := After(r.trail, SideEffectDone))
  }

  function ActPreparation(d: Disk, f: Flags, x: Id, r: Run, c: Choice): Effect {
    match r.pc
    case Preparing =>
      var allocationFailed := Cleaning(FetchAdmissionRefused(AllocationFailed));
      if c == Proceed && x !in d.staging then Goto(d.(staging := d.staging + {x}), f, r, CheckingRoot)
      else if c == LateFault then Goto(d.(staging := d.staging + {x}), f, r, allocationFailed)
      else Goto(d, f, r, allocationFailed)
    case CheckingRoot => if c == Proceed then Goto(d, f, r, Admitting) else Fail(d, f, r, Io)
    case Admitting =>
      (match c
       case Proceed => Effect(d, f, r.(pc := MarkingTransferring), [AcceptedSent(x, r.mode, r.checkedAt)])
       case LateFault => Effect(d, f, r.(pc := Returning(Failure(Io))), [AcceptedSent(x, r.mode, r.checkedAt)])
       case Fault(kind) => Fail(d, f, r, FaultError(kind))
       case _ => Stay(d, f, r))
    case MarkingTransferring =>
      MarkState(d, f, x, r, c, Transferring, r.(pc := Receiving), Fail(d, f, r, FetchServiceOwned))
    case _ => Stay(d, f, r)
  }

  function ActTransfer(d: Disk, f: Flags, x: Id, r: Run, c: Choice): Effect {
    match r.pc
    case Receiving =>
      (match c
       case Proceed => Goto(d, f, r, MarkingVerified)
       case Cancel => Goto(d, f, r, Cleaning(FetchTerminal(CancelledReceipt)))
       case Lose(failure) => Goto(d, f, r, Cleaning(ReceiveError(failure)))
       case _ => Stay(d, f, r))
    case MarkingVerified =>
      MarkState(d, f, x, r, c, Verified, r.(pc := MarkingPublishing), Fail(d, f, r, FetchServiceOwned))
    case MarkingPublishing =>
      MarkState(d, f, x, r, c, Publishing,
                if r.kind == Text then EnterSideEffect(r) else r.(pc := Publish),
                Goto(d, f, r, Cleaning(FetchTerminal(InternalErrorReceipt))))
    case Publish => ActPublish(d, f, x, r, c)
    case Unlinking =>
      if c == Proceed then Effect(d, f, EnterSideEffect(r), []) else Goto(d, f, r, Cleaning(FetchLocalIo))
    case _ => Stay(d, f, r)
  }

  /**
   * `publish` after its mark: a Save object lands in the user's folder, a Clipboard one in the cache.
   * A file is linked first and its staged name removed by an awaited call; a folder is renamed.
   */
  function ActPublish(d: Disk, f: Flags, x: Id, r: Run, c: Choice): Effect {
    var taken := r.mode == Clipboard && x in d.objects;
    var published := if r.mode == Clipboard then d.(objects := d.objects[x := r.kind])
                     else d.(saved := d.saved[x := r.kind]);
    if c == Proceed && !taken then
      Effect(published, f, if r.kind == File then r.(pc := Unlinking) else EnterSideEffect(r), [])
    else if c == LateFault && !taken then Goto(published, f, r, Cleaning(FetchLocalIo))
    else if c.Fault? && c.kind != DiskFault then Goto(d, f, r, Cleaning(FetchTerminal(InternalErrorReceipt)))
    else Goto(d, f, r, Cleaning(FetchLocalIo))
  }

  function ActApplication(d: Disk, f: Flags, x: Id, r: Run, c: Choice): Effect {
    var failed := Cleaning(FetchTerminal(ClipboardFailedReceipt));
    match r.pc
    case MarkingApplying =>
      MarkState(d, f, x, r, c, ApplyingClipboard,
                r.(pc := if r.kind == Text then CallingClipboard else Indexing), Goto(d, f, r, failed))
    case Indexing =>
      if c == Proceed then Goto(d.(inFlight := Some(x)), f, r, CallingClipboard)
      else Goto(d, f, r, DroppingUnindexed)
    case DroppingUnindexed =>
      if c == Proceed then Goto(d.(objects := d.objects - {x}), f, r, failed)
      else Goto(d, Block(f), r, failed)
    case CallingClipboard => Effect(d, f, r.(pc := InsideCall(Queued)), [Called(x, r.checkedAt)])
    case InsideCall(at) => if c.Native? then ActInsideCall(d, f, x, r, at, c.event) else Stay(d, f, r)
    case _ => Stay(d, f, r)
  }

  function ActAnswer(d: Disk, f: Flags, x: Id, r: Run, c: Choice): Effect {
    var failed := Cleaning(FetchTerminal(ClipboardFailedReceipt));
    match r.pc
    case DroppingIndex =>
      if c == Proceed then Goto(d.(inFlight := None), f, r, DroppingObject)
      else Goto(d, Block(f), r, DroppingObject)
    case DroppingObject =>
      if c == Proceed then Goto(d.(objects := d.objects - {x}), f, r, failed)
      else Goto(d, Block(f), r, failed)
    case Promoting =>
      if c == Proceed then
        var next := if d.completed.Some? && d.completed.value != x
                    then DroppingPrevious(d.completed.value) else ClearingFlag;
        Goto(d.(completed := Some(x), inFlight := None), f, r, next)
      else Goto(d, f, r, MarkingUncertain)
    case DroppingPrevious(p) =>
      if c == Proceed then Goto(d.(objects := d.objects - {p}), f, r, ClearingFlag)
      else Goto(d, f.(uncertainClipboard := true), r, MarkingUncertain)
    case ClearingFlag =>
      Effect(d, f.(uncertainClipboard := false), r.(pc := FinalCleaning), [])
    case _ => Stay(d, f, r)
  }

  /** What the native call of one activation is asked to place. */
  function JobFor(x: Id, kind: ContentKind): Job<ClipboardContent> {
    if kind == Text then TextJob(TextOf(x)) else FilesJob(FilesOf(x), Cleared, false)
  }

  /** The native call in progress, one step of it at a time. */
  function ActInsideCall(d: Disk, f: Flags, x: Id, r: Run, at: CallPoint,
      event: NativeEvent<ClipboardContent>): Effect {
    var step := NativeStep(JobFor(x, r.kind), at, d.clipboard, event);
    var after := d.(clipboard := step.content);
    var run := r.(touched := r.touched || step.content != d.clipboard);
    match step
    case Going(next, _) => Goto(after, f, run, InsideCall(next))
    case Answered(Placed, _) =>
      Goto(after, f, run.(trail := After(r.trail, SideEffectDone)), if r.kind == Text then FinalCleaning else Promoting)
    case Answered(Definite, _) =>
      Goto(after, f, run, if r.kind == Text then Cleaning(FetchTerminal(ClipboardFailedReceipt)) else DroppingIndex)
    case Answered(Unsure, _) => Goto(after, f.(uncertainClipboard := true), run, MarkingUncertain)
  }

  function ActCompletion(d: Disk, f: Flags, x: Id, r: Run, c: Choice): Effect {
    match r.pc
    case FinalCleaning =>
      var gone := d.(staging := d.staging - {x});
      if c == Proceed then
        Effect(gone, f, r.(pc := MarkingCompleted, trail := After(r.trail, StagingRemoved)), [])
      else Goto(if c == LateFault then gone else d, Block(f), r, MarkingUncertain)
    case MarkingCompleted =>
      MarkState(d, f, x, r, c, CompletedState,
                r.(pc := RecordingCompleted, trail := After(r.trail, StateCompleted)),
                Goto(d, Block(f), r, MarkingUncertain))
    case RecordingCompleted =>
      if c == Proceed then
        Effect(d, f, r.(pc := RemovingFinalRow, trail := After(r.trail, AttemptRecorded)), [])
      else Goto(d, Block(f), r, MarkingUncertain)
    case RemovingFinalRow =>
      if c == Proceed then
        Effect(d.(journal := d.journal - {x}), f,
               r.(pc := SendingCompleted, trail := After(r.trail, RowRemoved), guard := r.guard.(disarmed := true)), [])
      else Goto(d, Block(f), r, MarkingUncertain)
    case SendingCompleted =>
      (match c
       case Proceed => Effect(d, f, r.(pc := Returning(Success(())), trail := After(r.trail, ReceiptSent)), [])
       case Fault(kind) => Fail(d, f, r, FaultError(kind))
       case _ => Stay(d, f, r))
    case _ => Stay(d, f, r)
  }

  /** `finish_uncertain`. */
  function ActUncertainty(d: Disk, f: Flags, x: Id, r: Run, c: Choice): Effect {
    match r.pc
    case MarkingUncertain =>
      MarkState(d, f, x, r, c, UncertainNoReplay, r.(pc := RecordingUncertain),
                Fail(d, Block(f), r, FetchServiceOwned))
    case RecordingUncertain =>
      if c == Proceed then Goto(d, f, r, RaisingFlag) else Fail(d, Block(f), r, FetchServiceOwned)
    case RaisingFlag =>
      Goto(d, if r.mode == Clipboard then f.(uncertainClipboard := true) else f, r,
           Closing(FetchTerminal(UncertainReceipt)))
    case _ => Stay(d, f, r)
  }

  function ActCleanup(d: Disk, f: Flags, x: Id, r: Run, c: Choice): Effect {
    var blocked := r.(guard := r.guard.(keep := true), pc := Returning(Failure(FetchServiceOwned)));
    match r.pc
    case Cleaning(after) =>
      var gone := d.(staging := d.staging - {x});
      if c == Proceed then Goto(gone, f, r, RemovingRow(after))
      else Effect(if c == LateFault then gone else d, Block(f), blocked, [])
    case RemovingRow(after) =>
      if c == Proceed then
        Effect(d.(journal := d.journal - {x}), f,
               r.(guard := r.guard.(disarmed := true), pc := Closing(after)), [])
      else Effect(d, Block(f), blocked, [])
    case Closing(after) =>
      if c.Fault? then Fail(d, f, r, FaultError(c.kind)) else Fail(d, f, r, after)
    case _ => Stay(d, f, r)
  }

  /** The return itself: the guard goes out of scope. */
  function ActExit(d: Disk, f: Flags, x: Id, r: Run, c: Choice): Effect {
    match r.pc
    case Returning(result) =>
      Goto(d, f, r, if r.guard.Cleans() then GuardTree(result) else Leaving(result))
    case GuardTree(result) =>
      if c == Proceed then Goto(d.(staging := d.staging - {x}), f, r, GuardRow(result, false))
      else Goto(d, f, r, GuardRow(result, true))
    case GuardRow(result, treeFailed) =>
      Goto(if c == Proceed then d.(journal := d.journal - {x}) else d,
           if treeFailed || c != Proceed then Block(f) else f, r, Leaving(result))
    case _ => Stay(d, f, r)
  }

  predicate IsAdmission(pc: Pc) {
    pc.Starting? || pc.Negotiating? || pc.CheckingFlag? || pc.CheckingStore? || pc.Reserving? || pc.Journaling?
  }

  predicate IsPreparation(pc: Pc) {
    pc.Preparing? || pc.CheckingRoot? || pc.Admitting? || pc.MarkingTransferring?
  }

  predicate IsTransfer(pc: Pc) {
    pc.Receiving? || pc.MarkingVerified? || pc.MarkingPublishing? || pc.Publish? || pc.Unlinking?
  }

  predicate IsApplication(pc: Pc) {
    pc.MarkingApplying? || pc.Indexing? || pc.DroppingUnindexed? || pc.CallingClipboard? || pc.InsideCall?
  }

  predicate IsAnswer(pc: Pc) {
    pc.DroppingIndex? || pc.DroppingObject? || pc.Promoting? || pc.DroppingPrevious? || pc.ClearingFlag?
  }

  predicate IsCompletion(pc: Pc) {
    pc.FinalCleaning? || pc.MarkingCompleted? || pc.RecordingCompleted? || pc.RemovingFinalRow? || pc.SendingCompleted?
  }

  predicate IsUncertainty(pc: Pc) { pc.MarkingUncertain? || pc.RecordingUncertain? || pc.RaisingFlag? }

  predicate IsCleanup(pc: Pc) { pc.Cleaning? || pc.RemovingRow? }

  /** One action of one run. */
  function Act(d: Disk, f: Flags, x: Id, r: Run, c: Choice, now: nat): Effect {
    if IsAdmission(r.pc) then ActAdmission(d, f, x, r, c, now)
    else if IsPreparation(r.pc) then ActPreparation(d, f, x, r, c)
    else if IsTransfer(r.pc) then ActTransfer(d, f, x, r, c)
    else if IsApplication(r.pc) then ActApplication(d, f, x, r, c)
    else if IsAnswer(r.pc) then ActAnswer(d, f, x, r, c)
    else if IsCompletion(r.pc) then ActCompletion(d, f, x, r, c)
    else if IsUncertainty(r.pc) then ActUncertainty(d, f, x, r, c)
    else if IsCleanup(r.pc) || r.pc.Closing? then ActCleanup(d, f, x, r, c)
    else ActExit(d, f, x, r, c)
  }

  /** The places where `receive_one` is suspended on I/O and its future may be dropped. */
  predicate IsAwaitPoint(pc: Pc) {
    pc.Negotiating? || pc.Admitting? || pc.Receiving? || pc.Unlinking? || pc.SendingCompleted? || pc.Closing?
  }

  datatype Label =
    | Activate(id: Id, mode: Mode, kind: ContentKind)
    | Step(id: Id, choice: Choice)
    | DropFuture(id: Id)
    | Recover(id: Id, choice: Choice)
    | Crash

  function NewRun(mode: Mode, kind: ContentKind): Run {
    Run(mode, kind, INACTIVE, Starting, false, false, false, 0, Nothing)
  }

  /** `activate`: recovery first, no duplicate, at most two at once. */
  predicate CanActivate(s: State, x: Id) {
    s.recovered && x !in s.live && |s.live| < MAX_CONCURRENT
  }

  /** The live slot is released only by a future driven to completion. */
  function Leave(s: State, x: Id): State
    requires x in s.runs && s.runs[x].pc.Leaving?
  {
    var r := s.runs[x];
    if r.dropped then s.(runs := s.runs - {x}, log := s.log + [Abandoned(x)])
    else s.(runs := s.runs - {x}, live := s.live - {x}, log := s.log + [Ended(x, r.mode, r.pc.result)])
  }

  function StepRun(s: State, x: Id, c: Choice): State
    requires x in s.runs && !s.runs[x].pc.Leaving?
  {
    var e := Act(s.disk, s.flags, x, s.runs[x], c, |s.log|);
    s.(disk := e.disk, flags := e.flags, runs := s.runs[x := e.run], log := s.log + e.events)
  }

  /** `startup_cleanup` of the store and of the receiver, one call at a time. */
  function StepRecovery(s: State, x: Id, c: Choice): State {
    var give := s.(flags := Block(s.flags), recovery := Idle);
    match s.recovery
    case Idle =>
      if s.recovered then s
      else if c == Proceed then s.(recovery := Trees(s.disk.journal.Keys, {}, {}, false))
      else give
    case Trees(todo, removed, mark, failed) => StepTrees(s, x, c)
    case Marks(mark, failed) =>
      if x in mark then
        if c == Proceed && x in s.disk.journal then
          s.(disk := s.disk.(journal := s.disk.journal[x := s.disk.journal[x].(state := UncertainNoReplay)]),
             recovery := Marks(mark - {x}, failed))
        else give
      else if mark != {} then s
      else if failed then give
      else s.(recovery := Uncertainty)
    case Uncertainty =>
      var flagged := s.flags.(uncertainClipboard := s.flags.uncertainClipboard || HasUncertainSideEffect(s.disk));
      if c == Proceed then s.(flags := flagged, recovery := Sweep(s.disk.objects.Keys))
      else if c == LateFault then s.(flags := Block(flagged), recovery := Idle)
      else s.(recovery := Idle)
    case Sweep(objects) =>
      if x in objects then
        if s.disk.completed == Some(x) || s.disk.inFlight == Some(x) || x !in s.disk.objects then
          s.(recovery := Sweep(objects - {x}))
        else if c == Proceed && s.disk.objects[x] == Folder then
          s.(disk := s.disk.(objects := s.disk.objects - {x}), recovery := Sweep(objects - {x}))
        // `remove_owned_tree` refuses a candidate that is a regular file.
        else give
      else if objects != {} then s
      else s.(recovery := Idle, recovered := true, log := s.log + [RecoveryDone])
  }

  function StepTrees(s: State, x: Id, c: Choice): State
    requires s.recovery.Trees?
  {
    var Trees(todo, removed, mark, failed) := s.recovery;
    if x in todo && x in s.disk.journal then
      var row := s.disk.journal[x];
      var d := if c == Proceed then s.disk.(staging := s.disk.staging - {x}) else s.disk;
      if IsUncertainSideEffect(row.state) then
        s.(disk := d, recovery :=
             Trees(todo - {x}, removed, if row.state != UncertainNoReplay then mark + {x} else mark, failed))
      else if c == Proceed then s.(disk := d, recovery := Trees(todo - {x}, removed + {x}, mark, failed))
      else s.(recovery := Trees(todo - {x}, removed, mark, true))
    else if todo != {} then s
    else if c == Proceed || removed == {} then
      s.(disk := s.disk.(journal := s.disk.journal - removed), recovery := Marks(mark, failed))
    else s.(flags := Block(s.flags), recovery := Idle)
  }

  function Next(s: State, l: Label): State {
    match l
    case Activate(x, mode, kind) =>
      if CanActivate(s, x) then s.(live := s.live + {x}, runs := s.runs[x := NewRun(mode, kind)]) else s
    case Step(x, c) =>
      if x !in s.runs then s else if s.runs[x].pc.Leaving? then Leave(s, x) else StepRun(s, x, c)
    case DropFuture(x) =>
      if x in s.runs && IsAwaitPoint(s.runs[x].pc) && !s.runs[x].dropped then
        s.(runs := s.runs[x := s.runs[x].(dropped := true, pc := Returning(Failure(OtherError)))])
      else s
    case Recover(x, c) => StepRecovery(s, x, c)
    case Crash =>
      State(s.disk, Flags(false, false), false, {}, Idle, map[], s.log + [Crashed])
  }

  function Execute(s: State, labels: seq<Label>): State {
    if labels == [] then s else Next(Execute(s, labels[..|labels| - 1]), labels[|labels| - 1])
  }

  /** A process starts on whatever disk the previous one left. */
  predicate Initial(s: State) {
    && s.flags == Flags(false, false) && !s.recovered && s.live == {} && s.recovery == Idle
    && s.runs == map[] && s.log == []
  }
}
