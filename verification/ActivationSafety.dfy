/** Safety of the receiver over whole histories of activations, drops, crashes and recoveries. */
module ActivationSafety {
  import opened Prelude
  import opened Outcomes
  import opened Activation
  import opened ActivationInvariant

  predicate RecoveryOk(s: State) {
    match s.recovery
    case Trees(todo, removed, mark, failed) =>
      forall y :: y in removed && y in s.disk.journal ==> !IsUncertainSideEffect(s.disk.journal[y].state)
    case _ => true
  }

  ghost predicate Inv(s: State) {
    && (forall x :: x in s.runs ==> RunOk(s.disk, s.flags, x, s.runs[x], s.log))
    && LogOk(s.log)
    && s.runs.Keys <= s.live && |s.live| <= MAX_CONCURRENT
    // Live activations and startup cleanup exclude each other.
    && (s.live != {} ==> s.recovered)
    && (s.recovery != Idle ==> !s.recovered)
    && RecoveryOk(s)
  }

  /** The two disks hold the same of one activation. */
  predicate Alike(d: Disk, e: Disk, y: Id) {
    && (y in d.journal <==> y in e.journal) && (y in d.journal ==> e.journal[y] == d.journal[y])
    && (y in d.staging <==> y in e.staging)
  }

  lemma RunOkIsStable(d: Disk, f: Flags, e: Disk, g: Flags, y: Id, r: Run, log: seq<Event>, more: seq<Event>)
    requires RunOk(d, f, y, r, log) && log <= more && Alike(d, e, y) && (f.cleanupBlocked ==> g.cleanupBlocked)
    ensures RunOk(e, g, y, r, more)
  {
    var ok := PointOk(e, g, y, r);
    assert ok;
    hide PointOk;
  }

  lemma OthersAreAlike(d: Disk, x: Id, e: Disk, y: Id)
    requires OwnRow(d, x, e) && OwnStaging(d, x, e) && y != x
    ensures Alike(d, e, y)
  {}

  lemma StepRunKeepsInv(s: State, x: Id, c: Choice)
    requires Inv(s) && x in s.runs && !s.runs[x].pc.Leaving?
    ensures Inv(StepRun(s, x, c))
  {
    var t, r := StepRun(s, x, c), s.runs[x];
    hide Act, RunOk, OwnRow, OwnStaging, OwnClipboard, OwnCache, OwnEvents, LogOk, Alike;
    ActIsTame(s.disk, s.flags, x, r, c, |s.log|);
    assert RunOk(s.disk, s.flags, x, r, s.log);
    ActEvents(s.disk, s.flags, x, r, c, s.log);
    forall y | y in t.runs
      ensures RunOk(t.disk, t.flags, y, t.runs[y], t.log)
    {
      if y == x {
        ActKeeps(s.disk, s.flags, x, r, c, s.log);
      } else {
        OthersAreAlike(s.disk, x, t.disk, y);
        RunOkIsStable(s.disk, s.flags, t.disk, t.flags, y, s.runs[y], s.log, t.log);
      }
    }
    assert t.runs.Keys == s.runs.Keys;
  }

  lemma LogGrowsByOne(log: seq<Event>, event: Event)
    requires LogOk(log) && !event.AcceptedSent? && !event.Called?
    ensures LogOk(log + [event])
  {
    forall k | 0 <= k < |log + [event]|
      ensures EventOk(log + [event], k)
    {
      if k < |log| { assert EventOk(log, k); }
    }
  }

  lemma LeaveKeepsInv(s: State, x: Id)
    requires Inv(s) && x in s.runs && s.runs[x].pc.Leaving?
    ensures Inv(Leave(s, x))
  {
    var t, r := Leave(s, x), s.runs[x];
    LogGrowsByOne(s.log, if r.dropped then Abandoned(x) else Ended(x, r.mode, r.pc.result));
    forall y | y in t.runs
      ensures RunOk(t.disk, t.flags, y, t.runs[y], t.log)
    {
      RunOkIsStable(s.disk, s.flags, t.disk, t.flags, y, s.runs[y], s.log, t.log);
    }
    assert |s.live - {x}| <= |s.live| by { CardinalityOfDifference(s.live, x); }
  }

  lemma CardinalityOfDifference(a: set<Id>, x: Id)
    ensures |a - {x}| <= |a|
  {
    if x in a { assert a == (a - {x}) + {x}; } else { assert a - {x} == a; }
  }

  /** A future dropped at an await point returns an error that says nothing. */
  lemma DropKeepsPoint(d: Disk, f: Flags, x: Id, r: Run, log: seq<Event>)
    requires RunOk(d, f, x, r, log) && IsAwaitPoint(r.pc)
    ensures RunOk(d, f, x, r.(dropped := true, pc := Returning(Failure(OtherError))), log)
  {
    var ok := PointOk(d, f, x, r.(dropped := true, pc := Returning(Failure(OtherError))));
    match r.pc {
      case Negotiating => assert ok;
      case Admitting => assert ok;
      case Receiving => assert ok;
      case Unlinking => assert ok;
      case SendingCompleted => assert ok;
      case Closing(_) => assert ok;
    }
    hide PointOk;
  }

  lemma DropKeepsInv(s: State, x: Id)
    requires Inv(s)
    ensures Inv(Next(s, DropFuture(x)))
  {
    var t := Next(s, DropFuture(x));
    if t != s {
      hide RunOk, LogOk;
      forall y | y in t.runs
        ensures RunOk(t.disk, t.flags, y, t.runs[y], t.log)
      {
        assert RunOk(s.disk, s.flags, y, s.runs[y], s.log);
        if y == x { DropKeepsPoint(s.disk, s.flags, x, s.runs[x], s.log); }
      }
      assert t.runs.Keys == s.runs.Keys;
    }
  }

  lemma RecoveryKeepsInv(s: State, x: Id, c: Choice)
    requires Inv(s)
    ensures Inv(StepRecovery(s, x, c))
  {
    var t := StepRecovery(s, x, c);
    if !s.recovered {
      assert s.runs.Keys == {};
      if t.log != s.log { LogGrowsByOne(s.log, RecoveryDone); }
      if s.recovery.Trees? { TreesKeepOk(s, x, c); }
    }
  }

  lemma TreesKeepOk(s: State, x: Id, c: Choice)
    requires RecoveryOk(s) && s.recovery.Trees?
    ensures RecoveryOk(StepTrees(s, x, c))
  {}

  lemma ActivateKeepsInv(s: State, x: Id, mode: Mode, kind: ContentKind)
    requires Inv(s) && CanActivate(s, x)
    ensures Inv(Next(s, Activate(x, mode, kind)))
  {
    var t := Next(s, Activate(x, mode, kind));
    forall y | y in t.runs
      ensures RunOk(t.disk, t.flags, y, t.runs[y], t.log)
    {
      if y != x { assert RunOk(s.disk, s.flags, y, s.runs[y], s.log); }
    }
  }

  lemma NextKeepsInv(s: State, l: Label)
    requires Inv(s)
    ensures Inv(Next(s, l))
  {
    match l
    case Activate(x, mode, kind) =>
      if CanActivate(s, x) { ActivateKeepsInv(s, x, mode, kind); }
    case Step(x, c) =>
      if x in s.runs {
        if s.runs[x].pc.Leaving? { LeaveKeepsInv(s, x); } else { StepRunKeepsInv(s, x, c); }
      }
    case DropFuture(x) => DropKeepsInv(s, x);
    case Recover(x, c) => RecoveryKeepsInv(s, x, c);
    case Crash => LogGrowsByOne(s.log, Crashed);
  }

  lemma {:induction false} ExecuteKeepsInv(s: State, labels: seq<Label>)
    requires Inv(s)
    ensures Inv(Execute(s, labels))
  {
    if labels != [] {
      ExecuteKeepsInv(s, labels[..|labels| - 1]);
      NextKeepsInv(Execute(s, labels[..|labels| - 1]), labels[|labels| - 1]);
    }
  }

  /** Every history, from any disk, stays inside the invariant. */
  lemma ReachableIsSafe(s: State, labels: seq<Label>)
    requires Initial(s)
    ensures Inv(Execute(s, labels))
  {
    ExecuteKeepsInv(s, labels);
  }
}
