/** What a startup cleanup that succeeds has cleaned, however many attempts and restarts it took. */
module ActivationStartup {
  import opened Prelude
  import opened Activation
  import opened ActivationRecovery

  predicate WasUncertain(d: Disk, y: Id) { y in d.journal && IsUncertainSideEffect(d.journal[y].state) }

  predicate Indexed(d: Disk, y: Id) { d.completed == Some(y) || d.inFlight == Some(y) }

  /** The rows are among those at the start, as they were or marked, and no uncertain one is lost. */
  ghost predicate RowsKept(before: Disk, d: Disk) {
    && (forall y :: y in d.journal ==>
          && y in before.journal && d.journal[y].mode == before.journal[y].mode
          && (|| d.journal[y].state == before.journal[y].state
              || (WasUncertain(before, y) && d.journal[y].state == UncertainNoReplay)))
    && (forall y :: WasUncertain(before, y) ==> y in d.journal)
  }

  /** A row is gone only after its staging, and staging only shrinks. */
  ghost predicate StagingFollows(before: Disk, d: Disk) {
    && d.staging <= before.staging
    && (forall y :: y in before.journal && y !in d.journal ==> y !in d.staging)
  }

  /** Indexed objects stay, and everything outside journal, staging and cache does too. */
  ghost predicate CacheKept(before: Disk, d: Disk) {
    && d.completed == before.completed && d.inFlight == before.inFlight
    && d.clipboard == before.clipboard && d.saved == before.saved
    && (forall y :: y in d.objects ==> y in before.objects && d.objects[y] == before.objects[y])
    && (forall y :: y in before.objects && Indexed(before, y) ==> y in d.objects)
  }

  /** Every row that is left is one of the uncertain ones, and says so or is about to. */
  ghost predicate OnlyUncertain(before: Disk, d: Disk, mark: set<Id>) {
    forall y :: y in d.journal ==> WasUncertain(before, y) && (d.journal[y].state == UncertainNoReplay || y in mark)
  }

  ghost predicate FlagRaised(s: State) { HasUncertainSideEffect(s.disk) ==> s.flags.uncertainClipboard }

  /** How far an attempt has come. */
  ghost predicate Progress(before: Disk, s: State) {
    match s.recovery
    case Idle => s.recovered ==> OnlyUncertain(before, s.disk, {}) && FlagRaised(s)
                                 && forall y :: y in s.disk.objects ==> Indexed(before, y)
    case Trees(todo, removed, mark, failed) =>
      && (forall y :: y in removed ==> !WasUncertain(before, y) && y !in s.disk.staging)
      && (forall y :: y in mark ==> WasUncertain(before, y))
      && (!failed ==> forall y :: y in s.disk.journal && y !in todo && y !in removed ==>
            WasUncertain(before, y) && (s.disk.journal[y].state == UncertainNoReplay || y in mark))
    case Marks(mark, failed) =>
      (forall y :: y in mark ==> WasUncertain(before, y)) && (!failed ==> OnlyUncertain(before, s.disk, mark))
    case Uncertainty => OnlyUncertain(before, s.disk, {})
    case Sweep(objects) =>
      && OnlyUncertain(before, s.disk, {}) && FlagRaised(s)
      && forall y :: y in s.disk.objects && y !in objects ==> Indexed(before, y)
  }

  ghost predicate Cleaning(before: Disk, s: State) {
    && s.runs == map[] && s.live == {} && (s.recovered ==> s.recovery == Idle)
    && RowsKept(before, s.disk) && StagingFollows(before, s.disk) && CacheKept(before, s.disk) && Progress(before, s)
  }

  lemma TreeVisited(before: Disk, s: State, x: Id, c: Choice)
    requires Cleaning(before, s) && !s.recovered && s.recovery.Trees? && x in s.recovery.todo && x in s.disk.journal
    ensures Cleaning(before, StepTrees(s, x, c))
  {
    hide HasUncertainSideEffect;
    var t := StepTrees(s, x, c);
    var rows, staging, cache, progress := RowsKept(before, t.disk), StagingFollows(before, t.disk),
      CacheKept(before, t.disk), Progress(before, t);
    assert t.runs == map[] && t.live == {} && !t.recovered && t.recovery.Trees?;
    assert t.disk == s.disk || t.disk == s.disk.(staging := s.disk.staging - {x});
    assert rows && staging && cache;
    assert progress;
    hide *;
  }

  lemma TreesEnd(before: Disk, s: State, x: Id, c: Choice)
    requires Cleaning(before, s) && !s.recovered && s.recovery.Trees?
    requires !(x in s.recovery.todo && x in s.disk.journal)
    ensures Cleaning(before, StepTrees(s, x, c))
  {
    hide HasUncertainSideEffect;
    var t := StepTrees(s, x, c);
    var rows, staging, cache, progress := RowsKept(before, t.disk), StagingFollows(before, t.disk),
      CacheKept(before, t.disk), Progress(before, t);
    assert t.runs == map[] && t.live == {} && !t.recovered;
    assert t.disk == s.disk || t.disk == s.disk.(journal := s.disk.journal - s.recovery.removed);
    assert rows && staging && cache;
    assert progress;
    hide *;
  }

  lemma MarkingCleans(before: Disk, d: Disk, x: Id, mark: set<Id>)
    requires RowsKept(before, d) && StagingFollows(before, d) && CacheKept(before, d)
    requires x in d.journal && WasUncertain(before, x)
    ensures var e := d.(journal := d.journal[x := d.journal[x].(state := UncertainNoReplay)]);
      && RowsKept(before, e) && StagingFollows(before, e) && CacheKept(before, e)
      && (OnlyUncertain(before, d, mark) ==> OnlyUncertain(before, e, mark - {x}))
  {}

  lemma MarksClean(before: Disk, s: State, x: Id, c: Choice)
    requires Cleaning(before, s) && !s.recovered && s.recovery.Marks?
    ensures Cleaning(before, StepRecovery(s, x, c))
  {
    hide StepTrees, HasUncertainSideEffect, RowsKept, StagingFollows, CacheKept, OnlyUncertain, WasUncertain;
    if x in s.recovery.mark && x in s.disk.journal { MarkingCleans(before, s.disk, x, s.recovery.mark); }
    if s.recovery.mark == {} {
      assert OnlyUncertain(before, s.disk, s.recovery.mark) == OnlyUncertain(before, s.disk, {});
    }
  }

  lemma SweepingCleans(before: Disk, d: Disk, x: Id)
    requires RowsKept(before, d) && StagingFollows(before, d) && CacheKept(before, d) && !Indexed(d, x)
    ensures var e := d.(objects := d.objects - {x});
      RowsKept(before, e) && StagingFollows(before, e) && CacheKept(before, e)
  {}

  lemma SameRowsSameUncertainty(before: Disk, d: Disk, e: Disk)
    requires d.journal == e.journal && d.inFlight == e.inFlight
    ensures OnlyUncertain(before, d, {}) <==> OnlyUncertain(before, e, {})
    ensures HasUncertainSideEffect(d) <==> HasUncertainSideEffect(e)
  {}

  lemma SweepCleans(before: Disk, s: State, x: Id, c: Choice)
    requires Cleaning(before, s) && !s.recovered && s.recovery.Sweep?
    ensures Cleaning(before, StepRecovery(s, x, c))
  {
    assert forall y :: Indexed(before, y) <==> Indexed(s.disk, y);
    hide StepTrees, RowsKept, StagingFollows, CacheKept, OnlyUncertain, WasUncertain, HasUncertainSideEffect;
    SameRowsSameUncertainty(before, s.disk, StepRecovery(s, x, c).disk);
    if !Indexed(s.disk, x) { SweepingCleans(before, s.disk, x); }
  }

  lemma BeginningCleans(before: Disk, s: State, x: Id, c: Choice)
    requires Cleaning(before, s) && !s.recovered && (s.recovery.Idle? || s.recovery.Uncertainty?)
    ensures Cleaning(before, StepRecovery(s, x, c))
  {
    hide StepTrees, RowsKept, StagingFollows, CacheKept, OnlyUncertain, WasUncertain, HasUncertainSideEffect;
  }

  lemma CleaningStep(before: Disk, s: State, l: Label)
    requires Cleaning(before, s) && !s.recovered
    ensures Cleaning(before, Next(s, l))
  {
    hide Act, StepTrees;
    if l.Recover? {
      if s.recovery.Trees? {
        if l.id in s.recovery.todo && l.id in s.disk.journal {
          TreeVisited(before, s, l.id, l.choice);
        } else {
          TreesEnd(before, s, l.id, l.choice);
        }
      } else if s.recovery.Marks? {
        MarksClean(before, s, l.id, l.choice);
      } else if s.recovery.Sweep? {
        SweepCleans(before, s, l.id, l.choice);
      } else {
        BeginningCleans(before, s, l.id, l.choice);
      }
    }
  }

  /** Nothing is recovered before the end of this history. */
  predicate RecoversLast(s: State, labels: seq<Label>) {
    forall i :: 0 <= i < |labels| ==> !Execute(s, labels[..i]).recovered
  }

  lemma {:induction false} CleaningThroughout(s: State, labels: seq<Label>)
    requires Unrecovered(s) && s.recovery == Idle && RecoversLast(s, labels)
    ensures Cleaning(s.disk, Execute(s, labels))
  {
    hide Next;
    if labels != [] {
      var most := labels[..|labels| - 1];
      assert forall i :: 0 <= i < |most| ==> most[..i] == labels[..i];
      assert most == labels[..|labels| - 1] && !Execute(s, most).recovered;
      CleaningThroughout(s, most);
      CleaningStep(s.disk, Execute(s, most), labels[|labels| - 1]);
    }
  }

  /**
   * When a process is recovered, through whatever failed attempts and restarts: the journal holds
   * exactly the rows that were uncertain, each marked so that it is never replayed; no other row has
   * left staging behind; the cache holds exactly the indexed objects it held; nothing else changed;
   * and an uncertain side effect is known to the admission check.
   */
  lemma RecoveryCleans(s: State, labels: seq<Label>)
    requires Unrecovered(s) && s.recovery == Idle
    requires RecoversLast(s, labels) && Execute(s, labels).recovered
    ensures var d, t := s.disk, Execute(s, labels);
      && (forall y :: y in t.disk.journal <==> WasUncertain(d, y))
      && (forall y :: y in t.disk.journal ==> t.disk.journal[y] == Row(d.journal[y].mode, UncertainNoReplay))
      && t.disk.staging <= d.staging
      && (forall y :: y in d.journal && !WasUncertain(d, y) ==> y !in t.disk.staging)
      && (forall y :: y in t.disk.objects <==> y in d.objects && Indexed(d, y))
      && (forall y :: y in t.disk.objects ==> t.disk.objects[y] == d.objects[y])
      && t.disk.completed == d.completed && t.disk.inFlight == d.inFlight
      && t.disk.clipboard == d.clipboard && t.disk.saved == d.saved
      && (HasUncertainSideEffect(t.disk) ==> t.flags.uncertainClipboard)
  {
    hide Execute;
    CleaningThroughout(s, labels);
  }
}
