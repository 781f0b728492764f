/** When startup recovery can succeed, and what stops it for good. */
module ActivationRecovery {
  import opened Prelude
  import opened Activation
  import opened ActivationInvariant
  import opened ActivationSafety

  /** A cache object that no slot indexes and that is not a directory. */
  predicate Orphan(d: Disk, y: Id) {
    y in d.objects && d.objects[y] != Folder && d.completed != Some(y) && d.inFlight != Some(y)
  }

  /** A process that has not recovered and runs nothing. */
  predicate Unrecovered(s: State) {
    !s.recovered && s.runs == map[] && s.live == {}
  }

  predicate Wedged(s: State, y: Id) {
    Orphan(s.disk, y) && Unrecovered(s) && (s.recovery.Sweep? ==> y in s.recovery.objects)
  }

  lemma StayWedged(s: State, l: Label, y: Id)
    requires Wedged(s, y)
    ensures Wedged(Next(s, l), y)
  {}

  /**
   * A regular file left in the cache without an index stops recovery for ever: through any number
   * of attempts and restarts nothing is recovered and no activation starts.
   */
  lemma {:induction false} OrphanFileWedgesForever(s: State, labels: seq<Label>, y: Id)
    requires Wedged(s, y)
    ensures Wedged(Execute(s, labels), y)
  {
    if labels != [] {
      OrphanFileWedgesForever(s, labels[..|labels| - 1], y);
      StayWedged(Execute(s, labels[..|labels| - 1]), labels[|labels| - 1], y);
    }
  }

  /** A crash between linking a single-file candidate and indexing it leaves such a file. */
  lemma CrashBeforeIndexingWedges(s: State, x: Id)
    requires x in s.runs && (s.runs[x].pc.Unlinking? || s.runs[x].pc.MarkingApplying? || s.runs[x].pc.Indexing?)
    requires x in s.disk.objects && s.disk.objects[x] == File
    requires s.disk.completed != Some(x) && s.disk.inFlight != Some(x)
    ensures Wedged(Next(s, Crash), x)
  {}

  // ----- and otherwise recovery succeeds -----

  lemma {:induction false} ExecuteFirst(s: State, l: Label, labels: seq<Label>)
    ensures Execute(s, [l] + labels) == Execute(Next(s, l), labels)
  {
    var all := [l] + labels;
    if labels == [] {
      assert all == [l] && all[..0] == [];
      assert Execute(s, all[..0]) == s;
    } else {
      var most := labels[..|labels| - 1];
      ExecuteFirst(s, l, most);
      assert all[..|all| - 1] == [l] + most;
    }
  }

  predicate OnlyRecovers(labels: seq<Label>) {
    forall i :: 0 <= i < |labels| ==> labels[i].Recover?
  }

  predicate NoOrphan(d: Disk) { forall y :: y in d.objects ==> !Orphan(d, y) }

  lemma SweepFinishes(s: State) returns (labels: seq<Label>)
    requires !s.recovered && s.recovery.Sweep? && NoOrphan(s.disk)
    ensures OnlyRecovers(labels) && Execute(s, labels).recovered
    decreases |s.recovery.objects|
  {
    var l: Label;
    var rest: seq<Label> := [];
    if s.recovery.objects == {} {
      l := Recover(0, Proceed);
      assert Execute(Next(s, l), []) == Next(s, l);
    } else {
      var y :| y in s.recovery.objects;
      l := Recover(y, Proceed);
      var t := Next(s, l);
      assert t.recovery == Sweep(s.recovery.objects - {y});
      rest := SweepFinishes(t);
    }
    ExecuteFirst(s, l, rest);
    labels := [l] + rest;
  }

  lemma MarksFinish(s: State) returns (labels: seq<Label>)
    requires !s.recovered && s.recovery.Marks? && !s.recovery.failed && NoOrphan(s.disk)
    requires s.recovery.mark <= s.disk.journal.Keys
    ensures OnlyRecovers(labels) && Execute(s, labels).recovered
    decreases |s.recovery.mark|
  {
    var l: Label;
    var rest: seq<Label>;
    if s.recovery.mark == {} {
      l := Recover(0, Proceed);
      var t := Next(s, l);
      assert t.recovery == Uncertainty;
      var u := Next(t, l);
      var tail := SweepFinishes(u);
      ExecuteFirst(t, l, tail);
      rest := [l] + tail;
    } else {
      var y :| y in s.recovery.mark;
      l := Recover(y, Proceed);
      rest := MarksFinish(Next(s, l));
    }
    ExecuteFirst(s, l, rest);
    labels := [l] + rest;
  }

  lemma TreesFinish(s: State) returns (labels: seq<Label>)
    requires !s.recovered && s.recovery.Trees? && !s.recovery.failed && NoOrphan(s.disk)
    requires s.recovery.todo <= s.disk.journal.Keys && s.recovery.mark <= s.disk.journal.Keys
    requires s.recovery.removed !! s.recovery.mark !! s.recovery.todo
    ensures OnlyRecovers(labels) && Execute(s, labels).recovered
    decreases |s.recovery.todo|
  {
    var l: Label;
    var rest: seq<Label>;
    if s.recovery.todo == {} {
      l := Recover(0, Proceed);
      rest := MarksFinish(Next(s, l));
    } else {
      var y :| y in s.recovery.todo;
      l := Recover(y, Proceed);
      rest := TreesFinish(Next(s, l));
    }
    ExecuteFirst(s, l, rest);
    labels := [l] + rest;
  }

  /** Startup recovery can succeed exactly when no regular file is orphaned in the cache. */
  lemma RecoverableIffNoOrphanFile(s: State)
    requires Unrecovered(s) && s.recovery == Idle
    ensures (exists labels :: Execute(s, labels).recovered) <==> NoOrphan(s.disk)
  {
    if NoOrphan(s.disk) {
      var l := Recover(0, Proceed);
      var rest := TreesFinish(Next(s, l));
      ExecuteFirst(s, l, rest);
      assert Execute(s, [l] + rest).recovered;
    } else {
      var y :| y in s.disk.objects && Orphan(s.disk, y);
      forall labels
        ensures !Execute(s, labels).recovered
      {
        OrphanFileWedgesForever(s, labels, y);
      }
    }
  }

  /** While startup cleanup is under way no activation is live, so it never meets a live row. */
  lemma RecoveryMeetsNoLiveActivation(s: State, labels: seq<Label>)
    requires Initial(s)
    ensures var t := Execute(s, labels);
      && (t.recovery != Idle ==> t.live == {} && t.runs == map[])
      && (t.live != {} ==> t.recovered)
      && |t.live| <= MAX_CONCURRENT && t.runs.Keys <= t.live
  {
    ReachableIsSafe(s, labels);
    var t := Execute(s, labels);
    if t.live == {} {
      assert t.runs.Keys == {};
      assert t.runs == map[];
    }
  }

  // ----- the live slots of dropped futures -----

  /** The ids in the live set that no run stands behind any more. */
  function Leaked(s: State): set<Id> { s.live - s.runs.Keys }

  /** The return of a future that was dropped. */
  predicate ReturnsDropped(s: State, l: Label, x: Id) {
    l.Step? && l.id == x && x in s.runs && s.runs[x].pc.Leaving? && s.runs[x].dropped
  }

  /** Within a process a slot is leaked exactly from the return of its dropped future on. */
  lemma LeakedIffDropped(s: State, l: Label, x: Id)
    requires Inv(s) && l != Crash
    ensures x in Leaked(Next(s, l)) <==> x in Leaked(s) || ReturnsDropped(s, l, x)
  {
    hide Act, RunOk, LogOk, HasUncertainSideEffect;
  }

  /** A dropped future never gives its slot back within the process. */
  lemma LeakedSlotsStay(s: State, l: Label)
    requires Inv(s) && l != Crash
    ensures Leaked(s) <= Leaked(Next(s, l))
  {
    hide Inv, Next;
    forall x | x in Leaked(s)
      ensures x in Leaked(Next(s, l))
    {
      LeakedIffDropped(s, l, x);
    }
  }

  /** Every run is driven to completion so far. */
  predicate NoneDropped(s: State) { forall x :: x in s.runs ==> !s.runs[x].dropped }

  lemma NoneDroppedStays(s: State, l: Label)
    requires NoneDropped(s) && !l.DropFuture?
    ensures NoneDropped(Next(s, l))
  {
    hide Act, HasUncertainSideEffect;
    if l.Step? && l.id in s.runs && !s.runs[l.id].pc.Leaving? {
      ActIsTame(s.disk, s.flags, l.id, s.runs[l.id], l.choice, |s.log|);
    }
  }

  lemma CrashFreesSlots(s: State)
    ensures Leaked(Next(s, Crash)) == {}
  {
    hide Act;
  }

  /** Futures driven to completion always give their slot back: without a dropped one nothing leaks. */
  lemma {:induction false} CompletedFuturesReleaseTheirSlots(s: State, labels: seq<Label>)
    requires Initial(s) && forall i :: 0 <= i < |labels| ==> !labels[i].DropFuture?
    ensures Leaked(Execute(s, labels)) == {} && NoneDropped(Execute(s, labels))
  {
    if labels != [] {
      hide Inv, Next, Initial, NoneDropped, Leaked;
      var most, last := labels[..|labels| - 1], labels[|labels| - 1];
      CompletedFuturesReleaseTheirSlots(s, most);
      var t := Execute(s, most);
      ReachableIsSafe(s, most);
      NoneDroppedStays(t, last);
      NothingLeaks(t, last);
    }
  }

  lemma NothingLeaks(s: State, l: Label)
    requires Inv(s) && NoneDropped(s) && Leaked(s) == {}
    ensures Leaked(Next(s, l)) == {}
  {
    hide Inv, Next;
    if l == Crash {
      CrashFreesSlots(s);
    } else {
      forall x
        ensures x !in Leaked(Next(s, l))
      {
        LeakedIffDropped(s, l, x);
      }
    }
  }

  /** After two dropped futures every activation is refused until the process restarts. */
  lemma {:induction false} TwoDroppedFuturesRefuseEverything(s: State, labels: seq<Label>, x: Id)
    requires Inv(s) && |Leaked(s)| == MAX_CONCURRENT && Crash !in labels
    ensures Leaked(Execute(s, labels)) == Leaked(s) && !CanActivate(Execute(s, labels), x)
  {
    var t := s;
    if labels == [] {
      FullOf(s.live, Leaked(s));
    } else {
      var most, last := labels[..|labels| - 1], labels[|labels| - 1];
      TwoDroppedFuturesRefuseEverything(s, most, x);
      ExecuteKeepsInv(s, labels);
      ExecuteKeepsInv(s, most);
      assert last in labels;
      LeakedSlotsStay(Execute(s, most), last);
      FullOf(Execute(s, labels).live, Leaked(s));
    }
  }

  lemma FullOf(all: set<Id>, part: set<Id>)
    requires part <= all && |all| <= MAX_CONCURRENT && |part| == MAX_CONCURRENT
    ensures all == part
  {
    assert all == part + (all - part);
    assert |all| == |part| + |all - part|;
  }
}
