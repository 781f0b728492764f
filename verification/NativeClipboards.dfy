/** The native clipboard decision path: what an answer says about the clipboard's content. */
module NativeClipboards {
  import opened Prelude

  /** `Ok`, a definite error, an uncertain error. */
  datatype ClipboardAnswer = Placed | Definite | Unsure

  /** One request: what is to be placed, what an emptied clipboard holds, and which path is taken. */
  datatype Job<C> = TextJob(goal: C) | FilesJob(goal: C, blank: C, empty: bool)

  /** Where a request stands: in the queue, at one of the worker's native calls, or answered. */
  datatype CallPoint = Queued | Setting | ReadingBack | Clearing | Listing | Replying(answer: ClipboardAnswer)

  /** How the next thing goes. A failing write, or another program, may leave anything behind. */
  datatype NativeEvent<C> = Works | Fails | Leaves(content: C) | QueueRefuses | WorkerStops

  datatype CallStep<C> = Going(at: CallPoint, content: C) | Answered(answer: ClipboardAnswer, content: C)

  /**
   * One step of `set_text` or `set_files`: the queue, `write_text_on_native` with its read-back or
   * `write_files_on_native` with its clear, and the reply. Silence after acceptance is uncertain.
   */
  function NativeStep<C(==)>(job: Job<C>, at: CallPoint, content: C, e: NativeEvent<C>): CallStep<C> {
    match at
    case Queued =>
      if e.QueueRefuses? then Answered(Definite, content)
      else if e.WorkerStops? then Answered(Unsure, content)
      else Going(if job.TextJob? then Setting else if job.empty then Replying(Definite) else Clearing, content)
    case Setting =>
      (match e
       case Works => Going(ReadingBack, job.goal)
       case WorkerStops => Answered(Unsure, content)
       // A failed write may already have emptied the clipboard.
       case Leaves(left) => Going(Replying(Unsure), left)
       case _ => Going(Replying(Unsure), content))
    case ReadingBack =>
      (match e
       case Works => Going(Replying(if content == job.goal then Placed else Unsure), content)
       case WorkerStops => Answered(Unsure, content)
       case Leaves(left) => Going(Replying(Unsure), left)
       case _ => Going(Replying(Unsure), content))
    case Clearing =>
      (match e
       case Works => if job.FilesJob? then Going(Listing, job.blank) else Going(at, content)
       case WorkerStops => Answered(Unsure, content)
       // A failed clear leaves the clipboard alone.
       case _ => Going(Replying(Definite), content))
    case Listing =>
      (match e
       case Works => Going(Replying(Placed), job.goal)
       case WorkerStops => Answered(Unsure, content)
       case Leaves(left) => Going(Replying(Unsure), left)
       case _ => Going(Replying(Unsure), content))
    case Replying(answer) => Answered(if e.WorkerStops? then Unsure else answer, content)
  }

  /** The points a request only reaches without having changed the clipboard. */
  predicate Innocent(at: CallPoint) { at.Queued? || at.Setting? || at.Clearing? || at == Replying(Definite) }

  /** The one step at which a success is certain. */
  predicate Settles(at: CallPoint) { at == Replying(Placed) }

  /** Innocence is never regained, an innocent step changes nothing, and only an innocent request answers definitely. */
  lemma StepKeepsInnocence<C>(job: Job<C>, at: CallPoint, content: C, e: NativeEvent<C>)
    ensures var next := NativeStep(job, at, content, e);
      && (next.Going? && Innocent(next.at) ==> Innocent(at) && next.content == content)
      && (next.Answered? && next.answer == Definite ==> Innocent(at) && next.content == content)
  {}

  lemma StepKeepsGoal<C>(job: Job<C>, at: CallPoint, content: C, e: NativeEvent<C>)
    requires Settles(at) ==> content == job.goal
    ensures var next := NativeStep(job, at, content, e);
      && (next.Going? && Settles(next.at) ==> next.content == job.goal)
      && (next.Answered? && next.answer == Placed ==> next.content == job.goal)
  {}

  /** A request from a given point, through some events; it stops when it is answered. */
  function NativeRun<C(==)>(job: Job<C>, at: CallPoint, content: C, events: seq<NativeEvent<C>>): CallStep<C>
    decreases |events|
  {
    if events == [] then Going(at, content)
    else
      var next := NativeStep(job, at, content, events[0]);
      if next.Answered? then next else NativeRun(job, next.at, next.content, events[1..])
  }

  lemma {:induction false} RunFrom<C>(job: Job<C>, at: CallPoint, content: C, start: C, events: seq<NativeEvent<C>>)
    requires (Innocent(at) ==> content == start) && (Settles(at) ==> content == job.goal)
    ensures var end := NativeRun(job, at, content, events);
      end.Answered? ==>
        (end.answer == Definite ==> end.content == start) && (end.answer == Placed ==> end.content == job.goal)
    decreases |events|
  {
    if events != [] {
      StepKeepsInnocence(job, at, content, events[0]);
      StepKeepsGoal(job, at, content, events[0]);
      var next := NativeStep(job, at, content, events[0]);
      if next.Going? { RunFrom(job, next.at, next.content, start, events[1..]); }
    }
  }

  /** A definite error left the clipboard as it was; a success placed what was asked for. */
  lemma AnswersAreHonest<C>(job: Job<C>, content: C, events: seq<NativeEvent<C>>)
    ensures var end := NativeRun(job, Queued, content, events);
      end.Answered? ==>
        (end.answer == Definite ==> end.content == content) && (end.answer == Placed ==> end.content == job.goal)
  {
    RunFrom(job, Queued, content, content, events);
  }

  // ----- which answer a request gets -----

  /** The queue refuses, or takes the command of a worker that then stops. */
  lemma QueueAnswers<C>(job: Job<C>, content: C)
    ensures NativeRun(job, Queued, content, [QueueRefuses]) == Answered(Definite, content)
    ensures NativeRun(job, Queued, content, [WorkerStops]) == Answered(Unsure, content)
  {}

  /** A worker that takes the command goes on from its first call. */
  lemma AcceptedRun<C>(job: Job<C>, at: CallPoint, content: C, events: seq<NativeEvent<C>>)
    requires at == if job.TextJob? then Setting else if job.empty then Replying(Definite) else Clearing
    ensures NativeRun(job, Queued, content, [Works] + events) == NativeRun(job, at, content, events)
  {
    assert ([Works] + events)[1..] == events;
  }

  lemma LastStep<C>(job: Job<C>, at: CallPoint, content: C, e: NativeEvent<C>)
    requires NativeStep(job, at, content, e).Answered?
    ensures NativeRun(job, at, content, [e]) == NativeStep(job, at, content, e)
  {}

  /**
   * A text is placed exactly when the write works, the read-back works and finds the text, and the
   * worker lives to say so; otherwise the answer is uncertain.
   */
  lemma TextAnswers<C>(goal: C, content: C, write: NativeEvent<C>, back: NativeEvent<C>, reply: NativeEvent<C>)
    ensures write.WorkerStops? ==> NativeRun(TextJob(goal), Setting, content, [write]) == Answered(Unsure, content)
    ensures !write.Works? && !write.WorkerStops? ==>
      NativeRun(TextJob(goal), Setting, content, [write, reply]) == Answered(Unsure, AfterFailure(content, write))
    ensures write.Works? && back.Works? ==>
      NativeRun(TextJob(goal), Setting, content, [write, back, reply])
      == Answered(if reply.WorkerStops? then Unsure else Placed, goal)
    ensures write.Works? && back.WorkerStops? ==>
      NativeRun(TextJob(goal), Setting, content, [write, back]) == Answered(Unsure, goal)
    ensures write.Works? && !back.Works? && !back.WorkerStops? ==>
      NativeRun(TextJob(goal), Setting, content, [write, back, reply]) == Answered(Unsure, AfterFailure(goal, back))
  {
    assert [write, reply][1..] == [reply] && [write, back][1..] == [back];
    assert [write, back, reply][1..] == [back, reply] && [back, reply][1..] == [reply];
    if write.Works? && !back.WorkerStops? {
      var job := TextJob(goal);
      var next := NativeStep(job, ReadingBack, goal, back);
      TwoSteps(job, ReadingBack, goal, back, reply);
      LastStep(job, next.at, next.content, reply);
    }
  }

  /** What a failing write leaves in the clipboard. */
  function AfterFailure<C>(content: C, e: NativeEvent<C>): C { if e.Leaves? then e.content else content }

  /**
   * Files are placed exactly when clear and list work and the worker lives to say so; a clear that
   * fails is a definite failure, and a list that fails after it is not.
   */
  lemma FilesAnswers<C>(goal: C, blank: C, content: C, clear: NativeEvent<C>, list: NativeEvent<C>,
                        reply: NativeEvent<C>)
    ensures var job := FilesJob(goal, blank, false);
      && (clear.WorkerStops? ==> NativeRun(job, Clearing, content, [clear]) == Answered(Unsure, content))
      && (!clear.Works? && !clear.WorkerStops? ==>
            NativeRun(job, Clearing, content, [clear, reply])
            == Answered(if reply.WorkerStops? then Unsure else Definite, content))
      && (clear.Works? && list.Works? ==>
            NativeRun(job, Clearing, content, [clear, list, reply])
            == Answered(if reply.WorkerStops? then Unsure else Placed, goal))
      && (clear.Works? && list.WorkerStops? ==>
            NativeRun(job, Clearing, content, [clear, list]) == Answered(Unsure, blank))
      && (clear.Works? && !list.Works? && !list.WorkerStops? ==>
            NativeRun(job, Clearing, content, [clear, list, reply]) == Answered(Unsure, AfterFailure(blank, list)))
  {
    var job := FilesJob(goal, blank, false);
    assert [clear, reply][1..] == [reply] && [clear, list][1..] == [list];
    assert [clear, list, reply][1..] == [list, reply] && [list, reply][1..] == [reply];
    if clear.Works? && !list.WorkerStops? {
      var next := NativeStep(job, Listing, blank, list);
      TwoSteps(job, Listing, blank, list, reply);
      LastStep(job, next.at, next.content, reply);
    }
  }

  /** An empty list is refused without touching anything. */
  lemma EmptyListAnswers<C>(goal: C, blank: C, content: C, reply: NativeEvent<C>)
    ensures NativeRun(FilesJob(goal, blank, true), Queued, content, [Works, reply])
         == Answered(if reply.WorkerStops? then Unsure else Definite, content)
  {
    assert [Works, reply][1..] == [reply];
  }

  // ----- the worker's own code -----

  datatype Content = Empty | TextItem(text: string) | FilesItem(paths: seq<string>) | OtherItem(token: nat)

  datatype WriteError = WriteError(nativeWriteSucceeded: bool)

  function AnswerOf(r: Result<(), WriteError>): ClipboardAnswer {
    match r
    case Success(_) => Placed
    case Failure(error) => if error.nativeWriteSucceeded then Unsure else Definite
  }

  datatype Command = PlaceText(text: string) | PlaceFiles(paths: seq<string>)

  function JobOf(command: Command): Job<Content> {
    match command
    case PlaceText(text) => TextJob(TextItem(text))
    case PlaceFiles(paths) => FilesJob(FilesItem(paths), Empty, paths == [])
  }

  lemma TwoSteps<C>(job: Job<C>, at: CallPoint, content: C, first: NativeEvent<C>, second: NativeEvent<C>)
    requires NativeStep(job, at, content, first).Going?
    ensures var next := NativeStep(job, at, content, first);
      NativeRun(job, at, content, [first, second]) == NativeRun(job, next.at, next.content, [second])
  {
    assert [first, second][1..] == [second];
  }

  lemma {:induction false} RunConcat<C>(job: Job<C>, at: CallPoint, content: C, a: seq<NativeEvent<C>>,
                                        b: seq<NativeEvent<C>>)
    requires NativeRun(job, at, content, a).Going?
    ensures NativeRun(job, at, content, a + b)
         == NativeRun(job, NativeRun(job, at, content, a).at, NativeRun(job, at, content, a).content, b)
    decreases |a|
  {
    if a == [] {
      assert a + b == b;
    } else {
      assert (a + b)[1..] == a[1..] + b;
      var next := NativeStep(job, at, content, a[0]);
      RunConcat(job, next.at, next.content, a[1..], b);
    }
  }

  /** The system clipboard. Its calls may fail; other programs may write between two of them. */
  class NativeClipboard {
    var content: Content

    /** A failed call may have emptied the clipboard before it failed. */
    method SetText(text: string) returns (ok: bool)
      modifies this
      ensures ok ==> content == TextItem(text)
    {
      ok := *;
      var left: Content := *;
      content := if ok then TextItem(text) else left;
    }

    method GetText() returns (r: Option<string>)
      ensures r.Some? ==> content == TextItem(r.value)
    {
      var ok: bool := *;
      r := if ok && content.TextItem? then Some(content.text) else None;
    }

    /** A failed clear leaves the clipboard alone. */
    method Clear() returns (ok: bool)
      modifies this
      ensures if ok then content == Empty else content == old(content)
    {
      ok := *;
      content := if ok then Empty else content;
    }

    method SetFileList(paths: seq<string>) returns (ok: bool)
      modifies this
      ensures ok ==> content == FilesItem(paths)
    {
      ok := *;
      var left: Content := *;
      content := if ok then FilesItem(paths) else left;
    }

    /** Another program writes. */
    method Interfere()
      modifies this
    {
      var left: Content := *;
      content := left;
    }

    /** `write_text_on_native` is a run of the text path: every failure is uncertain. */
    method WriteText(text: string) returns (r: Result<(), WriteError>, ghost events: seq<NativeEvent<Content>>)
      modifies this
      ensures NativeRun(TextJob(TextItem(text)), Setting, old(content), events) == Going(Replying(AnswerOf(r)), content)
      ensures AnswerOf(r) != Definite
    {
      var ok := SetText(text);
      if !ok {
        events := [Leaves(content)];
        return Failure(WriteError(true)), events;
      }
      Interfere();
      var observed := GetText();
      if observed.None? || observed.value != text {
        events := [Works, Leaves(content)];
        TwoSteps(TextJob(TextItem(text)), Setting, old(content), Works, events[1]);
        return Failure(WriteError(true)), events;
      }
      events := [Works, Works];
      TwoSteps(TextJob(TextItem(text)), Setting, old(content), Works, Works);
      r := Success(());
    }

    /** `write_files_on_native` is a run of the file path. */
    method WriteFiles(paths: seq<string>) returns (r: Result<(), WriteError>, ghost events: seq<NativeEvent<Content>>)
      modifies this
      ensures paths == [] ==> r == Failure(WriteError(false)) && content == old(content)
      ensures paths != [] ==>
                NativeRun(FilesJob(FilesItem(paths), Empty, false), Clearing, old(content), events)
                == Going(Replying(AnswerOf(r)), content)
    {
      events := [];
      if paths == [] { return Failure(WriteError(false)), events; }
      var cleared := Clear();
      if !cleared {
        events := [Fails];
        return Failure(WriteError(false)), events;
      }
      var placed := SetFileList(paths);
      events := [Works, if placed then Works else Leaves(content)];
      TwoSteps(FilesJob(FilesItem(paths), Empty, false), Clearing, old(content), Works, events[1]);
      r := if placed then Success(()) else Failure(WriteError(true));
    }
  }

  /** Where a command can get stuck on its way to the worker thread. */
  datatype Delivery = Delivered | QueueFull | WorkerGone | WorkerStopsBefore | WorkerStopsMidway | WorkerStopsAfter

  /** The worker takes a command, makes the first of its two native calls and stops. */
  method BreakOff(clipboard: NativeClipboard, command: Command) returns (ghost events: seq<NativeEvent<Content>>)
    modifies clipboard
    ensures NativeRun(JobOf(command), Queued, old(clipboard.content), events) == Answered(Unsure, clipboard.content)
  {
    ghost var before := clipboard.content;
    var ok := true;
    match command {
      case PlaceText(text) => ok := clipboard.SetText(text);
      case PlaceFiles(paths) => if paths != [] { ok := clipboard.Clear(); }
    }
    ghost var rest := [WorkerStops];
    if command != PlaceFiles([]) {
      ghost var first := if ok then Works else Leaves(clipboard.content);
      rest := [first, WorkerStops];
      ghost var next := NativeStep(JobOf(command), Queued, before, Works);
      TwoSteps(JobOf(command), next.at, before, first, WorkerStops);
    }
    RunConcat(JobOf(command), Queued, before, [Works], rest);
    events := [Works] + rest;
  }

  /** `ClipboardWorker::set_text` and `set_files` are runs of the request from the queue to the answer. */
  method Request(clipboard: NativeClipboard, command: Command, delivery: Delivery)
    returns (answer: ClipboardAnswer, ghost events: seq<NativeEvent<Content>>)
    modifies clipboard
    ensures NativeRun(JobOf(command), Queued, old(clipboard.content), events) == Answered(answer, clipboard.content)
    ensures delivery == QueueFull || delivery == WorkerGone ==> answer == Definite
    ensures delivery == WorkerStopsBefore || delivery == WorkerStopsMidway || delivery == WorkerStopsAfter ==>
              answer == Unsure
  {
    if delivery == QueueFull || delivery == WorkerGone { return Definite, [QueueRefuses]; }
    if delivery == WorkerStopsBefore { return Unsure, [WorkerStops]; }
    if delivery == WorkerStopsMidway {
      events := BreakOff(clipboard, command);
      return Unsure, events;
    }
    ghost var before := clipboard.content;
    var written;
    match command {
      case PlaceText(text) =>
        written, events := clipboard.WriteText(text);
      case PlaceFiles(paths) =>
        written, events := clipboard.WriteFiles(paths);
        if paths == [] { events := []; }
    }
    answer := if delivery == WorkerStopsAfter then Unsure else AnswerOf(written);
    ghost var last := [if delivery == WorkerStopsAfter then WorkerStops else Works];
    assert ([Works] + events)[1..] == events && last[1..] == [];
    RunConcat(JobOf(command), Queued, before, [Works] + events, last);
    events := [Works] + events + last;
  }
}
