/** The shape of every sender stream, what it takes to complete one, and that both ends then agree. */
module SenderTheorems {
  import opened Prelude
  import opened Outcomes
  import opened Wire
  import opened PayloadReceiver
  import opened TransferTheorems
  import opened PayloadSender

  // ----- grammar -----

  /** Where a payload stream stands: between files, inside one with bytes owed, or closed. */
  datatype Grammar =
    | Between(files: nat, bytes: nat)
    | Inside(index: U32, byteLen: U64, left: nat, files: nat, bytes: nat)
    | Over

  function Advance(g: Grammar, req: RequestId, token: Token): Option<Grammar> {
    match (g, token)
    case (Between(files, bytes), Control(FileStart(id, index, byteLen))) =>
      if id == req then Some(Inside(index, byteLen, byteLen, files, bytes)) else None
    // Both closing frames must count exactly the files that were ended.
    case (Between(files, bytes), Control(FetchAbort(id, _, f, b))) =>
      if id == req && f == files && b == bytes then Some(Over) else None
    case (Between(files, bytes), Control(FetchComplete(id, f, b, _))) =>
      if id == req && f == files && b == bytes then Some(Over) else None
    case (Inside(index, byteLen, left, files, bytes), RawByte(_)) =>
      if left > 0 then Some(Inside(index, byteLen, left - 1, files, bytes)) else None
    case (Inside(index, byteLen, left, files, bytes), Control(FileEnd(id, i, _))) =>
      if id == req && i == index && left == 0 then Some(Between(files + 1, bytes + byteLen)) else None
    case _ => None
  }

  function Follow(g: Grammar, req: RequestId, tokens: seq<Token>): Option<Grammar>
    decreases |tokens|
  {
    if tokens == [] then Some(g)
    else
      match Advance(g, req, tokens[0])
      case None => None
      case Some(next) => Follow(next, req, tokens[1..])
  }

  lemma {:induction false} FollowConcat(g: Grammar, req: RequestId, a: seq<Token>, b: seq<Token>)
    ensures Follow(g, req, a + b)
         == if Follow(g, req, a).Some? then Follow(Follow(g, req, a).value, req, b) else None
    decreases |a|
  {
    if a == [] {
      assert a + b == b;
    } else {
      assert (a + b)[1..] == a[1..] + b;
      var next := Advance(g, req, a[0]);
      if next.Some? { FollowConcat(next.value, req, a[1..], b); }
    }
  }

  lemma {:induction false} FollowRaw(g: Grammar, req: RequestId, content: Bytes)
    requires g.Inside? && |content| <= g.left
    ensures Follow(g, req, Raw(content)) == Some(g.(left := g.left - |content|))
    decreases |content|
  {
    if content != [] {
      assert Raw(content)[1..] == Raw(content[1..]);
      FollowRaw(g.(left := g.left - 1), req, content[1..]);
    }
  }

  function FilesBytes(files: seq<LiveFile>): nat {
    if files == [] then 0 else files[0].slot.byteLen + FilesBytes(files[1..])
  }

  /** After one file the stream stands between files again, unless the file broke off. */
  lemma FileFollowsGrammar(sha: Sha, req: RequestId, file: LiveFile, view: FileView, files: nat, bytes: nat)
    ensures var (tokens, ending) := StreamFile(sha, req, file, view);
      var after := Follow(Between(files, bytes), req, tokens);
      match ending
      case Vanished => after == Some(Between(files, bytes))
      case Altered => after == Some(Between(files, bytes))
      case MidStream => after.Some? && after.value.Inside?
      case _ => after == Some(Between(files + 1, bytes + file.slot.byteLen))
  {
    var (tokens, ending) := StreamFile(sha, req, file, view);
    if tokens != [] {
      var content := view.readable[..Min(file.slot.byteLen, |view.readable|)];
      var open := Inside(file.slot.entryIndex, file.slot.byteLen, file.slot.byteLen, files, bytes);
      var tail := tokens[1 + |content|..];
      assert tokens[1..] == Raw(content) + tail;
      FollowRaw(open, req, content);
      FollowConcat(open, req, Raw(content), tail);
      if tail != [] { assert tail == [Control(FileEnd(req, file.slot.entryIndex, sha(content)))] && tail[1..] == []; }
    }
  }

  /** Where a stream of files must stand for it to be closed like this. */
  predicate ReadyFor(after: Option<Grammar>, ending: StreamEnding) {
    match ending
    case AllSent(f, b, _) => after == Some(Between(f, b))
    case AbortWith(_, f, b) => after == Some(Between(f, b))
    case HungUp => after.Some? && after.value.Inside?
  }

  lemma FilesUnfold(sha: Sha, req: RequestId, files: seq<LiveFile>, views: seq<FileView>, sent: U32, bytes: U64,
                    digests: Bytes)
    requires 0 < |files| == |views| && sent + |files| <= U32_MAX && bytes + FilesBytes(files) <= U64_MAX
    ensures bytes + files[0].slot.byteLen + FilesBytes(files[1..]) <= U64_MAX
    ensures var all := StreamFiles(sha, req, files, views, sent, bytes, digests);
      var (tokens, ending) := StreamFile(sha, req, files[0], views[0]);
      if ending != SentAll then all == (tokens, StoppedBy(ending, sent, bytes, files[0].slot.byteLen))
      else
        var rest := StreamFiles(sha, req, files[1..], views[1..], sent + 1, bytes + files[0].slot.byteLen,
                                digests + FileDigest(sha, files[0], views[0]));
        all == (tokens + rest.0, rest.1)
  {
    hide StreamFile, FileDigest;
  }

  lemma StoppedFileIsReady(sha: Sha, req: RequestId, file: LiveFile, view: FileView, sent: U32, bytes: U64)
    requires sent < U32_MAX && bytes + file.slot.byteLen <= U64_MAX
    requires StreamFile(sha, req, file, view).1 != SentAll
    ensures var (tokens, ending) := StreamFile(sha, req, file, view);
      ReadyFor(Follow(Between(sent, bytes), req, tokens), StoppedBy(ending, sent, bytes, file.slot.byteLen))
  {
    FileFollowsGrammar(sha, req, file, view, sent, bytes);
    hide StreamFile, Follow;
  }

  lemma {:induction false} FilesFollowGrammar(sha: Sha, req: RequestId, files: seq<LiveFile>, views: seq<FileView>,
                                              sent: U32, bytes: U64, digests: Bytes)
    requires |files| == |views| && sent + |files| <= U32_MAX && bytes + FilesBytes(files) <= U64_MAX
    ensures var (tokens, ending) := StreamFiles(sha, req, files, views, sent, bytes, digests);
      ReadyFor(Follow(Between(sent, bytes), req, tokens), ending)
    decreases |files|
  {
    if files != [] {
      hide StreamFile, StreamFiles, Follow, FilesBytes, FileDigest, ReadyFor;
      FilesUnfold(sha, req, files, views, sent, bytes, digests);
      var (tokens, ending) := StreamFile(sha, req, files[0], views[0]);
      if ending == SentAll {
        FileFollowsGrammar(sha, req, files[0], views[0], sent, bytes);
        var more := digests + FileDigest(sha, files[0], views[0]);
        FilesFollowGrammar(sha, req, files[1..], views[1..], sent + 1, bytes + files[0].slot.byteLen, more);
        var rest := StreamFiles(sha, req, files[1..], views[1..], sent + 1, bytes + files[0].slot.byteLen, more).0;
        FollowConcat(Between(sent, bytes), req, tokens, rest);
      } else {
        StoppedFileIsReady(sha, req, files[0], views[0], sent, bytes);
      }
    }
  }

  predicate PlanWithinLimits(plan: SourcePlan) { |plan.files| <= U32_MAX && FilesBytes(plan.files) <= U64_MAX }

  lemma ClosingFollowsGrammar(sha: Sha, req: RequestId, plan: SourcePlan, again: Result<SourcePlan, SourceFailure>,
                              ending: StreamEnding, g: Grammar)
    requires ReadyFor(Some(g), ending)
    ensures var after := Follow(g, req, Closing(sha, req, plan, again, ending)); after.Some? && !after.value.Between?
  {
    var last := Closing(sha, req, plan, again, ending);
    assert |last| == 1 ==> last[1..] == [];
  }

  lemma PlanStreamFollowsGrammar(sha: Sha, req: RequestId, plan: SourcePlan, views: seq<FileView>,
                                 again: Result<SourcePlan, SourceFailure>)
    requires |plan.files| == |views| && PlanWithinLimits(plan)
    ensures var after := Follow(Between(0, 0), req, StreamPlan(sha, req, plan, views, again));
      after.Some? && !after.value.Between?
  {
    hide StreamFiles, Follow, Closing, FilesBytes;
    var (tokens, ending) := StreamFiles(sha, req, plan.files, views, 0, 0, []);
    FilesFollowGrammar(sha, req, plan.files, views, 0, 0, []);
    var after := Follow(Between(0, 0), req, tokens);
    FollowConcat(Between(0, 0), req, tokens, Closing(sha, req, plan, again, ending));
    assert after.Some?;
    ClosingFollowsGrammar(sha, req, plan, again, ending, after.value);
  }

  /**
   * However the source changes, what follows a reply alternates files and closes at most once:
   * exactly the announced number of raw bytes lies between a start and its end, a closing frame
   * never falls inside raw bytes, and it counts the ended files and their bytes. A stream that was
   * not cut short inside a file is closed.
   */
  lemma EveryStreamFollowsGrammar(sha: Sha, req: RequestId, plan: SourcePlan, reply: Message, life: SourceLife)
    requires |plan.files| == |life.views| && plan.text.None? && PlanWithinLimits(plan)
    ensures var sent := Serve(sha, req, plan, reply, life);
      var after := Follow(Between(0, 0), req, sent);
      after.Some? && (sent != [] ==> !after.value.Between?)
  {
    hide StreamPlan;
    PlanStreamFollowsGrammar(sha, req, plan, life.views, life.atEnd);
    var sent := Serve(sha, req, plan, reply, life);
    assert |sent| == 1 ==> sent[1..] == [];
  }

  /** A connection that breaks leaves a stream that was in order as far as it went. */
  lemma BrokenStreamFollowsGrammar(g: Grammar, req: RequestId, tokens: seq<Token>, k: nat)
    requires k <= |tokens| && Follow(g, req, tokens).Some?
    ensures Follow(g, req, tokens[..k]).Some?
  {
    assert tokens == tokens[..k] + tokens[k..];
    FollowConcat(g, req, tokens[..k], tokens[k..]);
  }

  // ----- gating -----

  /** The source stood still while one file was streamed. */
  predicate Unchanged(file: LiveFile, view: FileView) {
    var same := Seen(file.metadataDigest);
    && view.pathBefore == same && view.handle == same && view.handleAfter == same && view.pathAfter == same
    && file.slot.byteLen <= |view.readable|
  }

  lemma {:induction false} AllSentMeansUnchanged(sha: Sha, req: RequestId, files: seq<LiveFile>, views: seq<FileView>,
                                                 sent: U32, bytes: U64, digests: Bytes)
    requires |files| == |views|
    ensures StreamFiles(sha, req, files, views, sent, bytes, digests).1.AllSent?
       <==> forall i :: 0 <= i < |files| ==> Unchanged(files[i], views[i])
    decreases |files|
  {
    if files != [] {
      var ending := StreamFile(sha, req, files[0], views[0]).1;
      assert ending == SentAll <==> Unchanged(files[0], views[0]);
      AllSentMeansUnchanged(sha, req, files[1..], views[1..], SaturatingAdd32(sent, 1),
                            SaturatingAdd64(bytes, files[0].slot.byteLen), digests
                              + FileDigest(sha, files[0], views[0]));
      assert forall i :: 0 <= i < |files[1..]| ==> files[1..][i] == files[i + 1] && views[1..][i] == views[i + 1];
      assert forall i :: 1 <= i < |files| ==> files[i] == files[1..][i - 1] && views[i] == views[1..][i - 1];
    }
  }

  predicate Completes(tokens: seq<Token>) {
    exists i :: 0 <= i < |tokens| && tokens[i].Control? && tokens[i].message.FetchComplete?
  }

  lemma {:induction false} FilesNeverComplete(sha: Sha, req: RequestId, files: seq<LiveFile>, views: seq<FileView>,
                                              sent: U32, bytes: U64, digests: Bytes)
    requires |files| == |views|
    ensures !Completes(StreamFiles(sha, req, files, views, sent, bytes, digests).0)
    decreases |files|
  {
    if files != [] {
      var (tokens, ending) := StreamFile(sha, req, files[0], views[0]);
      assert !Completes(tokens);
      if ending == SentAll {
        FilesNeverComplete(sha, req, files[1..], views[1..], SaturatingAdd32(sent, 1),
                           SaturatingAdd64(bytes, files[0].slot.byteLen), digests
                             + FileDigest(sha, files[0], views[0]));
      }
    }
  }

  /** A rebuild that succeeded and found what was announced. */
  predicate Matches(again: Result<SourcePlan, SourceFailure>, plan: SourcePlan) {
    && again.Success?
    && again.value.descriptor == plan.descriptor && again.value.manifest == plan.manifest
    && again.value.manifestSha == plan.manifestSha && again.value.commitment == plan.commitment
  }

  predicate StoodStill(plan: SourcePlan, life: SourceLife) {
    && |plan.files| == |life.views|
    && Matches(life.atAdmission, plan) && Matches(life.atEnd, plan)
    && forall i :: 0 <= i < |plan.files| ==> Unchanged(plan.files[i], life.views[i])
  }

  /**
   * Nothing is sent but to an accepted request, and files are declared complete exactly when the
   * rebuilt plans matched the announced one and every file matched before and after its bytes.
   */
  lemma CompleteIffStoodStill(sha: Sha, req: RequestId, plan: SourcePlan, reply: Message, life: SourceLife)
    requires |plan.files| == |life.views| && plan.text.None?
    ensures Serve(sha, req, plan, reply, life) != [] ==> reply == FetchAdmission(req, AdmissionCode.Accepted)
    ensures Completes(Serve(sha, req, plan, reply, life))
       <==> reply == FetchAdmission(req, AdmissionCode.Accepted) && StoodStill(plan, life)
  {
    hide StreamFile, StreamFiles;
    var (tokens, ending) := StreamFiles(sha, req, plan.files, life.views, 0, 0, []);
    AllSentMeansUnchanged(sha, req, plan.files, life.views, 0, 0, []);
    FilesNeverComplete(sha, req, plan.files, life.views, 0, 0, []);
    var last := Closing(sha, req, plan, life.atEnd, ending);
    var all := tokens + last;
    if |last| == 1 {
      assert all[|tokens|] == last[0];
      assert forall i :: 0 <= i < |tokens| ==> all[i] == tokens[i];
    } else {
      assert all == tokens;
    }
  }

  // ----- both ends agree -----

  function SlotsOf(files: seq<LiveFile>): (slots: seq<Slot>)
    ensures |slots| == |files| && forall i :: 0 <= i < |files| ==> slots[i] == files[i].slot
  {
    seq(|files|, i requires 0 <= i < |files| => files[i].slot)
  }

  function Read(file: LiveFile, view: FileView): Bytes {
    view.readable[..Min(file.slot.byteLen, |view.readable|)]
  }

  /** The bytes each file held while it was streamed. */
  function ContentsOf(files: seq<LiveFile>, views: seq<FileView>): (contents: seq<Bytes>)
    requires |files| == |views|
    ensures |contents| == |files| && forall i :: 0 <= i < |files| ==> contents[i] == Read(files[i], views[i])
  {
    seq(|files|, i requires 0 <= i < |files| => Read(files[i], views[i]))
  }

  lemma {:induction false} FilesBytesAreSlotBytes(files: seq<LiveFile>)
    ensures FilesBytes(files) == SlotBytes(SlotsOf(files))
  {
    if files != [] {
      FilesBytesAreSlotBytes(files[1..]);
      assert SlotsOf(files)[1..] == SlotsOf(files[1..]);
    }
  }

  lemma UnchangedFileSpellsItself(sha: Sha, req: RequestId, file: LiveFile, view: FileView)
    requires Unchanged(file, view)
    ensures StreamFile(sha, req, file, view) == (FileTokens(sha, req, file.slot, Read(file, view)), SentAll)
    ensures FileDigest(sha, file, view) == sha(Read(file, view))
  {}

  lemma FirstFileIsSent(sha: Sha, req: RequestId, files: seq<LiveFile>, views: seq<FileView>, sent: U32, bytes: U64,
                        digests: Bytes)
    requires 0 < |files| == |views| && sent + |files| <= U32_MAX && bytes + FilesBytes(files) <= U64_MAX
    requires Unchanged(files[0], views[0])
    ensures var content := Read(files[0], views[0]);
      var rest := StreamFiles(sha, req, files[1..], views[1..], sent + 1, bytes + files[0].slot.byteLen, digests
        + sha(content));
      StreamFiles(sha, req, files, views, sent, bytes, digests)
      == (FileTokens(sha, req, files[0].slot, content) + rest.0, rest.1)
  {
    UnchangedFileSpellsItself(sha, req, files[0], views[0]);
    hide StreamFile, FileTokens, FileDigest, Unchanged, Read;
  }

  lemma {:induction false} UnchangedFilesSpellThemselves(
      sha: Sha, req: RequestId, files: seq<LiveFile>, views: seq<FileView>, sent: U32, bytes: U64, digests: Bytes)
    requires |files| == |views| && sent + |files| <= U32_MAX && bytes + FilesBytes(files) <= U64_MAX
    requires forall i :: 0 <= i < |files| ==> Unchanged(files[i], views[i])
    ensures var contents := ContentsOf(files, views);
      StreamFiles(sha, req, files, views, sent, bytes, digests)
      == (FilesTokens(sha, req, SlotsOf(files), contents),
          AllSent(sent + |files|, bytes + FilesBytes(files), digests + Digests(sha, contents)))
    decreases |files|
  {
    hide *;
    if files == [] {
      NothingSpellsNothing(sha, req, views, sent, bytes, digests);
    } else {
      SpelledFilesUnfold(sha, req, files, views, digests);
      FirstFileIsSent(sha, req, files, views, sent, bytes, digests);
      assert forall i :: 0 <= i < |files[1..]| ==> files[1..][i] == files[i + 1] && views[1..][i] == views[i + 1];
      UnchangedFilesSpellThemselves(sha, req, files[1..], views[1..], sent + 1, bytes + files[0].slot.byteLen,
                                    digests + sha(Read(files[0], views[0])));
    }
  }

  lemma NothingSpellsNothing(sha: Sha, req: RequestId, views: seq<FileView>, sent: U32, bytes: U64, digests: Bytes)
    requires views == []
    ensures FilesBytes([]) == 0
    ensures StreamFiles(sha, req, [], views, sent, bytes, digests)
         == (FilesTokens(sha, req, SlotsOf([]), ContentsOf([], views)),
             AllSent(sent, bytes, digests + Digests(sha, ContentsOf([], views))))
  {
    assert digests + [] == digests;
  }

  lemma SpelledFilesUnfold(sha: Sha, req: RequestId, files: seq<LiveFile>, views: seq<FileView>, digests: Bytes)
    requires 0 < |files| == |views|
    ensures FilesBytes(files) == files[0].slot.byteLen + FilesBytes(files[1..])
    ensures var content, contents := Read(files[0], views[0]), ContentsOf(files[1..], views[1..]);
      && FilesTokens(sha, req, SlotsOf(files), ContentsOf(files, views))
         == FileTokens(sha, req, files[0].slot, content) + FilesTokens(sha, req, SlotsOf(files[1..]), contents)
      && digests + sha(content) + Digests(sha, contents) == digests + Digests(sha, ContentsOf(files, views))
  {
    hide FileTokens, Read;
    var slots, contents := SlotsOf(files), ContentsOf(files, views);
    assert slots[1..] == SlotsOf(files[1..]) && contents[1..] == ContentsOf(files[1..], views[1..]);
    var head, tail := sha(contents[0]), Digests(sha, contents[1..]);
    assert Digests(sha, contents) == head + tail;
    assert digests + head + tail == digests + (head + tail);
  }

  /** An unchanged source puts exactly the accepted transcript of its contents on the wire. */
  lemma UnchangedSourceSendsTranscript(sha: Sha, req: RequestId, plan: SourcePlan, life: SourceLife)
    requires StoodStill(plan, life) && plan.text.None? && PlanWithinLimits(plan)
    ensures var slots, contents := SlotsOf(plan.files), ContentsOf(plan.files, life.views);
      && Fits(slots, contents) && WithinLimits(slots)
      && Serve(sha, req, plan, FetchAdmission(req, AdmissionCode.Accepted), life)
         == Transcript(sha, req, ManifestShaOf(plan), slots, contents)
  {
    hide StreamFiles, FilesTokens;
    FilesBytesAreSlotBytes(plan.files);
    UnchangedFilesSpellThemselves(sha, req, plan.files, life.views, 0, 0, []);
    var contents := ContentsOf(plan.files, life.views);
    assert [] + Digests(sha, contents) == Digests(sha, contents);
    assert forall i :: 0 <= i < |plan.files| ==> Unchanged(plan.files[i], life.views[i]);
  }

  /** The limits every built plan respects. */
  predicate Transferable(slots: seq<Slot>) {
    && |slots| <= MAX_MANIFEST_ENTRIES && SlotBytes(slots) <= MAX_TRANSFER_BYTES
    && forall i :: 0 <= i < |slots| ==> slots[i].entryIndex < MAX_MANIFEST_ENTRIES && slots[i].byteLen <= MAX_FILE_BYTES
  }

  ghost predicate IsDigest(sha: Sha) { forall b: Bytes :: |sha(b)| == 32 }

  lemma FileIsSendable(c: Codec, sha: Sha, req: RequestId, slot: Slot, content: Bytes)
    requires Lawful(c) && IsDigest(sha)
    requires slot.entryIndex < MAX_MANIFEST_ENTRIES && slot.byteLen <= MAX_FILE_BYTES
    ensures Sendable(c, FileTokens(sha, req, slot, content))
  {
    var start, end := FileStart(req, slot.entryIndex, slot.byteLen), FileEnd(req, slot.entryIndex, sha(content));
    assert IsSmall(start) && IsSmall(end);
    assert Sendable(c, [Control(start)]) && Sendable(c, [Control(end)]) && Sendable(c, Raw(content));
    hide Lawful, EncodeFrame, Sendable;
    SendableConcat(c, Raw(content), [Control(end)]);
    SendableConcat(c, [Control(start)], Raw(content) + [Control(end)]);
  }

  lemma {:induction false} FilesAreSendable(c: Codec, sha: Sha, req: RequestId, slots: seq<Slot>, contents: seq<Bytes>)
    requires Lawful(c) && IsDigest(sha) && |slots| == |contents|
    requires forall i :: 0 <= i < |slots| ==>
        slots[i].entryIndex < MAX_MANIFEST_ENTRIES && slots[i].byteLen <= MAX_FILE_BYTES
    ensures Sendable(c, FilesTokens(sha, req, slots, contents))
    decreases |slots|
  {
    if slots != [] {
      hide FileTokens;
      FileIsSendable(c, sha, req, slots[0], contents[0]);
      FilesAreSendable(c, sha, req, slots[1..], contents[1..]);
    }
  }

  /**
   * End to end: for every source that stands still while it is served, however the bytes are cut
   * into writes and reads, an admitted receiver stages exactly the contents that were read, and
   * stops exactly at the end of the stream.
   */
  lemma UnchangedSourceArrives(c: Codec, sha: Sha, req: RequestId, plan: SourcePlan, life: SourceLife, rest: Bytes)
    requires Lawful(c) && IsDigest(sha)
    requires StoodStill(plan, life) && plan.text.None? && Transferable(SlotsOf(plan.files))
    ensures var sent := Serve(sha, req, plan, FetchAdmission(req, AdmissionCode.Accepted), life);
      && Sendable(c, sent)
      && Receive(c, sha, req, ManifestShaOf(plan), SlotsOf(plan.files), Render(c, sent) + rest)
         == Staged(ContentsOf(plan.files, life.views), rest)
  {
    hide Serve, Receive, FilesTokens, Reads, Render;
    var slots, contents := SlotsOf(plan.files), ContentsOf(plan.files, life.views);
    FilesBytesAreSlotBytes(plan.files);
    UnchangedSourceSendsTranscript(sha, req, plan, life);
    FilesAreSendable(c, sha, req, slots, contents);
    var last := Completion(sha, req, ManifestShaOf(plan), slots, contents);
    assert IsSmall(last) && EncodeFrame(c, last).Some?;
    var sent := Transcript(sha, req, ManifestShaOf(plan), slots, contents);
    assert Sendable(c, sent);
    RenderedStreamReadsBack(c, sent, rest);
    StagedIffTranscript(c, sha, req, ManifestShaOf(plan), slots, Render(c, sent) + rest, contents, rest);
  }
}
