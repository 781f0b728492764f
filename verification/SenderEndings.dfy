/** How a stream ends when the source did not stand still: which frame closes it, and what it counts. */
module SenderEndings {
  import opened Prelude
  import opened Outcomes
  import opened Wire
  import opened PayloadReceiver
  import opened TransferTheorems
  import opened PayloadSender
  import opened SenderTheorems

  /** How a rebuild that failed, or found something else than was announced, is to be reported. */
  function CodeFor(again: Result<SourcePlan, SourceFailure>): AbortCode {
    match again
    case Failure(Unavailable) => SourceUnavailableAbort
    case Failure(Malformed) => InternalErrorAbort
    case Failure(Changed) => SourceChangedAbort
    case Success(_) => SourceChangedAbort
  }

  /** A source that no longer matches when the receiver has accepted is reported before any file. */
  lemma MismatchAtAdmissionIsReported(sha: Sha, req: RequestId, plan: SourcePlan, life: SourceLife)
    requires |plan.files| == |life.views| && plan.text.None? && !Matches(life.atAdmission, plan)
    ensures Serve(sha, req, plan, FetchAdmission(req, AdmissionCode.Accepted), life)
         == [Control(FetchAbort(req, CodeFor(life.atAdmission), 0, 0))]
  {}

  /** One that no longer matches after the last file is reported with all files counted. */
  lemma MismatchAtEndIsReported(sha: Sha, req: RequestId, plan: SourcePlan, life: SourceLife)
    requires |plan.files| == |life.views| && plan.text.None? && PlanWithinLimits(plan)
    requires Matches(life.atAdmission, plan) && !Matches(life.atEnd, plan)
    requires forall i :: 0 <= i < |plan.files| ==> Unchanged(plan.files[i], life.views[i])
    ensures Serve(sha, req, plan, FetchAdmission(req, AdmissionCode.Accepted), life)
         == FilesTokens(sha, req, SlotsOf(plan.files), ContentsOf(plan.files, life.views))
            + [Control(FetchAbort(req, CodeFor(life.atEnd), |plan.files|, FilesBytes(plan.files)))]
  {
    hide StreamFiles, FilesTokens, FilesBytes, Digests;
    UnchangedFilesSpellThemselves(sha, req, plan.files, life.views, 0, 0, []);
  }

  // ----- the first file that changed -----

  /** The first `k` files on the wire. */
  function Sent(sha: Sha, req: RequestId, files: seq<LiveFile>, views: seq<FileView>, k: nat): seq<Token>
    requires k <= |files| == |views|
  {
    FilesTokens(sha, req, SlotsOf(files[..k]), ContentsOf(files[..k], views[..k]))
  }

  lemma SentUnfolds(sha: Sha, req: RequestId, files: seq<LiveFile>, views: seq<FileView>, k: nat)
    requires 0 < k <= |files| == |views|
    ensures files[k..] == files[1..][k - 1..] && views[k..] == views[1..][k - 1..]
    ensures FilesBytes(files[..k]) == files[0].slot.byteLen + FilesBytes(files[1..][..k - 1])
    ensures Sent(sha, req, files, views, k)
         == FileTokens(sha, req, files[0].slot, Read(files[0], views[0]))
            + Sent(sha, req, files[1..], views[1..], k - 1)
  {
    SpelledFilesUnfold(sha, req, files[..k], views[..k], []);
    assert files[..k][1..] == files[1..][..k - 1] && views[..k][1..] == views[1..][..k - 1];
    hide FilesTokens, FileTokens, FilesBytes, Read;
  }

  lemma StillUnchanged(files: seq<LiveFile>, views: seq<FileView>, k: nat)
    requires 0 < k <= |files| == |views| && forall i :: 0 <= i < k ==> Unchanged(files[i], views[i])
    ensures Unchanged(files[0], views[0]) && forall i :: 0 <= i < k - 1 ==> Unchanged(files[1..][i], views[1..][i])
  {
    hide Unchanged;
    assert forall i :: 0 <= i < k - 1 ==> files[1..][i] == files[i + 1] && views[1..][i] == views[i + 1];
  }

  lemma {:induction false} BytesOfParts(files: seq<LiveFile>, k: nat)
    requires k <= |files|
    ensures FilesBytes(files) == FilesBytes(files[..k]) + FilesBytes(files[k..])
  {
    if k == 0 {
      assert files[0..] == files;
    } else {
      BytesOfParts(files[1..], k - 1);
      assert files[..k][1..] == files[1..][..k - 1] && files[1..][k - 1..] == files[k..];
    }
  }

  /** The first `k` files are sent in full, and the rest of the stream is that of the other files. */
  ghost predicate SplitsAt(sha: Sha, req: RequestId, files: seq<LiveFile>, views: seq<FileView>, k: nat, sent: U32,
                           bytes: U64, digests: Bytes, so: Bytes)
  {
    && k <= |files| == |views| && sent + k <= U32_MAX && bytes + FilesBytes(files[..k]) <= U64_MAX
    && var rest := StreamFiles(sha, req, files[k..], views[k..], sent + k, bytes + FilesBytes(files[..k]), so);
       StreamFiles(sha, req, files, views, sent, bytes, digests) == (Sent(sha, req, files, views, k) + rest.0, rest.1)
  }

  lemma SplitsOneLater(sha: Sha, req: RequestId, files: seq<LiveFile>, views: seq<FileView>, k: nat, sent: U32,
                       bytes: U64, digests: Bytes, so: Bytes)
    requires 0 < k <= |files| == |views| && sent + |files| <= U32_MAX && bytes + FilesBytes(files) <= U64_MAX
    requires Unchanged(files[0], views[0]) && bytes + files[0].slot.byteLen <= U64_MAX
    requires SplitsAt(sha, req, files[1..], views[1..], k - 1, sent + 1, bytes + files[0].slot.byteLen,
                      digests + sha(Read(files[0], views[0])), so)
    ensures SplitsAt(sha, req, files, views, k, sent, bytes, digests, so)
  {
    hide StreamFiles, Sent, FilesBytes, Read, Unchanged;
    SentUnfolds(sha, req, files, views, k);
    FirstFileIsSent(sha, req, files, views, sent, bytes, digests);
    var rest := StreamFiles(sha, req, files[k..], views[k..], sent + k, bytes + FilesBytes(files[..k]), so);
    ConcatIsAssociative(FileTokens(sha, req, files[0].slot, Read(files[0], views[0])),
                        Sent(sha, req, files[1..], views[1..], k - 1), rest.0);
  }

  /** Files that stood still are on the wire in full when the first other one comes up. */
  lemma {:induction false} UnchangedFilesComeFirst(
      sha: Sha, req: RequestId, files: seq<LiveFile>, views: seq<FileView>, k: nat, sent: U32, bytes: U64,
      digests: Bytes) returns (so: Bytes)
    requires k <= |files| == |views| && sent + |files| <= U32_MAX && bytes + FilesBytes(files) <= U64_MAX
    requires forall i :: 0 <= i < k ==> Unchanged(files[i], views[i])
    ensures SplitsAt(sha, req, files, views, k, sent, bytes, digests, so)
    decreases k
  {
    if k == 0 {
      hide StreamFiles;
      so := digests;
      NothingComesFirst(sha, req, files, views, sent, bytes, digests);
    } else {
      assert FilesBytes(files) == files[0].slot.byteLen + FilesBytes(files[1..]);
      hide *;
      StillUnchanged(files, views, k);
      so := UnchangedFilesComeFirst(sha, req, files[1..], views[1..], k - 1, sent + 1, bytes + files[0].slot.byteLen,
                                    digests + sha(Read(files[0], views[0])));
      SplitsOneLater(sha, req, files, views, k, sent, bytes, digests, so);
    }
  }

  lemma NothingComesFirst(sha: Sha, req: RequestId, files: seq<LiveFile>, views: seq<FileView>, sent: U32, bytes: U64,
                          digests: Bytes)
    requires |files| == |views|
    ensures FilesBytes(files[..0]) == 0 && files[0..] == files && views[0..] == views
    ensures Sent(sha, req, files, views, 0) == []
    ensures var all := StreamFiles(sha, req, files, views, sent, bytes, digests); all == ([] + all.0, all.1)
  {
    hide StreamFiles;
    var all := StreamFiles(sha, req, files, views, sent, bytes, digests).0;
    assert [] + all == all && SlotsOf(files[..0]) == [];
  }

  /** Nothing of the file is sent: it is not found as announced. */
  predicate MissedBefore(file: LiveFile, view: FileView) {
    view.pathBefore != Seen(file.metadataDigest) || view.handle != Seen(file.metadataDigest)
  }

  /** Its raw bytes are under way when they end early, or the open file turns out to have changed. */
  predicate BrokenInside(file: LiveFile, view: FileView) {
    |view.readable| < file.slot.byteLen || view.handleAfter != Seen(file.metadataDigest)
  }

  /** What the sender saw where it missed the file: nothing, or something else. */
  function MissedAs(file: LiveFile, view: FileView): Look {
    if view.pathBefore != Seen(file.metadataDigest) then view.pathBefore
    else if view.handle != Seen(file.metadataDigest) then view.handle
    else view.pathAfter
  }

  function MissCode(look: Look): AbortCode { if look == Missing then SourceUnavailableAbort else SourceChangedAbort }

  /** What the file at which a stream ends adds to it, given that `files` and `bytes` were sent before. */
  predicate EndsAt(tail: seq<Token>, sha: Sha, req: RequestId, file: LiveFile, view: FileView, files: nat, bytes: nat)
    requires files < U32_MAX && bytes + file.slot.byteLen <= U64_MAX
  {
    var code := MissCode(MissedAs(file, view));
    if MissedBefore(file, view) then tail == [Control(FetchAbort(req, code, files, bytes))]
    else if BrokenInside(file, view) then
      // Nothing but silence can follow.
      tail == [Control(FileStart(req, file.slot.entryIndex, file.slot.byteLen))] + Raw(Read(file, view))
    else
      // The file is closed on the wire and counts.
      tail == FileTokens(sha, req, file.slot, Read(file, view))
              + [Control(FetchAbort(req, code, files + 1, bytes + file.slot.byteLen))]
  }

  lemma ChangedFileEnds(sha: Sha, req: RequestId, plan: SourcePlan, again: Result<SourcePlan, SourceFailure>,
                        file: LiveFile, view: FileView, sent: U32, bytes: U64)
    requires !Unchanged(file, view) && sent < U32_MAX && bytes + file.slot.byteLen <= U64_MAX
    ensures var mine := StreamFile(sha, req, file, view);
      && mine.1 != SentAll
      && EndsAt(mine.0 + Closing(sha, req, plan, again, StoppedBy(mine.1, sent, bytes, file.slot.byteLen)),
                sha, req, file, view, sent, bytes)
  {
    var mine := StreamFile(sha, req, file, view);
    var last := Closing(sha, req, plan, again, StoppedBy(mine.1, sent, bytes, file.slot.byteLen));
    if last == [] { assert mine.0 + last == mine.0; }
    if mine.0 == [] { assert mine.0 + last == last; }
  }

  lemma SplitAt0(sha: Sha, req: RequestId, files: seq<LiveFile>, views: seq<FileView>, k: nat, so: Bytes)
    requires SplitsAt(sha, req, files, views, k, 0, 0, [], so)
    ensures k <= U32_MAX && FilesBytes(files[..k]) <= U64_MAX
    ensures var rest := StreamFiles(sha, req, files[k..], views[k..], k, FilesBytes(files[..k]), so);
      StreamFiles(sha, req, files, views, 0, 0, []) == (Sent(sha, req, files, views, k) + rest.0, rest.1)
  {
    hide StreamFiles, Sent, FilesBytes;
  }

  /**
   * The first file that did not stand still decides how the stream ends: everything before it is sent
   * in full, and the end says whether it was gone or changed and counts the files closed on the wire.
   */
  lemma FirstChangedFileEndsTheStream(sha: Sha, req: RequestId, plan: SourcePlan, life: SourceLife, k: nat)
    requires k < |plan.files| == |life.views| && plan.text.None? && PlanWithinLimits(plan)
    requires Matches(life.atAdmission, plan) && !Unchanged(plan.files[k], life.views[k])
    requires forall i :: 0 <= i < k ==> Unchanged(plan.files[i], life.views[i])
    ensures var sent := Serve(sha, req, plan, FetchAdmission(req, AdmissionCode.Accepted), life);
      var before := Sent(sha, req, plan.files, life.views, k);
      && before <= sent && FilesBytes(plan.files[..k]) + plan.files[k].slot.byteLen <= U64_MAX
      && EndsAt(sent[|before|..], sha, req, plan.files[k], life.views[k], k, FilesBytes(plan.files[..k]))
  {
    var files, views := plan.files, life.views;
    var sent := Serve(sha, req, plan, FetchAdmission(req, AdmissionCode.Accepted), life);
    var (tokens, ending) := StreamFiles(sha, req, files, views, 0, 0, []);
    assert sent == tokens + Closing(sha, req, plan, life.atEnd, ending);
    var bytes := FilesBytes(files[..k]);
    assert FilesBytes(files[k..]) >= files[k].slot.byteLen;
    assert |files| <= U32_MAX && FilesBytes(files) <= U64_MAX;
    hide *;
    BytesOfParts(files, k);
    var so := UnchangedFilesComeFirst(sha, req, files, views, k, 0, 0, []);
    var before := Sent(sha, req, files, views, k);
    SplitAt0(sha, req, files, views, k, so);
    FileIsNext(sha, req, files, views, k, k, bytes, so);
    ChangedFileEnds(sha, req, plan, life.atEnd, files[k], views[k], k, bytes);
    var mine := StreamFile(sha, req, files[k], views[k]).0;
    var last := Closing(sha, req, plan, life.atEnd, ending);
    ConcatIsAssociative(before, mine, last);
    assert (before + (mine + last))[|before|..] == mine + last;
  }
}
