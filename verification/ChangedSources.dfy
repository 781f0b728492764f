/** What a receiver makes of a source that changes, vanishes or breaks off while it is served. */
module ChangedSources {
  import opened Prelude
  import opened Outcomes
  import opened Wire
  import opened PayloadReceiver
  import opened TransferTheorems
  import opened TransferEndings
  import opened PayloadSender
  import opened SenderTheorems
  import opened SenderEndings

  /** Some files and then an abort, as they go over the wire. */
  function AbortedStream(sha: Sha, req: RequestId, slots: seq<Slot>, contents: seq<Bytes>, code: AbortCode, files: U32,
                         bytes: U64): seq<Token>
    requires |contents| <= |slots|
  {
    FilesTokens(sha, req, slots[..|contents|], contents) + [Control(FetchAbort(req, code, files, bytes))]
  }

  lemma AbortedStreamIsSendable(c: Codec, sha: Sha, req: RequestId, slots: seq<Slot>, contents: seq<Bytes>,
                                code: AbortCode, files: U32, bytes: U64)
    requires Lawful(c) && IsDigest(sha) && Transferable(slots) && |contents| <= |slots|
    ensures Sendable(c, AbortedStream(sha, req, slots, contents, code, files, bytes))
  {
    FilesAreSendable(c, sha, req, slots[..|contents|], contents);
    var last := FetchAbort(req, code, files, bytes);
    assert IsSmall(last) && EncodeFrame(c, last).Some?;
    hide Lawful, EncodeFrame, FilesTokens;
    SendableConcat(c, FilesTokens(sha, req, slots[..|contents|], contents), [Control(last)]);
  }

  lemma AbortedStreamIsReported(c: Codec, sha: Sha, req: RequestId, manifestSha: Bytes, slots: seq<Slot>,
                                contents: seq<Bytes>, code: AbortCode, files: U32, bytes: U64, rest: Bytes)
    requires Lawful(c) && IsDigest(sha) && Transferable(slots)
    requires |contents| <= |slots| && Fits(slots[..|contents|], contents)
    ensures var sent := AbortedStream(sha, req, slots, contents, code, files, bytes);
      && Sendable(c, sent)
      && Receive(c, sha, req, manifestSha, slots, Render(c, sent) + rest) == Declined(Aborted(code, files, bytes))
  {
    AbortedStreamIsSendable(c, sha, req, slots, contents, code, files, bytes);
    var sent := AbortedStream(sha, req, slots, contents, code, files, bytes);
    var input, abort := Render(c, sent) + rest, FetchAbort(req, code, files, bytes);
    hide Receive, Render, Reads, FilesTokens, ReadFrame, SlotBytes;
    RenderedStreamReadsBack(c, sent, rest);
    ReadsConcat(c, input, FilesTokens(sha, req, slots[..|contents|], contents), [Control(abort)], rest);
    var middle :| Reads(c, input, FilesTokens(sha, req, slots[..|contents|], contents), middle)
                  && Reads(c, middle, [Control(abort)], rest);
    ReadsControl(c, middle, abort, rest);
    AbortIsReported(c, sha, req, manifestSha, slots, contents, |contents|, input, middle, code, files, bytes);
  }

  lemma PartsOfPlan(files: seq<LiveFile>, views: seq<FileView>, k: nat)
    requires k <= |files| == |views| && forall i :: 0 <= i < k ==> Unchanged(files[i], views[i])
    ensures SlotsOf(files)[..k] == SlotsOf(files[..k])
    ensures Fits(SlotsOf(files)[..k], ContentsOf(files[..k], views[..k]))
  {
    assert forall i :: 0 <= i < k ==> Unchanged(files[i], views[i]);
  }

  /** A source that no longer matches once it is admitted is reported to the receiver as what happened to it. */
  lemma MismatchAtAdmissionIsTold(c: Codec, sha: Sha, req: RequestId, plan: SourcePlan, life: SourceLife, rest: Bytes)
    requires Lawful(c) && IsDigest(sha) && Transferable(SlotsOf(plan.files)) && plan.text.None?
    requires |plan.files| == |life.views| && !Matches(life.atAdmission, plan)
    ensures var sent := Serve(sha, req, plan, FetchAdmission(req, AdmissionCode.Accepted), life);
      && Sendable(c, sent)
      && Receive(c, sha, req, ManifestShaOf(plan), SlotsOf(plan.files), Render(c, sent) + rest)
         == Declined(Aborted(CodeFor(life.atAdmission), 0, 0))
  {
    MismatchAtAdmissionIsReported(sha, req, plan, life);
    var slots, abort := SlotsOf(plan.files), [Control(FetchAbort(req, CodeFor(life.atAdmission), 0, 0))];
    assert FilesTokens(sha, req, slots[..0], []) + abort == abort;
    hide Receive, Serve, Matches, CodeFor, Lawful, IsDigest, Transferable, Render;
    AbortedStreamIsReported(c, sha, req, ManifestShaOf(plan), slots, [], CodeFor(life.atAdmission), 0, 0, rest);
  }

  /** So is one that no longer matches at the end, with everything that was sent counted. */
  lemma MismatchAtEndIsTold(c: Codec, sha: Sha, req: RequestId, plan: SourcePlan, life: SourceLife, rest: Bytes)
    requires Lawful(c) && IsDigest(sha) && Transferable(SlotsOf(plan.files)) && plan.text.None?
    requires |plan.files| == |life.views| && Matches(life.atAdmission, plan) && !Matches(life.atEnd, plan)
    requires forall i :: 0 <= i < |plan.files| ==> Unchanged(plan.files[i], life.views[i])
    ensures FilesBytes(plan.files) <= MAX_TRANSFER_BYTES
    ensures var sent := Serve(sha, req, plan, FetchAdmission(req, AdmissionCode.Accepted), life);
      && Sendable(c, sent)
      && Receive(c, sha, req, ManifestShaOf(plan), SlotsOf(plan.files), Render(c, sent) + rest)
         == Declined(Aborted(CodeFor(life.atEnd), |plan.files|, FilesBytes(plan.files)))
  {
    var slots, contents, n := SlotsOf(plan.files), ContentsOf(plan.files, life.views), |plan.files|;
    FilesBytesAreSlotBytes(plan.files);
    assert PlanWithinLimits(plan);
    MismatchAtEndIsReported(sha, req, plan, life);
    PartsOfPlan(plan.files, life.views, n);
    assert plan.files[..n] == plan.files && life.views[..n] == life.views && slots[..n] == slots;
    hide Receive, Serve, Matches, CodeFor, Lawful, IsDigest, Transferable, Render, FilesBytes, FilesTokens;
    AbortedStreamIsReported(c, sha, req, ManifestShaOf(plan), slots, contents, CodeFor(life.atEnd), n,
                            FilesBytes(plan.files), rest);
  }

  // ----- a file that changed -----

  lemma {:induction false} OneMoreFileToken(sha: Sha, req: RequestId, slots: seq<Slot>, contents: seq<Bytes>,
                                            slot: Slot, content: Bytes)
    requires |slots| == |contents|
    ensures FilesTokens(sha, req, slots + [slot], contents + [content])
         == FilesTokens(sha, req, slots, contents) + FileTokens(sha, req, slot, content)
    decreases |slots|
  {
    hide FileTokens;
    var all, each := slots + [slot], contents + [content];
    if slots == [] {
      assert all == [slot] && each == [content] && all[1..] == [] && each[1..] == [];
      assert FilesTokens(sha, req, all[1..], each[1..]) == [];
    } else {
      assert all[1..] == slots[1..] + [slot] && each[1..] == contents[1..] + [content];
      assert all[0] == slots[0] && each[0] == contents[0];
      OneMoreFileToken(sha, req, slots[1..], contents[1..], slot, content);
      ConcatIsAssociative(FileTokens(sha, req, slots[0], contents[0]), FilesTokens(sha, req, slots[1..], contents[1..]),
                          FileTokens(sha, req, slot, content));
    }
  }

  /** The first file that is missed before or after its bytes is reported with the files closed on the wire. */
  lemma MissedFileIsTold(c: Codec, sha: Sha, req: RequestId, plan: SourcePlan, life: SourceLife, k: nat, rest: Bytes)
    requires Lawful(c) && IsDigest(sha) && Transferable(SlotsOf(plan.files)) && plan.text.None?
    requires k < |plan.files| == |life.views| && Matches(life.atAdmission, plan)
    requires forall i :: 0 <= i < k ==> Unchanged(plan.files[i], life.views[i])
    requires var file, view := plan.files[k], life.views[k];
      !Unchanged(file, view) && (MissedBefore(file, view) || !BrokenInside(file, view))
    ensures FilesBytes(plan.files[..k]) + plan.files[k].slot.byteLen <= U64_MAX
    ensures var sent := Serve(sha, req, plan, FetchAdmission(req, AdmissionCode.Accepted), life);
      var file, view := plan.files[k], life.views[k];
      var before, code := FilesBytes(plan.files[..k]), MissCode(MissedAs(file, view));
      && Sendable(c, sent)
      && Receive(c, sha, req, ManifestShaOf(plan), SlotsOf(plan.files), Render(c, sent) + rest)
         == if MissedBefore(file, view) then Declined(Aborted(code, k, before))
            else Declined(Aborted(code, k + 1, before + file.slot.byteLen))
  {
    FilesBytesAreSlotBytes(plan.files);
    assert PlanWithinLimits(plan) && |plan.files| <= MAX_MANIFEST_ENTRIES <= U32_MAX;
    hide *;
    FirstChangedFileEndsTheStream(sha, req, plan, life, k);
    PartsOfPlan(plan.files, life.views, k);
    var sent := Serve(sha, req, plan, FetchAdmission(req, AdmissionCode.Accepted), life);
    var before := Sent(sha, req, plan.files, life.views, k);
    assert sent == before + sent[|before|..];
    if MissedBefore(plan.files[k], life.views[k]) {
      MissedBeforeIsTold(c, sha, req, plan, life, k, sent[|before|..], rest);
    } else {
      MissedAfterIsTold(c, sha, req, plan, life, k, sent[|before|..], rest);
    }
  }

  lemma MissedBeforeIsTold(c: Codec, sha: Sha, req: RequestId, plan: SourcePlan, life: SourceLife, k: nat,
                           tail: seq<Token>, rest: Bytes)
    requires Lawful(c) && IsDigest(sha) && Transferable(SlotsOf(plan.files))
    requires k < |plan.files| == |life.views| && k < U32_MAX
    requires FilesBytes(plan.files[..k]) + plan.files[k].slot.byteLen <= U64_MAX
    requires SlotsOf(plan.files)[..k] == SlotsOf(plan.files[..k])
        && Fits(SlotsOf(plan.files)[..k], ContentsOf(plan.files[..k], life.views[..k]))
    requires EndsAt(tail, sha, req, plan.files[k], life.views[k], k, FilesBytes(plan.files[..k]))
    requires MissedBefore(plan.files[k], life.views[k])
    ensures var sent, code := Sent(sha, req, plan.files, life.views, k) + tail,
        MissCode(MissedAs(plan.files[k], life.views[k]));
      && Sendable(c, sent)
      && Receive(c, sha, req, ManifestShaOf(plan), SlotsOf(plan.files), Render(c, sent) + rest)
         == Declined(Aborted(code, k, FilesBytes(plan.files[..k])))
  {
    var slots, contents := SlotsOf(plan.files), ContentsOf(plan.files[..k], life.views[..k]);
    var code := MissCode(MissedAs(plan.files[k], life.views[k]));
    hide Receive, Render, FilesBytes, FilesTokens, MissedAs, MissCode, Transferable, Lawful, IsDigest, FileTokens, Fits;
    AbortedStreamIsReported(c, sha, req, ManifestShaOf(plan), slots, contents, code, k, FilesBytes(plan.files[..k]),
                            rest);
  }

  lemma MissedAfterIsTold(c: Codec, sha: Sha, req: RequestId, plan: SourcePlan, life: SourceLife, k: nat,
                          tail: seq<Token>, rest: Bytes)
    requires Lawful(c) && IsDigest(sha) && Transferable(SlotsOf(plan.files))
    requires k < |plan.files| == |life.views| && k < U32_MAX
    requires FilesBytes(plan.files[..k]) + plan.files[k].slot.byteLen <= U64_MAX
    requires SlotsOf(plan.files)[..k] == SlotsOf(plan.files[..k])
        && Fits(SlotsOf(plan.files)[..k], ContentsOf(plan.files[..k], life.views[..k]))
    requires EndsAt(tail, sha, req, plan.files[k], life.views[k], k, FilesBytes(plan.files[..k]))
    requires !MissedBefore(plan.files[k], life.views[k]) && !BrokenInside(plan.files[k], life.views[k])
    ensures var sent, code := Sent(sha, req, plan.files, life.views, k) + tail,
        MissCode(MissedAs(plan.files[k], life.views[k]));
      && Sendable(c, sent)
      && Receive(c, sha, req, ManifestShaOf(plan), SlotsOf(plan.files), Render(c, sent) + rest)
         == Declined(Aborted(code, k + 1, FilesBytes(plan.files[..k]) + plan.files[k].slot.byteLen))
  {
    var slots, contents := SlotsOf(plan.files), ContentsOf(plan.files[..k], life.views[..k]);
    var code, content := MissCode(MissedAs(plan.files[k], life.views[k])), Read(plan.files[k], life.views[k]);
    var bytes: U64 := FilesBytes(plan.files[..k]) + plan.files[k].slot.byteLen;
    hide *;
    EndsAfter(tail, sha, req, plan.files[k], life.views[k], k, FilesBytes(plan.files[..k]));
    MissedAfterStreamIs(sha, req, plan.files, life.views, k, tail, code, bytes);
    FitsOneMore(slots, contents, k, content);
    AbortedStreamIsReported(c, sha, req, ManifestShaOf(plan), slots, contents + [content], code, k + 1, bytes, rest);
  }

  lemma FitsOneMore(slots: seq<Slot>, contents: seq<Bytes>, k: nat, content: Bytes)
    requires k < |slots| && Fits(slots[..k], contents) && |content| == slots[k].byteLen
    ensures |contents + [content]| == k + 1 && Fits(slots[..|contents + [content]|], contents + [content])
  {}

  lemma MissedAfterStreamIs(sha: Sha, req: RequestId, files: seq<LiveFile>, views: seq<FileView>, k: nat,
                            tail: seq<Token>, code: AbortCode, bytes: U64)
    requires k < |files| == |views| && k < U32_MAX && SlotsOf(files)[..k] == SlotsOf(files[..k])
    requires tail == FileTokens(sha, req, files[k].slot, Read(files[k], views[k]))
                     + [Control(FetchAbort(req, code, k + 1, bytes))]
    ensures var contents := ContentsOf(files[..k], views[..k]) + [Read(files[k], views[k])];
      Sent(sha, req, files, views, k) + tail == AbortedStream(sha, req, SlotsOf(files), contents, code, k + 1, bytes)
  {
    var slots, contents, content := SlotsOf(files), ContentsOf(files[..k], views[..k]), Read(files[k], views[k]);
    var abort := [Control(FetchAbort(req, code, k + 1, bytes))];
    assert slots[..k + 1] == slots[..k] + [slots[k]] && |contents + [content]| == k + 1;
    OneMoreFileToken(sha, req, slots[..k], contents, slots[k], content);
    hide FilesTokens, FileTokens, Read;
    ConcatIsAssociative(FilesTokens(sha, req, slots[..k], contents), FileTokens(sha, req, slots[k], content), abort);
  }

  lemma EndsAfter(tail: seq<Token>, sha: Sha, req: RequestId, file: LiveFile, view: FileView, files: nat, bytes: nat)
    requires files < U32_MAX && bytes + file.slot.byteLen <= U64_MAX
    requires EndsAt(tail, sha, req, file, view, files, bytes) && !MissedBefore(file, view) && !BrokenInside(file, view)
    ensures |Read(file, view)| == file.slot.byteLen
    ensures tail == FileTokens(sha, req, file.slot, Read(file, view))
                    + [Control(FetchAbort(req, MissCode(MissedAs(file, view)), files + 1, bytes + file.slot.byteLen))]
  {
    hide FileTokens, MissCode, MissedAs;
  }

  // ----- a file that broke off inside its bytes -----

  /** Some files and then the beginning of one more, as they go over the wire. */
  function BrokenStream(sha: Sha, req: RequestId, slots: seq<Slot>, contents: seq<Bytes>, part: Bytes): seq<Token>
    requires |contents| < |slots|
  {
    var slot := slots[|contents|];
    FilesTokens(sha, req, slots[..|contents|], contents)
    + ([Control(FileStart(req, slot.entryIndex, slot.byteLen))] + Raw(part))
  }

  lemma BrokenStreamIsSpelled(c: Codec, sha: Sha, req: RequestId, slots: seq<Slot>, contents: seq<Bytes>, part: Bytes)
    returns (middle: Bytes)
    requires Lawful(c) && IsDigest(sha) && Transferable(slots)
    requires |contents| < |slots| && Fits(slots[..|contents|], contents)
    ensures var sent, slot := BrokenStream(sha, req, slots, contents, part), slots[|contents|];
      && Sendable(c, sent) && Spells(c, sha, req, slots, contents, |contents|, Render(c, sent), middle)
      && ReadFrame(c, middle).Frame? && ReadFrame(c, middle).message == FileStart(req, slot.entryIndex, slot.byteLen)
      && middle[ReadFrame(c, middle).size..] == part
  {
    var k, slot := |contents|, slots[|contents|];
    var files, start := FilesTokens(sha, req, slots[..k], contents), FileStart(req, slot.entryIndex, slot.byteLen);
    var tail := [Control(start)] + Raw(part);
    FilesAreSendable(c, sha, req, slots[..k], contents);
    assert IsSmall(start) && EncodeFrame(c, start).Some?;
    assert Sendable(c, tail);
    hide Render, Reads, FilesTokens, ReadFrame, EncodeFrame, SlotBytes;
    SendableConcat(c, files, tail);
    var sent := BrokenStream(sha, req, slots, contents, part);
    assert Render(c, sent) + [] == Render(c, sent);
    RenderedStreamReadsBack(c, sent, []);
    ReadsConcat(c, Render(c, sent), files, tail, []);
    middle :| Reads(c, Render(c, sent), files, middle) && Reads(c, middle, tail, []);
    StartThenRaw(c, middle, start, part);
  }

  lemma StartThenRaw(c: Codec, middle: Bytes, start: Message, part: Bytes)
    requires Reads(c, middle, [Control(start)] + Raw(part), [])
    ensures ReadFrame(c, middle).Frame? && ReadFrame(c, middle).message == start
    ensures middle[ReadFrame(c, middle).size..] == part
  {
    var tail := [Control(start)] + Raw(part);
    assert tail[0] == Control(start) && tail[1..] == Raw(part);
    var after := middle[ReadFrame(c, middle).size..];
    ReadsRaw(c, after, part, []);
    assert part + [] == part;
  }

  /**
   * A file that ends early, or turns out to have changed once its bytes are out, leaves the receiver
   * with a broken connection: the files before it, and the bytes that were sent, count.
   */
  lemma BrokenFileIsDisconnected(c: Codec, sha: Sha, req: RequestId, plan: SourcePlan, life: SourceLife, k: nat)
    requires Lawful(c) && IsDigest(sha) && Transferable(SlotsOf(plan.files)) && plan.text.None?
    requires k < |plan.files| == |life.views| && Matches(life.atAdmission, plan)
    requires forall i :: 0 <= i < k ==> Unchanged(plan.files[i], life.views[i])
    requires !MissedBefore(plan.files[k], life.views[k]) && BrokenInside(plan.files[k], life.views[k])
    ensures FilesBytes(plan.files[..k]) + |Read(plan.files[k], life.views[k])| <= U64_MAX
    ensures var sent := Serve(sha, req, plan, FetchAdmission(req, AdmissionCode.Accepted), life);
      && Sendable(c, sent)
      && Receive(c, sha, req, ManifestShaOf(plan), SlotsOf(plan.files), Render(c, sent))
         == Declined(Disconnected(k, FilesBytes(plan.files[..k]) + |Read(plan.files[k], life.views[k])|))
  {
    var slots, contents := SlotsOf(plan.files), ContentsOf(plan.files[..k], life.views[..k]);
    var part := Read(plan.files[k], life.views[k]);
    FilesBytesAreSlotBytes(plan.files[..k]);
    assert WithinLimits(slots);
    var sent := Serve(sha, req, plan, FetchAdmission(req, AdmissionCode.Accepted), life);
    hide *;
    PartsOfPlan(plan.files, life.views, k);
    BrokenStreamIs(sha, req, plan, life, k);
    var middle := BrokenStreamIsSpelled(c, sha, req, slots, contents, part);
    PartReadIsDisconnected(c, sha, req, ManifestShaOf(plan), slots, contents, k, Render(c, sent), middle, part);
  }

  lemma BrokenStreamIs(sha: Sha, req: RequestId, plan: SourcePlan, life: SourceLife, k: nat)
    requires Transferable(SlotsOf(plan.files)) && plan.text.None?
    requires k < |plan.files| == |life.views| && Matches(life.atAdmission, plan)
    requires forall i :: 0 <= i < k ==> Unchanged(plan.files[i], life.views[i])
    requires !MissedBefore(plan.files[k], life.views[k]) && BrokenInside(plan.files[k], life.views[k])
    ensures |Read(plan.files[k], life.views[k])| <= plan.files[k].slot.byteLen
    ensures Serve(sha, req, plan, FetchAdmission(req, AdmissionCode.Accepted), life)
         == BrokenStream(sha, req, SlotsOf(plan.files), ContentsOf(plan.files[..k], life.views[..k]),
                         Read(plan.files[k], life.views[k]))
  {
    FilesBytesAreSlotBytes(plan.files);
    assert PlanWithinLimits(plan) && |plan.files| <= MAX_MANIFEST_ENTRIES <= U32_MAX;
    assert !Unchanged(plan.files[k], life.views[k]);
    hide Serve, FilesTokens, FilesBytes, Transferable, Unchanged, Matches;
    FirstChangedFileEndsTheStream(sha, req, plan, life, k);
    var sent := Serve(sha, req, plan, FetchAdmission(req, AdmissionCode.Accepted), life);
    var before := Sent(sha, req, plan.files, life.views, k);
    assert sent == before + sent[|before|..];
    PartsOfPlan(plan.files, life.views, k);
  }

  lemma PartReadIsDisconnected(c: Codec, sha: Sha, req: RequestId, manifestSha: Bytes, slots: seq<Slot>,
                               contents: seq<Bytes>, k: nat, input: Bytes, middle: Bytes, part: Bytes)
    requires WithinLimits(slots) && k < |slots| && Spells(c, sha, req, slots, contents, k, input, middle)
    requires ReadFrame(c, middle).Frame?
    requires ReadFrame(c, middle).message == FileStart(req, slots[k].entryIndex, slots[k].byteLen)
    requires middle[ReadFrame(c, middle).size..] == part && |part| <= slots[k].byteLen
    ensures SlotBytes(slots[..k]) + |part| <= U64_MAX
    ensures Receive(c, sha, req, manifestSha, slots, input)
         == Declined(Disconnected(k, SlotBytes(slots[..k]) + |part|))
  {
    PartsWeighLess(slots, k + 1);
    OneMoreWeighs(slots, k);
    assert ReadFrame(c, []) == EndOfStream;
    hide Spells, ReadFrame, SlotBytes;
    if |part| == slots[k].byteLen { assert part[slots[k].byteLen..] == []; }
    FailingFileDecides(c, sha, req, manifestSha, slots, contents, k, input, middle,
                       Disconnected(k, SlotBytes(slots[..k]) + |part|));
  }
}
