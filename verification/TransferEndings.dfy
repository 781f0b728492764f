/** How a reception that does not succeed ends: what it reports, and what it had received by then. */
module TransferEndings {
  import opened Prelude
  import opened Outcomes
  import opened Wire
  import opened PayloadReceiver
  import opened TransferTheorems

  // ----- up to the file at which it ends -----

  /** The stream spells the first `k` files and goes on with `middle`. */
  predicate Spells(c: Codec, sha: Sha, req: RequestId, slots: seq<Slot>, contents: seq<Bytes>, k: nat, input: Bytes,
                   middle: Bytes)
  {
    && k <= |slots| && |contents| == k && Fits(slots[..k], contents)
    && Reads(c, input, FilesTokens(sha, req, slots[..k], contents), middle)
  }

  lemma PartUnfolds(sha: Sha, req: RequestId, slots: seq<Slot>, contents: seq<Bytes>, k: nat)
    requires 0 < k == |contents| && k <= |slots|
    ensures slots[..k][0] == slots[0] && slots[..k][1..] == slots[1..][..k - 1] && slots[k..] == slots[1..][k - 1..]
    ensures SlotBytes(slots[..k]) == slots[0].byteLen + SlotBytes(slots[1..][..k - 1])
    ensures SlotBytes(slots) == slots[0].byteLen + SlotBytes(slots[1..])
  {}

  /** What is left to receive after the first `k` files, with their counts and digests. */
  function After(c: Codec, sha: Sha, req: RequestId, slots: seq<Slot>, contents: seq<Bytes>, k: nat, middle: Bytes,
                 files: U32, bytes: U64, digests: Bytes): FilesReception
    requires k <= |slots| && files + |slots| <= U32_MAX && bytes + SlotBytes(slots[..k]) <= U64_MAX
  {
    ReceiveFiles(c, sha, req, slots[k..], middle, files + k, bytes + SlotBytes(slots[..k]),
                 digests + Digests(sha, contents))
  }

  lemma FirstFileThen(c: Codec, sha: Sha, req: RequestId, slots: seq<Slot>, content: Bytes, input: Bytes, rest: Bytes,
                      files: U32, bytes: U64, digests: Bytes)
    requires slots != [] && files + |slots| <= U32_MAX && bytes + slots[0].byteLen <= U64_MAX
    requires ReceiveFile(c, sha, req, slots[0], input, files, bytes) == FileOk(content, rest)
    ensures ReceiveFiles(c, sha, req, slots, input, files, bytes, digests)
         == Prepend([content], ReceiveFiles(c, sha, req, slots[1..], rest, files + 1, bytes + slots[0].byteLen,
                                            digests + sha(content)))
  {
    hide ReceiveFile, Prepend;
  }

  lemma AfterOneMore(c: Codec, sha: Sha, req: RequestId, slots: seq<Slot>, contents: seq<Bytes>, k: nat, middle: Bytes,
                     files: U32, bytes: U64, digests: Bytes)
    requires 0 < k <= |slots| && |contents| == k && files + |slots| <= U32_MAX && bytes + SlotBytes(slots) <= U64_MAX
    ensures bytes + SlotBytes(slots[..k]) <= U64_MAX
    ensures bytes + slots[0].byteLen + SlotBytes(slots[1..][..k - 1]) <= U64_MAX
    ensures After(c, sha, req, slots, contents, k, middle, files, bytes, digests)
         == After(c, sha, req, slots[1..], contents[1..], k - 1, middle, files + 1, bytes + slots[0].byteLen,
                  digests + sha(contents[0]))
  {
    hide *;
    PartsWeighLess(slots, k);
    PartUnfolds(sha, req, slots, contents, k);
    FirstUnfolds(sha, slots, contents);
    AfterIs(c, sha, req, slots, contents, k, middle, files, bytes, digests);
    AfterIs(c, sha, req, slots[1..], contents[1..], k - 1, middle, files + 1, bytes + slots[0].byteLen,
            digests + sha(contents[0]));
    ConcatIsAssociative(digests, sha(contents[0]), Digests(sha, contents[1..]));
  }

  lemma AfterIs(c: Codec, sha: Sha, req: RequestId, slots: seq<Slot>, contents: seq<Bytes>, k: nat, middle: Bytes,
                files: U32, bytes: U64, digests: Bytes)
    requires k <= |slots| && files + |slots| <= U32_MAX && bytes + SlotBytes(slots[..k]) <= U64_MAX
    ensures After(c, sha, req, slots, contents, k, middle, files, bytes, digests)
         == ReceiveFiles(c, sha, req, slots[k..], middle, files + k, bytes + SlotBytes(slots[..k]),
                         digests + Digests(sha, contents))
  {
    hide ReceiveFiles, SlotBytes, Digests;
  }

  /** Reception goes on after the files that were spelled. */
  lemma {:induction false} SpelledFilesCount(
      c: Codec, sha: Sha, req: RequestId, slots: seq<Slot>, contents: seq<Bytes>, k: nat, input: Bytes, middle: Bytes,
      files: U32, bytes: U64, digests: Bytes)
    requires files + |slots| <= U32_MAX && bytes + SlotBytes(slots) <= U64_MAX
    requires Spells(c, sha, req, slots, contents, k, input, middle)
    ensures k <= |slots| && |contents| == k && bytes + SlotBytes(slots[..k]) <= U64_MAX
    ensures ReceiveFiles(c, sha, req, slots, input, files, bytes, digests)
         == Prepend(contents, After(c, sha, req, slots, contents, k, middle, files, bytes, digests))
    decreases k
  {
    hide *;
    SpelledAtMostAll(c, sha, req, slots, contents, k, input, middle);
    if k == 0 {
      NothingSpelled(c, sha, req, slots, input, middle, files, bytes, digests);
    } else {
      FirstUnfolds(sha, slots, contents);
      var rest := FirstIsSpelled(c, sha, req, slots, contents, k, input, middle, files, bytes);
      FirstFileThen(c, sha, req, slots, contents[0], input, rest, files, bytes, digests);
      SpelledFilesCount(c, sha, req, slots[1..], contents[1..], k - 1, rest, middle, files + 1,
                        bytes + slots[0].byteLen, digests + sha(contents[0]));
      AfterOneMore(c, sha, req, slots, contents, k, middle, files, bytes, digests);
      PrependTwice(contents, After(c, sha, req, slots, contents, k, middle, files, bytes, digests));
    }
  }

  lemma NothingSpelled(c: Codec, sha: Sha, req: RequestId, slots: seq<Slot>, input: Bytes, middle: Bytes, files: U32,
                       bytes: U64, digests: Bytes)
    requires files + |slots| <= U32_MAX && Spells(c, sha, req, slots, [], 0, input, middle)
    ensures SlotBytes(slots[..0]) == 0
    ensures ReceiveFiles(c, sha, req, slots, input, files, bytes, digests)
         == Prepend([], After(c, sha, req, slots, [], 0, middle, files, bytes, digests))
  {
    hide ReceiveFiles;
    assert slots[..0] == [] && slots[0..] == slots && digests + [] == digests;
    var got := After(c, sha, req, slots, [], 0, middle, files, bytes, digests);
    if got.Got? { assert [] + got.contents == got.contents; }
  }

  lemma PrependTwice(contents: seq<Bytes>, got: FilesReception)
    requires contents != []
    ensures Prepend([contents[0]], Prepend(contents[1..], got)) == Prepend(contents, got)
  {
    if got.Got? { assert [contents[0]] + (contents[1..] + got.contents) == contents + got.contents; }
  }

  lemma FirstIsSpelled(c: Codec, sha: Sha, req: RequestId, slots: seq<Slot>, contents: seq<Bytes>, k: nat,
                       input: Bytes, middle: Bytes, files: U32, bytes: U64) returns (rest: Bytes)
    requires 0 < k && Spells(c, sha, req, slots, contents, k, input, middle)
    ensures ReceiveFile(c, sha, req, slots[0], input, files, bytes) == FileOk(contents[0], rest)
    ensures Spells(c, sha, req, slots[1..], contents[1..], k - 1, rest, middle)
  {
    hide Reads, FilesTokens, ReceiveFile;
    FitsSplits(slots[..k], contents);
    FirstFileSplits(c, sha, req, slots[..k], input, files, bytes, contents, middle);
    rest := ReceiveFile(c, sha, req, slots[0], input, files, bytes).rest;
    assert slots[..k][1..] == slots[1..][..k - 1];
  }

  /** A file that fails after the spelled ones makes the whole reception fail like that. */
  lemma FailingFileDecides(c: Codec, sha: Sha, req: RequestId, manifestSha: Bytes, slots: seq<Slot>,
                           contents: seq<Bytes>, k: nat, input: Bytes, middle: Bytes, failure: ReceiveFailure)
    requires WithinLimits(slots) && k < |slots| && Spells(c, sha, req, slots, contents, k, input, middle)
    requires SlotBytes(slots[..k]) <= U64_MAX
    requires ReceiveFile(c, sha, req, slots[k], middle, k, SlotBytes(slots[..k])) == FileBad(failure)
    ensures Receive(c, sha, req, manifestSha, slots, input) == Declined(failure)
  {
    hide Spells, ReceiveFile, SlotBytes, Digests;
    SpelledFilesCount(c, sha, req, slots, contents, k, input, middle, 0, 0, []);
    assert slots[k..][0] == slots[k];
    assert After(c, sha, req, slots, contents, k, middle, 0, 0, []) == Broken(failure);
  }

  lemma NothingAfterAll(c: Codec, sha: Sha, req: RequestId, slots: seq<Slot>, contents: seq<Bytes>, middle: Bytes)
    requires WithinLimits(slots) && |slots| == |contents|
    ensures slots[..|slots|] == slots
    ensures Prepend(contents, After(c, sha, req, slots, contents, |slots|, middle, 0, 0, []))
         == Got(contents, |slots|, SlotBytes(slots), Digests(sha, contents), middle)
  {
    assert slots[..|slots|] == slots && slots[|slots|..] == [] && contents + [] == contents;
    assert [] + Digests(sha, contents) == Digests(sha, contents);
    hide SlotBytes, Digests;
  }

  /** After all files the closing frame decides. */
  lemma ClosingFrameDecides(c: Codec, sha: Sha, req: RequestId, manifestSha: Bytes, slots: seq<Slot>,
                            contents: seq<Bytes>, input: Bytes, middle: Bytes)
    requires WithinLimits(slots) && Spells(c, sha, req, slots, contents, |slots|, input, middle)
    ensures Receive(c, sha, req, manifestSha, slots, input)
         == ReceiveComplete(c, sha, req, manifestSha,
                            Got(contents, |slots|, SlotBytes(slots), Digests(sha, contents), middle))
  {
    var k, got := |slots|, Got(contents, |slots|, SlotBytes(slots), Digests(sha, contents), middle);
    NothingAfterAll(c, sha, req, slots, contents, middle);
    hide Spells, SlotBytes, Digests, ReceiveComplete, ReceiveFiles, After;
    SpelledFilesCount(c, sha, req, slots, contents, k, input, middle, 0, 0, []);
  }

  // ----- what it then reports -----

  /**
   * An abort for this request where a file should start, where its end should come, or where the
   * completion should come is reported with the code and the counts that the sender gave.
   */
  lemma AbortIsReported(c: Codec, sha: Sha, req: RequestId, manifestSha: Bytes, slots: seq<Slot>,
                        contents: seq<Bytes>, k: nat, input: Bytes, middle: Bytes, code: AbortCode, files: U32,
                        bytes: U64)
    requires WithinLimits(slots) && Spells(c, sha, req, slots, contents, k, input, middle)
    requires ReadFrame(c, middle).Frame? && ReadFrame(c, middle).message == FetchAbort(req, code, files, bytes)
    ensures Receive(c, sha, req, manifestSha, slots, input) == Declined(Aborted(code, files, bytes))
  {
    hide Spells, ReadFrame, SlotBytes;
    if k < |slots| {
      PartsWeighLess(slots, k);
      FailingFileDecides(c, sha, req, manifestSha, slots, contents, k, input, middle, Aborted(code, files, bytes));
    } else {
      SpelledAtMostAll(c, sha, req, slots, contents, k, input, middle);
      ClosingFrameDecides(c, sha, req, manifestSha, slots, contents, input, middle);
    }
  }

  lemma AbortAfterBytesIsReported(c: Codec, sha: Sha, req: RequestId, manifestSha: Bytes, slots: seq<Slot>,
                                  contents: seq<Bytes>, k: nat, input: Bytes, middle: Bytes, body: Bytes, after: Bytes,
                                  code: AbortCode, files: U32, bytes: U64)
    requires WithinLimits(slots) && k < |slots| && Spells(c, sha, req, slots, contents, k, input, middle)
    requires ReadFrame(c, middle).Frame?
    requires ReadFrame(c, middle).message == FileStart(req, slots[k].entryIndex, slots[k].byteLen)
    requires |body| == slots[k].byteLen && middle[ReadFrame(c, middle).size..] == body + after
    requires ReadFrame(c, after).Frame? && ReadFrame(c, after).message == FetchAbort(req, code, files, bytes)
    ensures Receive(c, sha, req, manifestSha, slots, input) == Declined(Aborted(code, files, bytes))
  {
    hide Spells, ReadFrame, SlotBytes;
    PartsWeighLess(slots, k);
    assert (body + after)[..|body|] == body && (body + after)[|body|..] == after;
    FailingFileDecides(c, sha, req, manifestSha, slots, contents, k, input, middle, Aborted(code, files, bytes));
  }

  lemma SpelledAtMostAll(c: Codec, sha: Sha, req: RequestId, slots: seq<Slot>, contents: seq<Bytes>, k: nat,
                         input: Bytes, middle: Bytes)
    requires Spells(c, sha, req, slots, contents, k, input, middle)
    ensures k <= |slots| && |contents| == k && Fits(slots[..k], contents)
  {
    hide Reads;
  }

  lemma {:induction false} PartsWeighLess(slots: seq<Slot>, k: nat)
    requires k <= |slots|
    ensures SlotBytes(slots[..k]) <= SlotBytes(slots)
  {
    if k > 0 {
      PartsWeighLess(slots[1..], k - 1);
      assert slots[..k][1..] == slots[1..][..k - 1];
    }
  }

  /**
   * Any other frame where a file should start, an abort of another request included, is a failed
   * verification, and bytes that are no frame are a protocol failure; both count what was received.
   */
  lemma WrongFrameIsReported(c: Codec, sha: Sha, req: RequestId, manifestSha: Bytes, slots: seq<Slot>,
                             contents: seq<Bytes>, k: nat, input: Bytes, middle: Bytes)
    requires WithinLimits(slots) && k < |slots| && Spells(c, sha, req, slots, contents, k, input, middle)
    ensures SlotBytes(slots[..k]) <= U64_MAX
    ensures var read := ReadFrame(c, middle);
      && (read.Frame? && read.message != FileStart(req, slots[k].entryIndex, slots[k].byteLen)
          && !(read.message.FetchAbort? && read.message.requestId == req) ==>
            Receive(c, sha, req, manifestSha, slots, input) == Declined(Verification(k, SlotBytes(slots[..k]))))
      && (read.BadFrame? ==>
            Receive(c, sha, req, manifestSha, slots, input) == Declined(ProtocolFailure(k, SlotBytes(slots[..k]))))
  {
    hide Spells, ReadFrame, SlotBytes;
    PartsWeighLess(slots, k);
    var read, bytes := ReadFrame(c, middle), SlotBytes(slots[..k]);
    var failure := if read.BadFrame? then ProtocolFailure(k, bytes) else Verification(k, bytes);
    if ReceiveFile(c, sha, req, slots[k], middle, k, bytes) == FileBad(failure) {
      FailingFileDecides(c, sha, req, manifestSha, slots, contents, k, input, middle, failure);
    }
  }

  /** Bytes that are not the announced digest's are a failed verification that counts them. */
  lemma WrongBytesAreReported(c: Codec, sha: Sha, req: RequestId, manifestSha: Bytes, slots: seq<Slot>,
                              contents: seq<Bytes>, k: nat, input: Bytes, middle: Bytes, body: Bytes, after: Bytes)
    requires WithinLimits(slots) && k < |slots| && Spells(c, sha, req, slots, contents, k, input, middle)
    requires ReadFrame(c, middle).Frame?
    requires ReadFrame(c, middle).message == FileStart(req, slots[k].entryIndex, slots[k].byteLen)
    requires |body| == slots[k].byteLen && middle[ReadFrame(c, middle).size..] == body + after
    requires ReadFrame(c, after).Frame? && ReadFrame(c, after).message.FileEnd?
    requires ReadFrame(c, after).message != FileEnd(req, slots[k].entryIndex, sha(body))
    ensures SlotBytes(slots[..k]) + |body| <= U64_MAX
    ensures Receive(c, sha, req, manifestSha, slots, input)
         == Declined(Verification(k, SlotBytes(slots[..k]) + |body|))
  {
    PartsWeighLess(slots, k + 1);
    OneMoreWeighs(slots, k);
    hide Spells, ReadFrame, SlotBytes;
    assert (body + after)[..|body|] == body && (body + after)[|body|..] == after;
    FailingFileDecides(c, sha, req, manifestSha, slots, contents, k, input, middle,
                       Verification(k, SlotBytes(slots[..k]) + |body|));
  }

  lemma {:induction false} OneMoreWeighs(slots: seq<Slot>, k: nat)
    requires k < |slots|
    ensures SlotBytes(slots[..k + 1]) == SlotBytes(slots[..k]) + slots[k].byteLen
  {
    if k == 0 {
      assert slots[..1][1..] == [];
    } else {
      OneMoreWeighs(slots[1..], k - 1);
      assert slots[..k + 1][1..] == slots[1..][..k] && slots[..k][1..] == slots[1..][..k - 1];
    }
  }

  /**
   * Behind the files an abort is reported whatever request it names, a completion that miscounts is a
   * failed verification of everything received, and any other frame one of nothing.
   */
  lemma WrongClosingIsReported(c: Codec, sha: Sha, req: RequestId, manifestSha: Bytes, slots: seq<Slot>,
                               contents: seq<Bytes>, input: Bytes, middle: Bytes)
    requires WithinLimits(slots) && Spells(c, sha, req, slots, contents, |slots|, input, middle)
    ensures |slots| == |contents|
    ensures var read, verdict := ReadFrame(c, middle), Receive(c, sha, req, manifestSha, slots, input);
      && (read.BadFrame? ==> verdict == Declined(ProtocolFailure(0, 0)))
      && (read.Frame? ==>
            match read.message
            case FetchAbort(_, code, files, bytes) => verdict == Declined(Aborted(code, files, bytes))
            case FetchComplete(_, _, _, _) =>
              read.message != Completion(sha, req, manifestSha, slots, contents) ==>
                verdict == Declined(Verification(|slots|, SlotBytes(slots)))
            case _ => verdict == Declined(Verification(0, 0)))
  {
    SpelledAtMostAll(c, sha, req, slots, contents, |slots|, input, middle);
    hide Spells, Receive, ReadFrame, SlotBytes, Digests;
    ClosingFrameDecides(c, sha, req, manifestSha, slots, contents, input, middle);
  }

  // ----- a stream that is cut short -----

  lemma CutFrame(c: Codec, input: Bytes, cut: nat)
    requires ReadFrame(c, input).Frame? && cut <= |input|
    ensures ReadFrame(c, input[..cut]) == if cut < ReadFrame(c, input).size then EndOfStream else ReadFrame(c, input)
  {
    var length := FromBigEndian(input[..4]);
    if cut >= 4 {
      assert input[..cut][..4] == input[..4];
      if cut >= 4 + length { assert input[..cut][4..4 + length] == input[4..4 + length]; }
    }
  }

  /** The raw bytes of a file that a cut stream still delivers. */
  function RawRead(c: Codec, middle: Bytes, slot: Slot): nat {
    var read := ReadFrame(c, middle);
    if read.Frame? then Min(|middle| - read.size, slot.byteLen) else 0
  }

  lemma CutBody(c: Codec, sha: Sha, req: RequestId, slot: Slot, body: Bytes, files: U32, bytes: U64, cut: nat)
    requires ReceiveBody(c, sha, req, slot, body, files, bytes).FileOk? && cut <= |body|
    requires bytes + slot.byteLen <= U64_MAX
    ensures var ok := ReceiveBody(c, sha, req, slot, body, files, bytes);
      var used := |body| - |ok.rest|;
      && 0 <= used
      && ReceiveBody(c, sha, req, slot, body[..cut], files, bytes)
         == if cut < used then FileBad(Disconnected(files, bytes + Min(cut, slot.byteLen)))
            else FileOk(ok.content, ok.rest[..cut - used])
  {
    hide ReadFrame;
    var after := body[slot.byteLen..];
    if cut >= slot.byteLen {
      assert body[..cut][..slot.byteLen] == body[..slot.byteLen];
      assert body[..cut][slot.byteLen..] == after[..cut - slot.byteLen];
      CutFrame(c, after, cut - slot.byteLen);
      var size := ReadFrame(c, after).size;
      if cut - slot.byteLen >= size {
        assert after[..cut - slot.byteLen][size..] == after[size..][..cut - slot.byteLen - size];
      }
    }
  }

  lemma CutFile(c: Codec, sha: Sha, req: RequestId, slot: Slot, input: Bytes, files: U32, bytes: U64, cut: nat)
    requires ReceiveFile(c, sha, req, slot, input, files, bytes).FileOk? && cut <= |input|
    requires bytes + slot.byteLen <= U64_MAX
    ensures var ok := ReceiveFile(c, sha, req, slot, input, files, bytes);
      var used := |input| - |ok.rest|;
      && 0 <= used
      && ReceiveFile(c, sha, req, slot, input[..cut], files, bytes)
         == if cut < used then FileBad(Disconnected(files, bytes + RawRead(c, input[..cut], slot)))
            else FileOk(ok.content, ok.rest[..cut - used])
  {
    hide ReadFrame, ReceiveBody;
    var size := ReadFrame(c, input).size;
    CutFrame(c, input, cut);
    CutBody(c, sha, req, slot, input[size..], files, bytes, if cut < size then 0 else cut - size);
    if cut >= size { assert input[..cut][size..] == input[size..][..cut - size]; }
  }

  /** Reception of this file breaks off here, whatever came before it. */
  ghost predicate BreaksOff(c: Codec, sha: Sha, req: RequestId, slot: Slot, middle: Bytes) {
    forall files: U32, bytes: U64 :: bytes + slot.byteLen <= U64_MAX ==>
      ReceiveFile(c, sha, req, slot, middle, files, bytes)
      == FileBad(Disconnected(files, bytes + RawRead(c, middle, slot)))
  }

  lemma CutFileBreaksOff(c: Codec, sha: Sha, req: RequestId, slot: Slot, input: Bytes, cut: nat)
    requires ReceiveFile(c, sha, req, slot, input, 0, 0).FileOk?
    requires cut < |input| - |ReceiveFile(c, sha, req, slot, input, 0, 0).rest|
    ensures BreaksOff(c, sha, req, slot, input[..cut])
  {
    forall files: U32, bytes: U64 | bytes + slot.byteLen <= U64_MAX
      ensures ReceiveFile(c, sha, req, slot, input[..cut], files, bytes)
           == FileBad(Disconnected(files, bytes + RawRead(c, input[..cut], slot)))
    {
      CountsDoNotMatter(c, sha, req, slot, input, files, bytes);
      hide *;
      CutFile(c, sha, req, slot, input, files, bytes, cut);
    }
  }

  /** A stream cut inside its files breaks off at one of them, after all the files before it. */
  lemma {:induction false} CutFiles(
      c: Codec, sha: Sha, req: RequestId, slots: seq<Slot>, contents: seq<Bytes>, input: Bytes, rest: Bytes, cut: nat)
    returns (k: nat, middle: Bytes)
    requires WithinLimits(slots) && Spells(c, sha, req, slots, contents, |slots|, input, rest)
    requires cut <= |input|
    ensures k <= |slots| == |contents| && Spells(c, sha, req, slots, contents[..k], k, input[..cut], middle)
    ensures k == |slots| ==> middle <= rest && |input| - cut == |rest| - |middle|
    ensures k < |slots| ==> BreaksOff(c, sha, req, slots[k], middle)
    decreases |slots|
  {
    hide *;
    SpelledAtMostAll(c, sha, req, slots, contents, |slots|, input, rest);
    if slots == [] {
      k, middle := 0, input[..cut];
      NothingIsSpelled(c, sha, req, slots, contents, input[..cut]);
      NothingToSpell(c, sha, req, contents, input, rest);
    } else {
      OthersWithinLimits(sha, slots, contents);
      var more := FirstIsSpelled(c, sha, req, slots, contents, |slots|, input, rest, 0, 0);
      CutFile(c, sha, req, slots[0], input, 0, 0, cut);
      var used := |input| - |more|;
      if cut < used {
        k, middle := 0, input[..cut];
        NothingIsSpelled(c, sha, req, slots, contents, input[..cut]);
        CutFileBreaksOff(c, sha, req, slots[0], input, cut);
      } else {
        var j;
        j, middle := CutFiles(c, sha, req, slots[1..], contents[1..], more, rest, cut - used);
        k := j + 1;
        assert k < |slots| ==> slots[k] == slots[1..][j];
        OneMoreIsSpelled(c, sha, req, slots, contents, k, input[..cut], more[..cut - used], middle);
      }
    }
  }

  lemma NothingToSpell(c: Codec, sha: Sha, req: RequestId, contents: seq<Bytes>, input: Bytes, rest: Bytes)
    requires Spells(c, sha, req, [], contents, 0, input, rest)
    ensures input == rest
  {}

  lemma OthersWithinLimits(sha: Sha, slots: seq<Slot>, contents: seq<Bytes>)
    requires WithinLimits(slots) && 0 < |slots| == |contents|
    ensures WithinLimits(slots[1..]) && slots[0].byteLen <= U64_MAX
  {
    FirstUnfolds(sha, slots, contents);
  }

  lemma CountsDoNotMatter(c: Codec, sha: Sha, req: RequestId, slot: Slot, input: Bytes, files: U32, bytes: U64)
    requires ReceiveFile(c, sha, req, slot, input, 0, 0).FileOk?
    ensures ReceiveFile(c, sha, req, slot, input, files, bytes) == ReceiveFile(c, sha, req, slot, input, 0, 0)
  {}

  lemma NothingIsSpelled(c: Codec, sha: Sha, req: RequestId, slots: seq<Slot>, contents: seq<Bytes>, input: Bytes)
    ensures Spells(c, sha, req, slots, contents[..0], 0, input, input)
  {
    assert slots[..0] == [] && contents[..0] == [];
  }

  lemma OneMoreIsSpelled(c: Codec, sha: Sha, req: RequestId, slots: seq<Slot>, contents: seq<Bytes>, k: nat,
                         input: Bytes, more: Bytes, middle: Bytes)
    requires 0 < k <= |slots| == |contents| && Fits(slots[..|slots|], contents)
    requires ReceiveFile(c, sha, req, slots[0], input, 0, 0) == FileOk(contents[0], more)
    requires Spells(c, sha, req, slots[1..], contents[1..][..k - 1], k - 1, more, middle)
    ensures Spells(c, sha, req, slots, contents[..k], k, input, middle)
  {
    hide Reads, FilesTokens, ReceiveFile;
    assert slots[..k][1..] == slots[1..][..k - 1] && contents[..k][1..] == contents[1..][..k - 1];
    FirstFileSplits(c, sha, req, slots[..k], input, 0, 0, contents[..k], middle);
  }

  /**
   * An accepted stream that is cut short anywhere is a disconnection: inside its files with the files
   * ended and the raw bytes read at the cut, and behind them with no counts.
   */
  lemma CutStreamIsDisconnected(c: Codec, sha: Sha, req: RequestId, manifestSha: Bytes, slots: seq<Slot>,
                                input: Bytes, cut: nat) returns (k: nat, middle: Bytes)
    requires WithinLimits(slots) && Receive(c, sha, req, manifestSha, slots, input).Staged?
    requires cut < |input| - |Receive(c, sha, req, manifestSha, slots, input).rest|
    ensures var contents := Receive(c, sha, req, manifestSha, slots, input).contents;
      k <= |slots| == |contents| && Spells(c, sha, req, slots, contents[..k], k, input[..cut], middle)
    ensures k < |slots| ==> SlotBytes(slots[..k]) + RawRead(c, middle, slots[k]) <= U64_MAX
    ensures Receive(c, sha, req, manifestSha, slots, input[..cut])
         == if k == |slots| then Declined(Disconnected(0, 0))
            else Declined(Disconnected(k, SlotBytes(slots[..k]) + RawRead(c, middle, slots[k])))
  {
    var whole := Receive(c, sha, req, manifestSha, slots, input);
    hide *;
    var behind := StagedIsSpelled(c, sha, req, manifestSha, slots, input);
    k, middle := CutFiles(c, sha, req, slots, whole.contents, input, behind, cut);
    if k < |slots| {
      CutInsideFiles(c, sha, req, manifestSha, slots, whole.contents[..k], k, input[..cut], middle);
    } else {
      CutFrame(c, behind, |middle|);
      assert middle == behind[..|middle|];
      CutAfterFiles(c, sha, req, manifestSha, slots, whole.contents[..k], input[..cut], middle);
    }
  }

  lemma StagedIsSpelled(c: Codec, sha: Sha, req: RequestId, manifestSha: Bytes, slots: seq<Slot>, input: Bytes)
    returns (behind: Bytes)
    requires WithinLimits(slots) && Receive(c, sha, req, manifestSha, slots, input).Staged?
    ensures var whole := Receive(c, sha, req, manifestSha, slots, input);
      && Spells(c, sha, req, slots, whole.contents, |slots|, input, behind)
      && ReadFrame(c, behind).Frame? && behind[ReadFrame(c, behind).size..] == whole.rest
  {
    hide Receive, Reads, FilesTokens, ReadFrame;
    var whole := Receive(c, sha, req, manifestSha, slots, input);
    StagedIffTranscript(c, sha, req, manifestSha, slots, input, whole.contents, whole.rest);
    var files := FilesTokens(sha, req, slots, whole.contents);
    var close := Completion(sha, req, manifestSha, slots, whole.contents);
    ReadsConcat(c, input, files, [Control(close)], whole.rest);
    behind :| Reads(c, input, files, behind) && Reads(c, behind, [Control(close)], whole.rest);
    ReadsControl(c, behind, close, whole.rest);
    assert slots[..|slots|] == slots;
  }

  lemma CutInsideFiles(c: Codec, sha: Sha, req: RequestId, manifestSha: Bytes, slots: seq<Slot>, contents: seq<Bytes>,
                       k: nat, input: Bytes, middle: Bytes)
    requires WithinLimits(slots) && k < |slots| && Spells(c, sha, req, slots, contents, k, input, middle)
    requires BreaksOff(c, sha, req, slots[k], middle)
    ensures SlotBytes(slots[..k]) + RawRead(c, middle, slots[k]) <= U64_MAX
    ensures Receive(c, sha, req, manifestSha, slots, input)
         == Declined(Disconnected(k, SlotBytes(slots[..k]) + RawRead(c, middle, slots[k])))
  {
    PartsWeighLess(slots, k + 1);
    OneMoreWeighs(slots, k);
    hide Spells, SlotBytes, Receive, ReceiveFile;
    FailingFileDecides(c, sha, req, manifestSha, slots, contents, k, input, middle,
                       Disconnected(k, SlotBytes(slots[..k]) + RawRead(c, middle, slots[k])));
  }

  lemma CutAfterFiles(c: Codec, sha: Sha, req: RequestId, manifestSha: Bytes, slots: seq<Slot>, contents: seq<Bytes>,
                      input: Bytes, middle: Bytes)
    requires WithinLimits(slots) && Spells(c, sha, req, slots, contents, |slots|, input, middle)
    requires ReadFrame(c, middle).EndOfStream?
    ensures Receive(c, sha, req, manifestSha, slots, input) == Declined(Disconnected(0, 0))
  {
    hide Spells, Receive, ReadFrame;
    ClosingFrameDecides(c, sha, req, manifestSha, slots, contents, input, middle);
  }
}
