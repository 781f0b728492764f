/** Which byte streams a receiver accepts: exactly the ones that spell the staged files. */
module TransferTheorems {
  import opened Prelude
  import opened Wire
  import opened PayloadReceiver

  /** One file on the wire: its start, exactly its bytes, its end with their digest. */
  function FileTokens(sha: Sha, req: RequestId, slot: Slot, content: Bytes): seq<Token> {
    [Control(FileStart(req, slot.entryIndex, slot.byteLen))]
    + (Raw(content) + [Control(FileEnd(req, slot.entryIndex, sha(content)))])
  }

  function FilesTokens(sha: Sha, req: RequestId, slots: seq<Slot>, contents: seq<Bytes>): seq<Token>
    requires |slots| == |contents|
  {
    if slots == [] then []
    else FileTokens(sha, req, slots[0], contents[0]) + FilesTokens(sha, req, slots[1..], contents[1..])
  }

  function Digests(sha: Sha, contents: seq<Bytes>): Bytes {
    if contents == [] then [] else sha(contents[0]) + Digests(sha, contents[1..])
  }

  function SlotBytes(slots: seq<Slot>): nat {
    if slots == [] then 0 else slots[0].byteLen + SlotBytes(slots[1..])
  }

  predicate Fits(slots: seq<Slot>, contents: seq<Bytes>) {
    |slots| == |contents| && forall i :: 0 <= i < |slots| ==> |contents[i]| == slots[i].byteLen
  }

  /** The limits a validated manifest stays within. */
  predicate WithinLimits(slots: seq<Slot>) { |slots| <= U32_MAX && SlotBytes(slots) <= U64_MAX }

  function Completion(sha: Sha, req: RequestId, manifestSha: Bytes, slots: seq<Slot>, contents: seq<Bytes>): Message
    requires WithinLimits(slots)
  {
    FetchComplete(req, |slots|, SlotBytes(slots), sha(manifestSha + Digests(sha, contents)))
  }

  function Transcript(sha: Sha, req: RequestId, manifestSha: Bytes, slots: seq<Slot>, contents: seq<Bytes>): seq<Token>
    requires Fits(slots, contents) && WithinLimits(slots)
  {
    FilesTokens(sha, req, slots, contents) + [Control(Completion(sha, req, manifestSha, slots, contents))]
  }

  lemma ReadsControl(c: Codec, input: Bytes, m: Message, rest: Bytes)
    ensures Reads(c, input, [Control(m)], rest) <==>
            ReadFrame(c, input).Frame? && ReadFrame(c, input).message == m && input[ReadFrame(c, input).size..] == rest
  {
    assert [Control(m)][1..] == [];
  }

  lemma BodyAcceptedIffSpelled(c: Codec, sha: Sha, req: RequestId, slot: Slot, body: Bytes, files: U32, bytes: U64,
                               content: Bytes, rest: Bytes)
    requires |content| == slot.byteLen
    ensures ReceiveBody(c, sha, req, slot, body, files, bytes) == FileOk(content, rest)
       <==> Reads(c, body, Raw(content) + [Control(FileEnd(req, slot.entryIndex, sha(content)))], rest)
  {
    var end := Control(FileEnd(req, slot.entryIndex, sha(content)));
    ReadsConcat(c, body, Raw(content), [end], rest);
    forall middle
      ensures Reads(c, body, Raw(content), middle) <==> body == content + middle
    {
      ReadsRaw(c, body, content, middle);
    }
    if |body| >= |content| {
      var after := body[|content|..];
      ReadsControl(c, after, end.message, rest);
      assert body == body[..|content|] + after;
      forall middle | body == content + middle
        ensures middle == after && body[..|content|] == content
      {}
    }
  }

  lemma FileAcceptedIffSpelled(c: Codec, sha: Sha, req: RequestId, slot: Slot, input: Bytes, files: U32, bytes: U64,
                               content: Bytes, rest: Bytes)
    ensures ReceiveFile(c, sha, req, slot, input, files, bytes) == FileOk(content, rest)
       <==> |content| == slot.byteLen && Reads(c, input, FileTokens(sha, req, slot, content), rest)
  {
    var read := ReadFrame(c, input);
    var tokens := FileTokens(sha, req, slot, content);
    assert tokens[1..] == Raw(content) + [Control(FileEnd(req, slot.entryIndex, sha(content)))];
    if |content| == slot.byteLen && read.Frame? {
      BodyAcceptedIffSpelled(c, sha, req, slot, input[read.size..], files, bytes, content, rest);
    }
  }

  lemma FirstFileSplits(c: Codec, sha: Sha, req: RequestId, slots: seq<Slot>, input: Bytes, files: U32, bytes: U64,
                        contents: seq<Bytes>, rest: Bytes)
    requires 0 < |slots| == |contents| && |contents[0]| == slots[0].byteLen
    ensures Reads(c, input, FilesTokens(sha, req, slots, contents), rest)
       <==> var file := ReceiveFile(c, sha, req, slots[0], input, files, bytes);
            file.FileOk? && file.content == contents[0]
            && Reads(c, file.rest, FilesTokens(sha, req, slots[1..], contents[1..]), rest)
  {
    var first, others := FileTokens(sha, req, slots[0], contents[0]), FilesTokens(sha, req, slots[1..], contents[1..]);
    ReadsConcat(c, input, first, others, rest);
    forall middle
      ensures Reads(c, input, first, middle)
         <==> ReceiveFile(c, sha, req, slots[0], input, files, bytes) == FileOk(contents[0], middle)
    {
      FileAcceptedIffSpelled(c, sha, req, slots[0], input, files, bytes, contents[0], middle);
    }
  }

  lemma FitsMeansAsMany(slots: seq<Slot>, contents: seq<Bytes>)
    requires Fits(slots, contents)
    ensures |slots| == |contents|
  {}

  lemma FitsSplits(slots: seq<Slot>, contents: seq<Bytes>)
    requires 0 < |slots| == |contents|
    ensures Fits(slots, contents) <==> |contents[0]| == slots[0].byteLen && Fits(slots[1..], contents[1..])
  {
    assert forall i :: 0 <= i < |slots[1..]| ==> slots[1..][i] == slots[i + 1] && contents[1..][i] == contents[i + 1];
    assert forall i :: 1 <= i < |slots| ==> slots[i] == slots[1..][i - 1] && contents[i] == contents[1..][i - 1];
  }

  /** What the counters and the running digest have become once all files are in. */
  function AllReceived(sha: Sha, slots: seq<Slot>, files: U32, bytes: U64, digests: Bytes, contents: seq<Bytes>,
                       rest: Bytes): FilesReception
    requires files + |slots| <= U32_MAX && bytes + SlotBytes(slots) <= U64_MAX
  {
    Got(contents, files + |slots|, bytes + SlotBytes(slots), digests + Digests(sha, contents), rest)
  }

  lemma AllReceivedParts(sha: Sha, slots: seq<Slot>, files: U32, bytes: U64, digests: Bytes, contents: seq<Bytes>,
                         rest: Bytes)
    requires files + |slots| <= U32_MAX && bytes + SlotBytes(slots) <= U64_MAX
    ensures var r := AllReceived(sha, slots, files, bytes, digests, contents, rest);
      && r.Got? && r.contents == contents && r.rest == rest && r.digests == digests + Digests(sha, contents)
      && r.files == files + |slots| && r.bytes == bytes + SlotBytes(slots)
  {
    hide SlotBytes, Digests;
  }

  lemma FirstUnfolds(sha: Sha, slots: seq<Slot>, contents: seq<Bytes>)
    requires slots != [] && contents != []
    ensures SlotBytes(slots) == slots[0].byteLen + SlotBytes(slots[1..])
    ensures Digests(sha, contents) == sha(contents[0]) + Digests(sha, contents[1..])
  {}

  lemma AllReceivedStep(sha: Sha, slots: seq<Slot>, files: U32, bytes: U64, digests: Bytes, contents: seq<Bytes>,
                        rest: Bytes)
    requires files + |slots| <= U32_MAX && bytes + SlotBytes(slots) <= U64_MAX && slots != [] && contents != []
    ensures AllReceived(sha, slots, files, bytes, digests, contents, rest)
         == Prepend([contents[0]], AllReceived(sha, slots[1..], files + 1, bytes + slots[0].byteLen,
                                               digests + sha(contents[0]), contents[1..], rest))
  {
    hide *;
    var head, tail := sha(contents[0]), Digests(sha, contents[1..]);
    FirstUnfolds(sha, slots, contents);
    assert (bytes + slots[0].byteLen) + SlotBytes(slots[1..]) == bytes + SlotBytes(slots);
    AllReceivedParts(sha, slots, files, bytes, digests, contents, rest);
    AllReceivedParts(sha, slots[1..], files + 1, bytes + slots[0].byteLen, digests + head, contents[1..], rest);
    PrependGot([contents[0]], AllReceived(sha, slots[1..], files + 1, bytes + slots[0].byteLen, digests + head,
                                          contents[1..], rest));
    HeadAndTail(contents);
    ConcatIsAssociative(digests, head, tail);
  }

  /** A stream that spells files of the right lengths is received as those files. */
  lemma {:induction false} SpelledFilesAreReceived(
      c: Codec, sha: Sha, req: RequestId, slots: seq<Slot>, input: Bytes, files: U32, bytes: U64, digests: Bytes,
      contents: seq<Bytes>, rest: Bytes)
    requires files + |slots| <= U32_MAX && bytes + SlotBytes(slots) <= U64_MAX
    requires Fits(slots, contents) && Reads(c, input, FilesTokens(sha, req, slots, contents), rest)
    ensures ReceiveFiles(c, sha, req, slots, input, files, bytes, digests)
         == AllReceived(sha, slots, files, bytes, digests, contents, rest)
    decreases |slots|
  {
    if slots == [] {
      assert digests + [] == digests;
    } else {
      hide ReceiveFile, Reads, FileTokens;
      FitsSplits(slots, contents);
      FirstFileSplits(c, sha, req, slots, input, files, bytes, contents, rest);
      var file := ReceiveFile(c, sha, req, slots[0], input, files, bytes);
      SpelledFilesAreReceived(c, sha, req, slots[1..], file.rest, files + 1, bytes + slots[0].byteLen,
                              digests + sha(contents[0]), contents[1..], rest);
      AllReceivedStep(sha, slots, files, bytes, digests, contents, rest);
    }
  }

  lemma FirstFileFirst(c: Codec, sha: Sha, req: RequestId, slots: seq<Slot>, input: Bytes, files: U32, bytes: U64,
                       digests: Bytes)
    requires slots != [] && files + |slots| <= U32_MAX && bytes + SlotBytes(slots) <= U64_MAX
    ensures bytes + slots[0].byteLen + SlotBytes(slots[1..]) <= U64_MAX
    ensures var got := ReceiveFiles(c, sha, req, slots, input, files, bytes, digests);
      match ReceiveFile(c, sha, req, slots[0], input, files, bytes)
      case FileBad(failure) => got == Broken(failure)
      case FileOk(content, rest) =>
        var more := ReceiveFiles(c, sha, req, slots[1..], rest, files + 1, bytes + slots[0].byteLen, digests
          + sha(content));
        if more.Broken? then got == more
        else got == Got([content] + more.contents, more.files, more.bytes, more.digests, more.rest)
  {
    hide ReceiveFile;
  }

  lemma NoFilesReceived(c: Codec, sha: Sha, req: RequestId, input: Bytes, files: U32, bytes: U64, digests: Bytes)
    ensures SlotBytes([]) == 0 && Fits([], []) && FilesTokens(sha, req, [], []) == [] && Reads(c, input, [], input)
    ensures ReceiveFiles(c, sha, req, [], input, files, bytes, digests) == Got([], files, bytes, digests, input)
         == AllReceived(sha, [], files, bytes, digests, [], input)
  {
    assert digests + [] == digests;
  }

  lemma PrependGot(contents: seq<Bytes>, got: FilesReception)
    requires got.Got?
    ensures Prepend(contents, got) == Got(contents + got.contents, got.files, got.bytes, got.digests, got.rest)
  {}

  /** Files that are received were spelled by the stream, with their lengths and digests. */
  lemma {:induction false} ReceivedFilesWereSpelled(
      c: Codec, sha: Sha, req: RequestId, slots: seq<Slot>, input: Bytes, files: U32, bytes: U64, digests: Bytes)
    requires files + |slots| <= U32_MAX && bytes + SlotBytes(slots) <= U64_MAX
    ensures var got := ReceiveFiles(c, sha, req, slots, input, files, bytes, digests);
      got.Got? ==>
        && Fits(slots, got.contents)
        && Reads(c, input, FilesTokens(sha, req, slots, got.contents), got.rest)
        && got == AllReceived(sha, slots, files, bytes, digests, got.contents, got.rest)
    decreases |slots|
  {
    hide *;
    if slots == [] {
      NoFilesReceived(c, sha, req, input, files, bytes, digests);
    } else {
      var got := ReceiveFiles(c, sha, req, slots, input, files, bytes, digests);
      var file := ReceiveFile(c, sha, req, slots[0], input, files, bytes);
      FirstFileFirst(c, sha, req, slots, input, files, bytes, digests);
      if file.FileOk? {
        var more := ReceiveFiles(c, sha, req, slots[1..], file.rest, files + 1, bytes + slots[0].byteLen,
                                 digests + sha(file.content));
        ReceivedFilesWereSpelled(c, sha, req, slots[1..], file.rest, files + 1, bytes + slots[0].byteLen,
                                 digests + sha(file.content));
        FileAcceptedIffSpelled(c, sha, req, slots[0], input, files, bytes, file.content, file.rest);
        if more.Got? {
          var contents := [file.content] + more.contents;
          assert contents[1..] == more.contents;
          FitsMeansAsMany(slots[1..], more.contents);
          FitsSplits(slots, contents);
          FirstFileSplits(c, sha, req, slots, input, files, bytes, contents, more.rest);
          AllReceivedStep(sha, slots, files, bytes, digests, contents, more.rest);
          PrependGot([file.content], more);
        }
      }
    }
  }

  lemma CompleteAcceptedIffSpelled(c: Codec, sha: Sha, req: RequestId, manifestSha: Bytes, got: FilesReception,
                                   contents: seq<Bytes>, rest: Bytes)
    requires got.Got?
    ensures ReceiveComplete(c, sha, req, manifestSha, got) == Staged(contents, rest) <==>
            && contents == got.contents
            && Reads(c, got.rest,
              [Control(FetchComplete(req, got.files, got.bytes, sha(manifestSha + got.digests)))], rest)
  {
    ReadsControl(c, got.rest, FetchComplete(req, got.files, got.bytes, sha(manifestSha + got.digests)), rest);
  }

  /**
   * A receiver stages `contents` and stops at `rest` exactly when the peer's bytes spell them: every
   * file with its manifest index, exactly its manifest length and its own digest, in order, then
   * the counts of what was written and the digest of the whole set.
   */
  lemma StagedIffTranscript(c: Codec, sha: Sha, req: RequestId, manifestSha: Bytes, slots: seq<Slot>, input: Bytes,
                            contents: seq<Bytes>, rest: Bytes)
    requires WithinLimits(slots)
    ensures Receive(c, sha, req, manifestSha, slots, input) == Staged(contents, rest)
       <==> Fits(slots, contents) && Reads(c, input, Transcript(sha, req, manifestSha, slots, contents), rest)
  {
    hide Reads, ReceiveFiles, ReceiveComplete, FilesTokens;
    var got := ReceiveFiles(c, sha, req, slots, input, 0, 0, []);
    assert forall d: Bytes :: [] + d == d;
    if got.Got? && Fits(slots, contents) {
      ReceivedFilesWereSpelled(c, sha, req, slots, input, 0, 0, []);
      CompleteAcceptedIffSpelled(c, sha, req, manifestSha, got, contents, rest);
    }
    if Receive(c, sha, req, manifestSha, slots, input) == Staged(contents, rest) {
      ReceivedFilesWereSpelled(c, sha, req, slots, input, 0, 0, []);
      CompleteAcceptedIffSpelled(c, sha, req, manifestSha, got, contents, rest);
    }
    if Fits(slots, contents) {
      var files := FilesTokens(sha, req, slots, contents);
      var close := Completion(sha, req, manifestSha, slots, contents);
      ReadsConcat(c, input, files, [Control(close)], rest);
      if middle :| Reads(c, input, files, middle) && Reads(c, middle, [Control(close)], rest) {
        SpelledFilesAreReceived(c, sha, req, slots, input, 0, 0, [], contents, middle);
        CompleteAcceptedIffSpelled(c, sha, req, manifestSha, got, contents, rest);
      }
    }
  }

  lemma {:induction false} ReadsIsStable(c: Codec, input: Bytes, tokens: seq<Token>, rest: Bytes, more: Bytes)
    requires Reads(c, input, tokens, rest)
    ensures Reads(c, input + more, tokens, rest + more)
    decreases |tokens|
  {
    if tokens != [] {
      match tokens[0] {
        case RawByte(b) =>
          ReadsIsStable(c, input[1..], tokens[1..], rest, more);
          assert (input + more)[1..] == input[1..] + more;
        case Control(m) =>
          var size := ReadFrame(c, input).size;
          FrameIsStable(c, input, more);
          ReadsIsStable(c, input[size..], tokens[1..], rest, more);
          assert (input + more)[size..] == input[size..] + more;
      }
    }
  }

  /** A stream cut anywhere before the end of what was accepted is never accepted. */
  lemma TruncatedStreamIsNeverStaged(c: Codec, sha: Sha, req: RequestId, manifestSha: Bytes, slots: seq<Slot>,
                                     input: Bytes, cut: nat)
    requires WithinLimits(slots)
    requires Receive(c, sha, req, manifestSha, slots, input).Staged?
    requires cut < |input| - |Receive(c, sha, req, manifestSha, slots, input).rest|
    ensures !Receive(c, sha, req, manifestSha, slots, input[..cut]).Staged?
  {
    hide Reads, Receive;
    var whole := Receive(c, sha, req, manifestSha, slots, input);
    var part := Receive(c, sha, req, manifestSha, slots, input[..cut]);
    if part.Staged? {
      StagedIffTranscript(c, sha, req, manifestSha, slots, input[..cut], part.contents, part.rest);
      ReadsIsStable(c, input[..cut], Transcript(sha, req, manifestSha, slots, part.contents), part.rest, input[cut..]);
      assert input[..cut] + input[cut..] == input;
      StagedIffTranscript(c, sha, req, manifestSha, slots, input, part.contents, part.rest + input[cut..]);
    }
  }
}
