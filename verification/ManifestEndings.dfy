/** How the reading of a manifest ends when it does not succeed. */
module ManifestEndings {
  import opened Prelude
  import opened Outcomes
  import opened Wire
  import opened TransferEndings
  import opened Manifests

  /** Chunks that carry the next entries in order are taken one by one. */
  lemma {:induction false} ChunksAreTaken(c: Codec, header: Message, done: seq<ManifestEntry>, encoded: nat,
                                          chunks: seq<Message>, entries: seq<ManifestEntry>, input: Bytes, rest: Bytes)
    requires header.FetchHeader? && Covers(c, header.requestId, chunks, |done|, entries)
    requires |done| + |entries| <= header.manifestEntries
    requires Reads(c, input, AsTokens(chunks), rest)
    ensures ReadChunks(c, header, done, encoded, input)
         == ReadChunks(c, header, done + entries, encoded + EncodedBytes(c, chunks), rest)
    decreases |chunks|
  {
    hide *;
    if chunks == [] {
      NoChunks(c, header.requestId, |done|, entries, input, rest);
      assert done + [] == done;
    } else {
      FirstChunk(c, header.requestId, chunks, |done|, entries, input, rest);
      var chunk := chunks[0];
      var n, after := |chunk.entries|, input[ReadFrame(c, input).size..];
      FirstChunkIsTaken(c, header, done, encoded, chunk, input);
      ConcatIsAssociative(done, chunk.entries, entries[n..]);
      ChunksAreTaken(c, header, done + chunk.entries, encoded + |c.json(chunk)|, chunks[1..], entries[n..],
                     after, rest);
    }
  }

  lemma NoChunks(c: Codec, req: RequestId, first: nat, entries: seq<ManifestEntry>, input: Bytes, rest: Bytes)
    requires Covers(c, req, [], first, entries) && Reads(c, input, AsTokens([]), rest)
    ensures entries == [] && input == rest && EncodedBytes(c, []) == 0
  {}

  lemma FirstChunk(c: Codec, req: RequestId, chunks: seq<Message>, first: nat, entries: seq<ManifestEntry>,
                   input: Bytes, rest: Bytes)
    requires chunks != [] && Covers(c, req, chunks, first, entries) && Reads(c, input, AsTokens(chunks), rest)
    ensures var chunk := chunks[0];
      && chunk.ManifestChunk? && chunk.requestId == req && chunk.firstIndex == first && chunk.entries != []
      && |chunk.entries| <= |entries| && chunk.entries + entries[|chunk.entries|..] == entries
      && Covers(c, req, chunks[1..], first + |chunk.entries|, entries[|chunk.entries|..])
      && ReadFrame(c, input).Frame? && ReadFrame(c, input).message == chunk
      && Reads(c, input[ReadFrame(c, input).size..], AsTokens(chunks[1..]), rest)
      && EncodedBytes(c, chunks) == |c.json(chunk)| + EncodedBytes(c, chunks[1..])
  {
    hide ReadFrame, EncodeFrame;
    assert AsTokens(chunks)[0] == Control(chunks[0]) && AsTokens(chunks)[1..] == AsTokens(chunks[1..]);
  }

  lemma FirstChunkIsTaken(c: Codec, header: Message, done: seq<ManifestEntry>, encoded: nat, chunk: Message,
                          input: Bytes)
    requires header.FetchHeader? && ReadFrame(c, input).Frame? && ReadFrame(c, input).message == chunk
    requires chunk.ManifestChunk? && chunk.requestId == header.requestId && chunk.firstIndex == |done|
    requires chunk.entries != [] && |done| + |chunk.entries| <= header.manifestEntries
    ensures ReadChunks(c, header, done, encoded, input)
         == ReadChunks(c, header, done + chunk.entries, encoded + |c.json(chunk)|, input[ReadFrame(c, input).size..])
  {
    hide ReadFrame;
  }

  /** The frame that has to come next. */
  predicate IsNext(header: Message, done: nat, m: Message)
    requires header.FetchHeader?
  {
    if done < header.manifestEntries then
      && m.ManifestChunk? && m.requestId == header.requestId && m.firstIndex == done && m.entries != []
      && done + |m.entries| <= header.manifestEntries
    else m.ManifestEnd? && m.requestId == header.requestId
  }

  /**
   * After some chunks in order, any frame but the next one is a failed verification, bytes that are no
   * frame are a protocol failure, and the end of the stream is a disconnection.
   */
  lemma WrongManifestFrameIsReported(c: Codec, header: Message, chunks: seq<Message>, entries: seq<ManifestEntry>,
                                     input: Bytes, rest: Bytes)
    requires header.FetchHeader? && 0 < header.manifestEntries && |entries| <= header.manifestEntries
    requires Covers(c, header.requestId, chunks, 0, entries) && Reads(c, input, AsTokens(chunks), rest)
    ensures var read := ReadFrame(c, rest);
      && (read.EndOfStream? ==> ReadManifest(c, header, input) == ManifestBad(Disconnected(0, 0)))
      && (read.BadFrame? ==> ReadManifest(c, header, input) == ManifestBad(ProtocolFailure(0, 0)))
      && (read.Frame? && !IsNext(header, |entries|, read.message) ==>
            ReadManifest(c, header, input) == ManifestBad(Verification(0, 0)))
  {
    hide Reads, ReadFrame, Covers;
    ChunksAreTaken(c, header, [], 0, chunks, entries, input, rest);
    assert [] + entries == entries;
  }

  lemma CutEnd(c: Codec, header: Message, entries: seq<ManifestEntry>, encoded: nat, input: Bytes, cut: nat)
    requires header.FetchHeader? && AwaitEnd(c, header, entries, encoded, input).ManifestOk?
    requires cut < |input| - |AwaitEnd(c, header, entries, encoded, input).rest|
    ensures AwaitEnd(c, header, entries, encoded, input[..cut]) == ManifestBad(Disconnected(0, 0))
  {
    hide ReadFrame;
    CutFrame(c, input, cut);
  }

  lemma {:induction false} RestIsNoLonger(c: Codec, header: Message, entries: seq<ManifestEntry>, encoded: nat,
                                          input: Bytes)
    requires header.FetchHeader? && ReadChunks(c, header, entries, encoded, input).ManifestOk?
    ensures |ReadChunks(c, header, entries, encoded, input).rest| <= |input|
    decreases header.manifestEntries - |entries|
  {
    hide ReadFrame;
    if |entries| < header.manifestEntries {
      var read := ReadFrame(c, input);
      RestIsNoLonger(c, header, entries + read.message.entries, encoded + |c.json(read.message)|, input[read.size..]);
    }
  }

  /** A manifest that is cut short anywhere is a disconnection. */
  lemma {:induction false} CutManifestIsDisconnected(c: Codec, header: Message, entries: seq<ManifestEntry>,
                                                     encoded: nat, input: Bytes, cut: nat)
    requires header.FetchHeader? && ReadChunks(c, header, entries, encoded, input).ManifestOk?
    requires cut < |input| - |ReadChunks(c, header, entries, encoded, input).rest|
    ensures ReadChunks(c, header, entries, encoded, input[..cut]) == ManifestBad(Disconnected(0, 0))
    decreases header.manifestEntries - |entries|
  {
    hide ReadFrame;
    if |entries| >= header.manifestEntries {
      CutEnd(c, header, entries, encoded, input, cut);
    } else {
      var read := ReadFrame(c, input);
      CutFrame(c, input, cut);
      if cut >= read.size {
        assert input[..cut][read.size..] == input[read.size..][..cut - read.size];
        CutManifestIsDisconnected(c, header, entries + read.message.entries, encoded + |c.json(read.message)|,
                                  input[read.size..], cut - read.size);
      }
    }
  }
}
