/** Manifests on the wire, and the receiver's check of a reassembled one. */
module Manifests {
  import opened Prelude
  import opened Outcomes
  import opened Wire
  import opened PayloadReceiver
  import opened TransferTheorems

  // ----- chunks -----

  /** Chunks that carry these entries in order from index `first`, none empty, each fitting a frame. */
  predicate Covers(c: Codec, req: RequestId, chunks: seq<Message>, first: nat, entries: seq<ManifestEntry>)
    decreases |chunks|
  {
    if chunks == [] then entries == []
    else
      var chunk := chunks[0];
      && chunk.ManifestChunk? && chunk.requestId == req && chunk.firstIndex == first
      && chunk.entries != [] && chunk.entries <= entries && EncodeFrame(c, chunk).Some?
      && Covers(c, req, chunks[1..], first + |chunk.entries|, entries[|chunk.entries|..])
  }

  function EncodedBytes(c: Codec, chunks: seq<Message>): nat {
    if chunks == [] then 0 else |c.json(chunks[0])| + EncodedBytes(c, chunks[1..])
  }

  function Onto(chunks: seq<Message>, rest: Option<seq<Message>>): Option<seq<Message>> {
    if rest.None? then None else Some(chunks + rest.value)
  }

  /** A chunk of the entries from `first` up to `i`, and what follows it; `None` when it cannot be framed. */
  function Close(c: Codec, req: RequestId, entries: seq<ManifestEntry>, first: nat, i: nat,
                 rest: Option<seq<Message>>): Option<seq<Message>>
    requires first <= i <= |entries| <= U32_MAX
  {
    var chunk := ManifestChunk(req, first, entries[first..i]);
    if EncodeFrame(c, chunk).None? then None else Onto([chunk], rest)
  }

  /** The greedy chunks of the entries from `first` on, of which those up to `i` are known to go together. */
  function ChunksFrom(c: Codec, req: RequestId, entries: seq<ManifestEntry>, first: nat, i: nat): Option<seq<Message>>
    requires first <= i <= |entries| <= U32_MAX
    decreases |entries| - i
  {
    if i == |entries| then (if first == i then Some([]) else Close(c, req, entries, first, i, Some([])))
    else if |c.json(ManifestChunk(req, first, entries[first..i + 1]))| <= MAX_FRAME_BYTES then
      ChunksFrom(c, req, entries, first, i + 1)
    else if first == i then None
    else Close(c, req, entries, first, i, ChunksFrom(c, req, entries, i, i + 1))
  }

  /** `chunk_manifest` with `encoded_manifest_bytes`; `None` is an error. */
  function Chunked(c: Codec, req: RequestId, entries: seq<ManifestEntry>): Option<seq<Message>> {
    if |entries| > MAX_MANIFEST_ENTRIES || !ValidEntries(entries) then None
    else
      var chunks := ChunksFrom(c, req, entries, 0, 0);
      if chunks.Some? && EncodedBytes(c, chunks.value) <= MAX_MANIFEST_BYTES then chunks else None
  }

  // ----- as it runs -----

  lemma {:induction false} EncodedBytesOneMore(c: Codec, chunks: seq<Message>, chunk: Message)
    ensures EncodedBytes(c, chunks + [chunk]) == EncodedBytes(c, chunks) + |c.json(chunk)|
  {
    var all := chunks + [chunk];
    if chunks == [] {
      assert all == [chunk] && all[1..] == [];
    } else {
      EncodedBytesOneMore(c, chunks[1..], chunk);
      assert all[1..] == chunks[1..] + [chunk];
    }
  }

  lemma OntoOneMore(chunks: seq<Message>, chunk: Message, rest: Option<seq<Message>>)
    ensures Onto(chunks, Onto([chunk], rest)) == Onto(chunks + [chunk], rest)
  {
    if rest.Some? { assert chunks + ([chunk] + rest.value) == (chunks + [chunk]) + rest.value; }
  }

  lemma OntoNothing(chunks: seq<Message>)
    ensures Onto(chunks, Some([])) == Some(chunks)
  {
    assert chunks + [] == chunks;
  }

  /** What the loop body decides at one entry. */
  lemma ChunksFromStep(c: Codec, req: RequestId, entries: seq<ManifestEntry>, first: nat, i: nat,
                       current: seq<ManifestEntry>)
    requires first <= i < |entries| <= U32_MAX && current == entries[first..i]
    ensures current + [entries[i]] == entries[first..i + 1] && [entries[i]] == entries[i..i + 1]
    ensures ChunksFrom(c, req, entries, first, i)
         == if |c.json(ManifestChunk(req, first, current + [entries[i]]))| <= MAX_FRAME_BYTES
            then ChunksFrom(c, req, entries, first, i + 1)
            else if current == [] then None
            else if EncodeFrame(c, ManifestChunk(req, first, current)).None? then None
            else Onto([ManifestChunk(req, first, current)], ChunksFrom(c, req, entries, i, i + 1))
  {
    hide EncodeFrame;
  }

  lemma ChunksFromEnd(c: Codec, req: RequestId, entries: seq<ManifestEntry>, first: nat, current: seq<ManifestEntry>)
    requires first <= |entries| <= U32_MAX && current == entries[first..]
    ensures ChunksFrom(c, req, entries, first, |entries|)
         == if current == [] then Some([])
            else if EncodeFrame(c, ManifestChunk(req, first, current)).None? then None
            else Some([ManifestChunk(req, first, current)])
  {
    hide EncodeFrame;
    OntoNothing([ManifestChunk(req, first, current)]);
    assert current == entries[first..|entries|];
  }

  /** What the loop keeps: the verdict is what is closed already, then what the rest gives. */
  ghost predicate Midway(c: Codec, req: RequestId, entries: seq<ManifestEntry>, verdict: Option<seq<Message>>,
                         chunks: seq<Message>, total: nat, first: nat, i: nat, current: seq<ManifestEntry>)
  {
    && first <= i <= |entries| <= U32_MAX && current == entries[first..i]
    && total == EncodedBytes(c, chunks) && verdict == Onto(chunks, ChunksFrom(c, req, entries, first, i))
  }

  lemma ChunkGrows(c: Codec, req: RequestId, entries: seq<ManifestEntry>, verdict: Option<seq<Message>>,
                   chunks: seq<Message>, total: nat, first: nat, i: nat, current: seq<ManifestEntry>)
    requires i < |entries| && Midway(c, req, entries, verdict, chunks, total, first, i, current)
    requires |c.json(ManifestChunk(req, first, current + [entries[i]]))| <= MAX_FRAME_BYTES
    ensures Midway(c, req, entries, verdict, chunks, total, first, i + 1, current + [entries[i]])
  {
    hide ChunksFrom, EncodedBytes, Onto;
    ChunksFromStep(c, req, entries, first, i, current);
  }

  lemma ChunkCloses(c: Codec, req: RequestId, entries: seq<ManifestEntry>, verdict: Option<seq<Message>>,
                    chunks: seq<Message>, total: nat, first: nat, i: nat, current: seq<ManifestEntry>)
    requires i < |entries| && Midway(c, req, entries, verdict, chunks, total, first, i, current)
    requires |c.json(ManifestChunk(req, first, current + [entries[i]]))| > MAX_FRAME_BYTES
    ensures var full := ManifestChunk(req, first, current);
      if current == [] || EncodeFrame(c, full).None? then verdict == None
      else Midway(c, req, entries, verdict, chunks + [full], total + |c.json(full)|, i, i + 1, [entries[i]])
  {
    hide ChunksFrom, EncodedBytes, EncodeFrame, Onto;
    var full := ManifestChunk(req, first, current);
    ChunksFromStep(c, req, entries, first, i, current);
    OntoFailure(chunks);
    EncodedBytesOneMore(c, chunks, full);
    OntoOneMore(chunks, full, ChunksFrom(c, req, entries, i, i + 1));
  }

  lemma ChunksEnd(c: Codec, req: RequestId, entries: seq<ManifestEntry>, verdict: Option<seq<Message>>,
                  chunks: seq<Message>, total: nat, first: nat, current: seq<ManifestEntry>)
    requires Midway(c, req, entries, verdict, chunks, total, first, |entries|, current)
    ensures total == EncodedBytes(c, chunks)
    ensures var last := ManifestChunk(req, first, current);
      if current == [] then verdict == Some(chunks)
      else if EncodeFrame(c, last).None? then verdict == None
      else verdict == Some(chunks + [last]) && EncodedBytes(c, chunks + [last]) == total + |c.json(last)|
  {
    hide ChunksFrom, EncodedBytes, EncodeFrame, Onto;
    var last := ManifestChunk(req, first, current);
    ChunksFromEnd(c, req, entries, first, current);
    OntoNothing(chunks);
    OntoFailure(chunks);
    OntoLast(chunks, last);
    EncodedBytesOneMore(c, chunks, last);
  }

  lemma ChunksStart(c: Codec, req: RequestId, entries: seq<ManifestEntry>)
    ensures var verdict := if |entries| <= U32_MAX then ChunksFrom(c, req, entries, 0, 0) else None;
      if |entries| > MAX_MANIFEST_ENTRIES || !ValidEntries(entries) then Chunked(c, req, entries) == None
      else
        && |entries| <= U32_MAX && Midway(c, req, entries, verdict, [], 0, 0, 0, [])
        && Chunked(c, req, entries)
           == if verdict.Some? && EncodedBytes(c, verdict.value) <= MAX_MANIFEST_BYTES then verdict else None
  {
    if |entries| <= MAX_MANIFEST_ENTRIES {
      assert EncodedBytes(c, []) == 0;
      hide ChunksFrom, ValidEntries;
      OntoIsIdle(ChunksFrom(c, req, entries, 0, 0));
    }
  }

  /** `chunk_manifest`: greedy chunks, or an error. */
  method ChunkManifest(c: Codec, req: RequestId, entries: seq<ManifestEntry>) returns (r: Option<seq<Message>>)
    ensures r == Chunked(c, req, entries)
  {
    hide *;
    ChunksStart(c, req, entries);
    if |entries| > MAX_MANIFEST_ENTRIES || !ValidEntries(entries) { return None; }
    ghost var verdict := ChunksFrom(c, req, entries, 0, 0);
    var chunks: seq<Message>, current: seq<ManifestEntry>, first: U32, total: nat := [], [], 0, 0;
    for i := 0 to |entries|
      invariant first <= i && Midway(c, req, entries, verdict, chunks, total, first, i, current)
    {
      var candidate := ManifestChunk(req, first, current + [entries[i]]);
      if |c.json(candidate)| <= MAX_FRAME_BYTES {
        ChunkGrows(c, req, entries, verdict, chunks, total, first, i, current);
        current := current + [entries[i]];
      } else {
        ChunkCloses(c, req, entries, verdict, chunks, total, first, i, current);
        var full := ManifestChunk(req, first, current);
        if current == [] || EncodeFrame(c, full).None? { return None; }
        chunks, total, first, current := chunks + [full], total + |c.json(full)|, i, [entries[i]];
      }
    }
    ChunksEnd(c, req, entries, verdict, chunks, total, first, current);
    if current != [] {
      var last := ManifestChunk(req, first, current);
      if EncodeFrame(c, last).None? { return None; }
      chunks, total := chunks + [last], total + |c.json(last)|;
    }
    r := if total <= MAX_MANIFEST_BYTES then Some(chunks) else None;
  }

  lemma OntoIsIdle(rest: Option<seq<Message>>)
    ensures Onto([], rest) == rest
  {
    if rest.Some? { assert [] + rest.value == rest.value; }
  }

  lemma OntoFailure(chunks: seq<Message>)
    ensures Onto(chunks, None) == None
  {}

  lemma OntoLast(chunks: seq<Message>, last: Message)
    ensures Onto(chunks, Some([last])) == Some(chunks + [last])
  {}

  // ----- what chunking gives, and when it succeeds -----

  lemma CoversNothing(c: Codec, req: RequestId, first: nat)
    ensures Covers(c, req, [], first, [])
  {}

  lemma LastChunkCovers(c: Codec, req: RequestId, entries: seq<ManifestEntry>, first: nat)
    requires first <= |entries| <= U32_MAX
    ensures var chunks := ChunksFrom(c, req, entries, first, |entries|);
      chunks.Some? ==> Covers(c, req, chunks.value, first, entries[first..])
  {
    hide *;
    var current := entries[first..];
    var last := ManifestChunk(req, first, current);
    CoversNothing(c, req, |entries|);
    ChunksFromEnd(c, req, entries, first, current);
    if current != [] && EncodeFrame(c, last).Some? {
      assert entries[first..|entries|] == current && entries[|entries|..] == [] && [last] + [] == [last];
      CoversOneMore(c, req, entries, first, |entries|, []);
    }
  }

  lemma OntoIs(chunks: seq<Message>, rest: Option<seq<Message>>)
    requires rest.Some?
    ensures Onto(chunks, rest) == Some(chunks + rest.value)
  {}

  lemma CoversOneMore(c: Codec, req: RequestId, entries: seq<ManifestEntry>, first: nat, i: nat, rest: seq<Message>)
    requires first < i <= |entries| <= U32_MAX && Covers(c, req, rest, i, entries[i..])
    requires EncodeFrame(c, ManifestChunk(req, first, entries[first..i])).Some?
    ensures Covers(c, req, [ManifestChunk(req, first, entries[first..i])] + rest, first, entries[first..])
  {
    hide EncodeFrame;
    var chunk := ManifestChunk(req, first, entries[first..i]);
    assert ([chunk] + rest)[1..] == rest;
    assert entries[first..][i - first..] == entries[i..] && entries[first..i] <= entries[first..];
  }

  lemma {:induction false} ChunksFromCover(c: Codec, req: RequestId, entries: seq<ManifestEntry>, first: nat, i: nat)
    requires first <= i <= |entries| <= U32_MAX
    ensures var chunks := ChunksFrom(c, req, entries, first, i);
      chunks.Some? ==> Covers(c, req, chunks.value, first, entries[first..])
    decreases |entries| - i
  {
    hide *;
    var current := entries[first..i];
    if i == |entries| {
      LastChunkCovers(c, req, entries, first);
    } else {
      ChunksFromStep(c, req, entries, first, i, current);
      ChunksFromCover(c, req, entries, first, i + 1);
      ChunksFromCover(c, req, entries, i, i + 1);
      var rest := ChunksFrom(c, req, entries, i, i + 1);
      if current != [] && rest.Some? && EncodeFrame(c, ManifestChunk(req, first, current)).Some? {
        CoversOneMore(c, req, entries, first, i, rest.value);
        OntoIs([ManifestChunk(req, first, current)], rest);
      } else if rest.None? {
        OntoFailure([ManifestChunk(req, first, current)]);
      }
    }
  }

  /** Chunks are contiguous, none is empty, each fits a frame, and together they fit the bound. */
  lemma ChunkedCovers(c: Codec, req: RequestId, entries: seq<ManifestEntry>)
    requires Chunked(c, req, entries).Some?
    ensures Covers(c, req, Chunked(c, req, entries).value, 0, entries)
    ensures EncodedBytes(c, Chunked(c, req, entries).value) <= MAX_MANIFEST_BYTES
  {
    hide ChunksFrom, Covers, ValidEntries;
    ChunksFromCover(c, req, entries, 0, 0);
    assert entries[0..] == entries;
  }

  lemma {:induction false} FileBytesConcat(a: seq<ManifestEntry>, b: seq<ManifestEntry>)
    ensures FileBytes(a + b) == FileBytes(a) + FileBytes(b)
    decreases |b|
  {
    if b == [] {
      assert a + b == a;
    } else {
      var most := b[..|b| - 1];
      FileBytesConcat(a, most);
      assert (a + b)[..|a + b| - 1] == a + most && (a + b)[|a + b| - 1] == b[|b| - 1];
    }
  }

  lemma PartIsValid(entries: seq<ManifestEntry>, first: nat, i: nat)
    requires ValidEntries(entries) && first <= i <= |entries|
    ensures ValidEntries(entries[first..i])
  {
    hide ValidEntry;
    assert entries == entries[..first] + (entries[first..i] + entries[i..]);
    FileBytesConcat(entries[..first], entries[first..i] + entries[i..]);
    FileBytesConcat(entries[first..i], entries[i..]);
    hide FileBytes;
    assert forall k :: 0 <= k < i - first ==> entries[first..i][k] == entries[first + k];
  }

  lemma PartIsFramed(c: Codec, req: RequestId, entries: seq<ManifestEntry>, first: nat, i: nat)
    requires Lawful(c) && ValidEntries(entries) && first < i <= |entries| <= MAX_MANIFEST_ENTRIES
    requires i == first + 1 || |c.json(ManifestChunk(req, first, entries[first..i]))| <= MAX_FRAME_BYTES
    ensures EncodeFrame(c, ManifestChunk(req, first, entries[first..i])).Some?
  {
    PartIsValid(entries, first, i);
    hide ValidEntries;
    var chunk := ManifestChunk(req, first, entries[first..i]);
    assert i == first + 1 ==> IsSmall(chunk);
    assert c.json(chunk) != [];
  }

  lemma {:induction false} ChunksFromSucceed(c: Codec, req: RequestId, entries: seq<ManifestEntry>, first: nat, i: nat)
    requires Lawful(c) && ValidEntries(entries) && first <= i <= |entries| <= MAX_MANIFEST_ENTRIES
    requires i <= first + 1 || |c.json(ManifestChunk(req, first, entries[first..i]))| <= MAX_FRAME_BYTES
    ensures ChunksFrom(c, req, entries, first, i).Some?
    decreases |entries| - i
  {
    hide Lawful, ValidEntries, EncodeFrame;
    if first < i { PartIsFramed(c, req, entries, first, i); }
    if i < |entries| {
      ChunksFromSucceed(c, req, entries, i, i + 1);
      if |c.json(ManifestChunk(req, first, entries[first..i + 1]))| <= MAX_FRAME_BYTES {
        ChunksFromSucceed(c, req, entries, first, i + 1);
      } else if first == i {
        SingleFits(c, req, entries, i);
      }
    }
  }

  lemma SingleFits(c: Codec, req: RequestId, entries: seq<ManifestEntry>, i: nat)
    requires Lawful(c) && ValidEntries(entries) && i < |entries| <= MAX_MANIFEST_ENTRIES
    ensures |c.json(ManifestChunk(req, i, entries[i..i + 1]))| <= MAX_FRAME_BYTES
  {
    PartIsValid(entries, i, i + 1);
    hide ValidEntries;
    assert IsSmall(ManifestChunk(req, i, entries[i..i + 1]));
  }

  /** Valid entries can be chunked exactly when there are not too many and their chunks fit the overall bound. */
  lemma ChunkedIffWithinBounds(c: Codec, req: RequestId, entries: seq<ManifestEntry>)
    requires Lawful(c) && |entries| <= U32_MAX
    ensures Chunked(c, req, entries).Some? <==>
            && |entries| <= MAX_MANIFEST_ENTRIES && ValidEntries(entries)
            && ChunksFrom(c, req, entries, 0, 0).Some?
            && EncodedBytes(c, ChunksFrom(c, req, entries, 0, 0).value) <= MAX_MANIFEST_BYTES
    ensures |entries| <= MAX_MANIFEST_ENTRIES && ValidEntries(entries) ==> ChunksFrom(c, req, entries, 0, 0).Some?
  {
    hide Lawful, ValidEntries, ChunksFrom;
    if |entries| <= MAX_MANIFEST_ENTRIES && ValidEntries(entries) { ChunksFromSucceed(c, req, entries, 0, 0); }
  }

  // ----- reading them back -----

  datatype ManifestRead =
    | ManifestOk(entries: seq<ManifestEntry>, end: Option<Message>, encoded: nat, rest: Bytes)
    | ManifestBad(failure: ReceiveFailure)

  function AwaitEnd(c: Codec, header: Message, entries: seq<ManifestEntry>, encoded: nat, input: Bytes): ManifestRead
    requires header.FetchHeader?
  {
    var read := ReadFrame(c, input);
    if !read.Frame? then ManifestBad(BadRead(read, 0, 0))
    else if !read.message.ManifestEnd? || read.message.requestId != header.requestId then
      ManifestBad(Verification(0, 0))
    else if encoded > MAX_MANIFEST_BYTES || encoded != header.manifestEncodedBytes then ManifestBad(Verification(0, 0))
    else ManifestOk(entries, Some(read.message), encoded, input[read.size..])
  }

  function ReadChunks(c: Codec, header: Message, entries: seq<ManifestEntry>, encoded: nat, input: Bytes): ManifestRead
    requires header.FetchHeader?
    decreases header.manifestEntries - |entries|
  {
    if |entries| >= header.manifestEntries then AwaitEnd(c, header, entries, encoded, input)
    else
      var read := ReadFrame(c, input);
      if !read.Frame? then ManifestBad(BadRead(read, 0, 0))
      else
        var m := read.message;
        if !m.ManifestChunk? || m.requestId != header.requestId || m.firstIndex != |entries| || m.entries == []
           || |entries| + |m.entries| > header.manifestEntries then ManifestBad(Verification(0, 0))
        else ReadChunks(c, header, entries + m.entries, encoded + |c.json(m)|, input[read.size..])
  }

  /** `read_manifest`. An empty manifest has no end frame. */
  function ReadManifest(c: Codec, header: Message, input: Bytes): ManifestRead
    requires header.FetchHeader?
  {
    if header.manifestEntries == 0 then ManifestOk([], None, 0, input) else ReadChunks(c, header, [], 0, input)
  }

  /** `read_manifest` as it runs. */
  method ReadManifestFrom(conn: Connection, c: Codec, header: Message) returns (r: ManifestRead)
    requires header.FetchHeader?
    modifies conn
    ensures r == ReadManifest(c, header, old(conn.incoming))
    ensures r.ManifestOk? ==> conn.incoming == r.rest
  {
    if header.manifestEntries == 0 { return ManifestOk([], None, 0, conn.incoming); }
    var entries: seq<ManifestEntry>, encoded: nat := [], 0;
    ghost var verdict := ReadManifest(c, header, conn.incoming);
    while |entries| < header.manifestEntries
      invariant verdict == ReadChunks(c, header, entries, encoded, conn.incoming)
      invariant |entries| <= header.manifestEntries
    {
      var read := conn.Frame(c);
      if !read.Frame? { return ManifestBad(BadRead(read, 0, 0)); }
      var m := read.message;
      if !m.ManifestChunk? || m.requestId != header.requestId || m.firstIndex != |entries| || m.entries == [] {
        return ManifestBad(Verification(0, 0));
      }
      if |entries| + |m.entries| > header.manifestEntries { return ManifestBad(Verification(0, 0)); }
      entries, encoded := entries + m.entries, encoded + |c.json(m)|;
    }
    var read := conn.Frame(c);
    if !read.Frame? { return ManifestBad(BadRead(read, 0, 0)); }
    if !read.message.ManifestEnd?
      || read.message.requestId != header.requestId { return ManifestBad(Verification(0, 0)); }
    if encoded > MAX_MANIFEST_BYTES
      || encoded != header.manifestEncodedBytes { return ManifestBad(Verification(0, 0)); }
    r := ManifestOk(entries, Some(read.message), encoded, conn.incoming);
  }

  function AsTokens(messages: seq<Message>): (tokens: seq<Token>)
    ensures |tokens| == |messages| && forall i :: 0 <= i < |messages| ==> tokens[i] == Control(messages[i])
  {
    seq(|messages|, i requires 0 <= i < |messages| => Control(messages[i]))
  }

  /** Any contiguous chunking without empty chunks is put together again exactly. */
  lemma {:induction false} ChunksReassemble(c: Codec, header: Message, done: seq<ManifestEntry>, encoded: nat,
                                            chunks: seq<Message>, entries: seq<ManifestEntry>, input: Bytes,
                                              rest: Bytes)
    requires header.FetchHeader? && Covers(c, header.requestId, chunks, |done|, entries)
    requires |done| + |entries| == header.manifestEntries
    requires Reads(c, input, AsTokens(chunks), rest)
    ensures ReadChunks(c, header, done, encoded, input)
         == AwaitEnd(c, header, done + entries, encoded + EncodedBytes(c, chunks), rest)
    decreases |chunks|
  {
    if chunks == [] {
      assert done + [] == done;
    } else {
      var chunk := chunks[0];
      var n := |chunk.entries|;
      assert AsTokens(chunks)[1..] == AsTokens(chunks[1..]);
      ChunksReassemble(c, header, done + chunk.entries, encoded + |c.json(chunk)|, chunks[1..], entries[n..],
                       input[ReadFrame(c, input).size..], rest);
      assert done + chunk.entries + entries[n..] == done + entries;
    }
  }

  /** What reaches the receiver of a non-empty manifest is that manifest. */
  lemma ManifestReassembles(c: Codec, header: Message, chunks: seq<Message>, end: Message,
                            entries: seq<ManifestEntry>, input: Bytes, rest: Bytes)
    requires header.FetchHeader? && entries != [] && |entries| == header.manifestEntries
    requires Covers(c, header.requestId, chunks, 0, entries)
    requires EncodedBytes(c, chunks) == header.manifestEncodedBytes && EncodedBytes(c, chunks) <= MAX_MANIFEST_BYTES
    requires end.ManifestEnd? && end.requestId == header.requestId
    requires Reads(c, input, AsTokens(chunks) + [Control(end)], rest)
    ensures ReadManifest(c, header, input) == ManifestOk(entries, Some(end), EncodedBytes(c, chunks), rest)
  {
    hide Reads, ReadChunks;
    ReadsConcat(c, input, AsTokens(chunks), [Control(end)], rest);
    var middle :| Reads(c, input, AsTokens(chunks), middle) && Reads(c, middle, [Control(end)], rest);
    ChunksReassemble(c, header, [], 0, chunks, entries, input, middle);
    ReadsControl(c, middle, end, rest);
    assert [] + entries == entries;
  }

  /** An accepted manifest has exactly the announced number of entries. */
  lemma {:induction false} ReadManifestIsComplete(c: Codec, header: Message, done: seq<ManifestEntry>, encoded: nat,
                                                  input: Bytes)
    requires header.FetchHeader? && |done| <= header.manifestEntries
    ensures ReadChunks(c, header, done, encoded, input).ManifestOk? ==>
              |ReadChunks(c, header, done, encoded, input).entries| == header.manifestEntries
    decreases header.manifestEntries - |done|
  {
    if |done| < header.manifestEntries {
      var read := ReadFrame(c, input);
      if read.Frame? && read.message.ManifestChunk? && read.message.entries != []
         && |done| + |read.message.entries| <= header.manifestEntries {
        ReadManifestIsComplete(c, header, done + read.message.entries, encoded
          + |c.json(read.message)|, input[read.size..]);
      }
    }
  }
}
