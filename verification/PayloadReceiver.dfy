/** `receive_payload`: checking and staging whatever a peer sends after admission. */
module PayloadReceiver {
  import opened Prelude
  import opened Outcomes
  import opened Wire

  const STREAM_BUFFER_BYTES: nat := 64 * 1024

  /** SHA-256, as a function of the concatenated updates. */
  type Sha = Bytes -> Bytes

  /** A preallocated staging file: the manifest entry it belongs to and that entry's length. */
  datatype Slot = Slot(entryIndex: U32, byteLen: U64)

  datatype FileReception = FileOk(content: Bytes, rest: Bytes) | FileBad(failure: ReceiveFailure)

  datatype FilesReception =
    | Got(contents: seq<Bytes>, files: U32, bytes: U64, digests: Bytes, rest: Bytes)
    | Broken(failure: ReceiveFailure)

  datatype Reception = Staged(contents: seq<Bytes>, rest: Bytes) | Declined(failure: ReceiveFailure)

  function BadRead(read: FrameRead, files: U32, bytes: U64): ReceiveFailure
    requires !read.Frame?
  {
    if read.EndOfStream? then Disconnected(files, bytes) else ProtocolFailure(files, bytes)
  }

  /** What a control frame inside the payload amounts to when it is not the one awaited. */
  function Unexpected(m: Message, req: RequestId, files: U32, bytes: U64): ReceiveFailure {
    if m.FetchAbort? && m.requestId == req then Aborted(m.abort, m.filesSent, m.bytesSent)
    else Verification(files, bytes)
  }

  function ReceiveBody(c: Codec, sha: Sha, req: RequestId, slot: Slot, body: Bytes, files: U32, bytes: U64)
    : FileReception
  {
    if |body| < slot.byteLen then FileBad(Disconnected(files, Min(bytes + |body|, U64_MAX)))
    else
      var content, after, received := body[..slot.byteLen], body[slot.byteLen..], SaturatingAdd64(bytes, slot.byteLen);
      var read := ReadFrame(c, after);
      if !read.Frame? then FileBad(BadRead(read, files, received))
      else if read.message != FileEnd(req, slot.entryIndex, sha(content)) then
        FileBad(Unexpected(read.message, req, files, received))
      else FileOk(content, after[read.size..])
  }

  function ReceiveFile(c: Codec, sha: Sha, req: RequestId, slot: Slot, input: Bytes, files: U32, bytes: U64)
    : FileReception
  {
    var read := ReadFrame(c, input);
    if !read.Frame? then FileBad(BadRead(read, files, bytes))
    else if read.message != FileStart(req, slot.entryIndex, slot.byteLen) then
      FileBad(Unexpected(read.message, req, files, bytes))
    else ReceiveBody(c, sha, req, slot, input[read.size..], files, bytes)
  }

  function ReceiveFiles(c: Codec, sha: Sha, req: RequestId, slots: seq<Slot>, input: Bytes,
                        files: U32, bytes: U64, digests: Bytes): FilesReception
    requires files + |slots| <= U32_MAX
    decreases |slots|
  {
    if slots == [] then Got([], files, bytes, digests, input)
    else
      match ReceiveFile(c, sha, req, slots[0], input, files, bytes)
      case FileBad(failure) => Broken(failure)
      case FileOk(content, rest) =>
        Prepend([content],
          ReceiveFiles(c, sha, req, slots[1..], rest, files + 1, SaturatingAdd64(bytes, slots[0].byteLen),
                       digests + sha(content)))
  }

  function Prepend(contents: seq<Bytes>, r: FilesReception): FilesReception {
    match r
    case Broken(_) => r
    case Got(more, files, bytes, digests, rest) => Got(contents + more, files, bytes, digests, rest)
  }

  /** The closing frame. Its failures report zero counts, and its abort is not matched to the request. */
  function ReceiveComplete(c: Codec, sha: Sha, req: RequestId, manifestSha: Bytes, got: FilesReception): Reception
    requires got.Got?
  {
    var read := ReadFrame(c, got.rest);
    if !read.Frame? then Declined(BadRead(read, 0, 0))
    else if read.message.FetchAbort? then
      Declined(Aborted(read.message.abort, read.message.filesSent, read.message.bytesSent))
    else if !read.message.FetchComplete? then Declined(Verification(0, 0))
    else if read.message != FetchComplete(req, got.files, got.bytes, sha(manifestSha + got.digests)) then
      Declined(Verification(got.files, got.bytes))
    else Staged(got.contents, got.rest[read.size..])
  }

  /** What the bytes of a peer that then falls silent make of a file or folder transfer. */
  function Receive(c: Codec, sha: Sha, req: RequestId, manifestSha: Bytes, slots: seq<Slot>, input: Bytes): Reception
    requires |slots| <= U32_MAX
  {
    var got := ReceiveFiles(c, sha, req, slots, input, 0, 0, []);
    if got.Broken? then Declined(got.failure) else ReceiveComplete(c, sha, req, manifestSha, got)
  }

  // ----- the receiver itself: arbitrary read sizes, cancellation and local faults -----

  /** The readable end of a connection: the bytes that are still to come. */
  class Connection {
    var incoming: Bytes

    constructor (bytes: Bytes)
      ensures incoming == bytes
    {
      incoming := bytes;
    }

    method Frame(c: Codec) returns (r: FrameRead)
      modifies this
      ensures r == ReadFrame(c, old(incoming))
      ensures r.Frame? ==> incoming == old(incoming)[r.size..]
    {
      r := ReadFrame(c, incoming);
      if r.Frame? { incoming := incoming[r.size..]; }
    }

    /** A read returns some of the bytes asked for, and none only at the end of the stream. */
    method Chunk(wanted: nat) returns (chunk: Bytes)
      requires wanted > 0
      modifies this
      ensures chunk + incoming == old(incoming)
      ensures |chunk| <= wanted && (chunk == [] <==> old(incoming) == [])
    {
      if incoming == [] { return []; }
      var size: nat :| 1 <= size <= wanted && size <= |incoming|;
      chunk, incoming := incoming[..size], incoming[size..];
    }
  }

  method ReceiveBodyFrom(conn: Connection, c: Codec, sha: Sha, req: RequestId, slot: Slot, files: U32, bytes: U64)
    returns (r: FileReception)
    modifies conn
    ensures (r.FileBad? && IsLocal(r.failure)) || r == ReceiveBody(c, sha, req, slot, old(conn.incoming), files, bytes)
    ensures r.FileOk? ==> conn.incoming == r.rest
  {
    hide ReadFrame;
    ghost var body := conn.incoming;
    var remaining: U64, received: U64, written: Bytes := slot.byteLen, bytes, [];
    while remaining > 0
      invariant written + conn.incoming == body
      invariant |written| + remaining == slot.byteLen
      invariant received == Min(bytes + |written|, U64_MAX)
    {
      var cancelled: bool := *;
      if cancelled { return FileBad(LocalCancelled); }
      var chunk := conn.Chunk(Min(remaining, STREAM_BUFFER_BYTES));
      if chunk == [] { return FileBad(Disconnected(files, received)); }
      var stored: bool := *;
      if !stored { return FileBad(LocalIo); }
      written := written + chunk;
      remaining := remaining - |chunk|;
      received := SaturatingAdd64(received, |chunk|);
    }
    assert body[..slot.byteLen] == written && body[slot.byteLen..] == conn.incoming;
    var read := conn.Frame(c);
    if !read.Frame? { return FileBad(BadRead(read, files, received)); }
    if read.message != FileEnd(req, slot.entryIndex, sha(written)) {
      return FileBad(Unexpected(read.message, req, files, received));
    }
    r := FileOk(written, conn.incoming);
  }

  method ReceiveFileFrom(conn: Connection, c: Codec, sha: Sha, req: RequestId, slot: Slot, files: U32, bytes: U64)
    returns (r: FileReception)
    modifies conn
    ensures (r.FileBad? && IsLocal(r.failure)) || r == ReceiveFile(c, sha, req, slot, old(conn.incoming), files, bytes)
    ensures r.FileOk? ==> conn.incoming == r.rest
  {
    var read := conn.Frame(c);
    if !read.Frame? { return FileBad(BadRead(read, files, bytes)); }
    if read.message != FileStart(req, slot.entryIndex, slot.byteLen) {
      return FileBad(Unexpected(read.message, req, files, bytes));
    }
    r := ReceiveBodyFrom(conn, c, sha, req, slot, files, bytes);
  }

  method ReceiveCompleteFrom(conn: Connection, c: Codec, sha: Sha, req: RequestId, manifestSha: Bytes,
                             staged: seq<Bytes>, files: U32, bytes: U64, digests: Bytes)
    returns (r: Reception)
    modifies conn
    ensures || (r.Declined? && IsLocal(r.failure))
            || r == ReceiveComplete(c, sha, req, manifestSha, Got(staged, files, bytes, digests, old(conn.incoming)))
    ensures r.Staged? ==> conn.incoming == r.rest
  {
    var read := conn.Frame(c);
    if !read.Frame? { return Declined(BadRead(read, 0, 0)); }
    if read.message.FetchAbort? {
      return Declined(Aborted(read.message.abort, read.message.filesSent, read.message.bytesSent));
    }
    if !read.message.FetchComplete? { return Declined(Verification(0, 0)); }
    if read.message != FetchComplete(req, files, bytes, sha(manifestSha + digests)) {
      return Declined(Verification(files, bytes));
    }
    var synced: bool := *;
    r := if synced then Staged(staged, conn.incoming) else Declined(LocalIo);
  }

  /** One more file moves from what is still to be received to what is staged. */
  lemma OneFileOn(c: Codec, sha: Sha, req: RequestId, slots: seq<Slot>, k: U32, input: Bytes, bytes: U64,
                  digests: Bytes, staged: seq<Bytes>)
    requires k < |slots| <= U32_MAX
    ensures var all := Prepend(staged, ReceiveFiles(c, sha, req, slots[k..], input, k, bytes, digests));
      match ReceiveFile(c, sha, req, slots[k], input, k, bytes)
      case FileBad(failure) => all == Broken(failure)
      case FileOk(content, rest) =>
        all == Prepend(staged + [content],
                 ReceiveFiles(c, sha, req, slots[k + 1..], rest, k + 1, SaturatingAdd64(bytes, slots[k].byteLen),
                              digests + sha(content)))
  {
    hide ReceiveFile;
    assert slots[k..][0] == slots[k] && slots[k..][1..] == slots[k + 1..];
    var file := ReceiveFile(c, sha, req, slots[k], input, k, bytes);
    if file.FileOk? {
      assert forall more: seq<Bytes> :: staged + ([file.content] + more) == (staged + [file.content]) + more;
    }
  }

  /**
   * `receive_payload` for files: however the bytes are split into reads, its verdict on an
   * undisturbed run is the one the byte sequence determines.
   */
  method ReceivePayload(conn: Connection, c: Codec, sha: Sha, req: RequestId, manifestSha: Bytes, slots: seq<Slot>)
    returns (r: Reception)
    requires |slots| <= U32_MAX
    modifies conn
    ensures (r.Declined? && IsLocal(r.failure)) || r == Receive(c, sha, req, manifestSha, slots, old(conn.incoming))
    ensures r.Staged? ==> conn.incoming == r.rest
  {
    hide ReceiveFile, ReceiveComplete;
    var files: U32, bytes: U64, digests: Bytes, staged: seq<Bytes> := 0, 0, [], [];
    ghost var verdict := ReceiveFiles(c, sha, req, slots, conn.incoming, 0, 0, []);
    assert slots[0..] == slots;
    assert verdict.Got? ==> [] + verdict.contents == verdict.contents;
    while files < |slots|
      invariant files <= |slots|
      invariant verdict
          == Prepend(staged, ReceiveFiles(c, sha, req, slots[files..], conn.incoming, files, bytes, digests))
    {
      OneFileOn(c, sha, req, slots, files, conn.incoming, bytes, digests, staged);
      var file := ReceiveFileFrom(conn, c, sha, req, slots[files], files, bytes);
      if file.FileBad? { return Declined(file.failure); }
      staged := staged + [file.content];
      bytes, digests := SaturatingAdd64(bytes, slots[files].byteLen), digests + sha(file.content);
      files := files + 1;
    }
    assert staged + [] == staged;
    r := ReceiveCompleteFrom(conn, c, sha, req, manifestSha, staged, files, bytes, digests);
  }
}
