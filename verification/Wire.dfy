/** Protocol-2 messages, their framing, and streams that mix frames with raw payload bytes. */
module Wire {
  import opened Prelude
  import opened Utf8
  import opened Outcomes
  import opened TextOffers

  const MAX_FRAME_BYTES: nat := 64 * 1024
  const MAX_MANIFEST_BYTES: nat := 8 * 1024 * 1024
  const MAX_MANIFEST_ENTRIES: nat := 4096
  const MAX_PATH_BYTES: nat := 4096
  const MAX_PROTOCOL_COMPONENT_BYTES: nat := 255
  const MAX_FILE_BYTES: U64 := 8 * 1024 * 1024 * 1024
  const MAX_TRANSFER_BYTES: U64 := 16 * 1024 * 1024 * 1024

  type Bytes = seq<Byte>
  type RequestId = Uuid
  type OfferId = Uuid

  datatype EntryKind = FileEntry | DirectoryEntry

  datatype ManifestEntry = ManifestEntry(path: string, kind: EntryKind, byteLen: U64)

  datatype Descriptor =
    | TextOffer(text: TextDescriptor)
    | FileOffer(rootName: string, fileBytes: U64)
    | FolderOffer(folderName: string, totalBytes: U64, entryCount: U32, fileCount: U32, directoryCount: U32)

  datatype Message =
    | FetchHeader(requestId: RequestId, offerId: OfferId, descriptor: Descriptor, manifestEntries: U32,
                  manifestEncodedBytes: U64, textSha: Option<Bytes>, headerSha: Option<Bytes>)
    | ManifestChunk(requestId: RequestId, firstIndex: U32, entries: seq<ManifestEntry>)
    | ManifestEnd(requestId: RequestId, entryCount: U32, fileCount: U32, totalBytes: U64, manifestSha: Bytes)
    | FetchAdmission(requestId: RequestId, admission: AdmissionCode)
    | FileStart(requestId: RequestId, entryIndex: U32, byteLen: U64)
    | FileEnd(requestId: RequestId, entryIndex: U32, sha: Bytes)
    | TextEnd(requestId: RequestId, sha: Bytes)
    | FetchComplete(requestId: RequestId, filesSent: U32, bytesSent: U64, contentSetSha: Bytes)
    | FetchAbort(requestId: RequestId, abort: AbortCode, filesSent: U32, bytesSent: U64)
    | OtherMessage(token: nat)

  // ----- message validation -----

  /** A character put in front of a split path: a slash opens a component, any other joins the first. */
  function PutInFront(c: char, parts: seq<string>): seq<string>
    requires parts != []
  {
    if c == '/' then [""] + parts else [[c] + parts[0]] + parts[1..]
  }

  /** `split('/')`. */
  function Split(path: string): (parts: seq<string>)
    ensures parts != []
  {
    if path == [] then [""] else PutInFront(path[0], Split(path[1..]))
  }

  predicate ProtocolComponent(component: string) {
    && component != "" && component != "." && component != ".."
    && ByteLen(component) <= MAX_PROTOCOL_COMPONENT_BYTES
    && ControlFree(component)
  }

  /** The protocol's own path check: looser than the destination policy. */
  predicate ProtocolPath(path: string) {
    '\\' !in path && forall i :: 0 <= i < |Split(path)| ==> ProtocolComponent(Split(path)[i])
  }

  /** `ManifestEntry::validate`. */
  predicate ValidEntry(e: ManifestEntry) {
    && ByteLen(e.path) <= MAX_PATH_BYTES
    && (if e.path == "" then e.kind == FileEntry else ProtocolPath(e.path))
    && (if e.kind == FileEntry then e.byteLen <= MAX_FILE_BYTES else e.byteLen == 0)
  }

  /** The bytes of the files among some entries. */
  function FileBytes(entries: seq<ManifestEntry>): nat {
    if entries == [] then 0
    else FileBytes(entries[..|entries| - 1])
         + (if entries[|entries| - 1].kind == FileEntry then entries[|entries| - 1].byteLen else 0)
  }

  predicate ValidEntries(entries: seq<ManifestEntry>) {
    && (forall i :: 0 <= i < |entries| ==> ValidEntry(entries[i]))
    && FileBytes(entries) <= MAX_TRANSFER_BYTES
  }

  predicate ValidRootName(name: string) {
    && name != "" && name != "." && name != ".." && '/' !in name && '\\' !in name
    && ControlFree(name) && ByteLen(name) <= MAX_PROTOCOL_COMPONENT_BYTES
  }

  /** `OfferDescriptor::validate`. */
  predicate ValidDescriptor(d: Descriptor) {
    match d
    case TextOffer(text) => ValidateDescriptor(text) == None
    case FileOffer(name, bytes) => ValidRootName(name) && bytes <= MAX_FILE_BYTES
    case FolderOffer(name, bytes, entries, files, directories) =>
      && ValidRootName(name) && entries <= MAX_MANIFEST_ENTRIES && bytes <= MAX_TRANSFER_BYTES
      && files + directories == entries
  }

  /** `validate_v2_message`, as far as this exchange uses it. */
  predicate ValidMessage(m: Message) {
    match m
    case FetchHeader(_, _, descriptor, entries, encoded, _, _) =>
      ValidDescriptor(descriptor) && entries <= MAX_MANIFEST_ENTRIES && encoded <= MAX_MANIFEST_BYTES
    case ManifestChunk(_, first, entries) =>
      first + |entries| <= MAX_MANIFEST_ENTRIES && ValidEntries(entries)
    case ManifestEnd(_, entryCount, _, totalBytes, _) =>
      entryCount <= MAX_MANIFEST_ENTRIES && totalBytes <= MAX_TRANSFER_BYTES
    case FileStart(_, entryIndex, byteLen) => entryIndex < MAX_MANIFEST_ENTRIES && byteLen <= MAX_FILE_BYTES
    case FetchComplete(_, filesSent, bytesSent, _) =>
      filesSent <= MAX_MANIFEST_ENTRIES && bytesSent <= MAX_TRANSFER_BYTES
    case _ => true
  }

  // ----- framing -----

  /** The JSON codec: a message as text, and text as a message. */
  datatype Codec = Codec(json: Message -> Bytes, parse: Bytes -> Option<Message>)

  predicate IsSha(sha: Option<Bytes>) { sha.Some? ==> |sha.value| == 32 }

  /** Messages of bounded size, whose encoding does not grow with the transfer. */
  predicate IsSmall(m: Message) {
    match m
    case FetchHeader(_, _, descriptor, _, _, textSha, headerSha) =>
      ValidDescriptor(descriptor) && IsSha(textSha) && IsSha(headerSha)
    case ManifestChunk(_, _, entries) => |entries| == 1 && ValidEntries(entries)
    case ManifestEnd(_, _, _, _, sha) => |sha| == 32
    case FileStart(_, _, _) => true
    case FileEnd(_, _, sha) => |sha| == 32
    case TextEnd(_, sha) => |sha| == 32
    case FetchComplete(_, _, _, sha) => |sha| == 32
    case FetchAbort(_, _, _, _) => true
    case _ => false
  }

  /** Parsing undoes encoding, no encoding is empty, and messages of bounded size fit a frame. */
  ghost predicate Lawful(c: Codec) {
    && (forall m: Message :: c.parse(c.json(m)) == Some(m) && c.json(m) != [])
    && (forall m: Message :: IsSmall(m) ==> |c.json(m)| <= MAX_FRAME_BYTES)
  }

  function BigEndian(n: nat): (bytes: Bytes)
    requires n <= U32_MAX
    ensures |bytes| == 4
  {
    var high := n / 256;
    var higher := high / 256;
    [higher / 256, higher % 256, high % 256, n % 256]
  }

  function FromBigEndian(bytes: Bytes): nat
    requires |bytes| == 4
  {
    ((bytes[0] as int * 256 + bytes[1]) * 256 + bytes[2]) * 256 + bytes[3]
  }

  lemma BigEndianRoundTrip(n: nat)
    requires n <= U32_MAX
    ensures FromBigEndian(BigEndian(n)) == n
  {}

  /** `encode_v2_frame`; `None` is an error. */
  function EncodeFrame(c: Codec, m: Message): Option<Bytes> {
    var payload := c.json(m);
    if !ValidMessage(m) || |payload| == 0 || |payload| > MAX_FRAME_BYTES then None
    else Some(BigEndian(|payload|) + payload)
  }

  datatype FrameRead = Frame(message: Message, size: nat) | EndOfStream | BadFrame

  /** `read_v2_frame_async` and the validation that follows every read. */
  function ReadFrame(c: Codec, input: Bytes): (r: FrameRead)
    ensures r.Frame? ==> 5 <= r.size <= |input| && ValidMessage(r.message)
  {
    if |input| < 4 then EndOfStream
    else
      var length := FromBigEndian(input[..4]);
      if length == 0 || length > MAX_FRAME_BYTES then BadFrame
      else if |input| < 4 + length then EndOfStream
      else
        match c.parse(input[4..4 + length])
        case None => BadFrame
        case Some(m) => if ValidMessage(m) then Frame(m, 4 + length) else BadFrame
  }

  /** Whatever follows a frame, reading gives the frame back and takes no more than it. */
  lemma FrameRoundTrip(c: Codec, m: Message, rest: Bytes)
    requires Lawful(c) && EncodeFrame(c, m).Some?
    ensures ReadFrame(c, EncodeFrame(c, m).value + rest) == Frame(m, |EncodeFrame(c, m).value|)
  {
    var payload := c.json(m);
    var input := BigEndian(|payload|) + payload + rest;
    BigEndianRoundTrip(|payload|);
    assert input[..4] == BigEndian(|payload|);
    assert input[4..4 + |payload|] == payload;
  }

  /** More input never changes a frame that could already be read. */
  lemma FrameIsStable(c: Codec, input: Bytes, more: Bytes)
    requires ReadFrame(c, input).Frame?
    ensures ReadFrame(c, input + more) == ReadFrame(c, input)
  {
    var length := FromBigEndian(input[..4]);
    assert (input + more)[..4] == input[..4];
    assert (input + more)[4..4 + length] == input[4..4 + length];
  }

  /** What an entry of a chunk that was read can be. */
  predicate EntryInBounds(e: ManifestEntry) {
    && |Encode(e.path)| <= 4096 && '\\' !in e.path
    && (if e.kind == FileEntry then e.byteLen <= 0x2_0000_0000 else e.byteLen == 0 && e.path != "")
  }

  /** Whatever a peer sends, nothing that was read exceeds the protocol's bounds. */
  lemma ReadFramesAreBounded(c: Codec, input: Bytes)
    requires ReadFrame(c, input).Frame?
    ensures ReadFrame(c, input).size <= 4 + 65536
    ensures match ReadFrame(c, input).message
      case FetchHeader(_, _, d, entries, encoded, _, _) =>
        && entries <= 4096 && encoded <= 8 * 1024 * 1024
        && (d.FileOffer? ==> d.fileBytes <= 0x2_0000_0000)
        && (d.FolderOffer? ==>
              d.totalBytes <= 0x4_0000_0000 && d.fileCount + d.directoryCount == d.entryCount <= 4096)
      case ManifestChunk(_, first, entries) =>
        && first + |entries| <= 4096 && FileBytes(entries) <= 0x4_0000_0000
        && forall i :: 0 <= i < |entries| ==> EntryInBounds(entries[i])
      case ManifestEnd(_, count, _, bytes, _) => count <= 4096 && bytes <= 0x4_0000_0000
      case FileStart(_, index, bytes) => index < 4096 && bytes <= 0x2_0000_0000
      case FetchComplete(_, files, bytes, _) => files <= 4096 && bytes <= 0x4_0000_0000
      case _ => true
  {
    var m := ReadFrame(c, input).message;
    if m.ManifestChunk? {
      forall i | 0 <= i < |m.entries|
        ensures EntryInBounds(m.entries[i])
      {
        assert ValidEntry(m.entries[i]);
      }
    }
    hide ReadFrame, EntryInBounds, ValidEntry;
  }

  // ----- streams -----

  datatype Token = Control(message: Message) | RawByte(byte: Byte)

  function Raw(bytes: Bytes): (tokens: seq<Token>)
    ensures |tokens| == |bytes| && forall i :: 0 <= i < |bytes| ==> tokens[i] == RawByte(bytes[i])
  {
    seq(|bytes|, i requires 0 <= i < |bytes| => RawByte(bytes[i]))
  }

  predicate Sendable(c: Codec, tokens: seq<Token>) {
    forall i :: 0 <= i < |tokens| && tokens[i].Control? ==> EncodeFrame(c, tokens[i].message).Some?
  }

  lemma SendableConcat(c: Codec, a: seq<Token>, b: seq<Token>)
    requires Sendable(c, a) && Sendable(c, b)
    ensures Sendable(c, a + b)
  {
    hide EncodeFrame;
  }

  /** The bytes a sender puts on the connection. */
  function Render(c: Codec, tokens: seq<Token>): Bytes
    requires Sendable(c, tokens)
  {
    if tokens == [] then []
    else
      (match tokens[0]
       case Control(m) => EncodeFrame(c, m).value
       case RawByte(b) => [b])
      + Render(c, tokens[1..])
  }

  /** Reading `input` frame by frame and byte by byte yields these tokens and leaves `rest`. */
  predicate Reads(c: Codec, input: Bytes, tokens: seq<Token>, rest: Bytes)
    decreases |tokens|
  {
    if tokens == [] then input == rest
    else
      match tokens[0]
      case RawByte(b) => input != [] && input[0] == b && Reads(c, input[1..], tokens[1..], rest)
      case Control(m) =>
        var read := ReadFrame(c, input);
        read.Frame? && read.message == m && Reads(c, input[read.size..], tokens[1..], rest)
  }

  lemma {:induction false} RenderedStreamReadsBack(c: Codec, tokens: seq<Token>, rest: Bytes)
    requires Lawful(c) && Sendable(c, tokens)
    ensures Reads(c, Render(c, tokens) + rest, tokens, rest)
    decreases |tokens|
  {
    if tokens == [] {
      assert Render(c, tokens) + rest == rest;
    } else {
      var tail := Render(c, tokens[1..]) + rest;
      RenderedStreamReadsBack(c, tokens[1..], rest);
      match tokens[0] {
        case RawByte(b) =>
          assert Render(c, tokens) + rest == [b] + tail;
          assert ([b] + tail)[1..] == tail;
        case Control(m) =>
          var frame := EncodeFrame(c, m).value;
          assert Render(c, tokens) + rest == frame + tail;
          FrameRoundTrip(c, m, tail);
          assert (frame + tail)[|frame|..] == tail;
      }
    }
  }

  lemma {:induction false} ReadsConcat(c: Codec, input: Bytes, a: seq<Token>, b: seq<Token>, rest: Bytes)
    ensures Reads(c, input, a + b, rest) <==> exists middle :: Reads(c, input, a, middle) && Reads(c, middle, b, rest)
    decreases |a|
  {
    if a == [] {
      assert a + b == b;
      assert forall middle :: Reads(c, input, a, middle) <==> input == middle;
    } else {
      assert (a + b)[1..] == a[1..] + b;
      match a[0] {
        case RawByte(x) =>
          if input != [] && input[0] == x { ReadsConcat(c, input[1..], a[1..], b, rest); }
        case Control(m) =>
          var read := ReadFrame(c, input);
          if read.Frame? && read.message == m { ReadsConcat(c, input[read.size..], a[1..], b, rest); }
      }
    }
  }

  lemma {:induction false} ReadsRaw(c: Codec, input: Bytes, content: Bytes, rest: Bytes)
    ensures Reads(c, input, Raw(content), rest) <==> input == content + rest
    decreases |content|
  {
    if content == [] {
      assert content + rest == rest;
    } else {
      assert Raw(content)[1..] == Raw(content[1..]);
      if input != [] && input[0] == content[0] {
        ReadsRaw(c, input[1..], content[1..], rest);
        assert input == [input[0]] + input[1..];
        assert content + rest == [content[0]] + (content[1..] + rest);
      }
    }
  }
}
