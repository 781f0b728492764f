/** `send_plan` and `stream_file`: streaming a live source that may change under the sender. */
module PayloadSender {
  import opened Prelude
  import opened Utf8
  import opened Outcomes
  import opened Wire
  import opened PayloadReceiver
  import opened TransferTheorems

  // ----- what the sender sees of its source -----

  /** Metadata of a path or an open handle, through its digest. */
  datatype Look = Missing | Seen(digest: Bytes)

  /** One file while it is being streamed. `readable` is what its handle delivers before it ends. */
  datatype FileView = FileView(pathBefore: Look, handle: Look, readable: Bytes, handleAfter: Look, pathAfter: Look)

  datatype LiveFile = LiveFile(slot: Slot, metadataDigest: Bytes)

  datatype SourceFailure = Unavailable | Changed | Malformed

  datatype SourcePlan = SourcePlan(
    descriptor: Descriptor, text: Option<string>, manifest: seq<ManifestEntry>, chunks: seq<Message>,
    encodedBytes: U64, manifestSha: Option<Bytes>, files: seq<LiveFile>, totalBytes: U64, commitment: Option<Bytes>)

  /** `same_source`. */
  predicate SameSource(a: SourcePlan, b: SourcePlan) {
    && a.descriptor == b.descriptor && a.manifest == b.manifest
    && a.manifestSha == b.manifestSha && a.commitment == b.commitment
  }

  // ----- one file -----

  datatype FileEnding = SentAll | Vanished | Altered | MidStream | VanishedAfter | AlteredAfter

  function Compare(look: Look, digest: Bytes, vanished: FileEnding, altered: FileEnding, same: FileEnding): FileEnding {
    match look
    case Missing => vanished
    case Seen(d) => if d == digest then same else altered
  }

  /** `stream_file`, on one view of the file. */
  function StreamFile(sha: Sha, req: RequestId, file: LiveFile, view: FileView): (seq<Token>, FileEnding) {
    var before := Compare(view.pathBefore, file.metadataDigest, Vanished, Altered, SentAll);
    var atOpen := Compare(view.handle, file.metadataDigest, Vanished, Altered, SentAll);
    if before != SentAll then ([], before)
    else if atOpen != SentAll then ([], atOpen)
    else
      var start := [Control(FileStart(req, file.slot.entryIndex, file.slot.byteLen))];
      if |view.readable| < file.slot.byteLen then (start + Raw(view.readable), MidStream)
      else
        var content := view.readable[..file.slot.byteLen];
        if view.handleAfter != Seen(file.metadataDigest) then (start + Raw(content), MidStream)
        else
          (FileTokens(sha, req, file.slot, content),
           Compare(view.pathAfter, file.metadataDigest, VanishedAfter, AlteredAfter, SentAll))
  }

  function FileDigest(sha: Sha, file: LiveFile, view: FileView): Bytes {
    sha(view.readable[..Min(file.slot.byteLen, |view.readable|)])
  }

  // ----- all files -----

  datatype StreamEnding =
    | AllSent(files: U32, bytes: U64, digests: Bytes)
    | AbortWith(code: AbortCode, files: U32, bytes: U64)
    | HungUp

  function StreamFiles(sha: Sha, req: RequestId, files: seq<LiveFile>, views: seq<FileView>,
                       sent: U32, bytes: U64, digests: Bytes): (seq<Token>, StreamEnding)
    requires |files| == |views|
    decreases |files|
  {
    if files == [] then ([], AllSent(sent, bytes, digests))
    else
      var (tokens, ending) := StreamFile(sha, req, files[0], views[0]);
      if ending != SentAll then (tokens, StoppedBy(ending, sent, bytes, files[0].slot.byteLen))
      else
        var (more, end) := StreamFiles(sha, req, files[1..], views[1..], SaturatingAdd32(sent, 1),
                                       SaturatingAdd64(bytes, files[0].slot.byteLen),
                                       digests + FileDigest(sha, files[0], views[0]));
        (tokens + more, end)
  }

  /** Only a file that was closed on the wire is counted in the abort. */
  function StoppedBy(ending: FileEnding, sent: U32, bytes: U64, byteLen: U64): StreamEnding
    requires ending != SentAll
  {
    match ending
    case Vanished => AbortWith(SourceUnavailableAbort, sent, bytes)
    case Altered => AbortWith(SourceChangedAbort, sent, bytes)
    case MidStream => HungUp
    case VanishedAfter => AbortWith(SourceUnavailableAbort, SaturatingAdd32(sent, 1), SaturatingAdd64(bytes, byteLen))
    case AlteredAfter => AbortWith(SourceChangedAbort, SaturatingAdd32(sent, 1), SaturatingAdd64(bytes, byteLen))
  }

  /** What a failed or differing rebuild of the plan makes the sender say. */
  function RebuildAbort(again: Result<SourcePlan, SourceFailure>, plan: SourcePlan): Option<AbortCode> {
    match again
    case Success(current) => if SameSource(current, plan) then None else Some(SourceChangedAbort)
    case Failure(Changed) => Some(SourceChangedAbort)
    case Failure(Unavailable) => Some(SourceUnavailableAbort)
    case Failure(Malformed) => Some(InternalErrorAbort)
  }

  /** One closing frame: an abort, a completion, or nothing after a part-sent file. */
  function Closing(sha: Sha, req: RequestId, plan: SourcePlan, again: Result<SourcePlan, SourceFailure>,
                   ending: StreamEnding): seq<Token>
  {
    match ending
    case HungUp => []
    case AbortWith(code, files, bytes) => [Control(FetchAbort(req, code, files, bytes))]
    case AllSent(files, bytes, digests) =>
      match RebuildAbort(again, plan)
      case Some(code) => [Control(FetchAbort(req, code, files, bytes))]
      case None => [Control(FetchComplete(req, files, bytes, sha(ManifestShaOf(plan) + digests)))]
  }

  function ManifestShaOf(plan: SourcePlan): Bytes {
    if plan.manifestSha.Some? then plan.manifestSha.value else []
  }

  function StreamPlan(sha: Sha, req: RequestId, plan: SourcePlan, views: seq<FileView>,
                      again: Result<SourcePlan, SourceFailure>): seq<Token>
    requires |plan.files| == |views|
  {
    var (tokens, ending) := StreamFiles(sha, req, plan.files, views, 0, 0, []);
    tokens + Closing(sha, req, plan, again, ending)
  }

  /** `stream_text`. */
  function StreamText(sha: Sha, req: RequestId, text: string): seq<Token> {
    var bytes := Encode(text);
    Raw(bytes) + [Control(TextEnd(req, sha(bytes)))]
    + [Control(FetchComplete(req, 0, Min(|bytes|, U64_MAX), sha(bytes)))]
  }

  /** Everything the source does while one request is served. */
  datatype SourceLife = SourceLife(
    atAdmission: Result<SourcePlan, SourceFailure>, views: seq<FileView>, atEnd: Result<SourcePlan, SourceFailure>)

  /** What follows the receiver's reply to the announced plan. */
  function Serve(sha: Sha, req: RequestId, plan: SourcePlan, reply: Message, life: SourceLife): seq<Token>
    requires |plan.files| == |life.views|
  {
    if reply != FetchAdmission(req, AdmissionCode.Accepted) then []
    else if plan.text.Some? then StreamText(sha, req, plan.text.value)
    else
      match RebuildAbort(life.atAdmission, plan)
      case Some(code) => [Control(FetchAbort(req, code, 0, 0))]
      case None => StreamPlan(sha, req, plan, life.views, life.atEnd)
  }

  // ----- the sender itself: arbitrary read sizes, and a connection that may break -----

  class Outbox {
    var sent: seq<Token>

    constructor ()
      ensures sent == []
    {
      sent := [];
    }

    /** A write puts all of its tokens on the wire, or some of them and breaks. */
    method Write(tokens: seq<Token>) returns (ok: bool)
      modifies this
      ensures ok ==> sent == old(sent) + tokens
      ensures !ok ==> exists k :: 0 <= k <= |tokens| && sent == old(sent) + tokens[..k]
    {
      ok := *;
      var k: nat :| k <= |tokens|;
      sent := sent + (if ok then tokens else tokens[..k]);
    }
  }

  /** What reached the wire of a stream that was to be `tokens`. */
  ghost predicate Delivered(before: seq<Token>, after: seq<Token>, tokens: seq<Token>, whole: bool) {
    if whole then after == before + tokens
    else exists k :: 0 <= k <= |tokens| && after == before + tokens[..k]
  }

  lemma DeliveredPart(before: seq<Token>, middle: seq<Token>, after: seq<Token>, a: seq<Token>, b: seq<Token>,
      whole: bool)
    requires Delivered(before, middle, a, true) && Delivered(middle, after, b, whole)
    ensures Delivered(before, after, a + b, whole)
  {
    if whole {
      assert before + a + b == before + (a + b);
    } else {
      var k :| 0 <= k <= |b| && after == middle + b[..k];
      assert (a + b)[..|a| + k] == a + b[..k];
      assert after == before + (a + b)[..|a| + k];
    }
  }

  lemma DeliveredPrefix(before: seq<Token>, after: seq<Token>, a: seq<Token>, b: seq<Token>)
    requires Delivered(before, after, a, false)
    ensures Delivered(before, after, a + b, false)
  {
    var k :| 0 <= k <= |a| && after == before + a[..k];
    assert (a + b)[..k] == a[..k];
  }

  lemma RawConcat(a: Bytes, b: Bytes)
    ensures Raw(a + b) == Raw(a) + Raw(b)
  {}

  lemma PartOfContentIsDelivered(before: seq<Token>, after: seq<Token>, part: Bytes, content: Bytes)
    requires part <= content && Delivered(before, after, Raw(part), false)
    ensures Delivered(before, after, Raw(content), false)
  {
    hide Delivered;
    var rest := content[|part|..];
    assert part + rest == content;
    RawConcat(part, rest);
    DeliveredPrefix(before, after, Raw(part), Raw(rest));
  }

  /** The read-and-write loop: whatever sizes its reads have, the wire carries the same bytes. */
  method SendContent(out: Outbox, byteLen: U64, readable: Bytes) returns (hashed: Bytes, ok: bool)
    modifies out
    ensures Delivered(old(out.sent), out.sent, Raw(readable[..Min(byteLen, |readable|)]), ok)
    ensures ok ==> hashed == readable[..Min(byteLen, |readable|)]
  {
    var remaining: U64 := byteLen;
    hashed, ok := [], true;
    ghost var before := out.sent;
    ghost var content := readable[..Min(byteLen, |readable|)];
    while remaining > 0
      invariant |hashed| + remaining == byteLen
      invariant hashed <= content
      invariant out.sent == before + Raw(hashed)
    {
      var left := readable[|hashed|..];
      if left == [] { return; }
      var wanted := Min(remaining, STREAM_BUFFER_BYTES);
      var size: nat :| 1 <= size <= wanted && size <= |left|;
      var chunk := left[..size];
      ghost var middle := out.sent;
      ok := out.Write(Raw(chunk));
      assert hashed + chunk == content[..|hashed| + size];
      RawConcat(hashed, chunk);
      if !ok {
        DeliveredPart(before, middle, out.sent, Raw(hashed), Raw(chunk), false);
        PartOfContentIsDelivered(before, out.sent, hashed + chunk, content);
        return;
      }
      hashed := hashed + chunk;
      remaining := remaining - size;
    }
  }

  /** `stream_file` as it runs. */
  method StreamFileTo(out: Outbox, sha: Sha, req: RequestId, file: LiveFile, view: FileView)
    returns (ending: FileEnding, digest: Bytes, ok: bool)
    modifies out
    ensures Delivered(old(out.sent), out.sent, StreamFile(sha, req, file, view).0, ok)
    ensures ok ==> ending == StreamFile(sha, req, file, view).1
    ensures ok && ending == SentAll ==> digest == FileDigest(sha, file, view)
  {
    digest, ok := [], true;
    ending := Compare(view.pathBefore, file.metadataDigest, Vanished, Altered, SentAll);
    if ending != SentAll { return; }
    ending := Compare(view.handle, file.metadataDigest, Vanished, Altered, SentAll);
    if ending != SentAll { return; }
    var start := Control(FileStart(req, file.slot.entryIndex, file.slot.byteLen));
    ghost var content := view.readable[..Min(file.slot.byteLen, |view.readable|)];
    ok := out.Write([start]);
    ghost var started := out.sent;
    if !ok {
      DeliveredPrefix(old(out.sent), out.sent, [start], StreamFile(sha, req, file, view).0[1..]);
      return;
    }
    var hashed;
    hashed, ok := SendContent(out, file.slot.byteLen, view.readable);
    ghost var filled := out.sent;
    DeliveredPart(old(out.sent), started, filled, [start], Raw(content), ok);
    if !ok {
      ghost var spec := StreamFile(sha, req, file, view).0;
      DeliveredPrefix(old(out.sent), filled, [start] + Raw(content), spec[1 + |content|..]);
      assert [start] + Raw(content) + spec[1 + |content|..] == spec;
      return;
    }
    if |hashed| < file.slot.byteLen || view.handleAfter != Seen(file.metadataDigest) {
      ending := MidStream;
      return;
    }
    digest := sha(hashed);
    var end := Control(FileEnd(req, file.slot.entryIndex, digest));
    ok := out.Write([end]);
    DeliveredPart(old(out.sent), filled, out.sent, [start] + Raw(content), [end], ok);
    assert [start] + Raw(content) + [end] == FileTokens(sha, req, file.slot, content);
    ending := Compare(view.pathAfter, file.metadataDigest, VanishedAfter, AlteredAfter, SentAll);
  }

  /** One more file moves from what is still to be streamed to what is on the wire. */
  lemma OneFileSent(sha: Sha, req: RequestId, files: seq<LiveFile>, views: seq<FileView>, k: nat,
                    sent: U32, bytes: U64, digests: Bytes, done: seq<Token>)
    requires k < |files| == |views|
    requires StreamFile(sha, req, files[k], views[k]).1 == SentAll
    ensures var (all, end) := StreamFiles(sha, req, files[k..], views[k..], sent, bytes, digests);
      var (more, end') := StreamFiles(sha, req, files[k + 1..], views[k + 1..], SaturatingAdd32(sent, 1),
                                      SaturatingAdd64(bytes, files[k].slot.byteLen),
                                      digests + FileDigest(sha, files[k], views[k]));
      done + all == (done + StreamFile(sha, req, files[k], views[k]).0) + more && end == end'
  {
    hide StreamFile;
    assert files[k..][0] == files[k] && files[k..][1..] == files[k + 1..];
    assert views[k..][0] == views[k] && views[k..][1..] == views[k + 1..];
  }

  /** `send_plan` from the admission reply on: it delivers its stream, or a beginning of it. */
  method ServeTo(out: Outbox, sha: Sha, req: RequestId, plan: SourcePlan, reply: Message, life: SourceLife)
    returns (ok: bool)
    requires |plan.files| == |life.views|
    modifies out
    ensures Delivered(old(out.sent), out.sent, Serve(sha, req, plan, reply, life), ok)
  {
    ok := true;
    if reply != FetchAdmission(req, AdmissionCode.Accepted) { return; }
    if plan.text.Some? {
      ok := out.Write(StreamText(sha, req, plan.text.value));
      return;
    }
    var refusal := RebuildAbort(life.atAdmission, plan);
    if refusal.Some? {
      ok := out.Write([Control(FetchAbort(req, refusal.value, 0, 0))]);
      return;
    }
    ok := StreamPlanTo(out, sha, req, plan, life.views, life.atEnd);
  }

  lemma FileIsNext(sha: Sha, req: RequestId, files: seq<LiveFile>, views: seq<FileView>, k: nat,
                   sent: U32, bytes: U64, digests: Bytes)
    requires k < |files| == |views|
    ensures var mine := StreamFile(sha, req, files[k], views[k]);
      var all := StreamFiles(sha, req, files[k..], views[k..], sent, bytes, digests);
      && mine.0 <= all.0
      && (mine.1 != SentAll ==> all == (mine.0, StoppedBy(mine.1, sent, bytes, files[k].slot.byteLen)))
  {
    hide StreamFile;
    assert files[k..][0] == files[k] && views[k..][0] == views[k];
  }

  method StreamPlanTo(out: Outbox, sha: Sha, req: RequestId, plan: SourcePlan, views: seq<FileView>,
                      again: Result<SourcePlan, SourceFailure>)
    returns (ok: bool)
    requires |plan.files| == |views|
    modifies out
    ensures Delivered(old(out.sent), out.sent, StreamPlan(sha, req, plan, views, again), ok)
  {
    hide StreamFile;
    var k, files: U32, bytes: U64, digests: Bytes, stop: Option<StreamEnding> := 0, 0, 0, [], None;
    ghost var before, done := out.sent, [];
    ghost var (tokens, ending) := StreamFiles(sha, req, plan.files, views, 0, 0, []);
    assert plan.files[0..] == plan.files && views[0..] == views;
    while k < |plan.files| && stop.None?
      invariant 0 <= k <= |plan.files|
      invariant out.sent == before + done
      invariant stop.None? ==>
                  var rest := StreamFiles(sha, req, plan.files[k..], views[k..], files, bytes, digests);
                  tokens == done + rest.0 && ending == rest.1
      invariant stop.Some? ==> tokens == done && ending == stop.value
      decreases |plan.files| - k, stop.None?
    {
      ghost var mine := StreamFile(sha, req, plan.files[k], views[k]).0;
      ghost var middle := out.sent;
      FileIsNext(sha, req, plan.files, views, k, files, bytes, digests);
      var verdict, digest;
      verdict, digest, ok := StreamFileTo(out, sha, req, plan.files[k], views[k]);
      DeliveredPart(before, middle, out.sent, done, mine, ok);
      if !ok {
        ghost var whole := tokens + Closing(sha, req, plan, again, ending);
        DeliveredPrefix(before, out.sent, done + mine, whole[|done + mine|..]);
        assert done + mine + whole[|done + mine|..] == whole;
        return;
      }
      if verdict == SentAll {
        OneFileSent(sha, req, plan.files, views, k, files, bytes, digests, done);
        files, bytes := SaturatingAdd32(files, 1), SaturatingAdd64(bytes, plan.files[k].slot.byteLen);
        digests := digests + digest;
      } else {
        stop := Some(StoppedBy(verdict, files, bytes, plan.files[k].slot.byteLen));
      }
      done := done + mine;
      k := k + 1;
    }
    assert stop.None? ==> plan.files[k..] == [] && done + [] == done;
    var last := Closing(sha, req, plan, again, if stop.Some? then stop.value else AllSent(files, bytes, digests));
    ghost var middle := out.sent;
    ok := out.Write(last);
    DeliveredPart(before, middle, out.sent, done, last, ok);
  }
}
