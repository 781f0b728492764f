/** From a tree to an offer, a plan and an announcement, and what the receiver makes of it. */
module Plans {
  import opened Prelude
  import opened Utf8
  import opened Outcomes
  import opened PortableNames
  import opened Wire
  import opened Paths
  import opened PayloadReceiver
  import opened PayloadSender
  import opened SenderTheorems
  import opened Trees
  import opened Listings
  import opened Manifests
  import opened ManifestChecks
  import opened Staging
  import opened TreeManifests

  /** What the origin keeps of an offered file or folder. */
  datatype OfferRecord = OfferRecord(descriptor: Descriptor, commitment: Bytes)

  function RootBytes(root: Child): Option<Bytes>
    requires HasMetadata(root.node)
  {
    MetadataBytes("root", root.name, root.node.metadata, root.node.FileNode?, IsFolder(root.node))
  }

  function Recorded(descriptor: Descriptor, commitment: Bytes): Result<OfferRecord, OfferError> {
    if ValidDescriptor(descriptor) then Success(OfferRecord(descriptor, commitment)) else Failure(BadDescriptor)
  }

  function FolderDescriptor(name: string, stats: Stats): Descriptor {
    FolderOffer(name, stats.totalBytes, stats.entryCount, stats.fileCount, stats.directoryCount)
  }

  /** `prepare_path`, on the tree as the walk sees it: with every listing sorted. */
  function OfferSeen(sha: Sha, root: Child): Result<OfferRecord, OfferError> {
    if root.node.UnreadableNode? then Failure(Inspect)
    else if root.node.LinkNode? then Failure(Symlink)
    else if !root.utf8 then Failure(NonUtf8Name)
    else if !OfferComponent(root.name) then Failure(InvalidName)
    else if RootBytes(root).None? then Failure(Commitment)
    else
      var bytes := RootBytes(root).value;
      match root.node
      case FileNode(metadata) =>
        if metadata.length > MAX_FILE_BYTES then Failure(FileTooLarge)
        else Recorded(FileOffer(root.name, metadata.length), sha(bytes))
      case FolderNode(_, children) =>
        (match OfferChildren(children, [], OfferWalk(bytes, NO_STATS))
         case Failure(e) => Failure(e)
         case Success(walk) => Recorded(FolderDescriptor(root.name, walk.stats), sha(walk.commitment)))
      case SealedNode(_) => Failure(Inspect)
      case _ => Failure(SpecialFile)
  }

  /** `prepare_path`. */
  function PrepareOffer(sha: Sha, root: Child): Result<OfferRecord, OfferError> { OfferSeen(sha, Tidy(root)) }

  datatype Fetched = Fetched(manifest: seq<ManifestEntry>, files: seq<LiveFile>, totalBytes: U64, commitment: Bytes)

  function LookAtFile(sha: Sha, record: OfferRecord, root: Child): Result<Fetched, SourceFailure>
    requires record.descriptor.FileOffer?
  {
    var FileOffer(name, bytes) := record.descriptor;
    if root.node.UnreadableNode? then Failure(Unavailable)
    else if !root.node.FileNode? || !root.utf8 || root.name != name then Failure(Changed)
    else if root.node.metadata.length != bytes || root.node.metadata.length > MAX_FILE_BYTES then Failure(Changed)
    else if RootBytes(root).None? then Failure(Unavailable)
    else
      var commitment := sha(RootBytes(root).value);
      if commitment != record.commitment then Failure(Changed)
      else Success(Fetched([ManifestEntry("", FileEntry, bytes)], [LiveFile(Slot(0, bytes), commitment)], bytes,
        commitment))
  }

  function LookAtFolder(sha: Sha, record: OfferRecord, root: Child): Result<Fetched, SourceFailure>
    requires record.descriptor.FolderOffer?
  {
    if root.node.UnreadableNode? then Failure(Unavailable)
    else if !IsFolder(root.node) || !root.utf8 || root.name != record.descriptor.folderName then Failure(Changed)
    else if root.node.SealedNode? then Failure(Unavailable)
    else if RootBytes(root).None? then Failure(Unavailable)
    else
      match FetchChildren(sha, root.node.children, "", StartOf(RootBytes(root).value))
      case Failure(e) => Failure(e)
      case Success(w) =>
        if record.descriptor != FolderDescriptor(root.name, w.stats)
           || w.stats.totalBytes > MAX_TRANSFER_BYTES || w.stats.entryCount > MAX_MANIFEST_ENTRIES then Failure(Changed)
        else if sha(w.commitment) != record.commitment then Failure(Changed)
        else Success(Fetched(w.manifest, w.files, w.stats.totalBytes, sha(w.commitment)))
  }

  function LookAtSeen(sha: Sha, record: OfferRecord, root: Child): Result<Fetched, SourceFailure> {
    match record.descriptor
    case TextOffer(_) => Failure(Malformed)
    case FileOffer(_, _) => LookAtFile(sha, record, root)
    case FolderOffer(_, _, _, _, _) => LookAtFolder(sha, record, root)
  }

  /** `build_file_plan` and `build_folder_plan` up to the chunking; a root that is gone is unavailable. */
  function LookAtSource(sha: Sha, record: OfferRecord, root: Option<Child>): Result<Fetched, SourceFailure> {
    if root.None? then Failure(Unavailable) else LookAtSeen(sha, record, Tidy(root.value))
  }

  predicate FetchableRoot(root: Child) { root.node.FolderNode? ==> Fetchable(root.node.children, "") }

  /** Whatever is recorded as offered has a descriptor that the protocol lets through. */
  lemma RecordedIsValid(sha: Sha, root: Child)
    requires PrepareOffer(sha, root).Success?
    ensures ValidDescriptor(PrepareOffer(sha, root).value.descriptor)
  {
    hide OfferChildren, Tidy, OfferComponent, ValidRootName, MetadataBytes;
  }

  lemma SeenSourceIsFoundIffFetchable(sha: Sha, root: Child)
    requires OfferSeen(sha, root).Success?
    ensures LookAtSeen(sha, OfferSeen(sha, root).value, root).Success? <==> FetchableRoot(root)
  {
    hide OfferComponent, MetadataBytes, FetchChildren, OfferChildren, Fetchable, ValidRootName;
    if root.node.FolderNode? {
      var bytes := RootBytes(root).value;
      WalksAgree(sha, root.node.children, [], "", OfferWalk(bytes, NO_STATS), StartOf(bytes));
    }
  }

  /**
   * A source that was offered and has not changed since, in whatever order its folders now list their
   * entries, is never reported as changed or gone, exactly when every name and path in it passes the fetch-time
   * checks.
   */
  lemma UnchangedSourceIsSeenIffFetchable(sha: Sha, root: Child, again: Child)
    requires PrepareOffer(sha, root).Success? && Reordered(root, again) && ApartBelow(root)
    ensures LookAtSource(sha, PrepareOffer(sha, root).value, Some(again)).Success? <==> FetchableRoot(Tidy(root))
  {
    hide OfferSeen, LookAtSeen, Tidy, Reordered, ApartBelow;
    WalksSeeOneTreeIffReordered(root, again);
    SeenSourceIsFoundIffFetchable(sha, Tidy(root));
  }

  /** A name the offer-time check lets through and the fetch-time check refuses: its stem is a device once trimmed. */
  lemma OfferedButNeverFetched(sha: Sha, rootName: string, name: string) returns (root: Child)
    requires rootName == "a" && name == "CON .txt"
    ensures PrepareOffer(sha, root).Success? && LookAtSource(sha, PrepareOffer(sha, root).value, Some(root)).Failure?
  {
    var plain := Metadata([], 0, false, Some((0, 0)));
    var child := Child(name, true, FileNode(plain));
    root := Child(rootName, true, FolderNode(plain, [child]));
    assert [child][1..] == [] && TidyAll([child]) == [child];
    assert Tidy(root) == root;
    TrimmedDevice(name);
    SuchAFolderIsOffered(sha, root, child, plain);
    assert !FetchableChild(child, "") by { hide ByteLen, FetchName; }
    hide OfferSeen, LookAtSeen, Tidy, ValidComponent, OfferComponent, ByteLen;
    SeenSourceIsFoundIffFetchable(sha, root);
  }

  lemma SuchAFolderIsOffered(sha: Sha, root: Child, child: Child, plain: Metadata)
    requires plain == Metadata([], 0, false, Some((0, 0))) && child == Child(child.name, true, FileNode(plain))
    requires OfferComponent(child.name) && root == Child(root.name, true, FolderNode(plain, [child]))
        && root.name == "a"
    ensures OfferSeen(sha, root).Success?
  {
    PlainRoot(root.name);
    hide OfferComponent, ValidRootName, Encode, LittleEndian;
    var acc := OfferWalk(RootBytes(root).value, NO_STATS);
    var walked := OneFileIsWalked(child, plain, acc);
    assert ValidDescriptor(FolderDescriptor(root.name, walked.stats));
  }

  lemma OneFileIsWalked(child: Child, plain: Metadata, acc: OfferWalk) returns (walked: OfferWalk)
    requires plain == Metadata([], 0, false, Some((0, 0))) && child == Child(child.name, true, FileNode(plain))
    requires OfferComponent(child.name) && acc.stats == NO_STATS
    ensures OfferChildren([child], [], acc) == Success(walked) && walked.stats == Stats(0, 1, 1, 0)
  {
    hide OfferComponent, Encode, LittleEndian, Join;
    var here := [] + [child.name];
    assert here == [child.name] && OfferNames(here);
    var bytes := MetadataBytes("entry", Join(here), plain, true, false).value;
    walked := OfferWalk(acc.commitment + bytes, Stats(0, 1, 1, 0));
    assert OfferChild(child, [], acc) == Success(walked);
    hide OfferChild;
    var one := [child];
    assert one[0] == child && one[1..] == [] && OfferChildren(one[1..], [], walked) == Success(walked);
  }

  lemma PlainRoot(name: string)
    requires name == "a"
    ensures OfferComponent(name) && ValidRootName(name)
  {
    assert '.' !in name && BeforeFirstDot(name) == name;
    AsciiByteLen(name);
  }

  lemma TrimmedDevice(name: string)
    requires name == "CON .txt"
    ensures OfferComponent(name) && !ValidComponent(name)
  {
    var stem := "CON ";
    assert name == stem + ".txt" && '.' !in stem;
    BeforeFirstDotOfConcat(stem, ".txt");
    assert BeforeFirstDot(name) == stem;
    PaddedDevice(1);
    assert stem == "CON" + Repeat(' ', 1);
    assert AsciiUpper("CON") == "CON";
    assert AsciiUpper(stem) == stem;
  }

  // ----- plans -----

  /** The plan of a file or folder, cut into chunks in any way that fits the frames. */
  ghost predicate IsPlan(c: Codec, t: Tools, req: RequestId, record: OfferRecord, root: Child, plan: SourcePlan) {
    && LookAtSource(t.sha, record, Some(root)).Success?
    && var f := LookAtSource(t.sha, record, Some(root)).value;
    && plan.descriptor == record.descriptor && plan.text == None
    && plan.manifest == f.manifest && plan.files == f.files && plan.totalBytes == f.totalBytes
    && plan.commitment == Some(f.commitment) && plan.manifestSha == Some(t.sha(t.json(f.manifest)))
    && Covers(c, req, plan.chunks, 0, f.manifest)
    && plan.encodedBytes == EncodedBytes(c, plan.chunks) <= MAX_MANIFEST_BYTES
  }

  lemma OkEntryIsValid(e: ManifestEntry)
    requires EntryOk(e)
    ensures ValidEntry(e)
  {
    if e.path != "" {
      forall i | 0 <= i < |Split(e.path)|
        ensures ProtocolComponent(Split(e.path)[i])
      {
        assert ValidComponent(Split(e.path)[i]);
        hide DeviceStem, ByteLen, Split, IsReservedStem;
      }
      hide ProtocolComponent, ValidComponent;
    }
  }

  /** The destination's path policy, which the fetch walk applies, is stricter than the protocol's. */
  lemma FetchedEntriesAreValid(sha: Sha, record: OfferRecord, root: Child)
    requires LookAtSource(sha, record, Some(root)).Success?
    ensures var f := LookAtSource(sha, record, Some(root)).value;
      |f.manifest| <= MAX_MANIFEST_ENTRIES && ValidEntries(f.manifest)
  {
    hide FetchChildren, MetadataBytes, ValidEntry, Tidy, Join, Split;
    var seen, f := Tidy(root), LookAtSource(sha, record, Some(root)).value;
    if record.descriptor.FolderOffer? {
      hide EntryOk;
      WalkedEntriesPass(sha, seen.node.children, RootBytes(seen).value);
    } else {
      assert f.manifest[..0] == [] && f.manifest == [ManifestEntry("", FileEntry, f.totalBytes)];
      assert FileBytes(f.manifest) == f.totalBytes;
    }
    assert EntriesOk(f.manifest) && FileBytes(f.manifest) <= MAX_TRANSFER_BYTES;
    hide LookAtSource, EntryOk, FileBytes;
    forall i | 0 <= i < |f.manifest|
      ensures ValidEntry(f.manifest[i])
    {
      OkEntryIsValid(f.manifest[i]);
    }
  }

  /** A source that is found as it was offered can be planned exactly when its chunks fit the overall bound. */
  lemma PlannableIffChunksFit(c: Codec, sha: Sha, req: RequestId, record: OfferRecord, root: Child)
    requires Lawful(c) && LookAtSource(sha, record, Some(root)).Success?
    ensures var entries := LookAtSource(sha, record, Some(root)).value.manifest;
      && |entries| <= U32_MAX && ChunksFrom(c, req, entries, 0, 0).Some?
      && (Chunked(c, req, entries).Some? <==>
          EncodedBytes(c, ChunksFrom(c, req, entries, 0, 0).value) <= MAX_MANIFEST_BYTES)
  {
    FetchedEntriesAreValid(sha, record, root);
    hide LookAtSource, Lawful, ValidEntries, ChunksFrom, EncodedBytes;
    ChunkedIffWithinBounds(c, req, LookAtSource(sha, record, Some(root)).value.manifest);
  }

  /** `build_source_plan` for paths. */
  method BuildSourcePlan(c: Codec, t: Tools, req: RequestId, record: OfferRecord, root: Option<Child>)
    returns (r: Result<SourcePlan, SourceFailure>)
    ensures r.Success? ==> root.Some? && IsPlan(c, t, req, record, root.value, r.value)
    ensures var looked := LookAtSource(t.sha, record, root);
      if looked.Failure? then r == Failure(looked.error)
      else if Chunked(c, req, looked.value.manifest).Some? then
        r.Success? && Chunked(c, req, looked.value.manifest) == Some(r.value.chunks)
      else r == Failure(Malformed)
  {
    hide LookAtSeen, Tidy, Covers, EncodedBytes, Chunked;
    var looked := LookAtSource(t.sha, record, root);
    match looked
    case Failure(e) => r := Failure(e);
    case Success(f) =>
      var chunks := ChunkManifest(c, req, f.manifest);
      if chunks.None? { return Failure(Malformed); }
      ChunkedCovers(c, req, f.manifest);
      assert root.Some? by { NothingIsNoSource(t.sha, record); }
      r := Success(SourcePlan(record.descriptor, None, f.manifest, chunks.value, EncodedBytes(c, chunks.value),
                              Some(t.sha(t.json(f.manifest))), f.files, f.totalBytes, Some(f.commitment)));
  }

  lemma NothingIsNoSource(sha: Sha, record: OfferRecord)
    ensures LookAtSource(sha, record, None).Failure?
  {}

  /** Rebuilding the plan of an unchanged source always finds the same source. */
  lemma RebuiltPlansMatch(c: Codec, t: Tools, req: RequestId, record: OfferRecord, root: Child,
                          plan: SourcePlan, again: SourcePlan)
    requires IsPlan(c, t, req, record, root, plan) && IsPlan(c, t, req, record, root, again)
    ensures Matches(Success(again), plan)
  {
    hide LookAtSource, Covers;
  }

  // ----- the announcement and its admission -----

  function HeaderOf(plan: SourcePlan, req: RequestId, offer: OfferId): Message
  {
    FetchHeader(req, offer, plan.descriptor, Min(|plan.manifest|, U32_MAX), plan.encodedBytes, None, plan.manifestSha)
  }

  function EndOf(plan: SourcePlan, req: RequestId): Message
  {
    ManifestEnd(req, Min(|plan.manifest|, U32_MAX), Min(|plan.files|, U32_MAX), plan.totalBytes, ManifestShaOf(plan))
  }

  /** What `send_plan` writes before it waits for the reply: no end frame after an empty manifest. */
  function Announcement(plan: SourcePlan, req: RequestId, offer: OfferId): seq<Token>
  {
    [Control(HeaderOf(plan, req, offer))]
    + (AsTokens(plan.chunks) + (if plan.manifest == [] then [] else [Control(EndOf(plan, req))]))
  }

  /** One more control frame of a stream goes out, or the stream breaks off within it. */
  method SendNext(out: Outbox, message: Message, ghost before: seq<Token>, ghost done: seq<Token>,
      ghost whole: seq<Token>)
    returns (ok: bool)
    requires out.sent == before + done && done + [Control(message)] <= whole
    modifies out
    ensures ok ==> out.sent == before + (done + [Control(message)])
    ensures !ok ==> Delivered(before, out.sent, whole, false)
  {
    ghost var middle := out.sent;
    ok := out.Write([Control(message)]);
    DeliveredPart(before, middle, out.sent, done, [Control(message)], ok);
    if !ok {
      ghost var now := done + [Control(message)];
      DeliveredPrefix(before, out.sent, now, whole[|now|..]);
      assert now + whole[|now|..] == whole;
    }
  }

  /** `send_plan` up to the reply. */
  method AnnounceTo(out: Outbox, plan: SourcePlan, req: RequestId, offer: OfferId) returns (ok: bool)
    modifies out
    ensures Delivered(old(out.sent), out.sent, Announcement(plan, req, offer), ok)
  {
    hide HeaderOf, EndOf;
    ghost var before, whole := out.sent, Announcement(plan, req, offer);
    ok := SendNext(out, HeaderOf(plan, req, offer), before, [], whole);
    if !ok { return; }
    for i := 0 to |plan.chunks|
      invariant out.sent == before + whole[..i + 1]
    {
      assert whole[i + 1] == Control(plan.chunks[i]) && whole[..i + 1] + [whole[i + 1]] == whole[..i + 2];
      ok := SendNext(out, plan.chunks[i], before, whole[..i + 1], whole);
      if !ok { return; }
    }
    if plan.manifest != [] {
      ok := SendNext(out, EndOf(plan, req), before, whole[..|plan.chunks| + 1], whole);
    }
  }

  /** `validate_header` for a path offer. */
  predicate HeaderOk(header: Message, card: Descriptor, req: RequestId, offer: OfferId) {
    && header.FetchHeader? && header.requestId == req && header.offerId == offer && header.descriptor == card
    && !card.TextOffer? && header.textSha == None && header.headerSha.Some? && |header.headerSha.value| == 32
  }

  datatype Admitted = Admitted(header: Message, entries: seq<ManifestEntry>, rest: Bytes)

  /** The receiver up to its check of the manifest. */
  function Admit(c: Codec, t: Tools, card: Descriptor, req: RequestId, offer: OfferId, input: Bytes): Option<Admitted> {
    var read := ReadFrame(c, input);
    if !read.Frame? || !HeaderOk(read.message, card, req, offer) then None
    else
      var manifest := ReadManifest(c, read.message, input[read.size..]);
      if manifest.ManifestOk? && Acceptable(t, read.message, manifest.entries, manifest.end) then
        Some(Admitted(read.message, manifest.entries, manifest.rest))
      else None
  }

  /**
   * What is admitted is an answer to this request, for this offer and with the card that was shown,
   * and its manifest is the one the header announced and sealed.
   */
  lemma AdmittedIsWhatWasAsked(c: Codec, t: Tools, card: Descriptor, req: RequestId, offer: OfferId, input: Bytes)
    requires Admit(c, t, card, req, offer, input).Some?
    ensures var admitted := Admit(c, t, card, req, offer, input).value;
      var header := admitted.header;
      && ReadFrame(c, input).Frame? && ReadFrame(c, input).message == header && header.FetchHeader?
      && header.requestId == req && header.offerId == offer && header.descriptor == card && !card.TextOffer?
      && header.headerSha == Some(t.sha(t.json(admitted.entries))) && |t.sha(t.json(admitted.entries))| == 32
      && |admitted.entries| == header.manifestEntries && FileBytes(admitted.entries) <= 0x4_0000_0000
  {
    var read := ReadFrame(c, input);
    var manifest := ReadManifest(c, read.message, input[read.size..]);
    hide ReadFrame, ReadManifest;
    AcceptedMatchesOffer(t, read.message, manifest.entries, manifest.end);
    hide Acceptable, FileBytes;
  }

  /** No sibling names that differ only in case. */
  predicate UnclashingRoot(fold: string -> string, root: Child) {
    root.node.FolderNode? ==> Unclashing(fold, root.node.children)
  }

  /** What every plan's manifest satisfies, and when its paths are distinct. */
  lemma PlannedManifestPasses(c: Codec, t: Tools, req: RequestId, record: OfferRecord, root: Child, plan: SourcePlan)
    requires IsPlan(c, t, req, record, root, plan) && FoldLaw(t.fold)
    ensures |plan.manifest| <= MAX_MANIFEST_ENTRIES && SlotsOf(plan.files) == FileSlots(plan.manifest)
    ensures EntriesOk(plan.manifest) && Rooted(t.fold, plan.manifest) && Describes(plan.descriptor, plan.manifest)
    ensures CountKind(plan.manifest, FileEntry) == |plan.files|
    ensures FileBytes(plan.manifest) == plan.totalBytes <= MAX_TRANSFER_BYTES
    ensures Distinct(t.fold, plan.manifest) <==> UnclashingRoot(t.fold, Tidy(root))
    ensures record.descriptor.FolderOffer? ==> !NamesRoot(plan.manifest)
    ensures record.descriptor.FileOffer? ==> plan.manifest != []
    ensures !record.descriptor.TextOffer?
  {
    hide Covers, FetchChildren, Unclashing, FoldLaw, MetadataBytes, Join, Split;
    if record.descriptor.FolderOffer? {
      hide EntryOk, Distinct, Rooted;
      var seen := Tidy(root);
      WalkedManifestPasses(t.fold, t.sha, seen.node.children, RootBytes(seen).value);
      SlotsCount(plan.manifest);
    } else {
      assert plan.manifest[..0] == [] && plan.manifest == [ManifestEntry("", FileEntry, plan.totalBytes)];
      assert SlotsOf(plan.files) == [Slot(0, plan.totalBytes)];
    }
  }

  /** The receiver's check accepts an announced manifest exactly when it is not empty and no sibling names clash. */
  lemma PlanIsAcceptableIff(c: Codec, t: Tools, req: RequestId, offer: OfferId, record: OfferRecord, root: Child,
                            plan: SourcePlan)
    requires IsPlan(c, t, req, record, root, plan) && FoldLaw(t.fold) && IsDigest(t.sha)
    ensures HeaderOk(HeaderOf(plan, req, offer), record.descriptor, req, offer)
    ensures Acceptable(t, HeaderOf(plan, req, offer), plan.manifest, Some(EndOf(plan, req)))
        <==> UnclashingRoot(t.fold, Tidy(root))
  {
    hide FoldLaw;
    PlannedManifestPasses(c, t, req, record, root, plan);
    hide LookAtSource, Covers, UnclashingRoot, EntriesOk, Rooted, Describes, CountKind, FileBytes, Distinct, FoldLaw;
  }

  lemma ChunksAreSendable(c: Codec, req: RequestId, chunks: seq<Message>, first: nat, entries: seq<ManifestEntry>)
    requires Covers(c, req, chunks, first, entries)
    ensures Sendable(c, AsTokens(chunks))
    decreases |chunks|
  {
    hide EncodeFrame;
    if chunks != [] {
      ChunksAreSendable(c, req, chunks[1..], first + |chunks[0].entries|, entries[|chunks[0].entries|..]);
      assert forall i :: 1 <= i < |chunks| ==> AsTokens(chunks)[i] == AsTokens(chunks[1..])[i - 1];
    }
  }

  lemma AnnouncementIsSendable(c: Codec, t: Tools, req: RequestId, offer: OfferId, record: OfferRecord, root: Child,
                               plan: SourcePlan)
    requires Lawful(c) && IsDigest(t.sha) && FoldLaw(t.fold) && IsPlan(c, t, req, record, root, plan)
    requires ValidDescriptor(record.descriptor)
    ensures Sendable(c, Announcement(plan, req, offer))
  {
    hide LookAtSource, EncodeFrame, UnclashingRoot, FoldLaw;
    HeaderIsSendable(c, t, req, offer, record, root, plan);
    ChunksAreSendable(c, req, plan.chunks, 0, plan.manifest);
    EndIsSendable(c, t, req, record, root, plan);
    var header := [Control(HeaderOf(plan, req, offer))];
    var end := if plan.manifest == [] then [] else [Control(EndOf(plan, req))];
    assert Sendable(c, end) && Sendable(c, header);
    assert Announcement(plan, req, offer) == header + (AsTokens(plan.chunks) + end);
    hide *;
    SendableConcat(c, AsTokens(plan.chunks), end);
    SendableConcat(c, header, AsTokens(plan.chunks) + end);
  }

  lemma EndIsSendable(c: Codec, t: Tools, req: RequestId, record: OfferRecord, root: Child, plan: SourcePlan)
    requires Lawful(c) && IsDigest(t.sha) && FoldLaw(t.fold) && IsPlan(c, t, req, record, root, plan)
    ensures EncodeFrame(c, EndOf(plan, req)).Some?
  {
    hide FoldLaw;
    PlannedManifestPasses(c, t, req, record, root, plan);
    assert IsSmall(EndOf(plan, req));
    hide LookAtSource, Covers, EntriesOk, Rooted, Describes, CountKind, FileBytes, Distinct, UnclashingRoot,
      FileSlots, FoldLaw;
  }

  lemma HeaderIsSendable(c: Codec, t: Tools, req: RequestId, offer: OfferId, record: OfferRecord, root: Child,
                         plan: SourcePlan)
    requires Lawful(c) && IsDigest(t.sha) && FoldLaw(t.fold) && IsPlan(c, t, req, record, root, plan)
    requires ValidDescriptor(record.descriptor)
    ensures EncodeFrame(c, HeaderOf(plan, req, offer)).Some?
  {
    hide FoldLaw, ValidDescriptor;
    PlannedManifestPasses(c, t, req, record, root, plan);
    assert IsSmall(HeaderOf(plan, req, offer)) && ValidMessage(HeaderOf(plan, req, offer));
    hide LookAtSource, Covers, EntriesOk, Rooted, Describes, CountKind, FileBytes, Distinct, UnclashingRoot,
      FileSlots;
  }

  lemma AnnouncedHeaderReadsBack(c: Codec, req: RequestId, offer: OfferId, plan: SourcePlan, input: Bytes, rest: Bytes)
    requires Reads(c, input, Announcement(plan, req, offer), rest)
    ensures ReadFrame(c, input).Frame? && ReadFrame(c, input).message == HeaderOf(plan, req, offer)
    ensures Reads(c, input[ReadFrame(c, input).size..],
                  AsTokens(plan.chunks) + (if plan.manifest == [] then [] else [Control(EndOf(plan, req))]), rest)
  {
    var tail := AsTokens(plan.chunks) + (if plan.manifest == [] then [] else [Control(EndOf(plan, req))]);
    assert Announcement(plan, req, offer)[1..] == tail;
  }

  /**
   * What the sender announces is admitted exactly when the source is not an empty folder and no two
   * siblings in it clash up to case; the receiver then holds the sender's manifest, entry by entry.
   */
  lemma AnnouncementIsAdmittedIff(c: Codec, t: Tools, req: RequestId, offer: OfferId, record: OfferRecord, root: Child,
                                  plan: SourcePlan, rest: Bytes)
    requires Lawful(c) && IsDigest(t.sha) && FoldLaw(t.fold) && IsPlan(c, t, req, record, root, plan)
    requires ValidDescriptor(record.descriptor)
    ensures Sendable(c, Announcement(plan, req, offer))
    ensures Admit(c, t, record.descriptor, req, offer, Render(c, Announcement(plan, req, offer)) + rest)
         == if plan.manifest != [] && UnclashingRoot(t.fold, Tidy(root))
            then Some(Admitted(HeaderOf(plan, req, offer), plan.manifest, rest)) else None
  {
    AnnouncementIsSendable(c, t, req, offer, record, root, plan);
    PlanIsAcceptableIff(c, t, req, offer, record, root, plan);
    var header, end, announced := HeaderOf(plan, req, offer), EndOf(plan, req), Announcement(plan, req, offer);
    var input := Render(c, announced) + rest;
    RenderedStreamReadsBack(c, announced, rest);
    AnnouncedHeaderReadsBack(c, req, offer, plan, input, rest);
    var after := input[ReadFrame(c, input).size..];
    if plan.manifest == [] {
      EmptyFolderIsRefused(c, t, header, after);
    } else {
      PlannedManifestPasses(c, t, req, record, root, plan);
      hide LookAtSource, Reads, Render, Acceptable, EntriesOk, Rooted, Describes, Distinct, CountKind, FileBytes,
        FileSlots,
        ReadManifest, ReadFrame, EncodeFrame, UnclashingRoot, Sendable, Lawful, Covers, FoldLaw;
      ManifestReassembles(c, header, plan.chunks, end, plan.manifest, after, rest);
    }
  }

  /** The source stands still while it is served: rebuilt plans are plans of the same tree, and no file changes. */
  ghost predicate StandsStill(c: Codec, t: Tools, req: RequestId, record: OfferRecord, root: Child, plan: SourcePlan,
                              life: SourceLife)
  {
    && life.atAdmission.Success? && IsPlan(c, t, req, record, root, life.atAdmission.value)
    && life.atEnd.Success? && IsPlan(c, t, req, record, root, life.atEnd.value)
    && |plan.files| == |life.views|
    && forall i :: 0 <= i < |plan.files| ==> Unchanged(plan.files[i], life.views[i])
  }

  /**
   * The whole transfer: every non-empty source within limits and without clashing siblings that
   * stands still is admitted, can be staged without a conflict, and arrives byte for byte, however
   * its manifest is chunked and its bytes are cut into reads and writes; both ends count the same
   * files and bytes.
   */
  lemma UnchangedTreeArrives(c: Codec, t: Tools, nameKey: string -> string, req: RequestId, offer: OfferId,
                             record: OfferRecord, root: Child, plan: SourcePlan, life: SourceLife, rest: Bytes)
    requires Lawful(c) && IsDigest(t.sha) && FoldLaw(t.fold) && NoCoarser(nameKey, t.fold)
    requires IsPlan(c, t, req, record, root, plan) && plan.manifest != [] && UnclashingRoot(t.fold, Tidy(root))
    requires ValidDescriptor(record.descriptor)
    requires StandsStill(c, t, req, record, root, plan, life)
    ensures var header := HeaderOf(plan, req, offer);
      && Sendable(c, Announcement(plan, req, offer))
      && Admit(c, t, record.descriptor, req, offer, Render(c, Announcement(plan, req, offer)) + rest)
         == Some(Admitted(header, plan.manifest, rest))
    ensures |plan.manifest| <= MAX_MANIFEST_ENTRIES
    ensures Checked(nameKey, t.fold, plan.manifest) && (record.descriptor.FolderOffer? ==> !NamesRoot(plan.manifest))
    ensures var sent := Serve(t.sha, req, plan, FetchAdmission(req, AdmissionCode.Accepted), life);
      var contents := ContentsOf(plan.files, life.views);
      && Sendable(c, sent)
      && Receive(c, t.sha, req, ManifestShaOf(plan), FileSlots(plan.manifest), Render(c, sent) + rest)
         == Staged(contents, rest)
      && |contents| == PlannedFiles(record.descriptor) && TotalLength(contents) == PlannedBytes(record.descriptor)
  {
    AnnouncementIsAdmittedIff(c, t, req, offer, record, root, plan, rest);
    PlannedManifestPasses(c, t, req, record, root, plan);
    assert Checked(nameKey, t.fold, plan.manifest);
    hide *;
    StillPlanStoodStill(c, t, req, record, root, plan, life);
    PlanIsTransferable(c, t, req, record, root, plan);
    UnchangedSourceArrives(c, t.sha, req, plan, life, rest);
    StillContentsAreCounted(c, t, req, offer, record, root, plan, life);
  }

  lemma StillPlanStoodStill(c: Codec, t: Tools, req: RequestId, record: OfferRecord, root: Child, plan: SourcePlan,
                            life: SourceLife)
    requires IsPlan(c, t, req, record, root, plan) && StandsStill(c, t, req, record, root, plan, life)
    ensures StoodStill(plan, life) && plan.text.None?
  {
    hide LookAtSource, Covers;
    RebuiltPlansMatch(c, t, req, record, root, plan, life.atAdmission.value);
    RebuiltPlansMatch(c, t, req, record, root, plan, life.atEnd.value);
  }

  lemma StillContentsAreCounted(c: Codec, t: Tools, req: RequestId, offer: OfferId, record: OfferRecord, root: Child,
                                plan: SourcePlan, life: SourceLife)
    requires IsDigest(t.sha) && FoldLaw(t.fold) && UnclashingRoot(t.fold, Tidy(root))
    requires IsPlan(c, t, req, record, root, plan) && StandsStill(c, t, req, record, root, plan, life)
    ensures var contents := ContentsOf(plan.files, life.views);
      |contents| == PlannedFiles(record.descriptor) && TotalLength(contents) == PlannedBytes(record.descriptor)
  {
    hide FoldLaw;
    PlannedManifestPasses(c, t, req, record, root, plan);
    PlanIsAcceptableIff(c, t, req, offer, record, root, plan);
    hide LookAtSource, Covers, Acceptable, Rooted, Describes, Distinct, CountKind, FileBytes, FileSlots, FoldLaw,
      EntriesOk, UnclashingRoot;
    PlanCountsTheSlots(t, HeaderOf(plan, req, offer), plan.manifest, Some(EndOf(plan, req)));
    var slots, contents := SlotsOf(plan.files), ContentsOf(plan.files, life.views);
    forall i | 0 <= i < |slots|
      ensures |contents[i]| == slots[i].byteLen
    {
      assert Unchanged(plan.files[i], life.views[i]);
    }
    FittingContentsWeighAlike(slots, contents);
  }

  lemma PlanIsTransferable(c: Codec, t: Tools, req: RequestId, record: OfferRecord, root: Child, plan: SourcePlan)
    requires IsPlan(c, t, req, record, root, plan) && FoldLaw(t.fold)
    ensures Transferable(SlotsOf(plan.files))
  {
    hide FoldLaw;
    PlannedManifestPasses(c, t, req, record, root, plan);
    hide IsPlan, FoldLaw, Rooted, Describes, Distinct;
    SlotsCount(plan.manifest);
    SlotsAreInRange(plan.manifest);
  }

  lemma {:induction false} SlotsAreInRange(entries: seq<ManifestEntry>)
    requires |entries| <= U32_MAX && EntriesOk(entries)
    ensures forall i :: 0 <= i < |FileSlots(entries)| ==>
              FileSlots(entries)[i].entryIndex < |entries| && FileSlots(entries)[i].byteLen <= MAX_FILE_BYTES
  {
    hide PathOk;
    if entries != [] {
      var most, last := entries[..|entries| - 1], entries[|entries| - 1];
      assert EntryOk(last) && forall i :: 0 <= i < |most| ==> most[i] == entries[i];
      SlotsAreInRange(most);
    }
  }
}
