/** Source trees and the two walks over them: at offer time and at fetch time. */
module Trees {
  import opened Prelude
  import opened Utf8
  import opened PortableNames
  import opened Wire
  import opened Paths
  import opened PayloadReceiver
  import opened PayloadSender

  /** What the walks read of a file's metadata. */
  datatype Metadata = Metadata(identity: Bytes, length: U64, readonly: bool, modified: Option<(U64, U32)>)

  datatype Node =
    | FileNode(metadata: Metadata)
    | FolderNode(metadata: Metadata, children: seq<Child>)
    | LinkNode
    | SpecialNode(metadata: Metadata)
    /** A folder that cannot be listed. */
    | SealedNode(metadata: Metadata)
    /** An entry whose metadata cannot be read. */
    | UnreadableNode

  predicate HasMetadata(node: Node) { !node.LinkNode? && !node.UnreadableNode? }

  predicate IsFolder(node: Node) { node.FolderNode? || node.SealedNode? }

  /** A directory entry; when its name is not UTF-8, `name` stands for its bytes. */
  datatype Child = Child(name: string, utf8: bool, node: Node)

  datatype Stats = Stats(totalBytes: U64, entryCount: U32, fileCount: U32, directoryCount: U32)

  const NO_STATS := Stats(0, 0, 0, 0)

  // ----- the commitment -----

  function LittleEndian(n: nat, width: nat): Bytes {
    if width == 0 then [] else [n % 256] + LittleEndian(n / 256, width - 1)
  }

  function Flag(b: bool): Byte { if b then 1 else 0 }

  /** The bytes `hash_metadata` feeds to the commitment; `None` when the clock reading is unusable. */
  function MetadataBytes(kind: string, name: string, metadata: Metadata, isFile: bool, isFolder: bool): Option<Bytes> {
    match metadata.modified
    case None => None
    case Some((seconds, nanos)) =>
      Some(Encode(kind) + [0] + Encode(name) + [0] + metadata.identity + LittleEndian(metadata.length, 8)
           + [Flag(isFile), Flag(isFolder)] + [Flag(metadata.readonly)]
           + LittleEndian(seconds, 8) + LittleEndian(nanos, 4))
  }

  // ----- the offer-time walk -----

  /** The offer-time component check: no length bound, no trimming, plain digits only. */
  predicate OfferComponent(name: string) {
    var stem := AsciiUpper(BeforeFirstDot(name));
    && name != "" && name != "." && name != ".." && !EndsLoosely(name) && AllAllowed(name)
    && stem != "CON" && stem != "PRN" && stem != "AUX" && stem != "NUL"
    && !(|stem| == 4 && (stem[..3] == "COM" || stem[..3] == "LPT") && '1' <= stem[3] <= '9')
  }

  predicate OfferNames(parts: seq<string>) { forall i :: 0 <= i < |parts| ==> OfferComponent(parts[i]) }

  datatype OfferError =
    | Inspect | Symlink | SpecialFile | NonUtf8Name | InvalidName | FileTooLarge | TreeTooLarge | Commitment
    | BadDescriptor

  datatype OfferWalk = OfferWalk(commitment: Bytes, stats: Stats)

  function OfferChild(child: Child, parts: seq<string>, acc: OfferWalk): Result<OfferWalk, OfferError>
    decreases child, 1
  {
    var here := parts + [child.name];
    if !child.utf8 then Failure(NonUtf8Name)
    else if !OfferComponent(child.name) then Failure(InvalidName)
    else if child.node.UnreadableNode? then Failure(Inspect)
    else if child.node.LinkNode? then Failure(Symlink)
    else if acc.stats.entryCount + 1 > MAX_MANIFEST_ENTRIES then Failure(TreeTooLarge)
    else if !OfferNames(here) then Failure(InvalidName)
    else
      var bytes := MetadataBytes("entry", Join(here), child.node.metadata, child.node.FileNode?, IsFolder(child.node));
      if bytes.None? then Failure(Commitment)
      else
        var hashed := Hashed(acc, bytes.value);
        match child.node
        case FileNode(metadata) => OfferFile(metadata, hashed)
        case FolderNode(_, children) =>
          if hashed.stats.directoryCount + 1 > U32_MAX then Failure(TreeTooLarge)
          else OfferChildren(children, here, Descended(hashed))
        case SealedNode(_) => Failure(if hashed.stats.directoryCount + 1 > U32_MAX then TreeTooLarge else Inspect)
        case _ => Failure(SpecialFile)
  }

  function Hashed(acc: OfferWalk, bytes: Bytes): OfferWalk
    requires acc.stats.entryCount + 1 <= U32_MAX
  {
    OfferWalk(acc.commitment + bytes, acc.stats.(entryCount := acc.stats.entryCount + 1))
  }

  function Descended(acc: OfferWalk): OfferWalk
    requires acc.stats.directoryCount + 1 <= U32_MAX
  {
    acc.(stats := acc.stats.(directoryCount := acc.stats.directoryCount + 1))
  }

  function OfferFile(metadata: Metadata, acc: OfferWalk): Result<OfferWalk, OfferError> {
    if acc.stats.fileCount + 1 > U32_MAX then Failure(TreeTooLarge)
    else if acc.stats.totalBytes + metadata.length > U64_MAX then Failure(TreeTooLarge)
    else if metadata.length > MAX_FILE_BYTES || acc.stats.totalBytes + metadata.length > MAX_TRANSFER_BYTES then
      Failure(TreeTooLarge)
    else
      Success(acc.(stats := acc.stats.(fileCount := acc.stats.fileCount + 1,
                                       totalBytes := acc.stats.totalBytes + metadata.length)))
  }

  /** `walk_directory`. */
  function OfferChildren(children: seq<Child>, parts: seq<string>, acc: OfferWalk): Result<OfferWalk, OfferError>
    decreases children, 0
  {
    if children == [] then Success(acc)
    else
      match OfferChild(children[0], parts, acc)
      case Failure(e) => Failure(e)
      case Success(next) => OfferChildren(children[1..], parts, next)
  }

  // ----- the fetch-time walk -----

  datatype FetchWalk = FetchWalk(commitment: Bytes, stats: Stats, manifest: seq<ManifestEntry>, files: seq<LiveFile>)

  function FetchName(directory: string, name: string): string {
    if directory == "" then name else directory + "/" + name
  }

  function FetchChild(sha: Sha, child: Child, directory: string, acc: FetchWalk): Result<FetchWalk, SourceFailure>
    decreases child, 1
  {
    var name := FetchName(directory, child.name);
    if !child.utf8 then Failure(Changed)
    else if !ValidComponent(child.name) then Failure(Changed)
    else if ByteLen(name) > MAX_PATH_BYTES then Failure(Changed)
    else if child.node.UnreadableNode? then Failure(Unavailable)
    else if child.node.LinkNode? then Failure(Changed)
    else if acc.stats.entryCount + 1 > MAX_MANIFEST_ENTRIES then Failure(Changed)
    else
      var bytes := MetadataBytes("entry", name, child.node.metadata, child.node.FileNode?, IsFolder(child.node));
      if bytes.None? then Failure(Unavailable)
      else if |acc.manifest| > U32_MAX then Failure(Changed)
      else
        var counted := Counted(acc, bytes.value);
        match child.node
        case FileNode(metadata) => FetchFile(metadata, name, sha(bytes.value), counted)
        case FolderNode(_, children) =>
          if counted.stats.directoryCount + 1 > U32_MAX then Failure(Changed)
          else FetchChildren(sha, children, name, Entered(counted, name))
        case SealedNode(_) => Failure(if counted.stats.directoryCount + 1 > U32_MAX then Changed else Unavailable)
        case _ => Failure(Changed)
  }

  function Counted(acc: FetchWalk, bytes: Bytes): FetchWalk
    requires acc.stats.entryCount + 1 <= U32_MAX
  {
    acc.(commitment := acc.commitment + bytes, stats := acc.stats.(entryCount := acc.stats.entryCount + 1))
  }

  function Entered(acc: FetchWalk, name: string): FetchWalk
    requires acc.stats.directoryCount + 1 <= U32_MAX
  {
    acc.(stats := acc.stats.(directoryCount := acc.stats.directoryCount + 1),
         manifest := acc.manifest + [ManifestEntry(name, DirectoryEntry, 0)])
  }

  function FetchFile(metadata: Metadata, name: string, digest: Bytes, acc: FetchWalk): Result<FetchWalk, SourceFailure>
    requires |acc.manifest| <= U32_MAX
  {
    if metadata.length > MAX_FILE_BYTES then Failure(Changed)
    else if acc.stats.fileCount + 1 > U32_MAX then Failure(Changed)
    else if acc.stats.totalBytes + metadata.length > U64_MAX then Failure(Changed)
    else if acc.stats.totalBytes + metadata.length > MAX_TRANSFER_BYTES then Failure(Changed)
    else
      Success(FetchWalk(
        acc.commitment,
        acc.stats.(fileCount := acc.stats.fileCount + 1, totalBytes := acc.stats.totalBytes + metadata.length),
        acc.manifest + [ManifestEntry(name, FileEntry, metadata.length)],
        acc.files + [LiveFile(Slot(|acc.manifest|, metadata.length), digest)]))
  }

  /** `walk_folder`. */
  function FetchChildren(sha: Sha, children: seq<Child>, directory: string, acc: FetchWalk)
    : Result<FetchWalk, SourceFailure>
    decreases children, 0
  {
    if children == [] then Success(acc)
    else
      match FetchChild(sha, children[0], directory, acc)
      case Failure(e) => Failure(e)
      case Success(next) => FetchChildren(sha, children[1..], directory, next)
  }

  // ----- agreement -----

  /** Every name and path below `directory` passes the stricter fetch-time checks. */
  predicate FetchableChild(child: Child, directory: string)
    decreases child, 1
  {
    && ValidComponent(child.name)
    && ByteLen(FetchName(directory, child.name)) <= MAX_PATH_BYTES
    && (child.node.FolderNode? ==> Fetchable(child.node.children, FetchName(directory, child.name)))
  }

  predicate Fetchable(children: seq<Child>, directory: string)
    decreases children, 0
  {
    if children == [] then true else FetchableChild(children[0], directory) && Fetchable(children[1..], directory)
  }

  /** A name the fetch-time check accepts was never refused at offer time. */
  lemma FetchNamesAreOfferNames(name: string)
    requires ValidComponent(name)
    ensures OfferComponent(name)
  {
    var stem := BeforeFirstDot(name);
    var upper := AsciiUpper(stem);
    if |upper| > 0 && (upper[|upper| - 1] != ' ' && upper[|upper| - 1] != '.') {
      assert upper[|upper| - 1] == UpperChar(stem[|stem| - 1]);
      assert DeviceStem(name) == upper;
    }
  }

  ghost predicate Alike(parts: seq<string>, offer: OfferWalk, directory: string, fetch: FetchWalk) {
    && directory == Join(parts) && OfferNames(parts)
    && offer.commitment == fetch.commitment && offer.stats == fetch.stats
    && |fetch.manifest| == fetch.stats.entryCount
  }

  lemma NamesGrowAlike(parts: seq<string>, name: string)
    requires OfferNames(parts)
    ensures Join(parts + [name]) == FetchName(Join(parts), name)
  {
    assert (parts + [name])[..|parts|] == parts;
    if parts != [] { JoinIsNotEmpty(parts); }
  }

  lemma JoinIsNotEmpty(parts: seq<string>)
    requires parts != [] && forall i :: 0 <= i < |parts| ==> parts[i] != ""
    ensures Join(parts) != ""
  {}

  /** Both walks end well together or not at all, on the names the fetch-time checks accept. */
  ghost predicate EndAlike(offer: Result<OfferWalk, OfferError>, fetch: Result<FetchWalk, SourceFailure>,
                           fetchable: bool)
  {
    && (fetch.Success? <==> offer.Success? && fetchable)
    && (fetch.Success? ==> offer.value.commitment == fetch.value.commitment && offer.value.stats == fetch.value.stats
                           && |fetch.value.manifest| == fetch.value.stats.entryCount)
  }

  lemma {:induction false} ChildWalksAgree(sha: Sha, child: Child, parts: seq<string>, directory: string,
                                           offer: OfferWalk, fetch: FetchWalk)
    requires Alike(parts, offer, directory, fetch)
    ensures EndAlike(OfferChild(child, parts, offer), FetchChild(sha, child, directory, fetch),
                     FetchableChild(child, directory))
    decreases child, 1
  {
    var here, name := parts + [child.name], FetchName(directory, child.name);
    NamesGrowAlike(parts, child.name);
    if ValidComponent(child.name) { FetchNamesAreOfferNames(child.name); }
    assert OfferNames(here) <==> OfferComponent(child.name);
    hide ValidComponent, OfferComponent, OfferNames, Join, MetadataBytes, FetchName, ByteLen, OfferFile, FetchFile;
    if OfferComponent(child.name) && HasMetadata(child.node) && offer.stats.entryCount + 1 <= MAX_MANIFEST_ENTRIES {
      var bytes := MetadataBytes("entry", name, child.node.metadata, child.node.FileNode?, IsFolder(child.node));
      if bytes.Some? && child.node.FileNode? {
        FilesAgree(child.node.metadata, name, sha(bytes.value), Hashed(offer, bytes.value),
          Counted(fetch, bytes.value));
      } else if bytes.Some? && child.node.FolderNode? && offer.stats.directoryCount + 1 <= U32_MAX {
        WalksAgree(sha, child.node.children, here, name, Descended(Hashed(offer, bytes.value)),
                   Entered(Counted(fetch, bytes.value), name));
      }
    }
  }

  lemma FilesAgree(metadata: Metadata, name: string, digest: Bytes, offer: OfferWalk, fetch: FetchWalk)
    requires offer.commitment == fetch.commitment && offer.stats == fetch.stats
    requires |fetch.manifest| + 1 == fetch.stats.entryCount
    ensures EndAlike(OfferFile(metadata, offer), FetchFile(metadata, name, digest, fetch), true)
  {}

  /**
   * The offer-time and fetch-time walks feed the same bytes to the commitment and compute the same
   * statistics; an unchanged tree that could be offered can be fetched exactly when every name and
   * path in it passes the fetch-time checks.
   */
  lemma {:induction false} WalksAgree(sha: Sha, children: seq<Child>, parts: seq<string>, directory: string,
                                      offer: OfferWalk, fetch: FetchWalk)
    requires Alike(parts, offer, directory, fetch)
    ensures EndAlike(OfferChildren(children, parts, offer), FetchChildren(sha, children, directory, fetch),
                     Fetchable(children, directory))
    decreases children, 0
  {
    if children != [] {
      ChildWalksAgree(sha, children[0], parts, directory, offer, fetch);
      var o, f := OfferChild(children[0], parts, offer), FetchChild(sha, children[0], directory, fetch);
      if f.Success? {
        WalksAgree(sha, children[1..], parts, directory, o.value, f.value);
      }
    }
  }
}
