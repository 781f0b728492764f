/** The two tree walks as they run: each updates a running hash, its counters and its lists in place. */
module TreeWalkers {
  import opened Prelude
  import opened Utf8
  import opened PortableNames
  import opened Wire
  import opened Paths
  import opened PayloadReceiver
  import opened PayloadSender
  import opened Trees
  import opened Listings

  lemma OfferStep(children: seq<Child>, k: nat, parts: seq<string>, acc: OfferWalk)
    requires k < |children|
    ensures OfferChildren(children[k..], parts, acc)
         == match OfferChild(children[k], parts, acc)
            case Failure(e) => Failure(e)
            case Success(next) => OfferChildren(children[k + 1..], parts, next)
  {
    hide OfferChild;
    assert children[k..][0] == children[k] && children[k..][1..] == children[k + 1..];
  }

  lemma FetchStep(sha: Sha, children: seq<Child>, k: nat, directory: string, acc: FetchWalk)
    requires k < |children|
    ensures FetchChildren(sha, children[k..], directory, acc)
         == match FetchChild(sha, children[k], directory, acc)
            case Failure(e) => Failure(e)
            case Success(next) => FetchChildren(sha, children[k + 1..], directory, next)
  {
    hide FetchChild;
    assert children[k..][0] == children[k] && children[k..][1..] == children[k + 1..];
  }

  /** Updates one after another feed their concatenation. */
  lemma FedInOrder(start: Bytes, a: Bytes, b: Bytes, c: Bytes, d: Bytes, e: Bytes, f: Bytes, g: Bytes, h: Bytes,
                   i: Bytes, j: Bytes)
    ensures start + a + b + c + d + e + f + g + h + i + j == start + (a + b + c + d + e + f + g + h + i + j)
  {
    assert start + a + b + c + d + e == start + (a + b + c + d + e);
    var early := a + b + c + d + e;
    assert start + early + f + g + h + i + j == start + (early + f + g + h + i + j);
  }

  /** The hash and counters of `prepare_path`. */
  class OfferWalker {
    var commitment: Bytes
    var totalBytes: U64
    var entryCount: U32
    var fileCount: U32
    var directoryCount: U32

    constructor (root: Bytes)
      ensures State() == OfferWalk(root, NO_STATS)
    {
      commitment, totalBytes, entryCount, fileCount, directoryCount := root, 0, 0, 0, 0;
    }

    ghost function State(): OfferWalk
      reads this
    {
      OfferWalk(commitment, Stats(totalBytes, entryCount, fileCount, directoryCount))
    }

    /** `hash_metadata`, update by update. */
    method HashMetadata(kind: string, name: string, metadata: Metadata, isFile: bool, isFolder: bool) returns (ok: bool)
      modifies this`commitment
      ensures ok <==> MetadataBytes(kind, name, metadata, isFile, isFolder).Some?
      ensures ok ==> commitment == old(commitment) + MetadataBytes(kind, name, metadata, isFile, isFolder).value
    {
      hide Encode, LittleEndian, Flag;
      ghost var start := commitment;
      commitment := commitment + Encode(kind);
      commitment := commitment + [0];
      commitment := commitment + Encode(name);
      commitment := commitment + [0];
      commitment := commitment + metadata.identity;
      commitment := commitment + LittleEndian(metadata.length, 8);
      commitment := commitment + [Flag(isFile), Flag(isFolder)];
      commitment := commitment + [Flag(metadata.readonly)];
      if metadata.modified.None? { return false; }
      var (seconds, nanos) := metadata.modified.value;
      commitment := commitment + LittleEndian(seconds, 8);
      commitment := commitment + LittleEndian(nanos, 4);
      FedInOrder(start, Encode(kind), [0], Encode(name), [0], metadata.identity, LittleEndian(metadata.length, 8),
                 [Flag(isFile), Flag(isFolder)], [Flag(metadata.readonly)], LittleEndian(seconds, 8),
                   LittleEndian(nanos, 4));
      ok := true;
    }

    method VisitFile(metadata: Metadata) returns (r: Result<(), OfferError>)
      modifies this
      ensures OfferFile(metadata, old(State())) == if r.Success? then Success(State()) else Failure(r.error)
    {
      if CheckedAdd32(fileCount, 1).None? { return Failure(TreeTooLarge); }
      fileCount := fileCount + 1;
      if CheckedAdd64(totalBytes, metadata.length).None? { return Failure(TreeTooLarge); }
      totalBytes := totalBytes + metadata.length;
      if metadata.length > MAX_FILE_BYTES || totalBytes > MAX_TRANSFER_BYTES { return Failure(TreeTooLarge); }
      r := Success(());
    }

    method Visit(child: Child, parts: seq<string>) returns (r: Result<(), OfferError>)
      modifies this
      ensures OfferChild(Tidy(child), parts, old(State())) == if r.Success? then Success(State()) else Failure(r.error)
      decreases child, 1
    {
      hide OfferComponent, MetadataBytes, Join, OfferFile;
      var here := parts + [child.name];
      if !child.utf8 { return Failure(NonUtf8Name); }
      if !OfferComponent(child.name) { return Failure(InvalidName); }
      if child.node.UnreadableNode? { return Failure(Inspect); }
      if child.node.LinkNode? { return Failure(Symlink); }
      if CheckedAdd32(entryCount, 1).None? { return Failure(TreeTooLarge); }
      entryCount := entryCount + 1;
      if entryCount > MAX_MANIFEST_ENTRIES { return Failure(TreeTooLarge); }
      if !OfferNames(here) { return Failure(InvalidName); }
      var hashed := HashMetadata("entry", Join(here), child.node.metadata, child.node.FileNode?, IsFolder(child.node));
      if !hashed { return Failure(Commitment); }
      match child.node {
        case FileNode(metadata) =>
          r := VisitFile(metadata);
        case FolderNode(_, listing) =>
          if CheckedAdd32(directoryCount, 1).None? { return Failure(TreeTooLarge); }
          directoryCount := directoryCount + 1;
          r := WalkDirectory(listing, here);
        case SealedNode(_) =>
          r := Failure(if CheckedAdd32(directoryCount, 1).None? then TreeTooLarge else Inspect);
        case _ =>
          r := Failure(SpecialFile);
      }
    }

    /** `walk_directory`: the listing is sorted first. */
    method WalkDirectory(listing: seq<Child>, parts: seq<string>) returns (r: Result<(), OfferError>)
      modifies this
      ensures OfferChildren(TidyAll(listing), parts, old(State()))
           == if r.Success? then Success(State()) else Failure(r.error)
      decreases listing, 0
    {
      hide OfferChild, Tidy, TidyAll, SortByName;
      var children := SortByName(listing);
      ghost var seen := TidyAll(listing);
      TidyAllIsSorted(listing);
      ghost var whole := OfferChildren(seen, parts, State());
      assert seen[0..] == seen;
      for k := 0 to |children|
        invariant whole == OfferChildren(seen[k..], parts, State())
      {
        OfferStep(seen, k, parts, State());
        ghost var i := SortedComesFrom(listing, k);
        r := Visit(children[k], parts);
        if r.Failure? { return; }
      }
      r := Success(());
    }
  }

  /** The hash, counters, manifest and file list of `build_folder_plan`. */
  class FetchWalker {
    var commitment: Bytes
    var totalBytes: U64
    var entryCount: U32
    var fileCount: U32
    var directoryCount: U32
    var manifest: seq<ManifestEntry>
    var files: seq<LiveFile>

    constructor (root: Bytes)
      ensures State() == FetchWalk(root, NO_STATS, [], [])
    {
      commitment, totalBytes, entryCount, fileCount, directoryCount := root, 0, 0, 0, 0;
      manifest, files := [], [];
    }

    ghost function State(): FetchWalk
      reads this
    {
      FetchWalk(commitment, Stats(totalBytes, entryCount, fileCount, directoryCount), manifest, files)
    }

    /** The fetch side's own `hash_metadata`: the same updates in the same order. */
    method HashMetadata(kind: string, name: string, metadata: Metadata, isFile: bool, isFolder: bool) returns (ok: bool)
      modifies this`commitment
      ensures ok <==> MetadataBytes(kind, name, metadata, isFile, isFolder).Some?
      ensures ok ==> commitment == old(commitment) + MetadataBytes(kind, name, metadata, isFile, isFolder).value
    {
      hide Encode, LittleEndian, Flag;
      ghost var start := commitment;
      commitment := commitment + Encode(kind);
      commitment := commitment + [0];
      commitment := commitment + Encode(name);
      commitment := commitment + [0];
      commitment := commitment + metadata.identity;
      commitment := commitment + LittleEndian(metadata.length, 8);
      commitment := commitment + [Flag(isFile), Flag(isFolder)];
      commitment := commitment + [Flag(metadata.readonly)];
      if metadata.modified.None? { return false; }
      var (seconds, nanos) := metadata.modified.value;
      commitment := commitment + LittleEndian(seconds, 8);
      commitment := commitment + LittleEndian(nanos, 4);
      FedInOrder(start, Encode(kind), [0], Encode(name), [0], metadata.identity, LittleEndian(metadata.length, 8),
                 [Flag(isFile), Flag(isFolder)], [Flag(metadata.readonly)], LittleEndian(seconds, 8),
                   LittleEndian(nanos, 4));
      ok := true;
    }

    method VisitFile(metadata: Metadata, name: string, digest: Bytes) returns (r: Result<(), SourceFailure>)
      requires |manifest| <= U32_MAX
      modifies this
      ensures FetchFile(metadata, name, digest, old(State())) == if r.Success? then Success(State())
          else Failure(r.error)
    {
      var entryIndex := |manifest|;
      if metadata.length > MAX_FILE_BYTES { return Failure(Changed); }
      if CheckedAdd32(fileCount, 1).None? { return Failure(Changed); }
      fileCount := fileCount + 1;
      if CheckedAdd64(totalBytes, metadata.length).None? { return Failure(Changed); }
      totalBytes := totalBytes + metadata.length;
      if totalBytes > MAX_TRANSFER_BYTES { return Failure(Changed); }
      manifest := manifest + [ManifestEntry(name, FileEntry, metadata.length)];
      files := files + [LiveFile(Slot(entryIndex, metadata.length), digest)];
      r := Success(());
    }

    method Visit(sha: Sha, child: Child, directory: string) returns (r: Result<(), SourceFailure>)
      modifies this
      ensures FetchChild(sha, Tidy(child), directory, old(State()))
           == if r.Success? then Success(State()) else Failure(r.error)
      decreases child, 1
    {
      hide ValidComponent, MetadataBytes, FetchFile, ByteLen, FetchName;
      if !child.utf8 { return Failure(Changed); }
      if !ValidComponent(child.name) { return Failure(Changed); }
      var name := FetchName(directory, child.name);
      if ByteLen(name) > MAX_PATH_BYTES { return Failure(Changed); }
      if child.node.UnreadableNode? { return Failure(Unavailable); }
      if child.node.LinkNode? { return Failure(Changed); }
      if CheckedAdd32(entryCount, 1).None? { return Failure(Changed); }
      entryCount := entryCount + 1;
      if entryCount > MAX_MANIFEST_ENTRIES { return Failure(Changed); }
      var bytes := MetadataBytes("entry", name, child.node.metadata, child.node.FileNode?, IsFolder(child.node));
      var hashed := HashMetadata("entry", name, child.node.metadata, child.node.FileNode?, IsFolder(child.node));
      if !hashed { return Failure(Unavailable); }
      if |manifest| > U32_MAX { return Failure(Changed); }
      match child.node {
        case FileNode(metadata) =>
          r := VisitFile(metadata, name, sha(bytes.value));
        case FolderNode(_, listing) =>
          if CheckedAdd32(directoryCount, 1).None? { return Failure(Changed); }
          directoryCount := directoryCount + 1;
          manifest := manifest + [ManifestEntry(name, DirectoryEntry, 0)];
          r := WalkFolder(sha, listing, name);
        case SealedNode(_) =>
          r := Failure(if CheckedAdd32(directoryCount, 1).None? then Changed else Unavailable);
        case _ =>
          r := Failure(Changed);
      }
    }

    /** `walk_folder`: the listing is sorted first. */
    method WalkFolder(sha: Sha, listing: seq<Child>, directory: string) returns (r: Result<(), SourceFailure>)
      modifies this
      ensures FetchChildren(sha, TidyAll(listing), directory, old(State()))
           == if r.Success? then Success(State()) else Failure(r.error)
      decreases listing, 0
    {
      hide FetchChild, Tidy, TidyAll, SortByName;
      var children := SortByName(listing);
      ghost var seen := TidyAll(listing);
      TidyAllIsSorted(listing);
      ghost var whole := FetchChildren(sha, seen, directory, State());
      assert seen[0..] == seen;
      for k := 0 to |children|
        invariant whole == FetchChildren(sha, seen[k..], directory, State())
      {
        FetchStep(sha, seen, k, directory, State());
        ghost var i := SortedComesFrom(listing, k);
        r := Visit(sha, children[k], directory);
        if r.Failure? { return; }
      }
      r := Success(());
    }
  }
}
