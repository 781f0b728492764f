/** Which trees the two walks take, and what they say about the others. */
module WalkErrors {
  import opened Prelude
  import opened Utf8
  import opened PortableNames
  import opened Wire
  import opened Paths
  import opened PayloadReceiver
  import opened PayloadSender
  import opened Trees

  // ----- a tree as a whole -----

  /** An entry of the tree, at whatever depth, is like this. */
  predicate Somewhere(children: seq<Child>, like: Child -> bool)
    decreases children, 0
  {
    children != [] && (SomewhereIn(children[0], like) || Somewhere(children[1..], like))
  }

  predicate SomewhereIn(child: Child, like: Child -> bool)
    decreases child, 1
  {
    like(child) || (child.node.FolderNode? && Somewhere(child.node.children, like))
  }

  function Count(children: seq<Child>): nat
    decreases children, 0
  {
    if children == [] then 0 else CountOf(children[0]) + Count(children[1..])
  }

  function CountOf(child: Child): nat
    decreases child, 1
  {
    1 + (if child.node.FolderNode? then Count(child.node.children) else 0)
  }

  function Weight(children: seq<Child>): nat
    decreases children, 0
  {
    if children == [] then 0 else WeightOf(children[0]) + Weight(children[1..])
  }

  function WeightOf(child: Child): nat
    decreases child, 1
  {
    match child.node
    case FileNode(metadata) => metadata.length
    case FolderNode(_, children) => Weight(children)
    case _ => 0
  }

  // ----- which trees can be offered -----

  predicate HasClock(node: Node) { HasMetadata(node) ==> node.metadata.modified.Some? }

  /** A file or folder with a portable name, a usable clock reading and at most 8 GiB. */
  predicate IsSound(child: Child) {
    && child.utf8 && OfferComponent(child.name) && HasClock(child.node)
    && (child.node.FolderNode? || (child.node.FileNode? && child.node.metadata.length <= 0x2_0000_0000))
  }

  predicate AllSound(children: seq<Child>)
    decreases children, 0
  {
    children == [] || (SoundChild(children[0]) && AllSound(children[1..]))
  }

  predicate SoundChild(child: Child)
    decreases child, 1
  {
    IsSound(child) && (child.node.FolderNode? ==> AllSound(child.node.children))
  }

  /** Files and folders together are the entries, and the limits hold so far. */
  predicate InBounds(stats: Stats) {
    && stats.fileCount + stats.directoryCount == stats.entryCount <= 4096
    && stats.totalBytes <= 0x4_0000_0000
  }

  /** What a walk over a sound tree adds to the statistics. */
  predicate Adds(before: Stats, after: Stats, count: nat, weight: nat) {
    && after.entryCount == before.entryCount + count && after.totalBytes == before.totalBytes + weight
    && InBounds(after)
  }

  predicate Room(stats: Stats, count: nat, weight: nat) {
    stats.entryCount + count <= 4096 && stats.totalBytes + weight <= 0x4_0000_0000
  }

  lemma NamesHere(parts: seq<string>, name: string)
    requires OfferNames(parts)
    ensures OfferNames(parts + [name]) <==> OfferComponent(name)
  {
    hide OfferComponent;
    assert (parts + [name])[|parts|] == name;
  }

  lemma Limits()
    ensures MAX_MANIFEST_ENTRIES == 4096 && MAX_TRANSFER_BYTES == 0x4_0000_0000 && MAX_FILE_BYTES == 0x2_0000_0000
  {}

  /** A folder that passes its own checks is walked. */
  predicate IsEntered(child: Child, stats: Stats) {
    child.node.FolderNode? && child.utf8 && OfferComponent(child.name) && HasClock(child.node)
    && stats.entryCount + 1 <= 4096
  }

  lemma FolderIsWalked(child: Child, parts: seq<string>, acc: OfferWalk) returns (inside: OfferWalk)
    requires OfferNames(parts) && InBounds(acc.stats) && IsEntered(child, acc.stats)
    ensures OfferNames(parts + [child.name])
    ensures OfferChild(child, parts, acc) == OfferChildren(child.node.children, parts + [child.name], inside)
    ensures Adds(acc.stats, inside.stats, 1, 0)
  {
    var here := parts + [child.name];
    NamesHere(parts, child.name);
    Limits();
    ClockDecides(child, Join(here));
    hide OfferComponent, MetadataBytes, Join, OfferNames, OfferChildren;
    inside := Descended(Hashed(acc, MetadataBytes("entry", Join(here), child.node.metadata, false, true).value));
  }

  lemma OfferLeafIff(child: Child, parts: seq<string>, acc: OfferWalk)
    requires OfferNames(parts) && InBounds(acc.stats) && !IsEntered(child, acc.stats)
    ensures var r := OfferChild(child, parts, acc);
      && (r.Success? <==> IsSound(child) && !child.node.FolderNode? && Room(acc.stats, 1, WeightOf(child)))
      && (r.Success? ==> Adds(acc.stats, r.value.stats, 1, WeightOf(child)))
  {
    NamesHere(parts, child.name);
    Limits();
    if HasMetadata(child.node) { ClockDecides(child, Join(parts + [child.name])); }
    hide OfferComponent, MetadataBytes, Join, OfferNames, OfferChildren;
  }

  lemma {:induction false} OfferChildIff(child: Child, parts: seq<string>, acc: OfferWalk)
    requires OfferNames(parts) && InBounds(acc.stats)
    ensures var r := OfferChild(child, parts, acc);
      && (r.Success? <==> SoundChild(child) && Room(acc.stats, CountOf(child), WeightOf(child)))
      && (r.Success? ==> Adds(acc.stats, r.value.stats, CountOf(child), WeightOf(child)))
    decreases child, 1
  {
    hide OfferComponent, OfferNames, OfferChild, OfferChildren;
    if IsEntered(child, acc.stats) {
      var inside := FolderIsWalked(child, parts, acc);
      OfferIffSound(child.node.children, parts + [child.name], inside);
    } else {
      OfferLeafIff(child, parts, acc);
    }
  }

  lemma ClockDecides(child: Child, name: string)
    requires HasMetadata(child.node)
    ensures MetadataBytes("entry", name, child.node.metadata, child.node.FileNode?, IsFolder(child.node)).Some?
       <==> HasClock(child.node)
  {}

  /**
   * The offer-time walk takes exactly the trees of files and folders with portable names and usable
   * clock readings, no file over 8 GiB, at most 4096 entries and 16 GiB in all.
   */
  lemma {:induction false} OfferIffSound(children: seq<Child>, parts: seq<string>, acc: OfferWalk)
    requires OfferNames(parts) && InBounds(acc.stats)
    ensures var r := OfferChildren(children, parts, acc);
      && (r.Success? <==> AllSound(children) && Room(acc.stats, Count(children), Weight(children)))
      && (r.Success? ==> Adds(acc.stats, r.value.stats, Count(children), Weight(children)))
    decreases children, 0
  {
    if children != [] {
      OfferChildIff(children[0], parts, acc);
      var first := OfferChild(children[0], parts, acc);
      hide OfferChild;
      if first.Success? { OfferIffSound(children[1..], parts, first.value); }
    }
  }

  // ----- what is said about the others -----

  /** The entry that an error of the offer-time walk is about. */
  predicate IsOffence(child: Child, error: OfferError) {
    match error
    case NonUtf8Name => !child.utf8
    case InvalidName => !OfferComponent(child.name)
    case Inspect => child.node.UnreadableNode? || child.node.SealedNode?
    case Symlink => child.node.LinkNode?
    case SpecialFile => child.node.SpecialNode?
    case Commitment => !HasClock(child.node)
    case _ => false
  }

  predicate TooMuch(stats: Stats, count: nat, weight: nat, big: bool) { !Room(stats, count, weight) || big }

  predicate IsBig(child: Child) { child.node.FileNode? && child.node.metadata.length > 0x2_0000_0000 }

  /** An error names something that is there. */
  predicate IsTrue(error: OfferError, stats: Stats, child: Child) {
    if error == TreeTooLarge then TooMuch(stats, CountOf(child), WeightOf(child), SomewhereIn(child, IsBig))
    else SomewhereIn(child, (c: Child) => IsOffence(c, error))
  }

  predicate IsTrueOfAll(error: OfferError, stats: Stats, children: seq<Child>) {
    if error == TreeTooLarge then TooMuch(stats, Count(children), Weight(children), Somewhere(children, IsBig))
    else Somewhere(children, (c: Child) => IsOffence(c, error))
  }

  lemma OfferLeafErrors(child: Child, parts: seq<string>, acc: OfferWalk)
    requires OfferNames(parts) && InBounds(acc.stats) && !IsEntered(child, acc.stats)
    requires OfferChild(child, parts, acc).Failure?
    ensures IsTrue(OfferChild(child, parts, acc).error, acc.stats, child)
  {
    NamesHere(parts, child.name);
    Limits();
    if HasMetadata(child.node) { ClockDecides(child, Join(parts + [child.name])); }
    hide OfferComponent, MetadataBytes, Join, OfferNames, OfferChildren;
  }

  lemma {:induction false} OfferChildErrors(child: Child, parts: seq<string>, acc: OfferWalk)
    requires OfferNames(parts) && InBounds(acc.stats) && OfferChild(child, parts, acc).Failure?
    ensures IsTrue(OfferChild(child, parts, acc).error, acc.stats, child)
    decreases child, 1
  {
    hide OfferComponent, OfferNames, OfferChild, OfferChildren;
    if IsEntered(child, acc.stats) {
      var inside := FolderIsWalked(child, parts, acc);
      OfferErrorsAreTrue(child.node.children, parts + [child.name], inside);
    } else {
      OfferLeafErrors(child, parts, acc);
    }
  }

  /** The offer-time walk fails only with an error that names something in the tree, or the whole tree as too large. */
  lemma {:induction false} OfferErrorsAreTrue(children: seq<Child>, parts: seq<string>, acc: OfferWalk)
    requires OfferNames(parts) && InBounds(acc.stats)
    ensures var r := OfferChildren(children, parts, acc);
      r.Failure? ==> IsTrueOfAll(r.error, acc.stats, children)
    decreases children, 0
  {
    if children != [] {
      var first := OfferChild(children[0], parts, acc);
      OfferChildIff(children[0], parts, acc);
      if first.Success? {
        hide OfferChild;
        OfferErrorsAreTrue(children[1..], parts, first.value);
      } else {
        OfferChildErrors(children[0], parts, acc);
      }
    }
  }

  // ----- and at fetch time -----

  predicate IsHidden(child: Child) {
    child.node.UnreadableNode? || child.node.SealedNode? || !HasClock(child.node)
  }

  predicate IsForeign(child: Child) { !child.utf8 || child.node.LinkNode? || child.node.SpecialNode? || IsBig(child) }

  /** A source is called unavailable only if something in it cannot be read, and changed only if it has changed. */
  predicate IsFair(error: SourceFailure, stats: Stats, fetchable: bool, count: nat, weight: nat, hidden: bool,
                   foreign: bool)
  {
    match error
    case Unavailable => hidden
    case Changed => !fetchable || foreign || !Room(stats, count, weight)
    case Malformed => false
  }

  /** What is proved of the walk over one entry, and over a listing. */
  ghost predicate IsFairWalk(r: Result<FetchWalk, SourceFailure>, stats: Stats, fetchable: bool, count: nat,
                             weight: nat, hidden: bool, foreign: bool)
  {
    match r
    case Failure(error) => IsFair(error, stats, fetchable, count, weight, hidden, foreign)
    case Success(w) => |w.manifest| == w.stats.entryCount && Adds(stats, w.stats, count, weight)
  }

  ghost predicate ChildIsFair(sha: Sha, child: Child, directory: string, acc: FetchWalk) {
    IsFairWalk(FetchChild(sha, child, directory, acc), acc.stats, FetchableChild(child, directory), CountOf(child),
               WeightOf(child), SomewhereIn(child, IsHidden), SomewhereIn(child, IsForeign))
  }

  ghost predicate ListingIsFair(sha: Sha, children: seq<Child>, directory: string, acc: FetchWalk) {
    IsFairWalk(FetchChildren(sha, children, directory, acc), acc.stats, Fetchable(children, directory), Count(children),
               Weight(children), Somewhere(children, IsHidden), Somewhere(children, IsForeign))
  }

  lemma FolderIsFetched(sha: Sha, child: Child, directory: string, acc: FetchWalk) returns (inside: FetchWalk)
    requires InBounds(acc.stats) && |acc.manifest| == acc.stats.entryCount && acc.stats.entryCount + 1 <= 4096
    requires child.node.FolderNode? && child.utf8 && HasClock(child.node)
    requires ValidComponent(child.name) && ByteLen(FetchName(directory, child.name)) <= MAX_PATH_BYTES
    ensures |inside.manifest| == inside.stats.entryCount && Adds(acc.stats, inside.stats, 1, 0)
    ensures FetchChild(sha, child, directory, acc)
         == FetchChildren(sha, child.node.children, FetchName(directory, child.name), inside)
  {
    var name := FetchName(directory, child.name);
    ClockDecides(child, name);
    var bytes := MetadataBytes("entry", name, child.node.metadata, false, true).value;
    EnteredAdds(acc, bytes, name);
    inside := Entered(Counted(acc, bytes), name);
    FolderUnfolds(sha, child, directory, acc, name, bytes);
    hide *;
  }

  lemma FolderUnfolds(sha: Sha, child: Child, directory: string, acc: FetchWalk, name: string, bytes: Bytes)
    requires acc.stats.entryCount + 1 <= 4096 && |acc.manifest| <= 4096 && name == FetchName(directory, child.name)
    requires child.node.FolderNode? && child.utf8 && ValidComponent(child.name) && ByteLen(name) <= MAX_PATH_BYTES
    requires MetadataBytes("entry", name, child.node.metadata, false, true) == Some(bytes)
    requires Counted(acc, bytes).stats.directoryCount + 1 <= U32_MAX
    ensures FetchChild(sha, child, directory, acc)
         == FetchChildren(sha, child.node.children, name, Entered(Counted(acc, bytes), name))
  {
    Limits();
    hide ValidComponent, MetadataBytes, FetchName, ByteLen, FetchChildren, Entered, Counted;
  }

  lemma EnteredAdds(acc: FetchWalk, bytes: Bytes, name: string)
    requires InBounds(acc.stats) && |acc.manifest| == acc.stats.entryCount && acc.stats.entryCount + 1 <= 4096
    ensures Counted(acc, bytes).stats.directoryCount + 1 <= U32_MAX
    ensures var inside := Entered(Counted(acc, bytes), name);
      |inside.manifest| == inside.stats.entryCount && Adds(acc.stats, inside.stats, 1, 0)
  {}

  lemma FileIsFair(metadata: Metadata, name: string, digest: Bytes, acc: FetchWalk, bytes: Bytes)
    requires InBounds(acc.stats) && |acc.manifest| == acc.stats.entryCount && acc.stats.entryCount + 1 <= 4096
    ensures |Counted(acc, bytes).manifest| <= U32_MAX
    ensures match FetchFile(metadata, name, digest, Counted(acc, bytes))
      case Failure(error) =>
        error == Changed && (metadata.length > 0x2_0000_0000 || !Room(acc.stats, 1, metadata.length))
      case Success(w) => |w.manifest| == w.stats.entryCount && Adds(acc.stats, w.stats, 1, metadata.length)
  {
    Limits();
  }

  lemma LeafIsFair(sha: Sha, child: Child, directory: string, acc: FetchWalk)
    requires InBounds(acc.stats) && |acc.manifest| == acc.stats.entryCount
    requires !(&& acc.stats.entryCount + 1 <= 4096 && child.node.FolderNode? && child.utf8 && HasClock(child.node)
               && ValidComponent(child.name) && ByteLen(FetchName(directory, child.name)) <= MAX_PATH_BYTES)
    ensures ChildIsFair(sha, child, directory, acc)
  {
    Limits();
    var name := FetchName(directory, child.name);
    if HasMetadata(child.node) { ClockDecides(child, name); }
    if child.node.FileNode? && HasClock(child.node) && acc.stats.entryCount + 1 <= 4096 {
      var bytes := MetadataBytes("entry", name, child.node.metadata, true, false).value;
      FileIsFair(child.node.metadata, name, sha(bytes), acc, bytes);
    }
    hide ValidComponent, MetadataBytes, FetchName, ByteLen, FetchChildren, FetchFile, Counted, Adds;
  }

  lemma {:induction false} FetchChildFair(sha: Sha, child: Child, directory: string, acc: FetchWalk)
    requires InBounds(acc.stats) && |acc.manifest| == acc.stats.entryCount
    ensures ChildIsFair(sha, child, directory, acc)
    decreases child, 1
  {
    hide ValidComponent, FetchName, ByteLen, FetchChild, FetchChildren, ChildIsFair, ListingIsFair, InBounds;
    if acc.stats.entryCount + 1 <= 4096 && child.node.FolderNode? && child.utf8 && HasClock(child.node)
       && ValidComponent(child.name) && ByteLen(FetchName(directory, child.name)) <= MAX_PATH_BYTES {
      var inside := FolderIsFetched(sha, child, directory, acc);
      FetchErrorsAreFair(sha, child.node.children, FetchName(directory, child.name), inside);
      FolderIsFair(sha, child, directory, acc, inside, FetchName(directory, child.name));
    } else {
      LeafIsFair(sha, child, directory, acc);
    }
  }

  lemma FolderIsFair(sha: Sha, child: Child, directory: string, acc: FetchWalk, inside: FetchWalk, name: string)
    requires InBounds(acc.stats) && child.node.FolderNode? && name == FetchName(directory, child.name)
    requires inside.stats.entryCount == acc.stats.entryCount + 1 && inside.stats.totalBytes == acc.stats.totalBytes
    requires acc.stats.entryCount + 1 <= 4096
    requires ListingIsFair(sha, child.node.children, name, inside)
    ensures FetchChild(sha, child, directory, acc) == FetchChildren(sha, child.node.children, name, inside) ==>
              ChildIsFair(sha, child, directory, acc)
  {
    hide ValidComponent, FetchName, ByteLen, FetchChildren, FetchChild;
  }

  lemma ConsIsFair(sha: Sha, children: seq<Child>, directory: string, acc: FetchWalk)
    requires children != [] && ChildIsFair(sha, children[0], directory, acc)
    requires var first := FetchChild(sha, children[0], directory, acc);
      first.Success? ==> ListingIsFair(sha, children[1..], directory, first.value)
    ensures ListingIsFair(sha, children, directory, acc)
  {
    hide FetchChild, IsHidden, IsForeign, FetchableChild;
  }

  /** At fetch time a source is called unavailable or changed only for such a reason. */
  lemma {:induction false} FetchErrorsAreFair(sha: Sha, children: seq<Child>, directory: string, acc: FetchWalk)
    requires InBounds(acc.stats) && |acc.manifest| == acc.stats.entryCount
    ensures ListingIsFair(sha, children, directory, acc)
    decreases children, 0
  {
    if children != [] {
      FetchChildFair(sha, children[0], directory, acc);
      var first := FetchChild(sha, children[0], directory, acc);
      if first.Success? {
        FairGoesOn(sha, children[0], directory, acc);
        hide *;
        FetchErrorsAreFair(sha, children[1..], directory, first.value);
        ConsIsFair(sha, children, directory, acc);
      } else {
        hide *;
        ConsIsFair(sha, children, directory, acc);
      }
    }
  }

  lemma FairGoesOn(sha: Sha, child: Child, directory: string, acc: FetchWalk)
    requires ChildIsFair(sha, child, directory, acc) && FetchChild(sha, child, directory, acc).Success?
    ensures var w := FetchChild(sha, child, directory, acc).value;
      InBounds(w.stats) && |w.manifest| == w.stats.entryCount
  {
    hide FetchChild, FetchableChild;
  }
}
