/** Which sources can be offered, and what is said of a source that cannot be offered or is not found again. */
module SourceReports {
  import opened Prelude
  import opened Wire
  import opened Trees
  import opened PayloadReceiver
  import opened PayloadSender
  import opened TreeManifests
  import opened Plans
  import opened WalkErrors

  /** A root that can be offered. */
  predicate CanBeOffered(root: Child) {
    && root.utf8 && OfferComponent(root.name) && ValidRootName(root.name) && HasClock(root.node)
    && match root.node
       case FileNode(metadata) => metadata.length <= 0x2_0000_0000
       case FolderNode(_, children) =>
         AllSound(children) && Count(children) <= 4096 && Weight(children) <= 0x4_0000_0000
       case _ => false
  }

  lemma RootClockDecides(root: Child)
    requires HasMetadata(root.node)
    ensures RootBytes(root).Some? <==> HasClock(root.node)
  {}

  lemma StartingOut()
    ensures OfferNames([]) && InBounds(NO_STATS)
    ensures forall count: nat, weight: nat ::
      Room(NO_STATS, count, weight) <==> count <= 4096 && weight <= 0x4_0000_0000
  {}

  lemma FolderWalkIff(children: seq<Child>, start: OfferWalk)
    requires start.stats == NO_STATS
    ensures var r := OfferChildren(children, [], start);
      && (r.Success? <==> AllSound(children) && Count(children) <= 4096 && Weight(children) <= 0x4_0000_0000)
      && (r.Success? ==> Adds(NO_STATS, r.value.stats, Count(children), Weight(children)))
      && (r.Failure? ==> IsTrueOfAll(r.error, NO_STATS, children))
  {
    hide *;
    StartingOut();
    OfferIffSound(children, [], start);
    OfferErrorsAreTrue(children, [], start);
  }

  /** What every source has to pass before it is looked at as a file or folder. */
  predicate RootPasses(root: Child) {
    HasMetadata(root.node) && root.utf8 && OfferComponent(root.name) && HasClock(root.node)
  }

  lemma RootDecides(sha: Sha, root: Child)
    ensures !RootPasses(root) ==>
      OfferSeen(sha, root).Failure? && IsOffence(root, OfferSeen(sha, root).error)
    ensures RootPasses(root) ==> RootBytes(root).Some?
    ensures RootPasses(root) ==>
      match root.node
      case FileNode(metadata) =>
        OfferSeen(sha, root)
        == if metadata.length > MAX_FILE_BYTES then Failure(FileTooLarge)
           else Recorded(FileOffer(root.name, metadata.length), sha(RootBytes(root).value))
      case FolderNode(_, children) =>
        (match OfferChildren(children, [], OfferWalk(RootBytes(root).value, NO_STATS))
         case Failure(e) => OfferSeen(sha, root) == Failure(e)
         case Success(walk) =>
           OfferSeen(sha, root) == Recorded(FolderDescriptor(root.name, walk.stats), sha(walk.commitment)))
      case SealedNode(_) => OfferSeen(sha, root) == Failure(Inspect)
      case _ => OfferSeen(sha, root) == Failure(SpecialFile)
  {
    if HasMetadata(root.node) { RootClockDecides(root); }
    hide OfferComponent, RootBytes, OfferChildren, Recorded;
  }

  /** The one thing about a sized source that its descriptor can still fail on is its name. */
  lemma FileIsRecorded(name: string, length: U64, commitment: Bytes)
    requires length <= 0x2_0000_0000
    ensures var r := Recorded(FileOffer(name, length), commitment);
      if ValidRootName(name) then r.Success? && r.value.descriptor == FileOffer(name, length)
      else r == Failure(BadDescriptor)
  {
    Limits();
    hide ValidRootName;
  }

  lemma FolderIsRecorded(name: string, stats: Stats, commitment: Bytes, count: nat, weight: nat)
    requires Adds(NO_STATS, stats, count, weight)
    ensures var r := Recorded(FolderDescriptor(name, stats), commitment);
      if ValidRootName(name) then r.Success? && Tells(r.value.descriptor, name, count, weight)
      else r == Failure(BadDescriptor)
  {
    Limits();
    hide ValidRootName;
  }

  /** A folder's descriptor tells its name and size. */
  predicate Tells(d: Descriptor, name: string, count: nat, weight: nat) {
    && d.FolderOffer? && d.folderName == name && d.totalBytes == weight
    && d.entryCount == count && d.fileCount + d.directoryCount == count
  }

  lemma FileIsOffered(sha: Sha, root: Child)
    requires RootPasses(root) && root.node.FileNode?
    ensures var r, length := OfferSeen(sha, root), root.node.metadata.length;
      if length > 0x2_0000_0000 then r == Failure(FileTooLarge)
      else if !ValidRootName(root.name) then r == Failure(BadDescriptor)
      else r.Success? && r.value.descriptor == FileOffer(root.name, length)
  {
    Limits();
    RootDecides(sha, root);
    hide RootPasses, OfferSeen, RootBytes, Recorded, ValidRootName;
    if root.node.metadata.length <= 0x2_0000_0000 {
      FileIsRecorded(root.name, root.node.metadata.length, sha(RootBytes(root).value));
    }
  }

  lemma FolderIsOffered(sha: Sha, root: Child)
    requires RootPasses(root) && root.node.FolderNode?
    ensures var r, children := OfferSeen(sha, root), root.node.children;
      if AllSound(children) && Count(children) <= 4096 && Weight(children) <= 0x4_0000_0000 then
        if ValidRootName(root.name) then
          r.Success? && Tells(r.value.descriptor, root.name, Count(children), Weight(children))
        else r == Failure(BadDescriptor)
      else r.Failure? && IsTrueOfAll(r.error, NO_STATS, children)
  {
    RootDecides(sha, root);
    var start := OfferWalk(RootBytes(root).value, NO_STATS);
    hide *;
    FolderWalkIff(root.node.children, start);
    var walked := OfferChildren(root.node.children, [], start);
    if walked.Success? {
      FolderIsRecorded(root.name, walked.value.stats, sha(walked.value.commitment), Count(root.node.children),
                       Weight(root.node.children));
    }
  }

  /** A source is offered exactly when it can be, and the offer then tells its size. */
  lemma OfferedIff(sha: Sha, root: Child)
    ensures OfferSeen(sha, root).Success? <==> CanBeOffered(root)
    ensures OfferSeen(sha, root).Success? ==>
      match root.node
      case FileNode(metadata) => OfferSeen(sha, root).value.descriptor == FileOffer(root.name, metadata.length)
      case FolderNode(_, children) =>
        Tells(OfferSeen(sha, root).value.descriptor, root.name, Count(children), Weight(children))
      case _ => false
  {
    RootDecides(sha, root);
    hide OfferSeen, OfferComponent, ValidRootName, RootBytes, OfferChildren, AllSound, Count, Weight, HasClock, Tells,
      Recorded, IsOffence, IsTrueOfAll;
    if RootPasses(root) {
      if root.node.FileNode? { FileIsOffered(sha, root); }
      if root.node.FolderNode? { FolderIsOffered(sha, root); }
    }
  }

  /** An error at offer time names something that is there. */
  ghost predicate NamesACause(error: OfferError, root: Child) {
    match error
    case FileTooLarge => root.node.FileNode? && root.node.metadata.length > 0x2_0000_0000
    case TreeTooLarge => root.node.FolderNode? && IsTrueOfAll(TreeTooLarge, NO_STATS, root.node.children)
    case BadDescriptor => !ValidRootName(root.name)
    case _ => SomewhereIn(root, (c: Child) => IsOffence(c, error))
  }

  lemma OffenceIsACause(error: OfferError, root: Child)
    requires IsOffence(root, error) || (root.node.FolderNode? && IsTrueOfAll(error, NO_STATS, root.node.children))
    ensures NamesACause(error, root)
  {
    hide OfferComponent, ValidRootName, HasClock, TooMuch, Count, Weight;
    if error == BadDescriptor || error == FileTooLarge { NeverOfAListing(error, root); }
  }

  lemma {:induction false} NothingOffends(children: seq<Child>, error: OfferError)
    requires error == BadDescriptor || error == FileTooLarge
    ensures !Somewhere(children, (c: Child) => IsOffence(c, error))
    decreases children, 0
  {
    if children != [] {
      if children[0].node.FolderNode? { NothingOffends(children[0].node.children, error); }
      NothingOffends(children[1..], error);
    }
  }

  lemma NeverOfAListing(error: OfferError, root: Child)
    requires error == BadDescriptor || error == FileTooLarge
    ensures !IsOffence(root, error) && !(root.node.FolderNode? && IsTrueOfAll(error, NO_STATS, root.node.children))
  {
    if root.node.FolderNode? { NothingOffends(root.node.children, error); }
  }

  lemma OfferErrorsNameACause(sha: Sha, root: Child)
    requires OfferSeen(sha, root).Failure?
    ensures NamesACause(OfferSeen(sha, root).error, root)
  {
    RootDecides(sha, root);
    var error := OfferSeen(sha, root).error;
    if RootPasses(root) && (root.node.SealedNode? || root.node.SpecialNode?) {
      assert IsOffence(root, error);
    }
    hide *;
    if !RootPasses(root) {
      OffenceIsACause(error, root);
    } else if root.node.FileNode? {
      FileIsOffered(sha, root);
      SizeOrNameIsACause(error, root);
    } else if root.node.FolderNode? {
      FolderIsOffered(sha, root);
      var children := root.node.children;
      if AllSound(children) && Count(children) <= 4096 && Weight(children) <= 0x4_0000_0000 {
        SizeOrNameIsACause(error, root);
      } else {
        OffenceIsACause(error, root);
      }
    } else {
      KindIsACause(root);
      OffenceIsACause(error, root);
    }
  }

  lemma KindIsACause(root: Child)
    requires RootPasses(root) && !root.node.FileNode? && !root.node.FolderNode?
    ensures root.node.SealedNode? || root.node.SpecialNode?
  {
    hide OfferComponent, HasClock;
  }

  lemma SizeOrNameIsACause(error: OfferError, root: Child)
    requires || (error == FileTooLarge && root.node.FileNode? && root.node.metadata.length > 0x2_0000_0000)
             || (error == BadDescriptor && !ValidRootName(root.name))
    ensures NamesACause(error, root)
  {
    hide ValidRootName;
  }

  /**
   * A source is called unavailable only if it is gone or something in it cannot be read, changed only
   * if it is not the source that was offered or cannot be fetched at all, and malformed only if it is
   * no file or folder.
   */
  lemma LookErrorsNameACause(sha: Sha, record: OfferRecord, root: Child)
    ensures LookAtSeen(sha, record, root) == Failure(Unavailable) ==> SomewhereIn(root, IsHidden)
    ensures LookAtSeen(sha, record, root) == Failure(Changed) ==>
              OfferSeen(sha, root) != Success(record) || !FetchableRoot(root)
    ensures LookAtSeen(sha, record, root) == Failure(Malformed) <==> record.descriptor.TextOffer?
  {
    if OfferSeen(sha, root) == Success(record) { SeenSourceIsFoundIffFetchable(sha, root); }
    hide OfferSeen, FetchableRoot;
    match record.descriptor {
      case TextOffer(_) =>
      case FileOffer(_, _) => LookAtFileIsFair(sha, record, root);
      case FolderOffer(_, _, _, _, _) => LookAtFolderIsFair(sha, record, root);
    }
    hide LookAtFile, LookAtFolder;
  }

  lemma LookAtFileIsFair(sha: Sha, record: OfferRecord, root: Child)
    requires record.descriptor.FileOffer?
    ensures LookAtFile(sha, record, root) == Failure(Unavailable) ==> SomewhereIn(root, IsHidden)
    ensures LookAtFile(sha, record, root) != Failure(Malformed)
  {
    if HasMetadata(root.node) { RootClockDecides(root); }
    hide RootBytes, Somewhere;
  }

  lemma LookAtFolderIsFair(sha: Sha, record: OfferRecord, root: Child)
    requires record.descriptor.FolderOffer?
    ensures LookAtFolder(sha, record, root) == Failure(Unavailable) ==> SomewhereIn(root, IsHidden)
    ensures LookAtFolder(sha, record, root) != Failure(Malformed)
  {
    if HasMetadata(root.node) { RootClockDecides(root); }
    if root.node.FolderNode? && RootBytes(root).Some? { WalkIsFair(sha, root.node.children, RootBytes(root).value); }
    hide RootBytes, FetchChildren, Somewhere;
  }

  lemma WalkIsFair(sha: Sha, children: seq<Child>, bytes: Bytes)
    ensures var r := FetchChildren(sha, children, "", StartOf(bytes));
      && (r == Failure(Unavailable) ==> Somewhere(children, IsHidden)) && r != Failure(Malformed)
  {
    var start := StartOf(bytes);
    assert InBounds(start.stats) && |start.manifest| == start.stats.entryCount;
    hide *;
    FetchErrorsAreFair(sha, children, "", start);
    FairListing(sha, children, start);
  }

  lemma FairListing(sha: Sha, children: seq<Child>, start: FetchWalk)
    requires ListingIsFair(sha, children, "", start)
    ensures var r := FetchChildren(sha, children, "", start);
      && (r == Failure(Unavailable) ==> Somewhere(children, IsHidden)) && r != Failure(Malformed)
  {
    hide FetchChildren, Fetchable, Count, Weight, Somewhere;
  }
}
