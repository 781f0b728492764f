/** The manifest a fetch-time walk builds, and that the receiver's check accepts it. */
module TreeManifests {
  import opened Prelude
  import opened Utf8
  import opened PortableNames
  import opened Wire
  import opened Paths
  import opened PayloadReceiver
  import opened PayloadSender
  import opened SenderTheorems
  import opened Trees
  import opened ManifestChecks
  import opened Staging

  /** One entry of a tree: the names that lead to it, what it is and its metadata. */
  datatype Item = Item(parts: seq<string>, kind: EntryKind, metadata: Metadata)

  function ItemsOf(child: Child, parts: seq<string>): (items: seq<Item>)
    decreases child, 1
  {
    var here := parts + [child.name];
    match child.node
    case FileNode(metadata) => [Item(here, FileEntry, metadata)]
    case FolderNode(metadata, children) => [Item(here, DirectoryEntry, metadata)] + Items(children, here)
    case _ => []
  }

  /** The entries of a folder, each before what it contains. */
  function Items(children: seq<Child>, parts: seq<string>): (items: seq<Item>)
    decreases children, 0
  {
    if children == [] then [] else ItemsOf(children[0], parts) + Items(children[1..], parts)
  }

  function EntryOf(item: Item): ManifestEntry {
    ManifestEntry(Join(item.parts), item.kind, if item.kind == FileEntry then item.metadata.length else 0)
  }

  function Entries(items: seq<Item>): (entries: seq<ManifestEntry>)
    ensures |entries| == |items| && forall i :: 0 <= i < |items| ==> entries[i] == EntryOf(items[i])
  {
    seq(|items|, i requires 0 <= i < |items| => EntryOf(items[i]))
  }

  // ----- the books -----

  /** The four statistics and the file list say what the manifest says. */
  ghost predicate Balanced(w: FetchWalk) {
    && |w.manifest| == w.stats.entryCount <= MAX_MANIFEST_ENTRIES
    && CountKind(w.manifest, FileEntry) == w.stats.fileCount
    && CountKind(w.manifest, DirectoryEntry) == w.stats.directoryCount
    && FileBytes(w.manifest) == w.stats.totalBytes <= MAX_TRANSFER_BYTES
    && SlotsOf(w.files) == FileSlots(w.manifest)
  }

  lemma FileKeepsBooks(metadata: Metadata, name: string, digest: Bytes, acc: FetchWalk, bytes: Bytes)
    requires Balanced(acc) && acc.stats.entryCount + 1 <= MAX_MANIFEST_ENTRIES
    ensures var r := FetchFile(metadata, name, digest, Counted(acc, bytes)); r.Success? ==> Balanced(r.value)
  {
    var r := FetchFile(metadata, name, digest, Counted(acc, bytes));
    if r.Success? {
      var entry := ManifestEntry(name, FileEntry, metadata.length);
      var file := LiveFile(Slot(|acc.manifest|, metadata.length), digest);
      assert r.value.manifest == acc.manifest + [entry] && r.value.files == acc.files + [file];
      assert SlotsOf(acc.files + [file]) == SlotsOf(acc.files) + [file.slot];
      hide CountKind, FileBytes, FileSlots, SlotsOf;
      OneMoreEntry(acc.manifest, entry);
    }
  }

  lemma OneMoreEntry(entries: seq<ManifestEntry>, e: ManifestEntry)
    requires |entries| < U32_MAX
    ensures CountKind(entries + [e], FileEntry)
        == CountKind(entries, FileEntry) + (if e.kind == FileEntry then 1 else 0)
    ensures CountKind(entries + [e], DirectoryEntry)
         == CountKind(entries, DirectoryEntry) + (if e.kind == DirectoryEntry then 1 else 0)
    ensures FileBytes(entries + [e]) == FileBytes(entries) + (if e.kind == FileEntry then e.byteLen else 0)
    ensures FileSlots(entries + [e])
         == FileSlots(entries) + (if e.kind == FileEntry then [Slot(|entries|, e.byteLen)] else [])
  {
    hide *;
    var all := entries + [e];
    assert all[..|all| - 1] == entries && all[|all| - 1] == e;
    CountOneMore(all, FileEntry);
    CountOneMore(all, DirectoryEntry);
    SlotsOneMore(all);
  }

  lemma CountOneMore(all: seq<ManifestEntry>, kind: EntryKind)
    requires all != []
    ensures CountKind(all, kind) == CountKind(all[..|all| - 1], kind) + (if all[|all| - 1].kind == kind then 1 else 0)
  {}

  lemma SlotsOneMore(all: seq<ManifestEntry>)
    requires 0 < |all| <= U32_MAX
    ensures FileBytes(all) == FileBytes(all[..|all| - 1])
                              + (if all[|all| - 1].kind == FileEntry then all[|all| - 1].byteLen else 0)
    ensures FileSlots(all) == FileSlots(all[..|all| - 1])
                              + (if all[|all| - 1].kind == FileEntry then
                                [Slot(|all| - 1, all[|all| - 1].byteLen)] else [])
  {}

  lemma FolderKeepsBooks(acc: FetchWalk, bytes: Bytes, name: string)
    requires Balanced(acc) && acc.stats.entryCount + 1 <= MAX_MANIFEST_ENTRIES
    requires acc.stats.directoryCount + 1 <= U32_MAX
    ensures Balanced(Entered(Counted(acc, bytes), name))
  {
    hide CountKind, FileBytes, FileSlots, SlotsOf;
    OneMoreEntry(acc.manifest, ManifestEntry(name, DirectoryEntry, 0));
  }

  /** What a successful step of the walk went through. */
  lemma SuccessfulStep(sha: Sha, child: Child, directory: string, acc: FetchWalk) returns (bytes: Bytes)
    requires FetchChild(sha, child, directory, acc).Success?
    ensures child.utf8 && ValidComponent(child.name) && ByteLen(FetchName(directory, child.name)) <= MAX_PATH_BYTES
    ensures acc.stats.entryCount + 1 <= MAX_MANIFEST_ENTRIES && |acc.manifest| <= U32_MAX
    ensures var name := FetchName(directory, child.name);
      match child.node
      case FileNode(metadata) =>
        FetchChild(sha, child, directory, acc) == FetchFile(metadata, name, sha(bytes), Counted(acc, bytes))
      case FolderNode(_, children) =>
        && acc.stats.directoryCount + 1 <= U32_MAX
        && FetchChild(sha, child, directory, acc)
          == FetchChildren(sha, children, name, Entered(Counted(acc, bytes), name))
      case _ => false
  {
    hide ValidComponent, ByteLen, FetchName, MetadataBytes, FetchFile;
    var name := FetchName(directory, child.name);
    bytes := MetadataBytes("entry", name, child.node.metadata, child.node.FileNode?, IsFolder(child.node)).value;
  }

  lemma {:induction false} ChildKeepsBooks(sha: Sha, child: Child, directory: string, acc: FetchWalk)
    requires Balanced(acc) && FetchChild(sha, child, directory, acc).Success?
    ensures Balanced(FetchChild(sha, child, directory, acc).value)
    decreases child, 1
  {
    hide ValidComponent, ByteLen, FetchName, MetadataBytes, FetchChild, FetchChildren, FetchFile, Balanced;
    var bytes := SuccessfulStep(sha, child, directory, acc);
    var name := FetchName(directory, child.name);
    match child.node {
      case FileNode(metadata) => FileKeepsBooks(metadata, name, sha(bytes), acc, bytes);
      case FolderNode(_, children) =>
        FolderKeepsBooks(acc, bytes, name);
        WalkKeepsBooks(sha, children, name, Entered(Counted(acc, bytes), name));
    }
  }

  /** Whatever a walk succeeds on, its statistics and its file list are those of its manifest. */
  lemma {:induction false} WalkKeepsBooks(sha: Sha, children: seq<Child>, directory: string, acc: FetchWalk)
    requires Balanced(acc) && FetchChildren(sha, children, directory, acc).Success?
    ensures Balanced(FetchChildren(sha, children, directory, acc).value)
    decreases children, 0
  {
    if children != [] {
      hide FetchChild, Balanced;
      ChildKeepsBooks(sha, children[0], directory, acc);
      WalkKeepsBooks(sha, children[1..], directory, FetchChild(sha, children[0], directory, acc).value);
    }
  }

  // ----- the entries -----

  /** Names the fetch-time check accepts, and paths within its bound. */
  predicate ProperItem(item: Item) {
    && item.parts != [] && (forall i :: 0 <= i < |item.parts| ==> ValidComponent(item.parts[i]))
    && ByteLen(Join(item.parts)) <= MAX_PATH_BYTES
    && (item.kind == FileEntry ==> item.metadata.length <= MAX_FILE_BYTES)
  }

  predicate ProperItems(items: seq<Item>) { forall i :: 0 <= i < |items| ==> ProperItem(items[i]) }

  predicate ValidNames(parts: seq<string>) { forall i :: 0 <= i < |parts| ==> ValidComponent(parts[i]) }

  lemma NameIsJoin(parts: seq<string>, name: string)
    requires ValidNames(parts)
    ensures Join(parts + [name]) == FetchName(Join(parts), name)
  {
    assert (parts + [name])[..|parts|] == parts;
    if parts != [] { JoinIsNotEmpty(parts); }
  }

  lemma EntriesConcat(a: seq<Item>, b: seq<Item>)
    ensures Entries(a + b) == Entries(a) + Entries(b)
  {}

  ghost predicate Spells(before: FetchWalk, after: FetchWalk, items: seq<Item>) {
    after.manifest == before.manifest + Entries(items) && ProperItems(items)
  }

  lemma SpellsThen(a: FetchWalk, b: FetchWalk, c: FetchWalk, x: seq<Item>, y: seq<Item>)
    requires Spells(a, b, x) && Spells(b, c, y)
    ensures Spells(a, c, x + y)
  {
    hide ProperItem;
    EntriesConcat(x, y);
    assert a.manifest + Entries(x) + Entries(y) == a.manifest + (Entries(x) + Entries(y));
  }

  lemma {:induction false} ChildSpellsItems(sha: Sha, child: Child, parts: seq<string>, acc: FetchWalk)
    requires ValidNames(parts) && FetchChild(sha, child, Join(parts), acc).Success?
    ensures Spells(acc, FetchChild(sha, child, Join(parts), acc).value, ItemsOf(child, parts))
    decreases child, 1
  {
    hide ValidComponent, ByteLen, FetchName, MetadataBytes, FetchChild, FetchChildren, Join, Items;
    var bytes := SuccessfulStep(sha, child, Join(parts), acc);
    var here, name := parts + [child.name], FetchName(Join(parts), child.name);
    NameIsJoin(parts, child.name);
    match child.node {
      case FileNode(metadata) =>
        assert Entries([Item(here, FileEntry, metadata)]) == [ManifestEntry(name, FileEntry, metadata.length)];
      case FolderNode(metadata, children) =>
        var folder := Item(here, DirectoryEntry, metadata);
        var entered := Entered(Counted(acc, bytes), name);
        assert Entries([folder]) == [ManifestEntry(name, DirectoryEntry, 0)];
        assert Spells(acc, entered, [folder]);
        WalkSpellsItems(sha, children, here, entered);
        SpellsThen(acc, entered, FetchChildren(sha, children, name, entered).value,
                   [folder], Items(children, here));
    }
  }

  /** The manifest of a walk lists the tree, every folder before what it contains. */
  lemma {:induction false} WalkSpellsItems(sha: Sha, children: seq<Child>, parts: seq<string>, acc: FetchWalk)
    requires ValidNames(parts) && FetchChildren(sha, children, Join(parts), acc).Success?
    ensures Spells(acc, FetchChildren(sha, children, Join(parts), acc).value, Items(children, parts))
    decreases children, 0
  {
    if children == [] {
      assert acc.manifest + Entries([]) == acc.manifest;
    } else {
      hide FetchChild, ItemsOf, Join, Spells;
      ChildSpellsItems(sha, children[0], parts, acc);
      var next := FetchChild(sha, children[0], Join(parts), acc).value;
      WalkSpellsItems(sha, children[1..], parts, next);
      SpellsThen(acc, next, FetchChildren(sha, children[1..], Join(parts), next).value,
                 ItemsOf(children[0], parts), Items(children[1..], parts));
    }
  }

  // ----- the shape -----

  /** No two entries of one folder have names that differ only in case. */
  predicate Unclashing(fold: string -> string, children: seq<Child>)
    decreases children, 0
  {
    if children == [] then true
    else
      && UnclashingChild(fold, children[0])
      && !Named(fold, children[1..], fold(children[0].name)) && Unclashing(fold, children[1..])
  }

  predicate UnclashingChild(fold: string -> string, child: Child)
    decreases child, 1
  {
    child.node.FolderNode? ==> Unclashing(fold, child.node.children)
  }

  predicate Named(fold: string -> string, children: seq<Child>, folded: string) {
    exists i :: 0 <= i < |children| && fold(children[i].name) == folded
  }

  predicate Below(item: Item, parts: seq<string>) { |item.parts| > |parts| && item.parts[..|parts|] == parts }

  predicate AllBelow(items: seq<Item>, parts: seq<string>) { forall i :: 0 <= i < |items| ==> Below(items[i], parts) }

  predicate Apart(fold: string -> string, a: Item, b: Item) { MapNames(fold, a.parts) != MapNames(fold, b.parts) }

  predicate AllApart(fold: string -> string, items: seq<Item>) {
    forall i, j :: 0 <= i < j < |items| ==> Apart(fold, items[i], items[j])
  }

  predicate HasFolder(items: seq<Item>, parts: seq<string>) {
    exists i :: 0 <= i < |items| && items[i].kind == DirectoryEntry && items[i].parts == parts
  }

  /** Every proper ancestor deeper than `depth` is listed as a folder. */
  predicate Closed(items: seq<Item>, depth: nat) {
    forall i, k :: 0 <= i < |items| && depth < k < |items[i].parts| ==> HasFolder(items, items[i].parts[..k])
  }

  lemma {:induction false} ChildIsBelow(child: Child, parts: seq<string>)
    ensures AllBelow(ItemsOf(child, parts), parts)
    ensures forall i :: 0 <= i < |ItemsOf(child, parts)| ==> ItemsOf(child, parts)[i].parts[|parts|] == child.name
    decreases child, 1
  {
    var here := parts + [child.name];
    if child.node.FolderNode? {
      TreeIsBelow(child.node.children, here);
      var items, inner := ItemsOf(child, parts), Items(child.node.children, here);
      forall i | 0 <= i < |items|
        ensures Below(items[i], parts) && items[i].parts[|parts|] == child.name
      {
        if i > 0 {
          assert items[i] == inner[i - 1] && Below(inner[i - 1], here);
          assert items[i].parts[..|parts|] == items[i].parts[..|here|][..|parts|];
          assert items[i].parts[|parts|] == items[i].parts[..|here|][|parts|];
        }
      }
    }
  }

  lemma {:induction false} TreeIsBelow(children: seq<Child>, parts: seq<string>)
    ensures AllBelow(Items(children, parts), parts)
    ensures forall i :: 0 <= i < |Items(children, parts)| ==>
              Below(Items(children, parts)[i], parts)
              && exists c :: 0 <= c < |children| && children[c].name == Items(children, parts)[i].parts[|parts|]
    decreases children, 0
  {
    if children != [] {
      ChildIsBelow(children[0], parts);
      TreeIsBelow(children[1..], parts);
      var first, more := ItemsOf(children[0], parts), Items(children[1..], parts);
      var all := Items(children, parts);
      hide ItemsOf, Items;
      forall i | 0 <= i < |all|
        ensures Below(all[i], parts) && exists c :: 0 <= c < |children| && children[c].name == all[i].parts[|parts|]
      {
        if i < |first| {
          assert all[i] == first[i] && children[0].name == all[i].parts[|parts|];
        } else {
          assert all[i] == more[i - |first|];
          var c :| 0 <= c < |children[1..]| && children[1..][c].name == all[i].parts[|parts|];
          assert children[c + 1].name == all[i].parts[|parts|];
        }
      }
    }
  }

  lemma ClosedConcat(a: seq<Item>, b: seq<Item>, depth: nat)
    requires Closed(a, depth) && Closed(b, depth)
    ensures Closed(a + b, depth)
  {
    var all := a + b;
    forall i, k | 0 <= i < |all| && depth < k < |all[i].parts|
      ensures HasFolder(all, all[i].parts[..k])
    {
      if i < |a| {
        assert HasFolder(a, a[i].parts[..k]);
        var j :| 0 <= j < |a| && a[j].kind == DirectoryEntry && a[j].parts == a[i].parts[..k];
        assert all[j] == a[j];
      } else {
        assert all[i] == b[i - |a|] && HasFolder(b, b[i - |a|].parts[..k]);
        var j :| 0 <= j < |b| && b[j].kind == DirectoryEntry && b[j].parts == b[i - |a|].parts[..k];
        assert all[|a| + j] == b[j];
      }
    }
  }

  lemma {:induction false} ChildIsClosed(child: Child, parts: seq<string>)
    ensures Closed(ItemsOf(child, parts), |parts|)
    decreases child, 1
  {
    var here := parts + [child.name];
    if child.node.FolderNode? {
      var items, inner := ItemsOf(child, parts), Items(child.node.children, here);
      TreeIsClosed(child.node.children, here);
      TreeIsBelow(child.node.children, here);
      hide ItemsOf, Items;
      forall i, k | 0 <= i < |items| && |parts| < k < |items[i].parts|
        ensures HasFolder(items, items[i].parts[..k])
      {
        assert items[i] == inner[i - 1] && Below(inner[i - 1], here);
        if k == |here| {
          assert items[0].parts == items[i].parts[..k];
        } else {
          assert HasFolder(inner, inner[i - 1].parts[..k]);
          var j :| 0 <= j < |inner| && inner[j].kind == DirectoryEntry && inner[j].parts == inner[i - 1].parts[..k];
          assert items[j + 1] == inner[j];
        }
      }
    }
  }

  /** A tree's entries are prefix-closed. */
  lemma {:induction false} TreeIsClosed(children: seq<Child>, parts: seq<string>)
    ensures Closed(Items(children, parts), |parts|)
    decreases children, 0
  {
    if children != [] {
      hide ItemsOf;
      ChildIsClosed(children[0], parts);
      TreeIsClosed(children[1..], parts);
      ClosedConcat(ItemsOf(children[0], parts), Items(children[1..], parts), |parts|);
    }
  }

  /** Only named files and folders, all the way down: what a successful walk has seen. */
  predicate Regular(children: seq<Child>)
    decreases children, 0
  {
    if children == [] then true else RegularChild(children[0]) && Regular(children[1..])
  }

  predicate RegularChild(child: Child)
    decreases child, 1
  {
    child.utf8 && (child.node.FileNode? || (child.node.FolderNode? && Regular(child.node.children)))
  }

  lemma {:induction false} FetchedChildIsRegular(sha: Sha, child: Child, directory: string, acc: FetchWalk)
    requires FetchChild(sha, child, directory, acc).Success?
    ensures RegularChild(child)
    decreases child, 1
  {
    hide ValidComponent, ByteLen, FetchName, MetadataBytes, FetchChild, FetchChildren, FetchFile;
    var bytes := SuccessfulStep(sha, child, directory, acc);
    var name := FetchName(directory, child.name);
    if child.node.FolderNode? {
      FetchedTreeIsRegular(sha, child.node.children, name, Entered(Counted(acc, bytes), name));
    }
  }

  lemma {:induction false} FetchedTreeIsRegular(sha: Sha, children: seq<Child>, directory: string, acc: FetchWalk)
    requires FetchChildren(sha, children, directory, acc).Success?
    ensures Regular(children)
    decreases children, 0
  {
    if children != [] {
      hide FetchChild;
      FetchedChildIsRegular(sha, children[0], directory, acc);
      FetchedTreeIsRegular(sha, children[1..], directory, FetchChild(sha, children[0], directory, acc).value);
    }
  }

  predicate CrossApart(fold: string -> string, a: seq<Item>, b: seq<Item>) {
    forall i, j :: 0 <= i < |a| && 0 <= j < |b| ==> Apart(fold, a[i], b[j])
  }

  lemma AllApartConcat(fold: string -> string, a: seq<Item>, b: seq<Item>)
    ensures AllApart(fold, a + b) <==> AllApart(fold, a) && AllApart(fold, b) && CrossApart(fold, a, b)
  {
    hide Apart;
    var all := a + b;
    assert forall i :: 0 <= i < |a| ==> all[i] == a[i];
    assert forall j :: 0 <= j < |b| ==> all[|a| + j] == b[j];
    if AllApart(fold, all) {
      forall i, j | 0 <= i < |a| && 0 <= j < |b|
        ensures Apart(fold, a[i], b[j])
      {
        assert Apart(fold, all[i], all[|a| + j]);
      }
      forall i, j | 0 <= i < j < |b|
        ensures Apart(fold, b[i], b[j])
      {
        assert Apart(fold, all[|a| + i], all[|a| + j]);
      }
    }
  }

  lemma ShorterIsApart(fold: string -> string, head: Item, inner: seq<Item>)
    requires AllBelow(inner, head.parts)
    ensures CrossApart(fold, [head], inner)
  {
    forall j | 0 <= j < |inner|
      ensures Apart(fold, head, inner[j])
    {
      assert Below(inner[j], head.parts);
    }
  }

  lemma SingleIsApart(fold: string -> string, item: Item)
    ensures AllApart(fold, [item])
  {}

  lemma {:induction false} ChildApartIffUnclashing(fold: string -> string, child: Child, parts: seq<string>)
    requires RegularChild(child)
    ensures AllApart(fold, ItemsOf(child, parts)) <==> UnclashingChild(fold, child)
    decreases child, 1
  {
    var here := parts + [child.name];
    if child.node.FolderNode? {
      var head, inner := Item(here, DirectoryEntry, child.node.metadata), Items(child.node.children, here);
      TreeApartIffUnclashing(fold, child.node.children, here);
      TreeIsBelow(child.node.children, here);
      ShorterIsApart(fold, head, inner);
      SingleIsApart(fold, head);
      AllApartConcat(fold, [head], inner);
    } else {
      SingleIsApart(fold, Item(here, FileEntry, child.node.metadata));
    }
  }

  lemma {:induction false} EveryChildIsListed(children: seq<Child>, parts: seq<string>, c: nat) returns (i: nat)
    requires Regular(children) && c < |children|
    ensures i < |Items(children, parts)| && Items(children, parts)[i].parts == parts + [children[c].name]
    decreases |children|
  {
    if c == 0 {
      i := 0;
    } else {
      i := EveryChildIsListed(children[1..], parts, c - 1);
      i := i + |ItemsOf(children[0], parts)|;
    }
  }

  /** The entries of one child and those of its later siblings differ exactly when the names do. */
  lemma SiblingsApartIffNamesDiffer(fold: string -> string, child: Child, others: seq<Child>, parts: seq<string>)
    requires RegularChild(child) && Regular(others)
    ensures CrossApart(fold, ItemsOf(child, parts), Items(others, parts)) <==> !Named(fold, others, fold(child.name))
  {
    var a, b := ItemsOf(child, parts), Items(others, parts);
    ChildIsBelow(child, parts);
    TreeIsBelow(others, parts);
    assert a != [] && a[0].parts == parts + [child.name];
    if Named(fold, others, fold(child.name)) {
      var c :| 0 <= c < |others| && fold(others[c].name) == fold(child.name);
      var j := EveryChildIsListed(others, parts, c);
      assert MapNames(fold, a[0].parts) == MapNames(fold, b[j].parts);
      assert !Apart(fold, a[0], b[j]);
    } else {
      hide ItemsOf, Items, Regular, RegularChild;
      forall i, j | 0 <= i < |a| && 0 <= j < |b|
        ensures Apart(fold, a[i], b[j])
      {
        assert Below(a[i], parts) && Below(b[j], parts);
        assert MapNames(fold, a[i].parts)[|parts|] == fold(child.name);
        var c :| 0 <= c < |others| && others[c].name == b[j].parts[|parts|];
        assert MapNames(fold, b[j].parts)[|parts|] == fold(others[c].name);
      }
    }
  }

  /** A tree's paths are distinct up to case exactly when siblings' names are, everywhere. */
  lemma {:induction false} TreeApartIffUnclashing(fold: string -> string, children: seq<Child>, parts: seq<string>)
    requires Regular(children)
    ensures AllApart(fold, Items(children, parts)) <==> Unclashing(fold, children)
    decreases children, 0
  {
    if children != [] {
      hide ItemsOf, AllApart, CrossApart, Named, UnclashingChild;
      ChildApartIffUnclashing(fold, children[0], parts);
      TreeApartIffUnclashing(fold, children[1..], parts);
      SiblingsApartIffNamesDiffer(fold, children[0], children[1..], parts);
      AllApartConcat(fold, ItemsOf(children[0], parts), Items(children[1..], parts));
    } else {
      assert Items(children, parts) == [];
    }
  }

  // ----- what the receiver's check sees -----

  lemma {:induction false} JoinAvoids(parts: seq<string>, c: char)
    requires c != '/' && forall i :: 0 <= i < |parts| ==> c !in parts[i]
    ensures c !in Join(parts)
  {
    if |parts| > 1 { JoinAvoids(parts[..|parts| - 1], c); }
  }

  lemma ValidNamesArePlain(name: string)
    requires ValidComponent(name)
    ensures '/' !in name && '\\' !in name && name != ""
  {
    assert forall i :: 0 <= i < |name| ==> !IsForbidden(name[i]);
  }

  lemma ProperPathSplits(parts: seq<string>)
    requires parts != [] && ValidNames(parts)
    ensures Split(Join(parts)) == parts && Join(parts) != "" && '\\' !in Join(parts)
  {
    forall i | 0 <= i < |parts|
      ensures '/' !in parts[i] && '\\' !in parts[i] && parts[i] != ""
    {
      ValidNamesArePlain(parts[i]);
    }
    SplitOfJoin(parts);
    JoinAvoids(parts, '\\');
    JoinIsNotEmpty(parts);
  }

  lemma ProperEntryIsOk(item: Item)
    requires ProperItem(item)
    ensures EntryOk(EntryOf(item)) && EntryOf(item).path != "" && Split(EntryOf(item).path) == item.parts
  {
    hide ValidComponent, Split, Join, ByteLen;
    ProperPathSplits(item.parts);
  }

  lemma DistinctIffApart(fold: string -> string, items: seq<Item>)
    requires FoldLaw(fold) && ProperItems(items)
    ensures Distinct(fold, Entries(items)) <==> AllApart(fold, items)
  {
    hide FoldLaw, ProperItem, EntryOf, EntryOk;
    forall i, j | 0 <= i < j < |items|
      ensures fold(Entries(items)[i].path) != fold(Entries(items)[j].path) <==> Apart(fold, items[i], items[j])
    {
      ProperEntryIsOk(items[i]);
      ProperEntryIsOk(items[j]);
      FoldedPathsAgree(fold, EntryOf(items[i]).path, EntryOf(items[j]).path);
    }
  }

  lemma AncestorIsListed(fold: string -> string, items: seq<Item>, i: nat, k: nat)
    requires FoldLaw(fold) && ProperItems(items) && Closed(items, 0)
    requires i < |items| && 1 <= k < |items[i].parts|
    ensures Split(fold(EntryOf(items[i]).path)) == MapNames(fold, items[i].parts)
    ensures Declares(fold, Entries(items), DirectoryEntry, Join(MapNames(fold, items[i].parts)[..k]))
  {
    hide ValidComponent, Split, Join, ByteLen, FoldLaw;
    ProperEntryIsOk(items[i]);
    SplitOfFold(fold, EntryOf(items[i]).path);
    var above := items[i].parts[..k];
    assert HasFolder(items, above);
    var d :| 0 <= d < |items| && items[d].kind == DirectoryEntry && items[d].parts == above;
    FoldOfJoin(fold, above);
    assert MapNames(fold, items[i].parts)[..k] == MapNames(fold, above);
    assert Entries(items)[d].kind == DirectoryEntry && fold(Entries(items)[d].path) == Join(MapNames(fold, above));
  }

  lemma ClosedIsRooted(fold: string -> string, items: seq<Item>)
    requires FoldLaw(fold) && ProperItems(items) && Closed(items, 0)
    ensures Rooted(fold, Entries(items))
  {
    hide ProperItem, EntryOf, EntryOk, FoldLaw, Split, Join, Declares, Closed;
    var entries := Entries(items);
    forall i | 0 <= i < |entries|
      ensures ParentsDeclared(fold, entries, entries[i].path)
    {
      ProperEntryIsOk(items[i]);
      SplitOfFold(fold, entries[i].path);
      forall k | 1 <= k < |items[i].parts|
        ensures Declares(fold, entries, DirectoryEntry, Join(MapNames(fold, items[i].parts)[..k]))
      {
        AncestorIsListed(fold, items, i, k);
      }
    }
  }

  function StartOf(commitment: Bytes): FetchWalk { FetchWalk(commitment, NO_STATS, [], []) }

  lemma NoNames()
    ensures ValidNames([]) && Join([]) == ""
  {}

  lemma SpelledFromStart(commitment: Bytes, w: FetchWalk, items: seq<Item>)
    requires Spells(StartOf(commitment), w, items)
    ensures w.manifest == Entries(items) && ProperItems(items)
  {}

  lemma ProperEntriesPass(items: seq<Item>)
    requires ProperItems(items)
    ensures EntriesOk(Entries(items)) && !NamesRoot(Entries(items))
  {
    hide ProperItem, EntryOk, EntryOf;
    forall i | 0 <= i < |items|
      ensures EntryOk(Entries(items)[i]) && Entries(items)[i].path != ""
    {
      ProperEntryIsOk(items[i]);
    }
  }

  lemma StartIsBalanced(commitment: Bytes)
    ensures Balanced(StartOf(commitment)) && StartOf(commitment).manifest == []
  {}

  lemma WalkedEntriesPass(sha: Sha, children: seq<Child>, commitment: Bytes)
    requires FetchChildren(sha, children, "", StartOf(commitment)).Success?
    ensures var w := FetchChildren(sha, children, "", StartOf(commitment)).value;
      Balanced(w) && EntriesOk(w.manifest) && !NamesRoot(w.manifest)
  {
    var start := StartOf(commitment);
    var w, items := FetchChildren(sha, children, "", start).value, Items(children, []);
    NoNames();
    hide *;
    StartIsBalanced(commitment);
    WalkKeepsBooks(sha, children, "", start);
    WalkSpellsItems(sha, children, [], start);
    SpelledFromStart(commitment, w, items);
    ProperEntriesPass(items);
  }

  /**
   * Every manifest a walk builds passes the receiver's structural checks, its totals are the
   * walk's statistics, and its paths are distinct up to case exactly when no two siblings clash.
   */
  lemma WalkedManifestPasses(fold: string -> string, sha: Sha, children: seq<Child>, commitment: Bytes)
    requires FoldLaw(fold) && FetchChildren(sha, children, "", StartOf(commitment)).Success?
    ensures var w := FetchChildren(sha, children, "", StartOf(commitment)).value;
      && Balanced(w) && EntriesOk(w.manifest) && Rooted(fold, w.manifest) && !NamesRoot(w.manifest)
      && (Distinct(fold, w.manifest) <==> Unclashing(fold, children))
  {
    var start := StartOf(commitment);
    var w, items := FetchChildren(sha, children, "", start).value, Items(children, []);
    NoNames();
    hide *;
    WalkedEntriesPass(sha, children, commitment);
    WalkSpellsItems(sha, children, [], start);
    SpelledFromStart(commitment, w, items);
    TreeIsClosed(children, []);
    ClosedIsRooted(fold, items);
    DistinctIffApart(fold, items);
    FetchedTreeIsRegular(sha, children, "", start);
    TreeApartIffUnclashing(fold, children, []);
  }
}
