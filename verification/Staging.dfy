/** What an accepted manifest guarantees, and staging it without a collision. */
module Staging {
  import opened Prelude
  import opened Wire
  import opened Paths
  import opened PayloadReceiver
  import opened TransferTheorems
  import opened Manifests
  import opened ManifestChecks

  // ----- an accepted manifest is a forest up to case -----

  function Folded(fold: string -> string, e: ManifestEntry): seq<string> { MapNames(fold, Split(e.path)) }

  predicate ProperPrefix(a: seq<string>, b: seq<string>) { |a| < |b| && a == b[..|a|] }

  /** Distinct paths, every proper ancestor a declared directory, no file an ancestor. */
  ghost predicate Forest(fold: string -> string, entries: seq<ManifestEntry>) {
    && (forall i, j :: 0 <= i < j < |entries| ==> Folded(fold, entries[i]) != Folded(fold, entries[j]))
    && (forall i, k :: 0 <= i < |entries| && 1 <= k < |Folded(fold, entries[i])| ==>
          exists d :: 0 <= d < |entries| && entries[d].kind == DirectoryEntry
                      && Folded(fold, entries[d]) == Folded(fold, entries[i])[..k])
    && (forall f, i :: 0 <= f < |entries| && 0 <= i < |entries| && entries[f].kind == FileEntry ==>
          !ProperPrefix(Folded(fold, entries[f]), Folded(fold, entries[i])))
  }

  lemma PathsDiffer(fold: string -> string, entries: seq<ManifestEntry>, i: nat, j: nat)
    requires FoldLaw(fold) && Distinct(fold, entries) && i < |entries| && j < |entries| && i != j
    ensures Folded(fold, entries[i]) != Folded(fold, entries[j])
  {
    FoldedPathsAgree(fold, entries[i].path, entries[j].path);
  }

  /** The declared directory an ancestor of an entry is. */
  lemma AncestorIsDeclared(fold: string -> string, entries: seq<ManifestEntry>, i: nat, k: nat) returns (d: nat)
    requires FoldLaw(fold) && Rooted(fold, entries) && i < |entries| && 1 <= k < |Folded(fold, entries[i])|
    ensures d < |entries| && entries[d].kind == DirectoryEntry
    ensures Folded(fold, entries[d]) == Folded(fold, entries[i])[..k]
  {
    hide Split, Join;
    var path, parts := entries[i].path, Split(fold(entries[i].path));
    SplitOfFold(fold, path);
    assert path != "" by { if path == "" { SplitOfPlain(path); } }
    var parent := Join(parts[..k]);
    assert Declares(fold, entries, DirectoryEntry, parent);
    d :| 0 <= d < |entries| && entries[d].kind == DirectoryEntry && fold(entries[d].path) == parent;
    SplitOfFold(fold, entries[d].path);
    SplitIsSlashFree(fold(path));
    SplitOfJoin(parts[..k]);
  }

  lemma AcceptedIsForest(t: Tools, header: Message, entries: seq<ManifestEntry>, end: Option<Message>)
    requires header.FetchHeader? && Acceptable(t, header, entries, end) && FoldLaw(t.fold)
    ensures Forest(t.fold, entries)
  {
    hide Folded, FoldLaw, Distinct, Rooted;
    forall i, j | 0 <= i < j < |entries|
      ensures Folded(t.fold, entries[i]) != Folded(t.fold, entries[j])
    {
      PathsDiffer(t.fold, entries, i, j);
    }
    forall i, k | 0 <= i < |entries| && 1 <= k < |Folded(t.fold, entries[i])|
      ensures exists d :: 0 <= d < |entries| && entries[d].kind == DirectoryEntry
                          && Folded(t.fold, entries[d]) == Folded(t.fold, entries[i])[..k]
    {
      var d := AncestorIsDeclared(t.fold, entries, i, k);
    }
    forall f, i | 0 <= f < |entries| && 0 <= i < |entries| && entries[f].kind == FileEntry
      ensures !ProperPrefix(Folded(t.fold, entries[f]), Folded(t.fold, entries[i]))
    {
      NoFileIsAnAncestor(t.fold, entries, f, i);
    }
  }

  lemma NoFileIsAnAncestor(fold: string -> string, entries: seq<ManifestEntry>, f: nat, i: nat)
    requires FoldLaw(fold) && Distinct(fold, entries) && Rooted(fold, entries)
    requires f < |entries| && i < |entries| && entries[f].kind == FileEntry
    ensures !ProperPrefix(Folded(fold, entries[f]), Folded(fold, entries[i]))
  {
    if ProperPrefix(Folded(fold, entries[f]), Folded(fold, entries[i])) {
      var d := AncestorIsDeclared(fold, entries, i, |Folded(fold, entries[f])|);
      PathsDiffer(fold, entries, d, f);
    }
  }

  // ----- counts -----

  /** The files among some entries, with their manifest indices, in order. */
  function FileSlots(entries: seq<ManifestEntry>): (slots: seq<Slot>)
    requires |entries| <= U32_MAX
    ensures |slots| <= |entries|
  {
    if entries == [] then []
    else
      var most, last := entries[..|entries| - 1], entries[|entries| - 1];
      FileSlots(most) + (if last.kind == FileEntry then [Slot(|entries| - 1, last.byteLen)] else [])
  }

  lemma SlotsGrow(entries: seq<ManifestEntry>, i: nat)
    requires i < |entries| <= U32_MAX
    ensures FileSlots(entries[..i + 1])
         == FileSlots(entries[..i]) + (if entries[i].kind == FileEntry then [Slot(i, entries[i].byteLen)] else [])
  {
    assert entries[..i + 1][..i] == entries[..i];
  }

  lemma {:induction false} SlotBytesConcat(a: seq<Slot>, b: seq<Slot>)
    ensures SlotBytes(a + b) == SlotBytes(a) + SlotBytes(b)
  {
    if a == [] {
      assert a + b == b;
    } else {
      SlotBytesConcat(a[1..], b);
      assert (a + b)[1..] == a[1..] + b;
    }
  }

  lemma {:induction false} SlotsCount(entries: seq<ManifestEntry>)
    requires |entries| <= U32_MAX
    ensures |FileSlots(entries)| == CountKind(entries, FileEntry) && SlotBytes(FileSlots(entries)) == FileBytes(entries)
  {
    if entries != [] {
      var most, last := entries[..|entries| - 1], entries[|entries| - 1];
      SlotsCount(most);
      SlotBytesConcat(FileSlots(most), [Slot(|entries| - 1, last.byteLen)]);
      assert [Slot(|entries| - 1, last.byteLen)][1..] == [] && FileSlots(most) + [] == FileSlots(most);
    }
  }

  /** What the plan, and with it the Completed receipt, says was transferred. */
  function PlannedFiles(d: Descriptor): nat {
    match d
    case TextOffer(_) => 0
    case FileOffer(_, _) => 1
    case FolderOffer(_, _, _, files, _) => files
  }

  function PlannedBytes(d: Descriptor): nat {
    match d
    case TextOffer(text) => text.utf8Bytes
    case FileOffer(_, bytes) => bytes
    case FolderOffer(_, bytes, _, _, _) => bytes
  }

  function TotalLength(contents: seq<Bytes>): nat {
    if contents == [] then 0 else |contents[0]| + TotalLength(contents[1..])
  }

  lemma {:induction false} FittingContentsWeighAlike(slots: seq<Slot>, contents: seq<Bytes>)
    requires Fits(slots, contents)
    ensures TotalLength(contents) == SlotBytes(slots)
  {
    if slots != [] {
      FitsSplits(slots, contents);
      FittingContentsWeighAlike(slots[1..], contents[1..]);
    }
  }

  lemma PlanCountsTheSlots(t: Tools, header: Message, entries: seq<ManifestEntry>, end: Option<Message>)
    requires header.FetchHeader? && !header.descriptor.TextOffer? && Acceptable(t, header, entries, end)
    ensures |FileSlots(entries)| == PlannedFiles(header.descriptor)
    ensures SlotBytes(FileSlots(entries)) == PlannedBytes(header.descriptor)
    ensures WithinLimits(FileSlots(entries))
  {
    hide EntriesOk, Distinct, Rooted, Sealed;
    SlotsCount(entries);
    if header.descriptor.FileOffer? { assert entries[..0] == []; }
  }

  /**
   * Whatever the peer sends: once header and manifest passed, a payload that is received whole holds
   * exactly the files and bytes that the Completed receipt will report.
   */
  lemma ReceiptCountsWhatWasWritten(c: Codec, t: Tools, header: Message, entries: seq<ManifestEntry>,
                                    end: Option<Message>, input: Bytes)
    requires header.FetchHeader? && !header.descriptor.TextOffer? && Acceptable(t, header, entries, end)
    requires header.headerSha.Some?
    requires Receive(c, t.sha, header.requestId, header.headerSha.value, FileSlots(entries), input).Staged?
    ensures var contents := Receive(c, t.sha, header.requestId, header.headerSha.value, FileSlots(entries),
        input).contents;
      && Fits(FileSlots(entries), contents)
      && |contents| == PlannedFiles(header.descriptor) && TotalLength(contents) == PlannedBytes(header.descriptor)
  {
    PlanCountsTheSlots(t, header, entries, end);
    hide *;
    var r := Receive(c, t.sha, header.requestId, header.headerSha.value, FileSlots(entries), input);
    StagedIffTranscript(c, t.sha, header.requestId, header.headerSha.value, FileSlots(entries), input, r.contents,
      r.rest);
    FittingContentsWeighAlike(FileSlots(entries), r.contents);
    FitsMeansAsMany(FileSlots(entries), r.contents);
  }

  /** An offered empty folder is refused whatever follows its header. */
  lemma EmptyFolderIsRefused(c: Codec, t: Tools, header: Message, input: Bytes)
    requires header.FetchHeader? && header.manifestEntries == 0 && header.headerSha.Some?
    ensures var read := ReadManifest(c, header, input);
      read.ManifestOk? && !Acceptable(t, header, read.entries, read.end)
  {}

  /** A folder manifest with an empty path passes the whole check: one nameless empty file. */
  lemma EmptyPathCanBeAccepted(t: Tools, req: RequestId, offer: OfferId, name: string)
    returns (header: Message, entries: seq<ManifestEntry>, end: Message)
    ensures header.FetchHeader? && header.descriptor.FolderOffer? && header.headerSha.Some?
    ensures NamesRoot(entries) && Acceptable(t, header, entries, Some(end))
  {
    entries := [ManifestEntry("", FileEntry, 0)];
    var digest := t.sha(t.json(entries));
    header := FetchHeader(req, offer, FolderOffer(name, 0, 1, 1, 0), 1, 0, None, Some(digest));
    end := ManifestEnd(req, 1, 1, 0, digest);
    assert entries[..0] == [] && entries[0].path == "";
  }

  // ----- staging -----

  /** A place below the payload root, in the form in which the filesystem compares names. */
  type Key = seq<string>

  datatype Object = Directory | RegularFile(byteLen: U64)

  datatype StagingResult = Ready(staged: seq<Slot>) | Clash | Fault

  /** The filesystem confuses no names that folding keeps apart: case-sensitive ones, and case-insensitive ones too. */
  ghost predicate NoCoarser(nameKey: string -> string, fold: string -> string) {
    forall a: string, b: string :: nameKey(a) == nameKey(b) ==> fold(a) == fold(b)
  }

  /** `payload_root.join(relative_path)`; an empty path is the payload root itself. */
  function KeyOf(nameKey: string -> string, path: string): Key {
    if path == "" then [] else MapNames(nameKey, Split(path))
  }

  predicate NamesRoot(entries: seq<ManifestEntry>) { exists i :: 0 <= i < |entries| && entries[i].path == "" }

  /** A place where staging may make a directory. */
  predicate DirectoryKey(nameKey: string -> string, entries: seq<ManifestEntry>, key: Key) {
    || key == []
    || exists j :: 0 <= j < |entries| && Above(key, KeyOf(nameKey, entries[j].path), entries[j].kind)
  }

  predicate Above(key: Key, entry: Key, kind: EntryKind) {
    |key| <= |entry| && key == entry[..|key|] && (|key| < |entry| || kind == DirectoryEntry)
  }

  lemma KeysRefineFolds(nameKey: string -> string, fold: string -> string, a: string, b: string, k: nat)
    requires NoCoarser(nameKey, fold) && a != "" && b != "" && k <= |Split(b)|
    requires KeyOf(nameKey, a) == KeyOf(nameKey, b)[..k]
    ensures MapNames(fold, Split(a)) == MapNames(fold, Split(b))[..k]
  {
    hide Split;
    var x, y := KeyOf(nameKey, a), KeyOf(nameKey, b);
    forall i | 0 <= i < k
      ensures fold(Split(a)[i]) == fold(Split(b)[i])
    {
      assert x[i] == y[..k][i] == y[i];
    }
  }

  /** No file of an accepted manifest stands where staging makes a directory or another file. */
  lemma FilesNeverClash(nameKey: string -> string, fold: string -> string, entries: seq<ManifestEntry>, f: nat)
    requires FoldLaw(fold) && NoCoarser(nameKey, fold) && Distinct(fold, entries) && Rooted(fold, entries)
    requires !NamesRoot(entries) && f < |entries| && entries[f].kind == FileEntry
    ensures !DirectoryKey(nameKey, entries, KeyOf(nameKey, entries[f].path))
    ensures forall j :: 0 <= j < |entries| && j != f ==>
        KeyOf(nameKey, entries[j].path) != KeyOf(nameKey, entries[f].path)
  {
    hide Split, FoldLaw, Distinct, Rooted, NoCoarser;
    var path := entries[f].path;
    var key := KeyOf(nameKey, path);
    assert path != "" && key != [];
    forall j | 0 <= j < |entries|
      ensures !Above(key, KeyOf(nameKey, entries[j].path), entries[j].kind)
      ensures j != f ==> KeyOf(nameKey, entries[j].path) != key
    {
      var other := entries[j].path;
      assert other != "";
      var theirs := KeyOf(nameKey, other);
      if |key| <= |theirs| && key == theirs[..|key|] {
        KeysRefineFolds(nameKey, fold, path, other, |key|);
        if |key| < |theirs| {
          NoFileIsAnAncestor(fold, entries, f, j);
          assert false;
        } else if j != f {
          assert theirs[..|key|] == theirs;
          PathsDiffer(fold, entries, j, f);
          assert false;
        }
      }
    }
  }

  /** What is staged: the files so far, each where it belongs, and directories only where one may be. */
  ghost predicate StagedSoFar(nameKey: string -> string, entries: seq<ManifestEntry>, done: nat, tree: map<Key, Object>)
    requires done <= |entries|
  {
    && (forall i :: 0 <= i < done && entries[i].kind == FileEntry ==>
          KeyOf(nameKey, entries[i].path) in tree.Keys
          && tree[KeyOf(nameKey, entries[i].path)] == RegularFile(entries[i].byteLen))
    && (forall key :: key in tree.Keys && tree[key] == Directory ==> DirectoryKey(nameKey, entries, key))
    && (forall key :: key in tree.Keys && tree[key] != Directory ==>
          exists i :: 0 <= i < done && entries[i].kind == FileEntry && KeyOf(nameKey, entries[i].path) == key)
  }

  /** What the manifest check and the filesystem guarantee to staging. */
  ghost predicate Checked(nameKey: string -> string, fold: string -> string, entries: seq<ManifestEntry>) {
    && FoldLaw(fold) && NoCoarser(nameKey, fold)
    && EntriesOk(entries) && Distinct(fold, entries) && Rooted(fold, entries)
  }

  /** Directories made for the file at index `done` keep the staged area in order. */
  lemma ParentsFit(nameKey: string -> string, entries: seq<ManifestEntry>, done: nat, before: map<Key, Object>,
                   after: map<Key, Object>)
    requires done < |entries| && StagedSoFar(nameKey, entries, done, before)
    requires KeyOf(nameKey, entries[done].path) != []
    requires Keeps(before, after)
    requires forall k :: k in after.Keys && k !in before.Keys ==>
               var parent := KeyOf(nameKey, entries[done].path)[..|KeyOf(nameKey, entries[done].path)| - 1];
               after[k] == Directory && |k| <= |parent| && k == parent[..|k|]
    ensures StagedSoFar(nameKey, entries, done, after)
  {
    hide KeyOf;
    var key := KeyOf(nameKey, entries[done].path);
    forall k | k in after.Keys && k !in before.Keys
      ensures DirectoryKey(nameKey, entries, k)
    {
      assert key[..|key| - 1][..|k|] == key[..|k|];
      assert Above(k, key, entries[done].kind);
    }
  }

  lemma FileFits(nameKey: string -> string, entries: seq<ManifestEntry>, done: nat, tree: map<Key, Object>)
    requires done < |entries| && StagedSoFar(nameKey, entries, done, tree) && entries[done].kind == FileEntry
    requires KeyOf(nameKey, entries[done].path) !in tree.Keys
    ensures StagedSoFar(nameKey, entries, done + 1,
                        tree[KeyOf(nameKey, entries[done].path) := RegularFile(entries[done].byteLen)])
  {
    hide KeyOf, DirectoryKey;
  }

  /** Neither the parents nor the file itself can meet anything in the way. */
  lemma NothingInTheWay(nameKey: string -> string, fold: string -> string, entries: seq<ManifestEntry>, done: nat,
                        tree: map<Key, Object>)
    requires Checked(nameKey, fold, entries) && !NamesRoot(entries)
    requires done < |entries| && entries[done].kind == FileEntry && StagedSoFar(nameKey, entries, done, tree)
    ensures var key := KeyOf(nameKey, entries[done].path);
      key !in tree.Keys && (key != [] ==> Passable(tree, key[..|key| - 1]))
  {
    hide KeyOf, FoldLaw, NoCoarser, EntriesOk, Distinct, Rooted, NamesRoot;
    var key := KeyOf(nameKey, entries[done].path);
    FilesNeverClash(nameKey, fold, entries, done);
    if key == [] { return; }
    var parent := key[..|key| - 1];
    forall n | 0 <= n <= |parent|
      ensures Open(tree, parent, n)
    {
      var part := parent[..n];
      assert part == key[..n];
      if part in tree.Keys && tree[part] != Directory {
        var f :| 0 <= f < done && entries[f].kind == FileEntry && KeyOf(nameKey, entries[f].path) == part;
        assert Above(part, key, entries[done].kind);
        FilesNeverClash(nameKey, fold, entries, f);
        assert false;
      }
    }
  }

  predicate Open(tree: map<Key, Object>, key: Key, n: nat)
    requires n <= |key|
  {
    key[..n] in tree.Keys ==> tree[key[..n]] == Directory
  }

  predicate Passable(tree: map<Key, Object>, key: Key) { forall n :: 0 <= n <= |key| ==> Open(tree, key, n) }

  /** The payload root and every declared directory are there. */
  ghost predicate Laid(nameKey: string -> string, entries: seq<ManifestEntry>, tree: map<Key, Object>) {
    && [] in tree.Keys && tree[[]] == Directory
    && forall i :: 0 <= i < |entries| && entries[i].kind == DirectoryEntry ==>
         KeyOf(nameKey, entries[i].path) in tree.Keys && tree[KeyOf(nameKey, entries[i].path)] == Directory
  }

  ghost predicate Keeps(before: map<Key, Object>, after: map<Key, Object>) {
    forall k :: k in before.Keys ==> k in after.Keys && after[k] == before[k]
  }

  lemma RootIsTaken(nameKey: string -> string, entries: seq<ManifestEntry>, tree: map<Key, Object>)
    requires Laid(nameKey, entries, tree)
    ensures KeyOf(nameKey, "") in tree.Keys
  {}

  lemma OnlyFilesNameRoot(nameKey: string -> string, fold: string -> string, entries: seq<ManifestEntry>)
    requires Checked(nameKey, fold, entries)
    requires forall i :: 0 <= i < |entries| && entries[i].kind == FileEntry ==> entries[i].path != ""
    ensures !NamesRoot(entries)
  {
    assert forall i :: 0 <= i < |entries| ==> EntryOk(entries[i]);
  }

  lemma DirectoryIsSkipped(nameKey: string -> string, entries: seq<ManifestEntry>, done: nat, tree: map<Key, Object>)
    requires done < |entries| && entries[done].kind == DirectoryEntry && StagedSoFar(nameKey, entries, done, tree)
    ensures StagedSoFar(nameKey, entries, done + 1, tree)
  {}

  lemma OnlyRootIsStaged(nameKey: string -> string, entries: seq<ManifestEntry>, tree: map<Key, Object>)
    ensures DirectoryKey(nameKey, entries, [])
    ensures FileSlots([]) == []
  {}

  lemma NothingStagedYet(nameKey: string -> string, entries: seq<ManifestEntry>, tree: map<Key, Object>)
    requires forall k :: k in tree.Keys ==> tree[k] == Directory && DirectoryKey(nameKey, entries, k)
    ensures StagedSoFar(nameKey, entries, 0, tree)
  {}

  /** The payload area of one staging root. */
  class StagingArea {
    var tree: map<Key, Object>

    constructor ()
      ensures tree == map[]
    {
      tree := map[];
    }

    /** `ensure_directory_tree` below the payload root: it fails only on a file, or on a fault. */
    method EnsureDirectories(key: Key) returns (ok: bool, fault: bool)
      modifies this
      ensures !ok && !fault ==> !Passable(old(tree), key)
      ensures Keeps(old(tree), tree)
      ensures forall k :: k in tree.Keys && k !in old(tree).Keys ==>
                tree[k] == Directory && |k| <= |key| && k == key[..|k|]
      ensures ok ==> key in tree.Keys && tree[key] == Directory
    {
      fault := false;
      for n := 0 to |key| + 1
        invariant Keeps(old(tree), tree)
        invariant forall k :: k in tree.Keys && k !in old(tree).Keys ==>
                    tree[k] == Directory && |k| < n && k == key[..|k|]
        invariant n > 0 ==> key[..n - 1] in tree.Keys && tree[key[..n - 1]] == Directory
      {
        var current := key[..n];
        if current in tree {
          if tree[current] != Directory {
            assert !Open(old(tree), key, n);
            return false, false;
          }
        } else {
          fault := *;
          if fault { return false, true; }
          tree := tree[current := Directory];
        }
      }
      assert key[..|key|] == key;
      ok := true;
    }

    /** `create_new_file`: it never takes the place of anything. */
    method CreateNewFile(key: Key, byteLen: U64) returns (ok: bool, fault: bool)
      modifies this
      ensures !ok && !fault ==> key in old(tree).Keys
      ensures ok ==> key !in old(tree).Keys && tree == old(tree)[key := RegularFile(byteLen)]
      ensures !ok ==> tree == old(tree)
    {
      fault := *;
      ok := !fault && key !in tree;
      if ok { tree := tree[key := RegularFile(byteLen)]; }
    }

    /** The directories of the manifest, in whatever order they are taken. */
    method MakeDirectories(nameKey: string -> string, entries: seq<ManifestEntry>) returns (ok: bool, fault: bool)
      requires forall k :: k in tree.Keys ==> tree[k] == Directory && DirectoryKey(nameKey, entries, k)
      modifies this
      ensures forall k :: k in tree.Keys ==> tree[k] == Directory && DirectoryKey(nameKey, entries, k)
      ensures ok && [] in old(tree).Keys ==> Laid(nameKey, entries, tree)
      ensures ok || fault
    {
      fault := false;
      var pending := set e | e in entries && e.kind == DirectoryEntry :: KeyOf(nameKey, e.path);
      while pending != {}
        invariant forall k :: k in tree.Keys ==> tree[k] == Directory && DirectoryKey(nameKey, entries, k)
        invariant forall k :: k in old(tree).Keys ==> k in tree.Keys
        invariant forall k :: k in pending ==>
                    exists i :: 0 <= i < |entries| && entries[i].kind == DirectoryEntry
                      && KeyOf(nameKey, entries[i].path) == k
        invariant forall i :: 0 <= i < |entries| && entries[i].kind == DirectoryEntry ==>
                    KeyOf(nameKey, entries[i].path) in pending || KeyOf(nameKey, entries[i].path) in tree.Keys
      {
        var key :| key in pending;
        ghost var i :| 0 <= i < |entries| && entries[i].kind == DirectoryEntry
            && KeyOf(nameKey, entries[i].path) == key;
        ok, fault := EnsureDirectories(key);
        forall k | k in tree.Keys
          ensures tree[k] == Directory && DirectoryKey(nameKey, entries, k)
        {
          if |k| <= |key| && k == key[..|k|] { assert Above(k, KeyOf(nameKey, entries[i].path), entries[i].kind); }
        }
        if !ok { return; }
        pending := pending - {key};
      }
      ok := true;
    }

    /** `prepare_staging` for a single file: the payload root is the file. */
    method PrepareFile(entry: ManifestEntry) returns (r: StagingResult)
      requires entry.kind == FileEntry && tree == map[]
      modifies this
      ensures r.Ready? ==> r.staged == FileSlots([entry]) && tree == map[[] := RegularFile(entry.byteLen)]
      ensures !r.Clash?
    {
      assert [entry][..0] == [];
      var ok, fault := CreateNewFile([], entry.byteLen);
      r := if ok then Ready([Slot(0, entry.byteLen)]) else Fault;
    }

    /** One file: its parents, then an exclusive create. */
    method StageFile(nameKey: string -> string, ghost fold: string -> string, entries: seq<ManifestEntry>, i: nat)
      returns (ok: bool, fault: bool)
      requires i < |entries| && entries[i].kind == FileEntry
      requires StagedSoFar(nameKey, entries, i, tree) && Laid(nameKey, entries, tree)
      modifies this
      ensures Laid(nameKey, entries, tree)
      ensures ok ==> StagedSoFar(nameKey, entries, i + 1, tree) && KeyOf(nameKey, entries[i].path) !in old(tree).Keys
      ensures !ok && !fault && Checked(nameKey, fold, entries) ==> NamesRoot(entries)
    {
      ghost var calm := Checked(nameKey, fold, entries) && !NamesRoot(entries);
      hide Checked, NamesRoot, StagedSoFar, KeyOf, Passable;
      var key := KeyOf(nameKey, entries[i].path);
      ghost var before := tree;
      if calm { NothingInTheWay(nameKey, fold, entries, i, before); }
      if key != [] {
        ok, fault := EnsureDirectories(key[..|key| - 1]);
        if !ok { return; }
        ParentsFit(nameKey, entries, i, before, tree);
        if calm { NothingInTheWay(nameKey, fold, entries, i, tree); }
      }
      before := tree;
      ok, fault := CreateNewFile(key, entries[i].byteLen);
      if ok { FileFits(nameKey, entries, i, before); }
    }

    /**
     * `prepare_staging` for a folder: every file is created exactly once with its length, in manifest
     * order, and a manifest that passed the check meets a conflict exactly when it has an empty path.
     */
    method PrepareFolder(nameKey: string -> string, ghost fold: string -> string, entries: seq<ManifestEntry>)
      returns (r: StagingResult)
      requires |entries| <= U32_MAX && tree == map[]
      modifies this
      ensures r.Ready? ==>
                r.staged == FileSlots(entries) && StagedSoFar(nameKey, entries, |entries|, tree)
                  && Laid(nameKey, entries, tree)
      ensures Checked(nameKey, fold, entries) ==>
                (r.Clash? ==> NamesRoot(entries)) && (r.Ready? ==> !NamesRoot(entries))
    {
      hide *;
      var ok, fault := EnsureDirectories([]);
      if !ok { return Fault; }
      OnlyRootIsStaged(nameKey, entries, tree);
      ok, fault := MakeDirectories(nameKey, entries);
      if !ok { return Fault; }
      NothingStagedYet(nameKey, entries, tree);
      var staged: seq<Slot> := [];
      for i := 0 to |entries|
        invariant StagedSoFar(nameKey, entries, i, tree) && Laid(nameKey, entries, tree)
            && staged == FileSlots(entries[..i])
        invariant forall j :: 0 <= j < i && entries[j].kind == FileEntry ==> entries[j].path != ""
      {
        SlotsGrow(entries, i);
        if entries[i].kind == FileEntry {
          RootIsTaken(nameKey, entries, tree);
          ok, fault := StageFile(nameKey, fold, entries, i);
          if !ok {
            r := if fault then Fault else Clash;
            return;
          }
          staged := staged + [Slot(i, entries[i].byteLen)];
        } else {
          DirectoryIsSkipped(nameKey, entries, i, tree);
        }
      }
      assert entries[..|entries|] == entries;
      if Checked(nameKey, fold, entries) { OnlyFilesNameRoot(nameKey, fold, entries); }
      r := Ready(staged);
    }
  }
}
