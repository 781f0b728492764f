/** Where the bytes end up: every file of an unchanged folder arrives at its own path. */
module Arrivals {
  import opened Prelude
  import opened Wire
  import opened Outcomes
  import opened Paths
  import opened PayloadReceiver
  import opened TransferTheorems
  import opened PayloadSender
  import opened SenderTheorems
  import opened Trees
  import opened Listings
  import opened ManifestChecks
  import opened Staging
  import opened TreeManifests
  import opened Plans

  // ----- slots and their entries -----

  /** The slots are the file entries, each once, in order. */
  ghost predicate SlotsMatch(entries: seq<ManifestEntry>, slots: seq<Slot>) {
    && (forall i :: 0 <= i < |slots| ==>
          && slots[i].entryIndex < |entries| && entries[slots[i].entryIndex].kind == FileEntry
          && entries[slots[i].entryIndex].byteLen == slots[i].byteLen)
    && (forall i, j :: 0 <= i < j < |slots| ==> slots[i].entryIndex < slots[j].entryIndex)
    && (forall k :: 0 <= k < |entries| && entries[k].kind == FileEntry ==>
          exists i :: 0 <= i < |slots| && slots[i].entryIndex == k)
  }

  lemma SlotsMatchGrows(most: seq<ManifestEntry>, before: seq<Slot>, e: ManifestEntry)
    requires SlotsMatch(most, before) && |most| < U32_MAX
    ensures SlotsMatch(most + [e], before + (if e.kind == FileEntry then [Slot(|most|, e.byteLen)] else []))
  {
    var n := |most|;
    var entries, slots := most + [e], before + (if e.kind == FileEntry then [Slot(n, e.byteLen)] else []);
    forall k | 0 <= k < |entries| && entries[k].kind == FileEntry
      ensures exists i :: 0 <= i < |slots| && slots[i].entryIndex == k
    {
      if k < n {
        assert most[k].kind == FileEntry;
        var i :| 0 <= i < |before| && before[i].entryIndex == k;
        assert slots[i].entryIndex == k;
      } else {
        assert slots[|before|].entryIndex == k;
      }
    }
  }

  lemma {:induction false} FileSlotsMatch(entries: seq<ManifestEntry>)
    requires |entries| <= U32_MAX
    ensures SlotsMatch(entries, FileSlots(entries))
  {
    if entries != [] {
      hide *;
      var n := |entries| - 1;
      var most := entries[..n];
      FileSlotsMatch(most);
      SlotsOneMore(entries);
      SlotsMatchGrows(most, FileSlots(most), entries[n]);
      assert most + [entries[n]] == entries;
    }
  }

  // ----- the payload area, written -----

  predicate Indexed(entries: seq<ManifestEntry>, slots: seq<Slot>) {
    forall i :: 0 <= i < |slots| ==> slots[i].entryIndex < |entries|
  }

  function PlaceOf(nameKey: string -> string, entries: seq<ManifestEntry>, slot: Slot): Key
    requires slot.entryIndex < |entries|
  {
    KeyOf(nameKey, entries[slot.entryIndex].path)
  }

  /** What the payload area holds once each slot's content is written to its staged file, in order. */
  function Written(nameKey: string -> string, entries: seq<ManifestEntry>, slots: seq<Slot>, contents: seq<Bytes>)
    : map<Key, Bytes>
    requires |slots| == |contents| && Indexed(entries, slots)
  {
    if slots == [] then map[]
    else
      var n := |slots| - 1;
      Written(nameKey, entries, slots[..n], contents[..n])[PlaceOf(nameKey, entries, slots[n]) := contents[n]]
  }

  ghost predicate PlacesDiffer(nameKey: string -> string, entries: seq<ManifestEntry>, slots: seq<Slot>)
    requires Indexed(entries, slots)
  {
    forall i, j :: 0 <= i < j < |slots| ==> PlaceOf(nameKey, entries, slots[i]) != PlaceOf(nameKey, entries, slots[j])
  }

  /** Every place holds its own slot's content, and nothing else is there. */
  ghost predicate Filled(nameKey: string -> string, entries: seq<ManifestEntry>, slots: seq<Slot>, contents: seq<Bytes>,
                         area: map<Key, Bytes>)
    requires |slots| == |contents| && Indexed(entries, slots)
  {
    && (forall i :: 0 <= i < |slots| ==>
          PlaceOf(nameKey, entries, slots[i]) in area && area[PlaceOf(nameKey, entries, slots[i])] == contents[i])
    && (forall key :: key in area ==> exists i :: 0 <= i < |slots| && PlaceOf(nameKey, entries, slots[i]) == key)
  }

  lemma FilledGrows(nameKey: string -> string, entries: seq<ManifestEntry>, s: seq<Slot>, c: seq<Bytes>,
                    before: map<Key, Bytes>, slot: Slot, content: Bytes)
    requires |s| == |c| && Indexed(entries, s) && Indexed(entries, s + [slot]) && Filled(nameKey, entries, s, c, before)
    requires slot.entryIndex < |entries| && PlaceOf(nameKey, entries, slot) !in before
    ensures Filled(nameKey, entries, s + [slot], c + [content], before[PlaceOf(nameKey, entries, slot) := content])
  {
    hide PlaceOf;
    var slots, area := s + [slot], before[PlaceOf(nameKey, entries, slot) := content];
    forall key | key in area
      ensures exists i :: 0 <= i < |slots| && PlaceOf(nameKey, entries, slots[i]) == key
    {
      if key in before {
        var i :| 0 <= i < |s| && PlaceOf(nameKey, entries, s[i]) == key;
        assert slots[i] == s[i];
      } else {
        assert slots[|s|] == slot;
      }
    }
  }

  /** With different places nothing is overwritten. */
  lemma {:induction false} WrittenHolds(nameKey: string -> string, entries: seq<ManifestEntry>, slots: seq<Slot>,
                                        contents: seq<Bytes>)
    requires |slots| == |contents| && Indexed(entries, slots) && PlacesDiffer(nameKey, entries, slots)
    ensures Filled(nameKey, entries, slots, contents, Written(nameKey, entries, slots, contents))
  {
    if slots != [] {
      hide *;
      var n := |slots| - 1;
      var s, c := slots[..n], contents[..n];
      PrefixDiffers(nameKey, entries, slots, n);
      WrittenHolds(nameKey, entries, s, c);
      WrittenUnfolds(nameKey, entries, slots, contents);
      var before := Written(nameKey, entries, s, c);
      LastPlaceIsNew(nameKey, entries, slots, c, before);
      assert s + [slots[n]] == slots && c + [contents[n]] == contents;
      FilledGrows(nameKey, entries, s, c, before, slots[n], contents[n]);
    }
  }

  lemma WrittenUnfolds(nameKey: string -> string, entries: seq<ManifestEntry>, slots: seq<Slot>, contents: seq<Bytes>)
    requires 0 < |slots| == |contents| && Indexed(entries, slots)
    ensures var n := |slots| - 1;
      && n < |slots| && slots[n].entryIndex < |entries| && Indexed(entries, slots[..n])
      && Written(nameKey, entries, slots, contents)
         == Written(nameKey, entries, slots[..n], contents[..n])[PlaceOf(nameKey, entries, slots[n]) := contents[n]]
  {
    hide PlaceOf;
  }

  lemma PrefixDiffers(nameKey: string -> string, entries: seq<ManifestEntry>, slots: seq<Slot>, n: nat)
    requires n <= |slots| && Indexed(entries, slots) && PlacesDiffer(nameKey, entries, slots)
    ensures Indexed(entries, slots[..n]) && PlacesDiffer(nameKey, entries, slots[..n])
  {
    hide PlaceOf;
    assert forall i :: 0 <= i < n ==> slots[..n][i] == slots[i];
  }

  lemma LastPlaceIsNew(nameKey: string -> string, entries: seq<ManifestEntry>, slots: seq<Slot>, c: seq<Bytes>,
                       before: map<Key, Bytes>)
    requires slots != [] && |c| == |slots| - 1 && Indexed(entries, slots) && PlacesDiffer(nameKey, entries, slots)
    requires Indexed(entries, slots[..|slots| - 1]) && Filled(nameKey, entries, slots[..|slots| - 1], c, before)
    ensures PlaceOf(nameKey, entries, slots[|slots| - 1]) !in before
  {
    hide PlaceOf;
    var n := |slots| - 1;
    assert forall i :: 0 <= i < n ==> slots[..n][i] == slots[i];
  }

  lemma CheckedPlacesDiffer(nameKey: string -> string, fold: string -> string, entries: seq<ManifestEntry>,
      slots: seq<Slot>)
    requires Checked(nameKey, fold, entries) && !NamesRoot(entries) && SlotsMatch(entries, slots)
    ensures Indexed(entries, slots) && PlacesDiffer(nameKey, entries, slots)
  {
    hide NamesRoot, KeyOf;
    forall i, j | 0 <= i < j < |slots|
      ensures PlaceOf(nameKey, entries, slots[i]) != PlaceOf(nameKey, entries, slots[j])
    {
      FilesNeverClash(nameKey, fold, entries, slots[j].entryIndex);
    }
  }

  /** The written area fills exactly the files that staging left, each to its length. */
  lemma AreaFillsStaging(nameKey: string -> string, entries: seq<ManifestEntry>, slots: seq<Slot>, contents: seq<Bytes>,
                         tree: map<Key, Object>)
    requires SlotsMatch(entries, slots) && Indexed(entries, slots) && PlacesDiffer(nameKey, entries, slots)
    requires Fits(slots, contents) && StagedSoFar(nameKey, entries, |entries|, tree)
    ensures var area := Written(nameKey, entries, slots, contents);
      && (forall key :: key in area ==> key in tree && tree[key].RegularFile? && tree[key].byteLen == |area[key]|)
      && (forall key :: key in tree && tree[key] != Directory ==> key in area)
  {
    WrittenHolds(nameKey, entries, slots, contents);
    hide Written, KeyOf, DirectoryKey;
    var area := Written(nameKey, entries, slots, contents);
    forall key | key in area
      ensures key in tree && tree[key].RegularFile? && tree[key].byteLen == |area[key]|
    {
      var i :| 0 <= i < |slots| && PlaceOf(nameKey, entries, slots[i]) == key;
      var k := slots[i].entryIndex;
      assert KeyOf(nameKey, entries[k].path) == key;
    }
    forall key | key in tree && tree[key] != Directory
      ensures key in area
    {
      assert key in tree.Keys;
      var k :| 0 <= k < |entries| && entries[k].kind == FileEntry && KeyOf(nameKey, entries[k].path) == key;
      var i :| 0 <= i < |slots| && slots[i].entryIndex == k;
      assert PlaceOf(nameKey, entries, slots[i]) == key;
    }
  }

  // ----- and where that is in the source -----

  /** A source path, in the form in which the receiver's filesystem compares names. */
  function SourcePlace(nameKey: string -> string, item: Item): Key { MapNames(nameKey, item.parts) }

  /**
   * The area holds exactly the source's files: at each file's own path the bytes read from that
   * file, and nothing anywhere else.
   */
  ghost predicate HoldsTree(nameKey: string -> string, items: seq<Item>, files: seq<LiveFile>, views: seq<FileView>,
                            area: map<Key, Bytes>)
    requires |files| == |views|
  {
    && (forall k :: 0 <= k < |items| && items[k].kind == FileEntry ==>
          && SourcePlace(nameKey, items[k]) in area
          && exists i :: 0 <= i < |files| && files[i].slot.entryIndex == k
                         && area[SourcePlace(nameKey, items[k])] == Read(files[i], views[i]))
    && (forall key :: key in area ==>
          exists k :: 0 <= k < |items| && items[k].kind == FileEntry && SourcePlace(nameKey, items[k]) == key)
  }

  lemma EntryPlaces(nameKey: string -> string, items: seq<Item>, k: nat)
    requires ProperItems(items) && k < |items|
    ensures KeyOf(nameKey, Entries(items)[k].path) == SourcePlace(nameKey, items[k])
        && Entries(items)[k].kind == items[k].kind
  {
    hide ProperItem, EntryOk;
    ProperEntryIsOk(items[k]);
  }

  lemma FileIsAtItsPath(nameKey: string -> string, items: seq<Item>, files: seq<LiveFile>, views: seq<FileView>, k: nat)
    returns (i: nat)
    requires |files| == |views| && ProperItems(items) && SlotsMatch(Entries(items), SlotsOf(files))
    requires Indexed(Entries(items), SlotsOf(files)) && PlacesDiffer(nameKey, Entries(items), SlotsOf(files))
    requires k < |items| && items[k].kind == FileEntry
    ensures var area := Written(nameKey, Entries(items), SlotsOf(files), ContentsOf(files, views));
      && i < |files| && files[i].slot.entryIndex == k && SourcePlace(nameKey, items[k]) in area
      && area[SourcePlace(nameKey, items[k])] == Read(files[i], views[i])
  {
    var entries, slots, contents := Entries(items), SlotsOf(files), ContentsOf(files, views);
    EntryPlaces(nameKey, items, k);
    i :| 0 <= i < |slots| && slots[i].entryIndex == k;
    assert PlaceOf(nameKey, entries, slots[i]) == SourcePlace(nameKey, items[k]);
    WrittenHolds(nameKey, entries, slots, contents);
    hide Written, ProperItems, PlacesDiffer, SlotsMatch, Indexed, PlaceOf, SourcePlace, Read, EntryOf;
    assert contents[i] == Read(files[i], views[i]);
  }

  lemma EveryPlaceIsAFile(nameKey: string -> string, items: seq<Item>, slots: seq<Slot>, contents: seq<Bytes>, key: Key)
    returns (k: nat)
    requires |slots| == |contents| && ProperItems(items) && SlotsMatch(Entries(items), slots)
    requires Indexed(Entries(items), slots) && PlacesDiffer(nameKey, Entries(items), slots)
    requires key in Written(nameKey, Entries(items), slots, contents)
    ensures k < |items| && items[k].kind == FileEntry && SourcePlace(nameKey, items[k]) == key
  {
    hide Written, ProperItems, KeyOf, EntryOf, SourcePlace;
    WrittenHolds(nameKey, Entries(items), slots, contents);
    var i :| 0 <= i < |slots| && PlaceOf(nameKey, Entries(items), slots[i]) == key;
    k := slots[i].entryIndex;
    EntryPlaces(nameKey, items, k);
  }

  lemma WrittenTreeHolds(nameKey: string -> string, items: seq<Item>, files: seq<LiveFile>, views: seq<FileView>)
    requires |files| == |views| && ProperItems(items) && SlotsMatch(Entries(items), SlotsOf(files))
    requires Indexed(Entries(items), SlotsOf(files)) && PlacesDiffer(nameKey, Entries(items), SlotsOf(files))
    ensures HoldsTree(nameKey, items, files, views,
                      Written(nameKey, Entries(items), SlotsOf(files), ContentsOf(files, views)))
  {
    hide Written, ProperItems, EntryOf, SourcePlace, Read, PlacesDiffer, SlotsMatch, Indexed;
    var area := Written(nameKey, Entries(items), SlotsOf(files), ContentsOf(files, views));
    forall k | 0 <= k < |items| && items[k].kind == FileEntry
      ensures && SourcePlace(nameKey, items[k]) in area
              && exists i :: 0 <= i < |files| && files[i].slot.entryIndex == k
                             && area[SourcePlace(nameKey, items[k])] == Read(files[i], views[i])
    {
      var i := FileIsAtItsPath(nameKey, items, files, views, k);
    }
    forall key | key in area
      ensures exists k :: 0 <= k < |items| && items[k].kind == FileEntry && SourcePlace(nameKey, items[k]) == key
    {
      var k := EveryPlaceIsAFile(nameKey, items, SlotsOf(files), ContentsOf(files, views), key);
    }
  }

  /** A folder plan's manifest lists the entries of the tree the walk saw. */
  lemma PlannedEntriesAreItems(c: Codec, t: Tools, req: RequestId, record: OfferRecord, root: Child, plan: SourcePlan)
    requires IsPlan(c, t, req, record, root, plan) && record.descriptor.FolderOffer?
    ensures Tidy(root).node.FolderNode?
    ensures var items := Items(Tidy(root).node.children, []); plan.manifest == Entries(items) && ProperItems(items)
  {
    var seen := Tidy(root);
    hide FetchChildren, MetadataBytes, Items, ProperItems, Spells, Tidy;
    NoNames();
    hide Join;
    var bytes := RootBytes(seen).value;
    WalkSpellsItems(t.sha, seen.node.children, [], StartOf(bytes));
    SpelledFromStart(bytes, FetchChildren(t.sha, seen.node.children, "", StartOf(bytes)).value,
      Items(seen.node.children, []));
  }

  /**
   * The whole transfer, path by path: what an admitted receiver stages of an unchanged folder without
   * clashing siblings, once written to the files that staging left, is the folder: every file's own
   * bytes at its own path and nothing else, on case-sensitive and case-insensitive filesystems.
   */
  lemma UnchangedTreeArrivesByPath(c: Codec, t: Tools, nameKey: string -> string, req: RequestId, offer: OfferId,
                                   record: OfferRecord, root: Child, plan: SourcePlan, life: SourceLife, rest: Bytes)
    requires Lawful(c) && IsDigest(t.sha) && FoldLaw(t.fold) && NoCoarser(nameKey, t.fold)
    requires IsPlan(c, t, req, record, root, plan) && plan.manifest != [] && UnclashingRoot(t.fold, Tidy(root))
    requires ValidDescriptor(record.descriptor) && record.descriptor.FolderOffer?
    requires StandsStill(c, t, req, record, root, plan, life)
    ensures Tidy(root).node.FolderNode?
    ensures |plan.manifest| <= MAX_MANIFEST_ENTRIES && SlotsOf(plan.files) == FileSlots(plan.manifest)
    ensures Indexed(plan.manifest, FileSlots(plan.manifest))
        && PlacesDiffer(nameKey, plan.manifest, FileSlots(plan.manifest))
    ensures var sent := Serve(t.sha, req, plan, FetchAdmission(req, AdmissionCode.Accepted), life);
      var contents := ContentsOf(plan.files, life.views);
      && Sendable(c, sent)
      && Receive(c, t.sha, req, ManifestShaOf(plan), FileSlots(plan.manifest), Render(c, sent) + rest)
         == Staged(contents, rest)
      && HoldsTree(nameKey, Items(Tidy(root).node.children, []), plan.files, life.views,
                   Written(nameKey, plan.manifest, FileSlots(plan.manifest), contents))
  {
    UnchangedTreeArrives(c, t, nameKey, req, offer, record, root, plan, life, rest);
    PlannedManifestPasses(c, t, req, record, root, plan);
    PlannedEntriesAreItems(c, t, req, record, root, plan);
    assert |plan.manifest| <= U32_MAX && |plan.files| == |life.views|;
    hide *;
    FileSlotsMatch(plan.manifest);
    CheckedPlacesDiffer(nameKey, t.fold, plan.manifest, SlotsOf(plan.files));
    WrittenTreeHolds(nameKey, Items(Tidy(root).node.children, []), plan.files, life.views);
  }
}
