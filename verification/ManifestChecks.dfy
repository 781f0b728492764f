/** The receiver's check of a reassembled manifest against the header and the offer's descriptor. */
module ManifestChecks {
  import opened Prelude
  import opened Utf8
  import opened Outcomes
  import opened Wire
  import opened Paths
  import opened PayloadReceiver

  /** What the check takes from elsewhere: lower-casing, SHA-256 and the JSON text of a list of entries. */
  datatype Tools = Tools(fold: string -> string, sha: Sha, json: seq<ManifestEntry> -> Bytes)

  // ----- what is acceptable -----

  predicate PathOk(e: ManifestEntry) {
    && ByteLen(e.path) <= MAX_PATH_BYTES
    && (if e.path == "" then e.kind == FileEntry else ValidRelativePath(e.path))
  }

  predicate EntryOk(e: ManifestEntry) {
    && PathOk(e)
    && (if e.kind == FileEntry then e.byteLen <= MAX_FILE_BYTES else e.byteLen == 0)
  }

  predicate EntriesOk(entries: seq<ManifestEntry>) { forall i :: 0 <= i < |entries| ==> EntryOk(entries[i]) }

  /** No two paths are the same up to case. */
  predicate Distinct(fold: string -> string, entries: seq<ManifestEntry>) {
    forall i, j :: 0 <= i < j < |entries| ==> fold(entries[i].path) != fold(entries[j].path)
  }

  predicate Declares(fold: string -> string, entries: seq<ManifestEntry>, kind: EntryKind, folded: string) {
    exists j :: 0 <= j < |entries| && entries[j].kind == kind && fold(entries[j].path) == folded
  }

  predicate ParentsDeclared(fold: string -> string, entries: seq<ManifestEntry>, path: string) {
    var parts := Split(fold(path));
    forall k :: 1 <= k < |parts| ==> Declares(fold, entries, DirectoryEntry, Join(parts[..k]))
  }

  /** Every proper ancestor of every entry is a declared directory. */
  predicate Rooted(fold: string -> string, entries: seq<ManifestEntry>) {
    forall i :: 0 <= i < |entries| && entries[i].path != "" ==> ParentsDeclared(fold, entries, entries[i].path)
  }

  function CountKind(entries: seq<ManifestEntry>, kind: EntryKind): (n: nat)
    ensures n <= |entries|
  {
    if entries == [] then 0
    else CountKind(entries[..|entries| - 1], kind) + (if entries[|entries| - 1].kind == kind then 1 else 0)
  }

  predicate Describes(d: Descriptor, entries: seq<ManifestEntry>) {
    match d
    case TextOffer(_) => entries == []
    case FileOffer(_, bytes) =>
      |entries| == 1 && entries[0].kind == FileEntry && entries[0].path == "" && entries[0].byteLen == bytes
    case FolderOffer(_, bytes, count, files, directories) =>
      && FileBytes(entries) == bytes && |entries| == count
      && CountKind(entries, FileEntry) == files && CountKind(entries, DirectoryEntry) == directories
  }

  /** The digest the header announced is the entries', and the end frame repeats it with the right counts. */
  predicate Sealed(t: Tools, header: Message, entries: seq<ManifestEntry>, end: Option<Message>)
    requires header.FetchHeader?
  {
    header.headerSha.Some? ==>
      var digest := header.headerSha.value;
      && t.sha(t.json(entries)) == digest
      && end.Some? && end.value.ManifestEnd?
      && end.value.entryCount == |entries| && end.value.fileCount == CountKind(entries, FileEntry)
      && end.value.totalBytes == FileBytes(entries) && end.value.manifestSha == digest
  }

  predicate Acceptable(t: Tools, header: Message, entries: seq<ManifestEntry>, end: Option<Message>)
    requires header.FetchHeader?
  {
    && |entries| == header.manifestEntries
    && EntriesOk(entries) && Distinct(t.fold, entries) && Rooted(t.fold, entries)
    && FileBytes(entries) <= MAX_TRANSFER_BYTES
    && Describes(header.descriptor, entries)
    && Sealed(t, header, entries, end)
  }

  // ----- the check as it runs -----

  function FoldedPaths(fold: string -> string, entries: seq<ManifestEntry>, kind: EntryKind): set<string> {
    set e | e in entries && e.kind == kind :: fold(e.path)
  }

  lemma DistinctGrows(fold: string -> string, entries: seq<ManifestEntry>, i: nat)
    requires i < |entries| && Distinct(fold, entries[..i])
    ensures Distinct(fold, entries[..i + 1]) <==>
            && fold(entries[i].path) !in FoldedPaths(fold, entries[..i], FileEntry)
            && fold(entries[i].path) !in FoldedPaths(fold, entries[..i], DirectoryEntry)
  {
    var before, after := entries[..i], entries[..i + 1];
    assert forall j :: 0 <= j < i ==> after[j] == before[j] && before[j] in before;
    var folded := fold(entries[i].path);
    if folded in FoldedPaths(fold, before, FileEntry) + FoldedPaths(fold, before, DirectoryEntry) {
      var e :| e in before && fold(e.path) == folded;
      var j :| 0 <= j < |before| && before[j] == e;
      assert fold(after[j].path) == fold(after[i].path);
    }
  }

  lemma FoldedPathsGrow(fold: string -> string, entries: seq<ManifestEntry>, i: nat, kind: EntryKind)
    requires i < |entries|
    ensures FoldedPaths(fold, entries[..i + 1], kind)
         == FoldedPaths(fold, entries[..i], kind) + (if entries[i].kind == kind then {fold(entries[i].path)} else {})
  {
    assert entries[..i + 1] == entries[..i] + [entries[i]];
  }

  lemma PrefixesAreDistinct(fold: string -> string, entries: seq<ManifestEntry>, i: nat)
    requires i <= |entries| && Distinct(fold, entries)
    ensures Distinct(fold, entries[..i])
  {
    assert forall j :: 0 <= j < i ==> entries[..i][j] == entries[j];
  }

  lemma {:induction false} PrefixBytes(entries: seq<ManifestEntry>, i: nat)
    requires i <= |entries|
    ensures FileBytes(entries[..i]) <= FileBytes(entries)
    decreases |entries| - i
  {
    if i < |entries| {
      PrefixBytes(entries, i + 1);
      assert entries[..i + 1][..i] == entries[..i];
    } else {
      assert entries[..i] == entries;
    }
  }

  /** The running sets and totals after some entries. */
  datatype Scan = Scan(directories: set<string>, files: set<string>, fileCount: nat, directoryCount: nat,
      totalBytes: nat)

  function ScanOf(fold: string -> string, entries: seq<ManifestEntry>): Scan {
    Scan(FoldedPaths(fold, entries, DirectoryEntry), FoldedPaths(fold, entries, FileEntry),
         CountKind(entries, FileEntry), CountKind(entries, DirectoryEntry), FileBytes(entries))
  }

  predicate ScanPasses(fold: string -> string, entries: seq<ManifestEntry>) {
    EntriesOk(entries) && Distinct(fold, entries) && FileBytes(entries) <= U64_MAX
  }

  /** Everything the scan looks at but the sizes of files. */
  predicate Structured(fold: string -> string, entries: seq<ManifestEntry>) {
    && (forall i :: 0 <= i < |entries| ==>
          PathOk(entries[i]) && (entries[i].kind == DirectoryEntry ==> entries[i].byteLen == 0))
    && Distinct(fold, entries)
  }

  /** No file is too large for one. */
  predicate SizesOk(entries: seq<ManifestEntry>) {
    forall i :: 0 <= i < |entries| && entries[i].kind == FileEntry ==> entries[i].byteLen <= MAX_FILE_BYTES
  }

  lemma StructuredEntry(fold: string -> string, entries: seq<ManifestEntry>, i: nat)
    requires i < |entries| && ScanPasses(fold, entries[..i])
    ensures Structured(fold, entries) ==>
              && PathOk(entries[i]) && (entries[i].kind == DirectoryEntry ==> entries[i].byteLen == 0)
              && fold(entries[i].path) !in FoldedPaths(fold, entries[..i], FileEntry)
              && fold(entries[i].path) !in FoldedPaths(fold, entries[..i], DirectoryEntry)
    ensures SizesOk(entries) && entries[i].kind == FileEntry ==> entries[i].byteLen <= MAX_FILE_BYTES
  {
    hide PathOk, EntriesOk, FoldedPaths, FileBytes;
    DistinctGrows(fold, entries, i);
    if Distinct(fold, entries) { PrefixesAreDistinct(fold, entries, i + 1); }
    hide Distinct;
  }

  lemma ScanOfNothing(fold: string -> string)
    ensures ScanOf(fold, []) == Scan({}, {}, 0, 0, 0) && ScanPasses(fold, [])
  {}

  lemma EntryOkIff(e: ManifestEntry)
    ensures EntryOk(e) <==> PathOk(e) && if e.kind == FileEntry then e.byteLen <= MAX_FILE_BYTES else e.byteLen == 0
  {}

  lemma ScanOneMore(fold: string -> string, entries: seq<ManifestEntry>, i: nat)
    requires i < |entries|
    ensures var before, after, e := ScanOf(fold, entries[..i]), ScanOf(fold, entries[..i + 1]), entries[i];
      if e.kind == FileEntry then
        after == before.(files := before.files + {fold(e.path)}, fileCount := before.fileCount + 1,
                         totalBytes := before.totalBytes + e.byteLen)
      else
        after == before.(directories := before.directories
          + {fold(e.path)}, directoryCount := before.directoryCount + 1)
  {
    FoldedPathsGrow(fold, entries, i, FileEntry);
    FoldedPathsGrow(fold, entries, i, DirectoryEntry);
    assert entries[..i + 1][..i] == entries[..i];
  }

  lemma ScanSets(fold: string -> string, entries: seq<ManifestEntry>)
    ensures ScanOf(fold, entries).files == FoldedPaths(fold, entries, FileEntry)
    ensures ScanOf(fold, entries).directories == FoldedPaths(fold, entries, DirectoryEntry)
  {}

  lemma EntriesGrow(entries: seq<ManifestEntry>, i: nat)
    requires i < |entries|
    ensures EntriesOk(entries[..i + 1]) <==> EntriesOk(entries[..i]) && EntryOk(entries[i])
    ensures EntriesOk(entries) ==> EntryOk(entries[i])
  {
    hide EntryOk;
    assert entries[..i + 1] == entries[..i] + [entries[i]];
  }

  /** One more entry passes, or no list that begins so does. */
  lemma ScanGoesOn(fold: string -> string, entries: seq<ManifestEntry>, i: nat)
    requires i < |entries| && ScanPasses(fold, entries[..i])
    ensures var before, e := ScanOf(fold, entries[..i]), entries[i];
      var passes := EntryOk(e) && fold(e.path) !in before.files + before.directories
                    && ScanOf(fold, entries[..i + 1]).totalBytes <= U64_MAX;
      && (passes ==> ScanPasses(fold, entries[..i + 1]))
      && (!passes ==> !ScanPasses(fold, entries))
    ensures ScanOf(fold, entries[..i + 1]).totalBytes <= FileBytes(entries)
  {
    EntriesGrow(entries, i);
    hide EntryOk, EntriesOk, Distinct, FoldedPaths, FileBytes, CountKind;
    DistinctGrows(fold, entries, i);
    PrefixBytes(entries, i + 1);
    if Distinct(fold, entries) { PrefixesAreDistinct(fold, entries, i + 1); }
  }

  method ScanEntries(fold: string -> string, entries: seq<ManifestEntry>) returns (r: Result<Scan, AdmissionCode>)
    requires |entries| <= U32_MAX
    ensures r.Success? <==> ScanPasses(fold, entries)
    ensures r.Success? ==> r.value == ScanOf(fold, entries)
    ensures r == Failure(TooLarge) ==> FileBytes(entries) > MAX_FILE_BYTES
    ensures r.Success? || r == Failure(TooLarge) || r == Failure(InvalidManifest)
    // It is the sizes that are told apart from everything else.
    ensures r == Failure(TooLarge) ==> !SizesOk(entries) || FileBytes(entries) > U64_MAX
    ensures r == Failure(InvalidManifest) ==> !Structured(fold, entries)
  {
    hide *;
    var seen, directories, files := {}, {}, {};
    var fileCount: U32, directoryCount: U32, totalBytes: U64 := 0, 0, 0;
    ScanOfNothing(fold);
    for i := 0 to |entries|
      invariant ScanPasses(fold, entries[..i]) && seen == files + directories
      invariant fileCount + directoryCount == i
      invariant ScanOf(fold, entries[..i]) == Scan(directories, files, fileCount, directoryCount, totalBytes)
    {
      var e := entries[i];
      ScanOneMore(fold, entries, i);
      ScanGoesOn(fold, entries, i);
      StructuredEntry(fold, entries, i);
      ScanSets(fold, entries[..i]);
      EntryOkIff(e);
      if !PathOk(e) { return Failure(InvalidManifest); }
      var folded := fold(e.path);
      if folded in seen { return Failure(InvalidManifest); }
      seen := seen + {folded};
      match e.kind {
        case FileEntry =>
          if e.byteLen > MAX_FILE_BYTES { return Failure(TooLarge); }
          fileCount, files := fileCount + 1, files + {folded};
          if totalBytes + e.byteLen > U64_MAX { return Failure(TooLarge); }
          totalBytes := totalBytes + e.byteLen;
        case DirectoryEntry =>
          if e.byteLen != 0 { return Failure(InvalidManifest); }
          directoryCount, directories := directoryCount + 1, directories + {folded};
      }
    }
    assert entries[..|entries|] == entries;
    r := Success(Scan(directories, files, fileCount, directoryCount, totalBytes));
  }

  lemma ScanPassesMeans(fold: string -> string, entries: seq<ManifestEntry>)
    ensures ScanPasses(fold, entries) ==> SizesOk(entries)
  {
    hide PathOk, Distinct;
  }

  lemma DeclaredIffFolded(fold: string -> string, entries: seq<ManifestEntry>, kind: EntryKind, folded: string)
    ensures Declares(fold, entries, kind, folded) <==> folded in FoldedPaths(fold, entries, kind)
  {
    if folded in FoldedPaths(fold, entries, kind) {
      var e :| e in entries && e.kind == kind && fold(e.path) == folded;
      var j :| 0 <= j < |entries| && entries[j] == e;
    }
  }

  /** With distinct paths no declared directory is a file too: the look-up among files never decides. */
  lemma NoFileIsADirectory(fold: string -> string, entries: seq<ManifestEntry>, folded: string)
    requires Distinct(fold, entries) && Declares(fold, entries, DirectoryEntry, folded)
    ensures !Declares(fold, entries, FileEntry, folded)
  {}

  method CheckParents(fold: string -> string, entries: seq<ManifestEntry>, directories: set<string>, files: set<string>)
    returns (ok: bool)
    requires Distinct(fold, entries)
    requires directories == FoldedPaths(fold, entries, DirectoryEntry) && files == FoldedPaths(fold, entries, FileEntry)
    ensures ok <==> Rooted(fold, entries)
  {
    hide Split, Join, Distinct, Declares, FoldedPaths;
    for i := 0 to |entries|
      invariant forall j :: 0 <= j < i && entries[j].path != "" ==> ParentsDeclared(fold, entries, entries[j].path)
    {
      if entries[i].path != "" {
        var components := Split(fold(entries[i].path));
        for end := 1 to |components|
          invariant forall k :: 1 <= k < end ==> Declares(fold, entries, DirectoryEntry, Join(components[..k]))
        {
          var parent := Join(components[..end]);
          DeclaredIffFolded(fold, entries, DirectoryEntry, parent);
          DeclaredIffFolded(fold, entries, FileEntry, parent);
          if Declares(fold, entries, DirectoryEntry, parent) { NoFileIsADirectory(fold, entries, parent); }
          if parent in files { return false; }
          if parent !in directories { return false; }
        }
      }
    }
    ok := true;
  }

  method MatchDescriptor(d: Descriptor, entries: seq<ManifestEntry>, scan: Scan) returns (ok: bool)
    requires scan.totalBytes == FileBytes(entries)
    requires scan.fileCount == CountKind(entries, FileEntry)
        && scan.directoryCount == CountKind(entries, DirectoryEntry)
    ensures ok <==> Describes(d, entries)
  {
    assert |entries| == 1 ==> entries[..0] == [];
    match d
    case TextOffer(_) =>
      ok := |entries| == 0;
    case FileOffer(_, expected) =>
      ok := |entries| == 1 && entries[0].kind == FileEntry && entries[0].path == "" && scan.totalBytes == expected;
    case FolderOffer(_, expected, count, files, directories) =>
      ok := scan.totalBytes == expected && scan.fileCount == files && scan.directoryCount == directories
        && |entries| == count;
  }

  /** `validate_manifest` accepts exactly the acceptable manifests. */
  method ValidateManifest(t: Tools, header: Message, entries: seq<ManifestEntry>, end: Option<Message>)
    returns (code: Option<AdmissionCode>)
    requires header.FetchHeader? && (end.Some? ==> end.value.ManifestEnd?)
    ensures code.None? <==> Acceptable(t, header, entries, end)
    ensures code == Some(TooLarge) ==> FileBytes(entries) > MAX_FILE_BYTES
    ensures code.None? || code == Some(TooLarge) || code == Some(InvalidManifest)
    ensures code == Some(TooLarge) ==> !SizesOk(entries) || FileBytes(entries) > MAX_TRANSFER_BYTES
    ensures |entries| == header.manifestEntries && Structured(t.fold, entries) && Rooted(t.fold, entries) ==>
              (!SizesOk(entries) || FileBytes(entries) > MAX_TRANSFER_BYTES ==> code == Some(TooLarge))
  {
    ScanPassesMeans(t.fold, entries);
    hide EntriesOk, Distinct, Rooted, FileBytes, Describes, CountKind, FoldedPaths, Structured, SizesOk;
    if |entries| != header.manifestEntries { return Some(InvalidManifest); }
    var scanned := ScanEntries(t.fold, entries);
    if scanned.Failure? { return Some(scanned.error); }
    var scan := scanned.value;
    var rooted := CheckParents(t.fold, entries, scan.directories, scan.files);
    if !rooted { return Some(InvalidManifest); }
    if scan.totalBytes > MAX_TRANSFER_BYTES { return Some(TooLarge); }
    var described := MatchDescriptor(header.descriptor, entries, scan);
    if !described { return Some(InvalidManifest); }
    code := None;
    if header.headerSha.Some? {
      if t.sha(t.json(entries)) != header.headerSha.value || end.None? { return Some(InvalidManifest); }
      if end.value.entryCount != |entries| || end.value.fileCount != scan.fileCount
        || end.value.totalBytes != scan.totalBytes
         || end.value.manifestSha != header.headerSha.value {
        return Some(InvalidManifest);
      }
    }
  }

  // ----- what acceptance says about the offer -----

  /** Where the entries of one kind stand. */
  function Places(entries: seq<ManifestEntry>, kind: EntryKind): set<nat> {
    set i: nat | i < |entries| && entries[i].kind == kind
  }

  lemma {:induction false} CountIsCardinality(entries: seq<ManifestEntry>, kind: EntryKind)
    ensures CountKind(entries, kind) == |Places(entries, kind)|
  {
    if entries == [] {
      assert Places(entries, kind) == {};
    } else {
      var n, most := |entries| - 1, entries[..|entries| - 1];
      CountIsCardinality(most, kind);
      assert Places(entries, kind) == Places(most, kind) + (if entries[n].kind == kind then {n} else {});
    }
  }

  /**
   * An accepted manifest is what the header announced and the card promised: as many entries, files
   * and folders, as many bytes, no file over 8 GiB, no more than 16 GiB in all, and both frames name
   * the digest of just this manifest.
   */
  lemma AcceptedMatchesOffer(t: Tools, header: Message, entries: seq<ManifestEntry>, end: Option<Message>)
    requires header.FetchHeader? && Acceptable(t, header, entries, end)
    ensures |entries| == header.manifestEntries && FileBytes(entries) <= 0x4_0000_0000
    ensures forall i :: 0 <= i < |entries| && entries[i].kind == FileEntry ==> entries[i].byteLen <= 0x2_0000_0000
    ensures forall i :: 0 <= i < |entries| && entries[i].kind == DirectoryEntry ==>
              entries[i].byteLen == 0 && entries[i].path != ""
    ensures match header.descriptor
      case TextOffer(_) => entries == []
      case FileOffer(_, bytes) => entries == [ManifestEntry("", FileEntry, bytes)]
      case FolderOffer(_, bytes, count, files, directories) =>
        && |entries| == count && FileBytes(entries) == bytes
        && |Places(entries, FileEntry)| == files && |Places(entries, DirectoryEntry)| == directories
    ensures header.headerSha.Some? ==>
      && end.Some? && end.value.ManifestEnd? && header.headerSha.value == t.sha(t.json(entries))
      && end.value.manifestSha == t.sha(t.json(entries)) && end.value.entryCount == |entries|
      && end.value.fileCount == |Places(entries, FileEntry)| && end.value.totalBytes == FileBytes(entries)
  {
    CountIsCardinality(entries, FileEntry);
    CountIsCardinality(entries, DirectoryEntry);
    assert MAX_FILE_BYTES == 0x2_0000_0000 && MAX_TRANSFER_BYTES == 0x4_0000_0000;
    if header.descriptor.FileOffer? { assert entries == [entries[0]]; }
    hide CountKind, Places, FileBytes, Rooted, Distinct, ByteLen, ValidRelativePath;
  }
}
