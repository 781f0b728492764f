/** What a metadata commitment binds: the bytes it hashes determine the whole tree. */
module Commitments {
  import opened Prelude
  import opened Utf8
  import opened PortableNames
  import opened Wire
  import opened Paths
  import opened PayloadReceiver
  import opened Trees
  import opened Listings
  import opened TreeManifests
  import opened Plans

  // ----- fields read back -----

  lemma SameFront<T>(a: seq<T>, x: seq<T>, b: seq<T>, y: seq<T>)
    requires |a| == |b| && a + x == b + y
    ensures a == b && x == y
  {
    assert a == (a + x)[..|a|] && b == (b + y)[..|b|];
    assert x == (a + x)[|a|..] && y == (b + y)[|b|..];
  }

  function Power256(width: nat): nat { if width == 0 then 1 else 256 * Power256(width - 1) }

  lemma {:induction false} LittleEndianReadsBack(a: nat, b: nat, width: nat)
    requires a < Power256(width) && b < Power256(width) && LittleEndian(a, width) == LittleEndian(b, width)
    ensures a == b
  {
    if width > 0 {
      var p, q := LittleEndian(a, width), LittleEndian(b, width);
      assert p[0] == a % 256 && q[0] == b % 256 && p[1..] == LittleEndian(a / 256, width - 1);
      assert q[1..] == LittleEndian(b / 256, width - 1);
      LittleEndianReadsBack(a / 256, b / 256, width - 1);
    }
  }

  lemma {:induction false} LittleEndianWidth(n: nat, width: nat)
    ensures |LittleEndian(n, width)| == width
  {
    if width > 0 { LittleEndianWidth(n / 256, width - 1); }
  }

  lemma FixedWidthsSuffice()
    ensures U64_MAX < Power256(8) && U32_MAX < Power256(4)
  {
    assert Power256(2) == 0x1_0000;
    assert Power256(4) == 0x1_0000 * Power256(2);
    assert Power256(6) == 0x1_0000 * Power256(4);
    assert Power256(8) == 0x1_0000 * Power256(6);
  }

  lemma {:induction false} NoZeroByte(s: string)
    requires forall i :: 0 <= i < |s| ==> s[i] as int != 0
    ensures 0 !in Encode(s)
  {
    if s != [] {
      NoZeroByte(s[1..]);
      assert 0 !in EncodeChar(s[0]);
    }
  }

  /** A zero byte ends a field that has none inside. */
  lemma ZeroEndsField(p: Bytes, x: Bytes, q: Bytes, y: Bytes)
    requires 0 !in p && 0 !in q && p + ([0] + x) == q + ([0] + y)
    ensures p == q && x == y
  {
    var whole := p + ([0] + x);
    assert forall i :: 0 <= i < |p| ==> whole[i] == p[i] && p[i] in p;
    assert forall i :: 0 <= i < |q| ==> whole[i] == q[i] && q[i] in q;
    assert whole[|p|] == 0 && whole[|q|] == 0;
    assert |p| == |q|;
    SameFront(p, [0] + x, q, [0] + y);
    SameFront([0], x, [0], y);
  }

  // ----- one record -----

  function Clock(modified: (U64, U32)): Bytes { LittleEndian(modified.0, 8) + LittleEndian(modified.1, 4) }

  /** The part of a record behind the name: its width depends on the identity's only. */
  function Tail(m: Metadata, isFile: bool, isFolder: bool): Bytes
    requires m.modified.Some?
  {
    m.identity + (LittleEndian(m.length, 8)
      + ([Flag(isFile), Flag(isFolder), Flag(m.readonly)] + Clock(m.modified.value)))
  }

  lemma RecordShape(kind: string, name: string, m: Metadata, isFile: bool, isFolder: bool)
    requires m.modified.Some?
    ensures MetadataBytes(kind, name, m, isFile, isFolder)
         == Some(Encode(kind) + ([0] + (Encode(name) + ([0] + Tail(m, isFile, isFolder)))))
  {
    hide Encode, LittleEndian, Flag;
    var (seconds, nanos) := m.modified.value;
    var k, n := Encode(kind), Encode(name);
    var l, s, t := LittleEndian(m.length, 8), LittleEndian(seconds, 8), LittleEndian(nanos, 4);
    var f, d, r := Flag(isFile), Flag(isFolder), Flag(m.readonly);
    assert k + [0] + n + [0] + m.identity + l + [f, d] + [r] + s + t
        == k + ([0] + (n + ([0] + (m.identity + (l + ([f, d, r] + (s + t)))))));
  }

  lemma ClockReadsBack(a: (U64, U32), x: Bytes, b: (U64, U32), y: Bytes)
    requires Clock(a) + x == Clock(b) + y
    ensures a == b && x == y
  {
    hide LittleEndian;
    LittleEndianWidth(a.0, 8);
    LittleEndianWidth(b.0, 8);
    LittleEndianWidth(a.1, 4);
    LittleEndianWidth(b.1, 4);
    assert |Clock(a)| == |Clock(b)|;
    SameFront(Clock(a), x, Clock(b), y);
    SameFront(LittleEndian(a.0, 8), LittleEndian(a.1, 4), LittleEndian(b.0, 8), LittleEndian(b.1, 4));
    FixedWidthsSuffice();
    hide Power256;
    LittleEndianReadsBack(a.0, b.0, 8);
    LittleEndianReadsBack(a.1, b.1, 4);
  }

  lemma TailReadsBack(m: Metadata, f: bool, d: bool, x: Bytes, n: Metadata, g: bool, e: bool, y: Bytes)
    requires m.modified.Some? && n.modified.Some? && |m.identity| == |n.identity|
    requires Tail(m, f, d) + x == Tail(n, g, e) + y
    ensures m == n && f == g && d == e && x == y
  {
    hide LittleEndian, Clock;
    var p, q := [Flag(f), Flag(d), Flag(m.readonly)], [Flag(g), Flag(e), Flag(n.readonly)];
    var u, v := Clock(m.modified.value), Clock(n.modified.value);
    assert Tail(m, f, d) + x == m.identity + (LittleEndian(m.length, 8) + (p + (u + x)));
    assert Tail(n, g, e) + y == n.identity + (LittleEndian(n.length, 8) + (q + (v + y)));
    SameFront(m.identity, LittleEndian(m.length, 8) + (p + (u + x)),
              n.identity, LittleEndian(n.length, 8) + (q + (v + y)));
    LittleEndianWidth(m.length, 8);
    LittleEndianWidth(n.length, 8);
    SameFront(LittleEndian(m.length, 8), p + (u + x), LittleEndian(n.length, 8), q + (v + y));
    SameFront(p, u + x, q, v + y);
    assert p[0] == q[0] && p[1] == q[1] && p[2] == q[2];
    ClockReadsBack(m.modified.value, x, n.modified.value, y);
    FixedWidthsSuffice();
    LittleEndianReadsBack(m.length, n.length, 8);
  }

  // ----- a list of records -----

  /** An entry whose record can be read back: plain names, a usable clock, an identity of the host's width. */
  predicate GoodItem(item: Item, width: nat) { WalkedItem(item) && |item.metadata.identity| == width }

  predicate WalkedItem(item: Item) { item.parts != [] && OfferNames(item.parts) && item.metadata.modified.Some? }

  predicate WalkedItems(items: seq<Item>) { forall i :: 0 <= i < |items| ==> WalkedItem(items[i]) }

  predicate GoodItems(items: seq<Item>, width: nat) { forall i :: 0 <= i < |items| ==> GoodItem(items[i], width) }

  function RecordOf(item: Item): Bytes {
    var bytes := MetadataBytes("entry", Join(item.parts), item.metadata, item.kind == FileEntry,
                               item.kind == DirectoryEntry);
    if bytes.Some? then bytes.value else []
  }

  function RecordsOf(items: seq<Item>): Bytes {
    if items == [] then [] else RecordOf(items[0]) + RecordsOf(items[1..])
  }

  lemma OfferNamesArePlain(parts: seq<string>)
    requires parts != [] && OfferNames(parts)
    ensures Split(Join(parts)) == parts && 0 !in Encode(Join(parts))
  {
    forall i | 0 <= i < |parts|
      ensures '/' !in parts[i] && '\0' !in parts[i]
    {
      assert OfferComponent(parts[i]);
      assert forall k :: 0 <= k < |parts[i]| ==> !IsForbidden(parts[i][k]);
    }
    hide OfferComponent, OfferNames;
    SplitOfJoin(parts);
    JoinAvoids(parts, '\0');
    assert forall i :: 0 <= i < |Join(parts)| ==> Join(parts)[i] in Join(parts);
    NoZeroByte(Join(parts));
  }

  lemma RecordReadsBack(a: Item, x: Bytes, b: Item, y: Bytes, width: nat)
    requires GoodItem(a, width) && GoodItem(b, width) && RecordOf(a) + x == RecordOf(b) + y
    ensures a == b && x == y
  {
    GoodItemFacts(a, x, width);
    GoodItemFacts(b, y, width);
    hide *;
    var p, q, s, t := Encode(Join(a.parts)), Encode(Join(b.parts)), TailOf(a), TailOf(b);
    SameFront(Tag(), p + ([0] + (s + x)), Tag(), q + ([0] + (t + y)));
    ZeroEndsField(p, s + x, q, t + y);
    EncodeIsInjective(Join(a.parts), Join(b.parts));
    TailOfReadsBack(a, x, b, y);
  }

  function Tag(): Bytes { Encode("entry") + [0] }

  function TailOf(item: Item): Bytes
    requires item.metadata.modified.Some?
  {
    Tail(item.metadata, item.kind == FileEntry, item.kind == DirectoryEntry)
  }

  lemma GoodItemFacts(item: Item, x: Bytes, width: nat)
    requires GoodItem(item, width)
    ensures item.metadata.modified.Some? && |item.metadata.identity| == width
    ensures Split(Join(item.parts)) == item.parts && 0 !in Encode(Join(item.parts))
    ensures RecordOf(item) + x == Tag() + (Encode(Join(item.parts)) + ([0] + (TailOf(item) + x)))
  {
    OfferNamesArePlain(item.parts);
    RecordShape("entry", Join(item.parts), item.metadata, item.kind == FileEntry, item.kind == DirectoryEntry);
    hide Encode, Join, Split, Tail, MetadataBytes, OfferNames;
    var e, p, s := Encode("entry"), Encode(Join(item.parts)), TailOf(item);
    assert RecordOf(item) == e + ([0] + (p + ([0] + s)));
    Regroup(e, [0], p, [0], s, x);
  }

  lemma Regroup<T>(a: seq<T>, b: seq<T>, c: seq<T>, d: seq<T>, e: seq<T>, f: seq<T>)
    ensures (a + (b + (c + (d + e)))) + f == (a + b) + (c + (d + (e + f)))
  {}

  lemma TailOfReadsBack(a: Item, x: Bytes, b: Item, y: Bytes)
    requires a.metadata.modified.Some? && b.metadata.modified.Some? && |a.metadata.identity| == |b.metadata.identity|
    requires TailOf(a) + x == TailOf(b) + y
    ensures a.metadata == b.metadata && a.kind == b.kind && x == y
  {
    TailReadsBack(a.metadata, a.kind == FileEntry, a.kind == DirectoryEntry, x,
                  b.metadata, b.kind == FileEntry, b.kind == DirectoryEntry, y);
  }

  lemma {:induction false} RecordsReadBack(a: seq<Item>, b: seq<Item>, width: nat)
    requires GoodItems(a, width) && GoodItems(b, width) && RecordsOf(a) == RecordsOf(b)
    ensures a == b
  {
    if a != [] { RecordIsNotEmpty(a[0], width); }
    if b != [] { RecordIsNotEmpty(b[0], width); }
    if a != [] && b != [] {
      hide RecordOf, GoodItem;
      RecordReadsBack(a[0], RecordsOf(a[1..]), b[0], RecordsOf(b[1..]), width);
      RecordsReadBack(a[1..], b[1..], width);
      assert a == [a[0]] + a[1..] && b == [b[0]] + b[1..];
    }
  }

  lemma RecordIsNotEmpty(item: Item, width: nat)
    requires GoodItem(item, width)
    ensures RecordOf(item) != []
  {
    RecordShape("entry", Join(item.parts), item.metadata, item.kind == FileEntry, item.kind == DirectoryEntry);
  }

  // ----- and from the list to the tree -----

  const AS_IS: string -> string := (s: string) => s

  /** What a directory listing guarantees: no two entries of one folder share a name. */
  predicate Listed(children: seq<Child>) { Unclashing(AS_IS, children) }

  predicate NoneBelow(items: seq<Item>, parts: seq<string>) { forall i :: 0 <= i < |items| ==> !Below(items[i], parts) }

  lemma HeadOfItems(children: seq<Child>, parts: seq<string>)
    requires children != [] && Regular(children)
    ensures Items(children, parts) != []
    ensures var child, head := children[0], Items(children, parts)[0];
      && (child.node.FileNode? || child.node.FolderNode?)
      && head == Item(parts + [child.name], if child.node.FileNode? then FileEntry else DirectoryEntry,
                      child.node.metadata)
      && (child.node.FileNode? ==> Items(children, parts) == [head] + Items(children[1..], parts))
      && (child.node.FolderNode? ==>
            Items(children, parts) == [head] + (Items(child.node.children, head.parts) + Items(children[1..], parts)))
  {
    var child := children[0];
    assert RegularChild(child);
    if child.node.FolderNode? {
      var head, inner, more := Item(parts + [child.name], DirectoryEntry, child.node.metadata),
                               Items(child.node.children, parts + [child.name]), Items(children[1..], parts);
      assert ([head] + inner) + more == [head] + (inner + more);
    }
  }

  /** The later siblings of a folder, and what follows its parent, are not inside it. */
  lemma SiblingsAreNotInside(child: Child, others: seq<Child>, parts: seq<string>, after: seq<Item>)
    requires !Named(AS_IS, others, AS_IS(child.name)) && NoneBelow(after, parts)
    ensures NoneBelow(Items(others, parts) + after, parts + [child.name])
  {
    var here, more := parts + [child.name], Items(others, parts);
    TreeIsBelow(others, parts);
    hide Items;
    forall i | 0 <= i < |more + after|
      ensures !Below((more + after)[i], here)
    {
      if i < |more| {
        assert (more + after)[i] == more[i] && Below(more[i], parts);
        var c :| 0 <= c < |others| && others[c].name == more[i].parts[|parts|];
        assert AS_IS(others[c].name) != AS_IS(child.name);
        assert |more[i].parts| > |here| ==> more[i].parts[..|here|][|parts|] != here[|parts|];
      } else {
        var item := after[i - |more|];
        assert (more + after)[i] == item && !Below(item, parts);
        assert here[..|parts|] == parts;
        assert |item.parts| > |here| ==> item.parts[..|here|][..|parts|] == item.parts[..|parts|];
      }
    }
  }

  lemma EmptyAgainstTree(b: seq<Child>, parts: seq<string>, x: seq<Item>, y: seq<Item>)
    requires Regular(b) && NoneBelow(x, parts) && x == Items(b, parts) + y
    ensures b == []
  {
    if b != [] {
      var items := Items(b, parts);
      assert items != [] ==> x[0] == items[0];
      HeadIsBelow(b, parts);
      assert false;
    }
  }

  lemma HeadIsBelow(children: seq<Child>, parts: seq<string>)
    requires children != [] && Regular(children)
    ensures Items(children, parts) != [] && Below(Items(children, parts)[0], parts)
  {
    HeadOfItems(children, parts);
  }

  lemma ListedParts(children: seq<Child>)
    requires children != [] && Regular(children) && Listed(children)
    ensures var child, others := children[0], children[1..];
      && Regular(others) && Listed(others) && !Named(AS_IS, others, AS_IS(child.name))
      && (child.node.FileNode?
        || (child.node.FolderNode? && Regular(child.node.children) && Listed(child.node.children)))
  {
    assert RegularChild(children[0]) && UnclashingChild(AS_IS, children[0]);
  }

  lemma SameHead(p: Item, m: seq<Item>, q: Item, n: seq<Item>)
    requires [p] + m == [q] + n
    ensures p == q && m == n
  {
    SameFront([p], m, [q], n);
    assert [p][0] == [q][0];
  }

  lemma SameLast(parts: seq<string>, a: string, b: string)
    requires parts + [a] == parts + [b]
    ensures a == b
  {
    assert (parts + [a])[|parts|] == a && (parts + [b])[|parts|] == b;
  }

  /** Two folders with the same list of entries are the same folder. */
  lemma {:induction false} ItemsDetermineTree(a: seq<Child>, b: seq<Child>, parts: seq<string>, x: seq<Item>,
      y: seq<Item>)
    requires Regular(a) && Regular(b) && Listed(a) && Listed(b) && NoneBelow(x, parts) && NoneBelow(y, parts)
    requires Items(a, parts) + x == Items(b, parts) + y
    ensures a == b && x == y
    decreases a
  {
    if a == [] {
      assert Items(a, parts) + x == x;
      EmptyAgainstTree(b, parts, x, y);
    } else if b == [] {
      assert Items(b, parts) + y == y;
      EmptyAgainstTree(a, parts, y, x);
    } else {
      hide *;
      HeadOfItems(a, parts);
      HeadOfItems(b, parts);
      ListedParts(a);
      ListedParts(b);
      var c, d := a[0], b[0];
      var g, h := Items(a, parts)[0], Items(b, parts)[0];
      var m, n := Items(a[1..], parts) + x, Items(b[1..], parts) + y;
      var p := if c.node.FileNode? then m else Items(c.node.children, g.parts) + m;
      var q := if d.node.FileNode? then n else Items(d.node.children, h.parts) + n;
      FirstAndRest(a, parts, x, g, p);
      FirstAndRest(b, parts, y, h, q);
      SameHead(g, p, h, q);
      SameLast(parts, c.name, d.name);
      if c.node.FolderNode? {
        SiblingsAreNotInside(c, a[1..], parts, x);
        SiblingsAreNotInside(d, b[1..], parts, y);
        ItemsDetermineTree(c.node.children, d.node.children, parts + [c.name], m, n);
      }
      ItemsDetermineTree(a[1..], b[1..], parts, x, y);
      assert a == [c] + a[1..] && b == [d] + b[1..];
    }
  }

  lemma FirstAndRest(children: seq<Child>, parts: seq<string>, after: seq<Item>, head: Item, rest: seq<Item>)
    requires children != [] && Regular(children) && Items(children, parts) != [] && head == Items(children, parts)[0]
    requires !children[0].node.FileNode? ==> children[0].node.FolderNode?
    requires var more := Items(children[1..], parts) + after;
      rest == if children[0].node.FileNode? then more else Items(children[0].node.children, head.parts) + more
    ensures Items(children, parts) + after == [head] + rest
  {
    hide *;
    HeadOfItems(children, parts);
    var more := Items(children[1..], parts);
    if children[0].node.FileNode? {
      ConcatIsAssociative([head], more, after);
    } else {
      var inner := Items(children[0].node.children, head.parts);
      ConcatIsAssociative([head], inner + more, after);
      ConcatIsAssociative(inner, more, after);
    }
  }

  // ----- what the walks hash -----

  lemma RecordsFirst(items: seq<Item>)
    requires items != []
    ensures RecordsOf(items) == RecordOf(items[0]) + RecordsOf(items[1..])
  {
    hide RecordOf;
  }

  lemma {:induction false} RecordsConcat(a: seq<Item>, b: seq<Item>)
    ensures RecordsOf(a + b) == RecordsOf(a) + RecordsOf(b)
  {
    assert a == [] ==> RecordsOf(a) == [];
    hide RecordOf, RecordsOf;
    if a == [] {
      assert a + b == b && [] + RecordsOf(b) == RecordsOf(b);
    } else {
      var all := a + b;
      assert all[0] == a[0] && all[1..] == a[1..] + b;
      RecordsFirst(all);
      RecordsFirst(a);
      RecordsConcat(a[1..], b);
      ConcatIsAssociative(RecordOf(a[0]), RecordsOf(a[1..]), RecordsOf(b));
    }
  }

  /** A walk over these entries hashed exactly their records. */
  ghost predicate Hashes(before: OfferWalk, after: OfferWalk, items: seq<Item>) {
    && after.commitment == before.commitment + RecordsOf(items)
    && WalkedItems(items)
  }

  lemma HashesThen(a: OfferWalk, b: OfferWalk, c: OfferWalk, x: seq<Item>, y: seq<Item>)
    requires Hashes(a, b, x) && Hashes(b, c, y)
    ensures Hashes(a, c, x + y)
  {
    hide WalkedItem, RecordsOf;
    RecordsConcat(x, y);
    assert a.commitment + RecordsOf(x) + RecordsOf(y) == a.commitment + (RecordsOf(x) + RecordsOf(y));
  }

  lemma SingleRecord(acc: OfferWalk, item: Item, bytes: Bytes, after: OfferWalk)
    requires WalkedItem(item) && after.commitment == acc.commitment + bytes
    requires Some(bytes) == MetadataBytes("entry", Join(item.parts), item.metadata, item.kind == FileEntry,
                                          item.kind == DirectoryEntry)
    ensures Hashes(acc, after, [item])
  {
    hide MetadataBytes, Join, WalkedItem;
    assert RecordOf(item) == bytes;
    hide RecordOf;
    var one := [item];
    assert one[0] == item && one[1..] == [] && RecordsOf(one) == RecordOf(item) + RecordsOf(one[1..]);
    assert RecordOf(item) + [] == RecordOf(item);
  }

  /** What a successful step of the offer-time walk went through. */
  lemma OfferedStep(child: Child, parts: seq<string>, acc: OfferWalk) returns (bytes: Bytes)
    requires OfferChild(child, parts, acc).Success?
    ensures OfferNames(parts + [child.name]) && acc.stats.entryCount + 1 <= MAX_MANIFEST_ENTRIES
    ensures HasMetadata(child.node) && child.node.metadata.modified.Some?
    ensures Some(bytes) == MetadataBytes("entry", Join(parts + [child.name]), child.node.metadata,
                                         child.node.FileNode?, IsFolder(child.node))
    ensures match child.node
      case FileNode(metadata) => OfferChild(child, parts, acc).value.commitment == acc.commitment + bytes
      case FolderNode(_, children) =>
        && acc.stats.directoryCount + 1 <= U32_MAX
        && OfferChild(child, parts, acc) == OfferChildren(children, parts + [child.name], Descended(Hashed(acc, bytes)))
      case _ => false
  {
    hide OfferComponent, OfferNames, Join, Encode;
    bytes := MetadataBytes("entry", Join(parts + [child.name]), child.node.metadata,
                           child.node.FileNode?, IsFolder(child.node)).value;
  }

  lemma {:induction false} OfferedChildHashes(child: Child, parts: seq<string>, acc: OfferWalk)
    requires OfferNames(parts) && OfferChild(child, parts, acc).Success?
    ensures Hashes(acc, OfferChild(child, parts, acc).value, ItemsOf(child, parts)) && RegularChild(child)
    decreases child, 1
  {
    var bytes := OfferedStep(child, parts, acc);
    var here, after := parts + [child.name], OfferChild(child, parts, acc).value;
    hide OfferChild, OfferChildren, OfferNames, Join, MetadataBytes, Hashes, Items;
    match child.node {
      case FileNode(metadata) =>
        SingleRecord(acc, Item(here, FileEntry, metadata), bytes, after);
      case FolderNode(metadata, children) =>
        var entered := Descended(Hashed(acc, bytes));
        var folder := Item(here, DirectoryEntry, metadata);
        SingleRecord(acc, folder, bytes, entered);
        OfferedTreeHashes(children, here, entered);
        HashesThen(acc, entered, after, [folder], Items(children, here));
    }
  }

  /** The commitment of a walk is the records of the tree's entries, in order. */
  lemma {:induction false} OfferedTreeHashes(children: seq<Child>, parts: seq<string>, acc: OfferWalk)
    requires OfferNames(parts) && OfferChildren(children, parts, acc).Success?
    ensures Hashes(acc, OfferChildren(children, parts, acc).value, Items(children, parts)) && Regular(children)
    decreases children, 0
  {
    if children == [] {
      assert acc.commitment + [] == acc.commitment;
    } else {
      hide OfferChild, ItemsOf, OfferNames, Hashes;
      OfferedChildHashes(children[0], parts, acc);
      var next := OfferChild(children[0], parts, acc).value;
      OfferedTreeHashes(children[1..], parts, next);
      HashesThen(acc, next, OfferChildren(children[1..], parts, next).value,
                 ItemsOf(children[0], parts), Items(children[1..], parts));
    }
  }

  // ----- the whole source -----

  /** The bytes whose digest is the stored commitment. */
  function CommitmentOf(root: Child): Bytes
    requires HasMetadata(root.node) && RootBytes(root).Some?
  {
    RootBytes(root).value + (if root.node.FolderNode? then RecordsOf(Items(root.node.children, [])) else [])
  }

  /** A source as a host shows it: identities of one width, and no name twice in a folder. */
  predicate HostTree(root: Child, width: nat) {
    && HasMetadata(root.node) && |root.node.metadata.identity| == width
    && (root.node.FolderNode? ==>
          && Listed(root.node.children)
          && forall i :: 0 <= i < |Items(root.node.children, [])| ==>
               |Items(root.node.children, [])[i].metadata.identity| == width)
  }

  lemma SameRoot(a: Child, x: Bytes, b: Child, y: Bytes)
    requires HasMetadata(a.node) && HasMetadata(b.node) && a.name == b.name
    requires |a.node.metadata.identity| == |b.node.metadata.identity|
    requires RootBytes(a).Some? && RootBytes(b).Some? && RootBytes(a).value + x == RootBytes(b).value + y
    ensures a.node.metadata == b.node.metadata && x == y
  {
    var m, n := a.node.metadata, b.node.metadata;
    var s, t := Tail(m, a.node.FileNode?, IsFolder(a.node)), Tail(n, b.node.FileNode?, IsFolder(b.node));
    RecordShape("root", a.name, m, a.node.FileNode?, IsFolder(a.node));
    RecordShape("root", b.name, n, b.node.FileNode?, IsFolder(b.node));
    var k, name := Encode("root"), Encode(a.name);
    hide Encode, Tail, MetadataBytes;
    Regroup(k, [0], name, [0], s, x);
    Regroup(k, [0], name, [0], t, y);
    SameFront(k + [0], name + ([0] + (s + x)), k + [0], name + ([0] + (t + y)));
    SameFront(name, [0] + (s + x), name, [0] + (t + y));
    SameFront([0], s + x, [0], t + y);
    TailReadsBack(m, a.node.FileNode?, IsFolder(a.node), x, n, b.node.FileNode?, IsFolder(b.node), y);
  }

  /** The bytes hashed at offer time determine the source. */
  lemma CommitmentDeterminesSource(a: Child, b: Child, width: nat)
    requires HostTree(a, width) && HostTree(b, width) && a.name == b.name && a.utf8 && b.utf8
    requires RootBytes(a).Some? && RootBytes(b).Some? && CommitmentOf(a) == CommitmentOf(b)
    requires a.node.FileNode? == b.node.FileNode? && a.node.FolderNode? == b.node.FolderNode?
    requires a.node.FileNode? || a.node.FolderNode?
    requires a.node.FolderNode? ==> Regular(a.node.children) && Regular(b.node.children)
    requires a.node.FolderNode? ==> WalkedItems(Items(a.node.children, [])) && WalkedItems(Items(b.node.children, []))
    ensures a == b
  {
    hide RootBytes, WalkedItem, Items, Regular, Listed, RecordsOf;
    if a.node.FileNode? {
      SameRoot(a, [], b, []);
    } else {
      var s, t := Items(a.node.children, []), Items(b.node.children, []);
      SameRoot(a, RecordsOf(s), b, RecordsOf(t));
      RecordsReadBack(s, t, width);
      assert s + [] == t + [];
      ItemsDetermineTree(a.node.children, b.node.children, [], [], []);
    }
  }

  lemma OfferedRoot(sha: Sha, root: Child)
    requires OfferSeen(sha, root).Success?
    ensures HasMetadata(root.node) && RootBytes(root).Some? && (root.node.FileNode? || root.node.FolderNode?)
        && root.utf8
    ensures OfferSeen(sha, root).value.commitment == sha(CommitmentOf(root))
    ensures root.node.FolderNode? ==> Regular(root.node.children) && WalkedItems(Items(root.node.children, []))
  {
    hide OfferComponent, MetadataBytes, OfferChildren, ValidDescriptor, WalkedItems, Items, Regular, RecordsOf;
    if root.node.FolderNode? {
      OfferedTreeHashes(root.node.children, [], OfferWalk(RootBytes(root).value, NO_STATS));
    } else {
      assert RootBytes(root).value + [] == RootBytes(root).value;
    }
  }

  lemma FoundRoot(sha: Sha, record: OfferRecord, root: Child)
    requires LookAtSeen(sha, record, root).Success?
    ensures HasMetadata(root.node) && RootBytes(root).Some? && root.utf8
    ensures record.commitment == sha(CommitmentOf(root))
    ensures match record.descriptor
      case TextOffer(_) => false
      case FileOffer(name, _) => root.node.FileNode? && root.name == name
      case FolderOffer(name, _, _, _, _) => root.node.FolderNode? && root.name == name
    ensures root.node.FolderNode? ==> Regular(root.node.children) && WalkedItems(Items(root.node.children, []))
  {
    hide OfferComponent, MetadataBytes, OfferChildren, FetchChildren, WalkedItems, Items, Regular, RecordsOf, Fetchable;
    if root.node.FolderNode? {
      var bytes := RootBytes(root).value;
      WalksAgree(sha, root.node.children, [], "", OfferWalk(bytes, NO_STATS), StartOf(bytes));
      OfferedTreeHashes(root.node.children, [], OfferWalk(bytes, NO_STATS));
    } else {
      assert RootBytes(root).value + [] == RootBytes(root).value;
    }
  }

  lemma SeenChangeIsFound(sha: Sha, root: Child, other: Child, width: nat)
    requires OfferSeen(sha, root).Success? && LookAtSeen(sha, OfferSeen(sha, root).value, other).Success?
    requires HostTree(root, width) && HostTree(other, width)
    ensures RootBytes(root).Some? && RootBytes(other).Some?
    ensures || other == root
            || (CommitmentOf(other) != CommitmentOf(root) && sha(CommitmentOf(other)) == sha(CommitmentOf(root)))
  {
    OfferedRoot(sha, root);
    FoundRoot(sha, OfferSeen(sha, root).value, other);
    assert root.name == other.name;
    assert root.node.FileNode? == other.node.FileNode? && root.node.FolderNode? == other.node.FolderNode?;
    hide *;
    if CommitmentOf(other) == CommitmentOf(root) { CommitmentDeterminesSource(root, other, width); }
  }

  /**
   * A source that is found unchanged is the source that was offered, down to every name, kind,
   * length, identity and time in it, and up to the order in which its folders list their entries,
   * unless SHA-256 collides on the two commitments.
   */
  lemma ChangeIsAlwaysSeen(sha: Sha, root: Child, other: Child, width: nat)
    requires PrepareOffer(sha, root).Success? && LookAtSource(sha, PrepareOffer(sha, root).value, Some(other)).Success?
    requires HostTree(Tidy(root), width) && HostTree(Tidy(other), width)
    ensures RootBytes(Tidy(root)).Some? && RootBytes(Tidy(other)).Some?
    ensures || Reordered(root, other)
            || (&& CommitmentOf(Tidy(other)) != CommitmentOf(Tidy(root))
                && sha(CommitmentOf(Tidy(other))) == sha(CommitmentOf(Tidy(root))))
  {
    hide OfferSeen, LookAtSeen, Tidy, Reordered, CommitmentOf, RootBytes;
    SeenChangeIsFound(sha, Tidy(root), Tidy(other), width);
    if Tidy(other) == Tidy(root) { TidyAlikeIsReordered(root, other); }
  }
}
