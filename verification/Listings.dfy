/** Directory listings: whatever order they come in, both walks sort them by name at every level. */
module Listings {
  import opened Prelude
  import opened Utf8
  import opened Wire
  import opened Trees

  // ----- the order -----

  /** Byte strings compare lexicographically. */
  predicate Less(a: Bytes, b: Bytes) {
    b != [] && (a == [] || a[0] < b[0] || (a[0] == b[0] && Less(a[1..], b[1..])))
  }

  lemma {:induction false} LessIsStrict(a: Bytes, b: Bytes)
    ensures !(Less(a, b) && Less(b, a))
    ensures a != b ==> Less(a, b) || Less(b, a)
  {
    if a != [] && b != [] && a[0] == b[0] {
      LessIsStrict(a[1..], b[1..]);
      assert a == [a[0]] + a[1..] && b == [b[0]] + b[1..];
    }
  }

  lemma {:induction false} LessIsTransitive(a: Bytes, b: Bytes, c: Bytes)
    requires Less(a, b) && Less(b, c)
    ensures Less(a, c)
  {
    if a != [] && a[0] == b[0] && b[0] == c[0] { LessIsTransitive(a[1..], b[1..], c[1..]); }
  }

  /** `sort_by_key` on file names. */
  predicate Before(a: Child, b: Child) { Less(Encode(a.name), Encode(b.name)) }

  lemma DifferentNamesAreOrdered(a: Child, b: Child)
    requires a.name != b.name
    ensures Before(a, b) != Before(b, a)
  {
    if Encode(a.name) == Encode(b.name) { EncodeIsInjective(a.name, b.name); }
    LessIsStrict(Encode(a.name), Encode(b.name));
  }

  // ----- sorting -----

  function Insert(child: Child, sorted: seq<Child>): seq<Child> {
    if sorted == [] || !Before(sorted[0], child) then [child] + sorted
    else [sorted[0]] + Insert(child, sorted[1..])
  }

  /** A stable sort by name. */
  function SortByName(listing: seq<Child>): seq<Child> {
    if listing == [] then [] else Insert(listing[0], SortByName(listing[1..]))
  }

  predicate InOrder(children: seq<Child>) {
    forall i, j :: 0 <= i < j < |children| ==> !Before(children[j], children[i])
  }

  predicate NamedApart(children: seq<Child>) {
    forall i, j :: 0 <= i < j < |children| ==> children[i].name != children[j].name
  }

  lemma {:induction false} InsertAdds(child: Child, sorted: seq<Child>)
    ensures multiset(Insert(child, sorted)) == multiset(sorted) + multiset{child}
  {
    if sorted != [] && Before(sorted[0], child) {
      InsertAdds(child, sorted[1..]);
      assert sorted == [sorted[0]] + sorted[1..];
    }
  }

  lemma {:induction false} SortKeepsEntries(listing: seq<Child>)
    ensures multiset(SortByName(listing)) == multiset(listing)
  {
    if listing != [] {
      SortKeepsEntries(listing[1..]);
      InsertAdds(listing[0], SortByName(listing[1..]));
      assert listing == [listing[0]] + listing[1..];
    }
  }

  /** Every entry of a sorted listing is one of the listing's own. */
  lemma SortedComesFrom(listing: seq<Child>, k: nat) returns (i: nat)
    requires k < |SortByName(listing)|
    ensures i < |listing| && listing[i] == SortByName(listing)[k]
  {
    SortKeepsEntries(listing);
    var child := SortByName(listing)[k];
    assert child in multiset(SortByName(listing));
    assert child in multiset(listing) && child in listing;
    i :| 0 <= i < |listing| && listing[i] == child;
  }

  lemma BeforeChains(a: Child, b: Child, c: Child)
    requires !Before(b, a) && !Before(c, b)
    ensures !Before(c, a)
  {
    var x, y, z := Encode(a.name), Encode(b.name), Encode(c.name);
    if Less(z, x) {
      LessIsStrict(y, z);
      if y != z { LessIsTransitive(y, z, x); }
    }
  }

  lemma {:induction false} InsertKeepsOrder(child: Child, sorted: seq<Child>)
    requires InOrder(sorted)
    ensures InOrder(Insert(child, sorted))
  {
    hide Before;
    var all := Insert(child, sorted);
    if sorted == [] || !Before(sorted[0], child) {
      forall i, j | 0 <= i < j < |all|
        ensures !Before(all[j], all[i])
      {
        if i > 0 {
          assert all[i] == sorted[i - 1] && all[j] == sorted[j - 1];
        } else if j > 1 {
          assert !Before(sorted[j - 1], sorted[0]);
          BeforeChains(child, sorted[0], sorted[j - 1]);
        }
      }
    } else {
      var rest := Insert(child, sorted[1..]);
      assert InOrder(sorted[1..]);
      InsertKeepsOrder(child, sorted[1..]);
      InsertAdds(child, sorted[1..]);
      forall j | 0 <= j < |rest|
        ensures !Before(rest[j], sorted[0])
      {
        assert rest[j] in multiset(rest);
        if rest[j] == child {
          NotBothWays(sorted[0], child);
        } else {
          assert rest[j] in multiset(sorted[1..]) && rest[j] in sorted[1..];
          var k :| 0 <= k < |sorted[1..]| && sorted[1..][k] == rest[j];
          assert sorted[k + 1] == rest[j];
        }
      }
      assert all == [sorted[0]] + rest;
    }
  }

  lemma NotBothWays(a: Child, b: Child)
    requires Before(a, b)
    ensures !Before(b, a)
  {
    LessIsStrict(Encode(a.name), Encode(b.name));
  }

  lemma {:induction false} SortOrders(listing: seq<Child>)
    ensures InOrder(SortByName(listing))
  {
    if listing != [] {
      SortOrders(listing[1..]);
      InsertKeepsOrder(listing[0], SortByName(listing[1..]));
    }
  }

  /** There is one way to put entries of different names in order. */
  lemma {:induction false} OrderIsUnique(a: seq<Child>, b: seq<Child>)
    requires InOrder(a) && InOrder(b) && NamedApart(a) && multiset(a) == multiset(b)
    ensures a == b
  {
    hide Before, InOrder, NamedApart;
    if a == [] {
      assert |multiset(b)| == 0;
    } else {
      SameEntriesSameLength(a, b);
      FirstIsFirst(a, b);
      TailKeeps(a);
      TailKeeps(b);
      OrderIsUnique(a[1..], b[1..]);
      HeadAndTail(a);
      HeadAndTail(b);
    }
  }

  lemma SameEntriesSameLength(a: seq<Child>, b: seq<Child>)
    requires multiset(a) == multiset(b)
    ensures |a| == |b|
    ensures a != [] ==> a[0] in multiset(b) && b[0] in multiset(a)
  {
    assert |multiset(a)| == |a| && |multiset(b)| == |b|;
    if a != [] { assert a[0] in multiset(a) && b[0] in multiset(b); }
  }

  lemma TailKeeps(a: seq<Child>)
    requires a != []
    ensures multiset(a[1..]) == multiset(a) - multiset{a[0]}
    ensures InOrder(a) ==> InOrder(a[1..])
    ensures NamedApart(a) ==> NamedApart(a[1..])
  {
    hide Before;
    assert a == [a[0]] + a[1..];
    assert forall i :: 0 <= i < |a[1..]| ==> a[1..][i] == a[i + 1];
  }

  lemma FirstIsFirst(a: seq<Child>, b: seq<Child>)
    requires a != [] && b != [] && a[0] in multiset(b) && b[0] in multiset(a)
    requires InOrder(a) && InOrder(b) && NamedApart(a)
    ensures a[0] == b[0]
  {
    hide Before;
    var i :| 0 <= i < |a| && a[i] == b[0];
    var j :| 0 <= j < |b| && b[j] == a[0];
    if i > 0 && j > 0 {
      assert !Before(a[i], a[0]) && !Before(b[j], b[0]);
      DifferentNamesAreOrdered(a[0], a[i]);
      assert false;
    }
  }

  lemma {:induction false} InsertKeepsApart(child: Child, sorted: seq<Child>)
    requires NamedApart(sorted) && forall k :: 0 <= k < |sorted| ==> sorted[k].name != child.name
    ensures NamedApart(Insert(child, sorted))
  {
    hide Before;
    if sorted != [] && Before(sorted[0], child) {
      var rest := Insert(child, sorted[1..]);
      InsertKeepsApart(child, sorted[1..]);
      InsertAdds(child, sorted[1..]);
      forall k | 0 <= k < |rest|
        ensures rest[k].name != sorted[0].name
      {
        assert rest[k] in multiset(rest);
        if rest[k] != child {
          assert rest[k] in multiset(sorted[1..]) && rest[k] in sorted[1..];
          var i :| 0 <= i < |sorted[1..]| && sorted[1..][i] == rest[k];
          assert sorted[i + 1] == rest[k];
        }
      }
      assert Insert(child, sorted) == [sorted[0]] + rest;
    }
  }

  lemma {:induction false} SortKeepsApart(listing: seq<Child>)
    requires NamedApart(listing)
    ensures NamedApart(SortByName(listing))
  {
    if listing != [] {
      var rest := listing[1..];
      TailKeeps(listing);
      SortKeepsApart(rest);
      forall k | 0 <= k < |SortByName(rest)|
        ensures SortByName(rest)[k].name != listing[0].name
      {
        var i := SortedComesFrom(rest, k);
        assert listing[i + 1] == rest[i];
      }
      InsertKeepsApart(listing[0], SortByName(rest));
    }
  }

  /** Two listings of one directory sort alike. */
  lemma ListingOrderDoesNotMatter(a: seq<Child>, b: seq<Child>)
    requires multiset(a) == multiset(b) && NamedApart(a)
    ensures SortByName(a) == SortByName(b)
  {
    SortKeepsApart(a);
    SortKeepsEntries(a);
    SortKeepsEntries(b);
    SortOrders(a);
    SortOrders(b);
    OrderIsUnique(SortByName(a), SortByName(b));
  }

  // ----- a whole tree, as both walks see it -----

  /** An entry with every listing below it sorted. */
  function Tidy(child: Child): Child
    decreases child, 1
  {
    match child.node
    case FolderNode(metadata, listing) => child.(node := FolderNode(metadata, TidyAll(listing)))
    case _ => child
  }

  function TidyAll(listing: seq<Child>): seq<Child>
    decreases listing, 0
  {
    if listing == [] then [] else Insert(Tidy(listing[0]), TidyAll(listing[1..]))
  }

  lemma TidyingKeepsName(child: Child)
    ensures Tidy(child).name == child.name
  {}

  function Each(children: seq<Child>): (r: seq<Child>)
    ensures |r| == |children| && forall i :: 0 <= i < |children| ==> r[i] == Tidy(children[i])
  {
    seq(|children|, i requires 0 <= i < |children| => Tidy(children[i]))
  }

  lemma EachInFront(first: Child, rest: seq<Child>)
    ensures Each([first] + rest) == [Tidy(first)] + Each(rest)
  {
    hide Tidy;
  }

  lemma {:induction false} InsertThenTidy(child: Child, sorted: seq<Child>)
    ensures Each(Insert(child, sorted)) == Insert(Tidy(child), Each(sorted))
  {
    TidyingKeepsName(child);
    EachInFront(child, sorted);
    if sorted == [] {
      assert [child] + sorted == [child] && [Tidy(child)] + Each(sorted) == [Tidy(child)];
    } else {
      TidyingKeepsName(sorted[0]);
      assert Before(sorted[0], child) == Before(Tidy(sorted[0]), Tidy(child));
      hide Tidy, Before, Each;
      assert sorted == [sorted[0]] + sorted[1..];
      EachInFront(sorted[0], sorted[1..]);
      if Before(sorted[0], child) {
        InsertThenTidy(child, sorted[1..]);
        EachInFront(sorted[0], Insert(child, sorted[1..]));
      }
    }
  }

  /** Sorting a listing and tidying its entries, in either order, is one thing. */
  lemma {:induction false} TidyAllIsSorted(listing: seq<Child>)
    ensures TidyAll(listing) == Each(SortByName(listing))
  {
    if listing != [] {
      TidyAllIsSorted(listing[1..]);
      InsertThenTidy(listing[0], SortByName(listing[1..]));
    }
  }

  lemma {:induction false} TidyAllSortsEach(listing: seq<Child>)
    ensures TidyAll(listing) == SortByName(Each(listing))
  {
    if listing != [] {
      TidyAllSortsEach(listing[1..]);
      assert Each(listing)[1..] == Each(listing[1..]);
    }
  }

  // ----- the same tree, listed anew -----

  function Without<T>(s: seq<T>, j: nat): seq<T>
    requires j < |s|
  {
    s[..j] + s[j + 1..]
  }

  /** The same entry, with every listing below it in whatever order. */
  ghost predicate Reordered(a: Child, b: Child)
    decreases a, 1
  {
    && a.name == b.name && a.utf8 == b.utf8
    && (if a.node.FolderNode? && b.node.FolderNode?
        then a.node.metadata == b.node.metadata && Relisted(a.node.children, b.node.children)
        else a.node == b.node)
  }

  /** The same entries in whatever order, at every level. */
  ghost predicate Relisted(a: seq<Child>, b: seq<Child>)
    decreases a, 0
  {
    if a == [] then b == []
    else exists j :: 0 <= j < |b| && Reordered(a[0], b[j]) && Relisted(a[1..], Without(b, j))
  }

  predicate EachApart(children: seq<Child>)
    decreases children
  {
    if children == [] then true else ApartBelow(children[0]) && EachApart(children[1..])
  }

  /** No folder in the tree has two entries of one name. */
  predicate ApartBelow(child: Child)
    decreases child
  {
    child.node.FolderNode? ==> NamedApart(child.node.children) && EachApart(child.node.children)
  }

  lemma EachOfWithout(b: seq<Child>, j: nat)
    requires j < |b|
    ensures Each(Without(b, j)) == Without(Each(b), j)
    ensures multiset(Each(b)) == multiset(Each(Without(b, j))) + multiset{Tidy(b[j])}
  {
    var e := Each(b);
    assert Each(Without(b, j)) == Without(e, j);
    assert e == e[..j] + ([e[j]] + e[j + 1..]);
  }

  lemma EachOfFirst(a: seq<Child>)
    requires a != []
    ensures multiset(Each(a)) == multiset(Each(a[1..])) + multiset{Tidy(a[0])}
  {
    assert Each(a) == [Tidy(a[0])] + Each(a[1..]);
  }

  lemma TidyNamesApart(children: seq<Child>)
    requires NamedApart(children)
    ensures NamedApart(Each(children))
  {
    forall i | 0 <= i < |children|
      ensures Each(children)[i].name == children[i].name
    {
      TidyingKeepsName(children[i]);
    }
  }

  lemma {:induction false} ReorderedTidyAlike(a: Child, b: Child)
    requires Reordered(a, b) && ApartBelow(a)
    ensures Tidy(a) == Tidy(b)
    decreases a, 1
  {
    if a.node.FolderNode? && b.node.FolderNode? {
      RelistedHoldAlike(a.node.children, b.node.children);
      SameEntriesTidyAlike(a.node.children, b.node.children);
    }
  }

  lemma {:induction false} RelistedHoldAlike(a: seq<Child>, b: seq<Child>)
    requires Relisted(a, b) && EachApart(a)
    ensures multiset(Each(a)) == multiset(Each(b))
    decreases a, 0
  {
    if a != [] {
      var j :| 0 <= j < |b| && Reordered(a[0], b[j]) && Relisted(a[1..], Without(b, j));
      ReorderedTidyAlike(a[0], b[j]);
      RelistedHoldAlike(a[1..], Without(b, j));
      EachOfFirst(a);
      EachOfWithout(b, j);
    }
  }

  lemma SameEntriesTidyAlike(a: seq<Child>, b: seq<Child>)
    requires multiset(Each(a)) == multiset(Each(b)) && NamedApart(a)
    ensures TidyAll(a) == TidyAll(b)
  {
    TidyNamesApart(a);
    ListingOrderDoesNotMatter(Each(a), Each(b));
    TidyAllSortsEach(a);
    TidyAllSortsEach(b);
  }

  lemma {:induction false} TidyAlikeIsReordered(a: Child, b: Child)
    requires Tidy(a) == Tidy(b)
    ensures Reordered(a, b)
    decreases a, 1
  {
    if a.node.FolderNode? {
      TidyAllSortsEach(a.node.children);
      TidyAllSortsEach(b.node.children);
      SortKeepsEntries(Each(a.node.children));
      SortKeepsEntries(Each(b.node.children));
      SameEntriesAreRelisted(a.node.children, b.node.children);
    }
  }

  lemma Cancel<T>(a: multiset<T>, b: multiset<T>, x: T)
    requires a + multiset{x} == b + multiset{x}
    ensures a == b
  {
    assert a == (a + multiset{x}) - multiset{x} && b == (b + multiset{x}) - multiset{x};
  }

  lemma {:induction false} SameEntriesAreRelisted(a: seq<Child>, b: seq<Child>)
    requires multiset(Each(a)) == multiset(Each(b))
    ensures Relisted(a, b)
    decreases a, 0
  {
    if a == [] {
      assert |multiset(Each(b))| == |Each(b)|;
    } else {
      EachOfFirst(a);
      assert Tidy(a[0]) in multiset(Each(b)) && Tidy(a[0]) in Each(b);
      var j :| 0 <= j < |b| && Each(b)[j] == Tidy(a[0]);
      TidyAlikeIsReordered(a[0], b[j]);
      EachOfWithout(b, j);
      Cancel(multiset(Each(a[1..])), multiset(Each(Without(b, j))), Tidy(a[0]));
      SameEntriesAreRelisted(a[1..], Without(b, j));
    }
  }

  /** Both walks see one tree in two listings of a source exactly when these differ in their order only. */
  lemma WalksSeeOneTreeIffReordered(a: Child, b: Child)
    requires ApartBelow(a)
    ensures Tidy(a) == Tidy(b) <==> Reordered(a, b)
  {
    if Tidy(a) == Tidy(b) { TidyAlikeIsReordered(a, b); }
    if Reordered(a, b) { ReorderedTidyAlike(a, b); }
  }
}
