/** Slash-separated relative paths, their components, and case folding. */
module Paths {
  import opened Utf8
  import opened PortableNames
  import opened Wire

  /** `join("/")`. */
  function Join(parts: seq<string>): string {
    if parts == [] then ""
    else if |parts| == 1 then parts[0]
    else Join(parts[..|parts| - 1]) + "/" + parts[|parts| - 1]
  }

  predicate SlashFree(parts: seq<string>) { forall i :: 0 <= i < |parts| ==> '/' !in parts[i] }

  /** `validate_relative_path` of the destination policy. */
  predicate ValidRelativePath(path: string) {
    && path != "" && ByteLen(path) <= MAX_RELATIVE_PATH_BYTES && '\\' !in path
    && forall i :: 0 <= i < |Split(path)| ==> ValidComponent(Split(path)[i])
  }

  lemma {:induction false} SplitIsSlashFree(path: string)
    ensures SlashFree(Split(path))
  {
    if path != [] { SplitIsSlashFree(path[1..]); }
  }

  lemma {:induction false} SplitOfPlain(s: string)
    requires '/' !in s
    ensures Split(s) == [s]
  {
    if s != [] {
      assert s[0] in s && s == [s[0]] + s[1..];
      SplitOfPlain(s[1..]);
    }
  }

  lemma PutInFrontOfConcat(c: char, parts: seq<string>, more: seq<string>)
    requires parts != []
    ensures PutInFront(c, parts + more) == PutInFront(c, parts) + more
  {
    if c == '/' {
      assert [""] + (parts + more) == ([""] + parts) + more;
    } else {
      assert (parts + more)[1..] == parts[1..] + more;
      assert [[c] + parts[0]] + (parts[1..] + more) == ([[c] + parts[0]] + parts[1..]) + more;
    }
  }

  /** Splitting at a slash that is there splits there. */
  lemma {:induction false} SplitAtSlash(a: string, b: string)
    ensures Split(a + "/" + b) == Split(a) + Split(b)
  {
    var whole := a + "/" + b;
    if a == [] {
      assert whole[0] == '/' && whole[1..] == b;
    } else {
      hide PutInFront;
      assert whole[0] == a[0] && whole[1..] == a[1..] + "/" + b;
      SplitAtSlash(a[1..], b);
      PutInFrontOfConcat(a[0], Split(a[1..]), Split(b));
    }
  }

  lemma {:induction false} SplitOfJoin(parts: seq<string>)
    requires parts != [] && SlashFree(parts)
    ensures Split(Join(parts)) == parts
  {
    if |parts| == 1 {
      SplitOfPlain(parts[0]);
    } else {
      var most, last := parts[..|parts| - 1], parts[|parts| - 1];
      SplitOfJoin(most);
      SplitAtSlash(Join(most), last);
      SplitOfPlain(last);
      assert parts == most + [last];
    }
  }

  lemma {:induction false} JoinCons(first: string, rest: seq<string>)
    requires rest != []
    ensures Join([first] + rest) == first + "/" + Join(rest)
  {
    var all := [first] + rest;
    if |rest| == 1 {
      assert all[..1] == [first];
    } else {
      var most := rest[..|rest| - 1];
      JoinCons(first, most);
      assert all[..|all| - 1] == [first] + most;
    }
  }

  lemma {:induction false} JoinOfSplit(path: string)
    ensures Join(Split(path)) == path
  {
    if path != [] {
      var rest := Split(path[1..]);
      JoinOfSplit(path[1..]);
      if path[0] == '/' {
        JoinCons("", rest);
      } else if |rest| > 1 {
        JoinCons(rest[0], rest[1..]);
        JoinCons([path[0]] + rest[0], rest[1..]);
        assert [rest[0]] + rest[1..] == rest;
      }
    }
  }

  /** A function on names applied to every component. */
  function MapNames(f: string -> string, parts: seq<string>): (mapped: seq<string>)
    ensures |mapped| == |parts| && forall i :: 0 <= i < |parts| ==> mapped[i] == f(parts[i])
  {
    seq(|parts|, i requires 0 <= i < |parts| => f(parts[i]))
  }

  /** What Unicode lower-casing owes: it works piecewise between slashes and never makes or loses one. */
  ghost predicate FoldLaw(fold: string -> string) {
    && (forall a: string, b: string :: fold(a + "/" + b) == fold(a) + "/" + fold(b))
    && (forall a: string :: '/' !in a ==> '/' !in fold(a))
    && (forall a: string :: fold(a) == "" <==> a == "")
  }

  lemma {:induction false} FoldOfJoin(fold: string -> string, parts: seq<string>)
    requires FoldLaw(fold) && parts != []
    ensures fold(Join(parts)) == Join(MapNames(fold, parts))
  {
    if |parts| > 1 {
      var most, last := parts[..|parts| - 1], parts[|parts| - 1];
      FoldOfJoin(fold, most);
      assert fold(Join(most) + "/" + last) == fold(Join(most)) + "/" + fold(last);
      assert MapNames(fold, parts)[..|parts| - 1] == MapNames(fold, most);
    }
  }

  /** Folding a path folds its components. */
  lemma SplitOfFold(fold: string -> string, path: string)
    requires FoldLaw(fold)
    ensures Split(fold(path)) == MapNames(fold, Split(path))
  {
    var parts := Split(path);
    JoinOfSplit(path);
    FoldOfJoin(fold, parts);
    SplitIsSlashFree(path);
    SplitOfJoin(MapNames(fold, parts));
  }

  /** Two paths fold alike exactly when their components do. */
  lemma FoldedPathsAgree(fold: string -> string, a: string, b: string)
    requires FoldLaw(fold)
    ensures fold(a) == fold(b) <==> MapNames(fold, Split(a)) == MapNames(fold, Split(b))
  {
    SplitOfFold(fold, a);
    SplitOfFold(fold, b);
    JoinOfSplit(fold(a));
    JoinOfSplit(fold(b));
  }
}
