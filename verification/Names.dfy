/** The portable file-name policy and the names tried when a destination name is taken. */
module PortableNames {
  import opened Prelude
  import opened Utf8

  const MAX_COMPONENT_BYTES: nat := 255
  const MAX_RELATIVE_PATH_BYTES: nat := 4096
  const LAST_COLLISION_INDEX: nat := 9999

  /** `char::is_control`: Unicode category Cc. */
  predicate IsControl(c: char) {
    var n := c as int;
    n < 0x20 || 0x7F <= n <= 0x9F
  }

  predicate IsForbidden(c: char) {
    || IsControl(c)
    || c == '<' || c == '>' || c == ':' || c == '"' || c == '/'
    || c == '\\' || c == '|' || c == '?' || c == '*'
  }

  predicate AllAllowed(s: string) { forall i :: 0 <= i < |s| ==> !IsForbidden(s[i]) }

  predicate EndsWith(s: string, c: char) { s != [] && s[|s| - 1] == c }

  predicate EndsLoosely(s: string) { EndsWith(s, ' ') || EndsWith(s, '.') }

  /** `split('.').next()`. */
  function BeforeFirstDot(s: string): (r: string)
    ensures r <= s && '.' !in r
    ensures '.' !in s ==> r == s
  {
    if s == [] || s[0] == '.' then [] else [s[0]] + BeforeFirstDot(s[1..])
  }

  /** `trim_end_matches([' ', '.'])`. */
  function TrimEnd(s: string): (r: string)
    ensures r <= s && !EndsLoosely(r)
    ensures !EndsLoosely(s) ==> r == s
  {
    if EndsLoosely(s) then TrimEnd(s[..|s| - 1]) else s
  }

  function UpperChar(c: char): char {
    if 'a' <= c <= 'z' then (c as int - 32) as char else c
  }

  function AsciiUpper(s: string): (r: string)
    ensures |r| == |s| && forall i :: 0 <= i < |s| ==> r[i] == UpperChar(s[i])
  {
    seq(|s|, i requires 0 <= i < |s| => UpperChar(s[i]))
  }

  function DeviceStem(component: string): string {
    AsciiUpper(TrimEnd(BeforeFirstDot(component)))
  }

  /** The digits a numbered Windows device may end in, superscripts included. */
  predicate IsDeviceDigit(c: char) {
    '1' <= c <= '9' || c as int in {0xB9, 0xB2, 0xB3}
  }

  predicate IsReservedStem(stem: string) {
    || stem == "CON" || stem == "PRN" || stem == "AUX" || stem == "NUL"
    || (|stem| == 4 && (stem[..3] == "COM" || stem[..3] == "LPT") && IsDeviceDigit(stem[3]))
  }

  /** `validate_component`. */
  predicate ValidComponent(component: string) {
    && component != "" && component != "." && component != ".."
    && ByteLen(component) <= MAX_COMPONENT_BYTES
    && AllAllowed(component)
    && !IsReservedStem(DeviceStem(component))
    && !EndsLoosely(component)
  }

  /** The position of the last dot, or -1. */
  function LastDot(s: string): (at: int)
    ensures -1 <= at < |s|
    ensures at >= 0 ==> s[at] == '.'
    ensures forall i :: at < i < |s| ==> s[i] != '.'
  {
    if s == [] then -1 else if s[|s| - 1] == '.' then |s| - 1 else LastDot(s[..|s| - 1])
  }

  /** `Path::file_stem` and `Path::extension` of one component: a leading dot starts no extension. */
  function SplitExtension(name: string): Option<(string, string)> {
    var dot := LastDot(name);
    if name == ".." || dot <= 0 then None else Some((name[..dot], name[dot + 1..]))
  }

  function Digit(n: nat): char
    requires n < 10
  {
    ('0' as int + n) as char
  }

  function Decimal(n: nat): (r: string)
    ensures r != [] && forall i :: 0 <= i < |r| ==> '0' <= r[i] <= '9'
    ensures n <= 9999 ==> |r| <= 4
    ensures n <= 999 ==> |r| <= 3
    ensures n <= 99 ==> |r| <= 2
  {
    if n < 10 then [Digit(n)] else Decimal(n / 10) + [Digit(n % 10)]
  }

  function IndexSuffix(index: nat): string { " (" + Decimal(index) + ")" }

  /** `component_with_suffix`; `None` is the error return. */
  function ComponentWithSuffix(component: string, suffix: string): Option<string> {
    if ByteLen(suffix) >= MAX_COMPONENT_BYTES then None
    else
      var kept := Truncated(component, MAX_COMPONENT_BYTES - ByteLen(suffix));
      if kept == "" || !ValidComponent(kept + suffix) then None else Some(kept + suffix)
  }

  /** What is left of a file's stem once its suffix and extension are paid for. */
  function KeptStem(stem: string, index: nat, extension: string): Option<string> {
    var fixed := ByteLen(IndexSuffix(index)) + 1 + ByteLen(extension);
    if fixed > MAX_COMPONENT_BYTES then None
    else
      var kept := Truncated(stem, MAX_COMPONENT_BYTES - fixed);
      if kept == "" then None else Some(kept)
  }

  /** Whether the candidate for `index` keeps the extension of `root`. */
  predicate KeepsExtension(root: string, kind: ContentKind, index: nat) {
    && kind == File
    && SplitExtension(root).Some?
    && KeptStem(SplitExtension(root).value.0, index, SplitExtension(root).value.1).Some?
  }

  /** `collision_candidate`; `None` is the error return. */
  function CollisionCandidate(root: string, kind: ContentKind, index: nat): Option<string> {
    if index == 1 then
      if ValidComponent(root) then Some(root) else None
    else if KeepsExtension(root, kind, index) then
      var (stem, extension) := SplitExtension(root).value;
      var name := KeptStem(stem, index, extension).value + IndexSuffix(index) + "." + extension;
      if ValidComponent(name) then Some(name) else None
    else
      ComponentWithSuffix(root, IndexSuffix(index))
  }

  // ----- every candidate is a portable name -----

  lemma {:induction false} AsciiByteLen(s: string)
    requires forall i :: 0 <= i < |s| ==> s[i] as int < 0x80
    ensures ByteLen(s) == |s|
  {
    if s != [] { AsciiByteLen(s[1..]); }
  }

  lemma IndexSuffixBytes(index: nat)
    ensures ByteLen(IndexSuffix(index)) == |Decimal(index)| + 3
  {
    AsciiByteLen(IndexSuffix(index));
  }

  lemma {:induction false} BeforeFirstDotOfConcat(a: string, b: string)
    ensures '.' in a ==> BeforeFirstDot(a + b) == BeforeFirstDot(a)
    ensures '.' !in a ==> BeforeFirstDot(a + b) == a + BeforeFirstDot(b)
  {
    if a == [] {
      assert a + b == b;
    } else if a[0] != '.' {
      BeforeFirstDotOfConcat(a[1..], b);
      assert (a + b)[1..] == a[1..] + b;
      assert a == [a[0]] + a[1..];
    }
  }

  /** A stem that closes a parenthesis names no device. */
  lemma ParenthesisIsNoDevice(stem: string)
    requires EndsWith(stem, ')')
    ensures !IsReservedStem(AsciiUpper(TrimEnd(stem)))
  {
    var upper := AsciiUpper(TrimEnd(stem));
    assert upper[|upper| - 1] == ')';
  }

  /** Inserting " (n)" after a prefix of a portable name leaves its device stem harmless. */
  lemma SuffixedStemIsNoDevice(root: string, kept: string, index: nat, tail: string)
    requires kept <= root && !IsReservedStem(DeviceStem(root))
    requires tail == "" || tail[0] == '.'
    ensures !IsReservedStem(DeviceStem(kept + IndexSuffix(index) + tail))
  {
    var suffix := IndexSuffix(index);
    BeforeFirstDotOfConcat(kept + suffix, tail);
    BeforeFirstDotOfConcat(kept, suffix);
    BeforeFirstDotOfConcat(kept, root[|kept|..]);
    assert root == kept + root[|kept|..];
    if '.' in kept {
      assert '.' in kept + suffix;
    } else {
      assert '.' !in suffix;
      assert BeforeFirstDot(kept + suffix + tail) == kept + suffix;
      ParenthesisIsNoDevice(kept + suffix);
    }
  }

  lemma AllowedPieces(root: string, kept: string, index: nat, tail: string)
    requires AllAllowed(root) && kept <= root && AllAllowed(tail)
    ensures AllAllowed(kept + IndexSuffix(index) + tail)
  {
    var name := kept + IndexSuffix(index) + tail;
    forall i | 0 <= i < |name|
      ensures !IsForbidden(name[i])
    {
      if i < |kept| {
        assert name[i] == root[i];
      } else if i < |kept| + |IndexSuffix(index)| {
        assert name[i] == IndexSuffix(index)[i - |kept|];
      } else {
        assert name[i] == tail[i - |kept| - |IndexSuffix(index)|];
      }
    }
  }

  /** A piece of a portable root, " (n)" and possibly its extension again form a portable name. */
  lemma SuffixedNameIsValid(root: string, kept: string, index: nat, tail: string)
    requires ValidComponent(root) && kept <= root && kept != ""
    requires tail == "" || (tail[0] == '.' && |tail| <= |root| && tail == root[|root| - |tail|..])
    requires ByteLen(kept + IndexSuffix(index) + tail) <= MAX_COMPONENT_BYTES
    ensures ValidComponent(kept + IndexSuffix(index) + tail)
  {
    var name := kept + IndexSuffix(index) + tail;
    assert |name| > 3;
    SuffixedStemIsNoDevice(root, kept, index, tail);
    assert AllAllowed(tail);
    AllowedPieces(root, kept, index, tail);
    assert !EndsLoosely(name) by {
      if tail == "" {
        assert name[|name| - 1] == ')';
      } else {
        assert name[|name| - 1] == root[|root| - 1];
      }
    }
  }

  lemma SuffixIsTaken(component: string, suffix: string)
    requires ByteLen(suffix) < MAX_COMPONENT_BYTES
    requires Truncated(component, MAX_COMPONENT_BYTES - ByteLen(suffix)) != ""
    requires ValidComponent(Truncated(component, MAX_COMPONENT_BYTES - ByteLen(suffix)) + suffix)
    ensures ComponentWithSuffix(component, suffix).Some?
  {
    hide ValidComponent, Truncated, ByteLen;
  }

  lemma PlainCandidateIsValid(root: string, index: nat)
    requires ValidComponent(root) && 2 <= index <= LAST_COLLISION_INDEX
    ensures ComponentWithSuffix(root, IndexSuffix(index)).Some?
  {
    assert root != "" && LAST_COLLISION_INDEX == 9999 && MAX_COMPONENT_BYTES == 255;
    var suffix := IndexSuffix(index);
    IndexSuffixBytes(index);
    assert ByteLen(suffix) <= 7;
    hide *;
    var budget := MAX_COMPONENT_BYTES - ByteLen(suffix);
    var kept := Truncated(root, budget);
    FirstCharacterFits(root, budget);
    ByteLenConcat(kept, suffix);
    assert kept + suffix + "" == kept + suffix;
    SuffixedNameIsValid(root, kept, index, "");
    SuffixIsTaken(root, suffix);
  }

  lemma ExtendedPieces(root: string, kept: string)
    requires SplitExtension(root).Some? && kept <= SplitExtension(root).value.0
    ensures var tail := "." + SplitExtension(root).value.1;
      kept <= root && tail[0] == '.' && |tail| <= |root| && tail == root[|root| - |tail|..]
  {
    var (stem, extension) := SplitExtension(root).value;
    assert root == stem + ("." + extension);
  }

  lemma ExtendedBytes(kept: string, suffix: string, extension: string)
    ensures kept + suffix + ("." + extension) == kept + suffix + "." + extension
    ensures ByteLen(kept + suffix + "." + extension)
         == ByteLen(kept) + ByteLen(suffix) + 1 + ByteLen(extension)
  {
    ByteLenConcat(kept, suffix);
    ByteLenConcat(kept + suffix, ".");
    ByteLenConcat(kept + suffix + ".", extension);
    AsciiByteLen(".");
  }

  lemma KeptStemFits(stem: string, index: nat, extension: string)
    requires KeptStem(stem, index, extension).Some?
    ensures var kept := KeptStem(stem, index, extension).value;
      && kept <= stem && kept != ""
      && ByteLen(kept) + ByteLen(IndexSuffix(index)) + 1 + ByteLen(extension) <= MAX_COMPONENT_BYTES
  {
    hide ByteLen, IndexSuffix, Truncated;
  }

  lemma ExtendedCandidateIsValid(root: string, index: nat)
    requires ValidComponent(root) && KeepsExtension(root, File, index) && index != 1
    ensures CollisionCandidate(root, File, index).Some?
  {
    hide ValidComponent, ByteLen, IndexSuffix, SplitExtension, KeptStem;
    var (stem, extension) := SplitExtension(root).value;
    var kept := KeptStem(stem, index, extension).value;
    KeptStemFits(stem, index, extension);
    ExtendedPieces(root, kept);
    ExtendedBytes(kept, IndexSuffix(index), extension);
    SuffixedNameIsValid(root, kept, index, "." + extension);
  }

  /** Every collision name of a portable root is produced and is itself portable. */
  lemma CollisionCandidatesAreValid(root: string, kind: ContentKind, index: nat)
    requires ValidComponent(root) && 1 <= index <= LAST_COLLISION_INDEX
    ensures CollisionCandidate(root, kind, index).Some?
    ensures ValidComponent(CollisionCandidate(root, kind, index).value)
  {
    if index == 1 {
    } else if KeepsExtension(root, kind, index) {
      ExtendedCandidateIsValid(root, index);
    } else {
      PlainCandidateIsValid(root, index);
    }
  }

  // ----- different indices give different names -----

  lemma {:induction false} DecimalIsInjective(m: nat, n: nat)
    requires Decimal(m) == Decimal(n)
    ensures m == n
  {
    var d, e := Decimal(m), Decimal(n);
    assert d[|d| - 1] == Digit(m % 10) && e[|e| - 1] == Digit(n % 10);
    assert m % 10 == n % 10;
    if m >= 10 && n >= 10 {
      assert d[..|d| - 1] == Decimal(m / 10) && e[..|e| - 1] == Decimal(n / 10);
      DecimalIsInjective(m / 10, n / 10);
    }
  }

  lemma IndexIsReadable(a: string, i: nat, b: string, j: nat)
    requires a + IndexSuffix(i) == b + IndexSuffix(j)
    ensures i == j
  {
    var d, e := Decimal(i), Decimal(j);
    var name := a + IndexSuffix(i);
    var n := |name|;
    assert name[n - 2 - |d|] == '(' && name[n - 2 - |e|] == '(';
    assert name[n - 1 - |d|..n - 1] == d && name[n - 1 - |e|..n - 1] == e;
    assert forall k :: n - 1 - |d| <= k < n - 1 ==> name[k] == d[k - (n - 1 - |d|)];
    assert forall k :: n - 1 - |e| <= k < n - 1 ==> name[k] == e[k - (n - 1 - |e|)];
    assert |d| == |e|;
    DecimalIsInjective(i, j);
  }

  /** Candidates that agree on keeping the extension differ: the index can be read off them. */
  lemma AlikeCandidatesAreDistinct(root: string, kind: ContentKind, i: nat, j: nat)
    requires ValidComponent(root)
    requires 2 <= i <= LAST_COLLISION_INDEX && 2 <= j <= LAST_COLLISION_INDEX && i != j
    requires KeepsExtension(root, kind, i) == KeepsExtension(root, kind, j)
    ensures CollisionCandidate(root, kind, i) != CollisionCandidate(root, kind, j)
  {
    hide ValidComponent, Truncated, ByteLen, Decimal;
    CollisionCandidatesAreValid(root, kind, i);
    CollisionCandidatesAreValid(root, kind, j);
    var x := CollisionCandidate(root, kind, i).value;
    var y := CollisionCandidate(root, kind, j).value;
    if x == y {
      if KeepsExtension(root, kind, i) {
        var (stem, extension) := SplitExtension(root).value;
        var k, l := KeptStem(stem, i, extension).value, KeptStem(stem, j, extension).value;
        var cut := |x| - |extension| - 1;
        assert x[..cut] == k + IndexSuffix(i) && y[..cut] == l + IndexSuffix(j);
        IndexIsReadable(k, i, l, j);
      } else {
        IndexIsReadable(x[..|x| - |IndexSuffix(i)|], i, y[..|y| - |IndexSuffix(j)|], j);
      }
    }
  }

  predicate EndsIn(s: string, tail: string) { |tail| <= |s| && s[|s| - |tail|..] == tail }

  /**
   * A file name of full length that already carries both numbers, " (i)" behind its stem and " (j)"
   * behind its extension, and whose extension fits beside the one number and not the other.
   */
  predicate TwiceNumbered(root: string, i: nat, j: nat) {
    && ByteLen(root) == MAX_COMPONENT_BYTES
    && KeepsExtension(root, File, i) && !KeepsExtension(root, File, j)
    && EndsIn(SplitExtension(root).value.0, IndexSuffix(i)) && EndsIn(SplitExtension(root).value.1, IndexSuffix(j))
  }

  lemma SplitRejoins(root: string)
    requires SplitExtension(root).Some?
    ensures var (stem, extension) := SplitExtension(root).value;
      && root == stem + "." + extension && stem != "" && '.' !in extension
      && ByteLen(root) == ByteLen(stem) + 1 + ByteLen(extension)
  {
    var (stem, extension) := SplitExtension(root).value;
    assert root == stem + "." + extension;
    ByteLenConcat(stem + ".", extension);
    ByteLenConcat(stem, ".");
    AsciiByteLen(".");
  }

  /** Cutting off exactly a tail is what a budget of exactly the rest does. */
  lemma TailIsCut(s: string, tail: string, budget: nat)
    requires EndsIn(s, tail) && tail != "" && ByteLen(s) == budget + ByteLen(tail)
    ensures Truncated(s, budget) + tail == s
  {
    var kept := s[..|s| - |tail|];
    assert s == kept + tail;
    ByteLenConcat(kept, tail);
    var next := s[..|kept| + 1];
    assert next == kept + [s[|kept|]];
    ByteLenConcat(kept, [s[|kept|]]);
    ByteLenBounds([s[|kept|]]);
    hide ByteLen;
    LongestPrefixIsUnique(s, budget, kept);
  }

  /** Conversely, a cut that leaves an ASCII tail used its budget up. */
  lemma CutUsesBudget(s: string, tail: string, budget: nat)
    requires Truncated(s, budget) + tail == s && tail != "" && tail[0] as int < 0x80
    ensures ByteLen(s) == budget + ByteLen(tail)
  {
    var kept := Truncated(s, budget);
    ByteLenConcat(kept, tail);
    assert s[..|kept| + 1] == kept + [tail[0]];
    ByteLenConcat(kept, [tail[0]]);
    AsciiByteLen([tail[0]]);
  }

  lemma SuffixFacts(index: nat)
    requires 2 <= index <= LAST_COLLISION_INDEX
    ensures 4 <= ByteLen(IndexSuffix(index)) <= 7 && IndexSuffix(index) != "" && IndexSuffix(index)[0] == ' '
    ensures '.' !in IndexSuffix(index)
  {
    IndexSuffixBytes(index);
    hide ByteLen;
    var suffix := IndexSuffix(index);
    forall k | 0 <= k < |suffix|
      ensures suffix[k] != '.'
    {
      if 2 <= k < |suffix| - 1 { assert suffix[k] == Decimal(index)[k - 2]; }
    }
  }

  /** Two ways of writing one name around its last dot are one way. */
  lemma LastDotIsUnique(a: string, x: string, b: string, y: string)
    requires '.' !in x && '.' !in y && a + "." + x == b + "." + y
    ensures a == b && x == y
  {
    var s := a + "." + x;
    assert s[|a|] == '.' && s[|b|] == '.';
    assert forall k :: |a| < k < |s| ==> s[k] == x[k - |a| - 1];
    assert forall k :: |b| < k < |s| ==> s[k] == y[k - |b| - 1];
    assert |a| == |b|;
    assert a == s[..|a|] && b == s[..|b|] && x == s[|a| + 1..] && y == s[|b| + 1..];
  }

  /** An extension that is lost is so long that the stem in front of it is short. */
  lemma LostExtensionIsLong(root: string, j: nat)
    requires ValidComponent(root) && SplitExtension(root).Some? && !KeepsExtension(root, File, j)
    requires 2 <= j <= LAST_COLLISION_INDEX
    ensures ByteLen(SplitExtension(root).value.0) <= 10
  {
    assert ByteLen(root) <= MAX_COMPONENT_BYTES;
    hide ValidComponent, ByteLen, Decimal;
    var (stem, extension) := SplitExtension(root).value;
    SplitRejoins(root);
    SuffixFacts(j);
    var fixed := ByteLen(IndexSuffix(j)) + 1 + ByteLen(extension);
    if fixed + 4 <= MAX_COMPONENT_BYTES { FirstCharacterFits(stem, MAX_COMPONENT_BYTES - fixed); }
  }

  /** Where the extension is lost, the cut falls inside the extension. */
  lemma CutFallsInExtension(root: string, j: nat) returns (rest: string)
    requires ValidComponent(root) && SplitExtension(root).Some? && !KeepsExtension(root, File, j)
    requires 2 <= j <= LAST_COLLISION_INDEX
    ensures ByteLen(IndexSuffix(j)) <= 7
    ensures var (stem, extension) := SplitExtension(root).value;
      rest <= extension && Truncated(root, MAX_COMPONENT_BYTES - ByteLen(IndexSuffix(j))) == stem + "." + rest
  {
    LostExtensionIsLong(root, j);
    hide ValidComponent, ByteLen, IndexSuffix, KeepsExtension, SplitExtension, Truncated;
    var (stem, extension) := SplitExtension(root).value;
    SplitRejoins(root);
    SuffixFacts(j);
    rest := CutAfterDot(root, stem, extension, MAX_COMPONENT_BYTES - ByteLen(IndexSuffix(j)));
  }

  lemma CutAfterDot(root: string, stem: string, extension: string, budget: nat) returns (rest: string)
    requires root == stem + "." + extension && ByteLen(stem) < budget
    ensures rest <= extension && Truncated(root, budget) == stem + "." + rest
  {
    hide ByteLen;
    var kept, front := Truncated(root, budget), stem + ".";
    ByteLenConcat(stem, ".");
    AsciiByteLen(".");
    assert root[..|front|] == front;
    TruncatedIsLongest(root, budget, |front|);
    hide Truncated;
    rest := kept[|front|..];
    assert kept == root[..|kept|] && rest == extension[..|rest|];
  }

  /** What the two branches of the naming rule write. */
  lemma BranchShapes(root: string, i: nat, j: nat)
    requires ValidComponent(root) && KeepsExtension(root, File, i) && !KeepsExtension(root, File, j)
    requires 2 <= i <= LAST_COLLISION_INDEX && 2 <= j <= LAST_COLLISION_INDEX
    ensures var (stem, extension) := SplitExtension(root).value;
      CollisionCandidate(root, File, i) == Some(KeptStem(stem, i, extension).value + IndexSuffix(i) + "." + extension)
    ensures ByteLen(IndexSuffix(j)) <= 7
    ensures CollisionCandidate(root, File, j)
         == Some(Truncated(root, MAX_COMPONENT_BYTES - ByteLen(IndexSuffix(j))) + IndexSuffix(j))
  {
    CollisionCandidatesAreValid(root, File, i);
    CollisionCandidatesAreValid(root, File, j);
    SuffixFacts(j);
    hide ValidComponent, Truncated, ByteLen, Decimal;
  }

  /** Unlike candidates that agree both spell the root. */
  lemma UnlikeCandidatesRebuild(root: string, i: nat, j: nat)
    requires ValidComponent(root) && KeepsExtension(root, File, i) && !KeepsExtension(root, File, j)
    requires 2 <= i <= LAST_COLLISION_INDEX && 2 <= j <= LAST_COLLISION_INDEX
    requires CollisionCandidate(root, File, i) == CollisionCandidate(root, File, j)
    ensures TwiceNumbered(root, i, j)
  {
    hide ValidComponent, Truncated, ByteLen, Decimal, CollisionCandidate, SplitExtension;
    var (stem, extension) := SplitExtension(root).value;
    var kept := KeptStem(stem, i, extension).value;
    BranchShapes(root, i, j);
    var rest := CutFallsInExtension(root, j);
    SplitRejoins(root);
    SuffixFacts(i);
    SuffixFacts(j);
    NamesMatch(kept, IndexSuffix(i), stem, extension, rest, IndexSuffix(j));
    CutUsesBudget(stem, IndexSuffix(i), MAX_COMPONENT_BYTES - (ByteLen(IndexSuffix(i)) + 1 + ByteLen(extension)));
  }

  lemma NamesMatch(kept: string, a: string, stem: string, extension: string, rest: string, b: string)
    requires '.' !in extension && '.' !in b && rest <= extension
    requires kept + a + "." + extension == (stem + "." + rest) + b
    ensures kept + a == stem && EndsIn(stem, a) && EndsIn(extension, b)
  {
    assert (stem + "." + rest) + b == stem + "." + (rest + b);
    forall k | 0 <= k < |rest + b|
      ensures (rest + b)[k] != '.'
    {
      if k < |rest| { assert (rest + b)[k] == extension[k]; }
    }
    LastDotIsUnique(kept + a, extension, stem, rest + b);
  }

  lemma EndsInTail(front: string, back: string, tail: string)
    requires EndsIn(back, tail)
    ensures EndsIn(front + back, tail)
  {
    assert (front + back)[|front + back| - |tail|..] == back[|back| - |tail|..];
  }

  lemma TwiceNumberedRebuilds(root: string, i: nat, j: nat)
    requires ValidComponent(root) && TwiceNumbered(root, i, j)
    requires 2 <= i <= LAST_COLLISION_INDEX && 2 <= j <= LAST_COLLISION_INDEX
    ensures CollisionCandidate(root, File, i) == CollisionCandidate(root, File, j)
  {
    hide ValidComponent, Truncated, ByteLen, IndexSuffix, CollisionCandidate, SplitExtension, EndsIn;
    var (stem, extension) := SplitExtension(root).value;
    var a, b := IndexSuffix(i), IndexSuffix(j);
    SuffixFacts(i);
    SuffixFacts(j);
    SplitRejoins(root);
    TailIsCut(stem, a, MAX_COMPONENT_BYTES - (ByteLen(a) + 1 + ByteLen(extension)));
    EndsInTail(stem + ".", extension, b);
    TailIsCut(root, b, MAX_COMPONENT_BYTES - ByteLen(b));
    var kept := KeptStem(stem, i, extension).value;
    assert kept + a + "." + extension == root;
    BothBranchesRebuild(root, stem, extension, kept, i, j);
  }

  /**
   * The candidates of two indices are the same exactly for a file name of full length that already
   * carries both numbers where each branch would write them; for folders they always differ.
   */
  lemma CandidatesCoincideIffTwiceNumbered(root: string, kind: ContentKind, i: nat, j: nat)
    requires ValidComponent(root)
    requires 2 <= i <= LAST_COLLISION_INDEX && 2 <= j <= LAST_COLLISION_INDEX && i != j
    ensures CollisionCandidate(root, kind, i) == CollisionCandidate(root, kind, j)
       <==> kind == File && (TwiceNumbered(root, i, j) || TwiceNumbered(root, j, i))
  {
    var equal := CollisionCandidate(root, kind, i) == CollisionCandidate(root, kind, j);
    if KeepsExtension(root, kind, i) == KeepsExtension(root, kind, j) {
      AlikeCandidatesAreDistinct(root, kind, i, j);
    } else {
      hide ValidComponent, CollisionCandidate, SplitExtension, KeptStem, ByteLen;
      if KeepsExtension(root, kind, i) {
        if equal { UnlikeCandidatesRebuild(root, i, j); }
        if TwiceNumbered(root, i, j) { TwiceNumberedRebuilds(root, i, j); }
      } else {
        if equal { UnlikeCandidatesRebuild(root, j, i); }
        if TwiceNumbered(root, j, i) { TwiceNumberedRebuilds(root, j, i); }
      }
    }
  }

  // ----- where stronger claims stop being true -----

  function Repeat(c: char, n: nat): string { seq(n, _ => c) }

  /** "c (9).xx..x (10)", 255 bytes long when the padding takes 244 of them. */
  function TwiceNumberedName(padding: string): string { "c (9)." + padding + " (10)" }

  predicate IsPadding(s: string) { |s| == 244 && forall i :: 0 <= i < |s| ==> s[i] == 'x' }

  lemma TwiceNumberedNameIsAscii(padding: string)
    requires IsPadding(padding)
    ensures forall i :: 0 <= i < |TwiceNumberedName(padding)| ==> TwiceNumberedName(padding)[i] as int < 0x80
    ensures AllAllowed(TwiceNumberedName(padding)) && !EndsLoosely(TwiceNumberedName(padding))
    ensures |TwiceNumberedName(padding)| == 255
  {}

  lemma TwiceNumberedNameIsValid(padding: string)
    requires IsPadding(padding)
    ensures ValidComponent(TwiceNumberedName(padding))
  {
    var root := TwiceNumberedName(padding);
    TwiceNumberedNameIsAscii(padding);
    AsciiByteLen(root);
    assert !IsReservedStem(DeviceStem(root)) by {
      BeforeFirstDotOfConcat("c (9)", root[5..]);
      assert root == "c (9)" + root[5..];
      assert BeforeFirstDot(root) == "c (9)";
      ParenthesisIsNoDevice("c (9)");
    }
  }

  lemma TwiceNumberedNameSplits(padding: string)
    requires IsPadding(padding)
    ensures SplitExtension(TwiceNumberedName(padding)) == Some(("c (9)", padding + " (10)"))
    ensures ByteLen(padding + " (10)") == 249
  {
    var root := TwiceNumberedName(padding);
    assert root[5] == '.' && root[..5] == "c (9)" && root[6..] == padding + " (10)";
    assert LastDot(root) == 5;
    AsciiByteLen(padding + " (10)");
  }

  lemma SmallSuffixes()
    ensures IndexSuffix(9) == " (9)" && ByteLen(IndexSuffix(9)) == 4
    ensures IndexSuffix(10) == " (10)" && ByteLen(IndexSuffix(10)) == 5
  {
    assert Decimal(9) == "9";
    assert Decimal(10) == Decimal(1) + "0";
    IndexSuffixBytes(9);
    IndexSuffixBytes(10);
  }

  lemma TwiceNumberedStem(extension: string, nine: nat, ten: nat)
    requires ByteLen(extension) == 249 && nine == 9 && ten == 10
    ensures KeptStem("c (9)", nine, extension) == Some("c")
    ensures KeptStem("c (9)", ten, extension) == None
  {
    SmallSuffixes();
    AsciiByteLen("c");
    AsciiByteLen("c ");
    assert "c (9)"[..2] == "c " && "c (9)"[..1] == "c";
    LongestPrefixIsUnique("c (9)", 1, "c");
    LongestPrefixIsUnique("c (9)", 0, "");
  }

  lemma TwiceNumberedCut(root: string, padding: string)
    requires IsPadding(padding) && root == TwiceNumberedName(padding)
    ensures Truncated(root, 250) + " (10)" == root
  {
    TwiceNumberedNameIsAscii(padding);
    AsciiByteLen(root[..250]);
    AsciiByteLen(root[..251]);
    LongestPrefixIsUnique(root, 250, root[..250]);
    assert root[..250] + " (10)" == root;
  }

  /** Both branches of the naming rule rebuild a root that already spells what each would write. */
  lemma BothBranchesRebuild(root: string, stem: string, extension: string, kept: string, i: nat, j: nat)
    requires ValidComponent(root) && 2 <= i && 2 <= j
    requires SplitExtension(root) == Some((stem, extension))
    requires KeptStem(stem, i, extension) == Some(kept) && KeptStem(stem, j, extension) == None
    requires ByteLen(IndexSuffix(j)) < 250
    requires root == kept + IndexSuffix(i) + "." + extension
    requires root == Truncated(root, MAX_COMPONENT_BYTES - ByteLen(IndexSuffix(j))) + IndexSuffix(j)
    ensures CollisionCandidate(root, File, i) == CollisionCandidate(root, File, j) == Some(root)
  {
    FirstCharacterFits(root, MAX_COMPONENT_BYTES - ByteLen(IndexSuffix(j)));
  }

  lemma TwiceNumberedFacts(padding: string, i: nat, j: nat)
    returns (root: string, stem: string, extension: string, kept: string)
    requires IsPadding(padding) && i == 9 && j == 10
    ensures ValidComponent(root) && SplitExtension(root) == Some((stem, extension))
    ensures KeptStem(stem, i, extension) == Some(kept) && KeptStem(stem, j, extension) == None
    ensures ByteLen(IndexSuffix(j)) == 5
    ensures root == kept + IndexSuffix(i) + "." + extension
    ensures root == Truncated(root, 250) + IndexSuffix(j)
  {
    hide ValidComponent, Truncated, ByteLen, Decimal, SplitExtension, KeptStem;
    root, stem, extension, kept := TwiceNumberedName(padding), "c (9)", padding + " (10)", "c";
    assert ValidComponent(root) by { TwiceNumberedNameIsValid(padding); }
    TwiceNumberedNameSplits(padding);
    SmallSuffixes();
    TwiceNumberedStem(extension, i, j);
    TwiceNumberedCut(root, padding);
    assert root == kept + IndexSuffix(i) + "." + extension;
  }

  /**
   * A file whose extension survives at index 9 but not at index 10 can be given one name twice.
   */
  lemma FileCandidatesCanCoincide(padding: string, nine: nat, ten: nat) returns (root: string)
    requires IsPadding(padding) && nine == 9 && ten == 10
    ensures ValidComponent(root)
    ensures CollisionCandidate(root, File, nine) == CollisionCandidate(root, File, ten) == Some(root)
  {
    var stem, extension, kept;
    root, stem, extension, kept := TwiceNumberedFacts(padding, nine, ten);
    BothBranchesRebuild(root, stem, extension, kept, nine, ten);
  }

  /** The shape of a hyphenated UUID, as far as the naming rules can see. */
  predicate IsUuidText(s: string) {
    && |s| == 36
    && forall i :: 0 <= i < |s| ==> '0' <= s[i] <= '9' || 'a' <= s[i] <= 'f' || s[i] == '-'
  }

  /** What remains of a name in front of the 37 bytes of ".<uuid>". */
  function FallbackStem(root: string): string { Truncated(root, MAX_COMPONENT_BYTES - 37) }

  lemma FallbackPieces(root: string, kept: string, uuid: string)
    requires AllAllowed(root) && kept <= root && IsUuidText(uuid)
    ensures AllAllowed(kept + ("." + uuid)) && !EndsLoosely(kept + ("." + uuid))
    ensures DeviceStem(kept + ("." + uuid)) == DeviceStem(kept)
  {
    var suffix := "." + uuid;
    var name := kept + suffix;
    BeforeFirstDotOfConcat(kept, suffix);
    assert BeforeFirstDot(suffix) == "" && kept + "" == kept;
    assert name[|name| - 1] == uuid[35];
    forall i | 0 <= i < |name|
      ensures !IsForbidden(name[i])
    {
      if i < |kept| { assert name[i] == root[i]; } else { assert name[i] == suffix[i - |kept|]; }
    }
  }

  /** The last-resort name is refused exactly when the shortened root itself spells a device. */
  lemma FallbackAcceptedIffNoDevice(root: string, uuid: string)
    requires ValidComponent(root) && IsUuidText(uuid)
    ensures ComponentWithSuffix(root, "." + uuid).Some? <==> !IsReservedStem(DeviceStem(FallbackStem(root)))
  {
    var suffix := "." + uuid;
    AsciiByteLen(suffix);
    var kept := FallbackStem(root);
    FirstCharacterFits(root, MAX_COMPONENT_BYTES - 37);
    ByteLenConcat(kept, suffix);
    FallbackPieces(root, kept, uuid);
  }

  /** "CON", 216 spaces and a letter: portable, but its fallback name is the device CON. */
  lemma FallbackCanBeRefused(uuid: string)
    requires IsUuidText(uuid)
    ensures ValidComponent("CON" + Repeat(' ', 216) + "x")
    ensures ComponentWithSuffix("CON" + Repeat(' ', 216) + "x", "." + uuid).None?
  {
    hide ValidComponent, Truncated, ComponentWithSuffix;
    var root := "CON" + Repeat(' ', 216) + "x";
    PaddedNameIsValid(root);
    var kept := "CON" + Repeat(' ', 215);
    assert kept <= root;
    AsciiByteLen(kept);
    AsciiByteLen(root[..219]);
    LongestPrefixIsUnique(root, 218, kept);
    PaddedDevice(215);
    FallbackAcceptedIffNoDevice(root, uuid);
  }

  lemma PaddedNameIsValid(root: string)
    requires root == "CON" + Repeat(' ', 216) + "x"
    ensures ValidComponent(root)
  {
    AsciiByteLen(root);
    assert '.' !in root;
    assert DeviceStem(root) == AsciiUpper(root);
  }

  lemma {:induction false} PaddedDevice(n: nat)
    ensures TrimEnd("CON" + Repeat(' ', n)) == "CON"
  {
    var s := "CON" + Repeat(' ', n);
    if n == 0 {
      assert s == "CON";
    } else {
      assert s[..|s| - 1] == "CON" + Repeat(' ', n - 1);
      PaddedDevice(n - 1);
    }
  }
}
