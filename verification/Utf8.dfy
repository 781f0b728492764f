/** UTF-8 as section 3 of RFC 3629 lays it out, and cutting a string at a byte budget. */
module Utf8 {
  import opened Prelude

  function EncodeChar(c: char): (bytes: seq<Byte>)
    ensures 1 <= |bytes| <= 4
    ensures !IsContinuation(bytes[0])
    ensures forall i :: 1 <= i < |bytes| ==> IsContinuation(bytes[i])
  {
    // Six bits at a time: n is 64 * high + n % 64, and so on upwards.
    var n := c as int;
    var high := n / 64;
    var higher := high / 64;
    if n < 0x80 then [n]
    else if n < 0x800 then [0xC0 + high, 0x80 + n % 64]
    else if n < 0x1_0000 then [0xE0 + higher, 0x80 + high % 64, 0x80 + n % 64]
    else [0xF0 + higher / 64, 0x80 + higher % 64, 0x80 + high % 64, 0x80 + n % 64]
  }

  predicate IsContinuation(b: Byte) { 0x80 <= b < 0xC0 }

  function Encode(s: string): seq<Byte> {
    if s == [] then [] else EncodeChar(s[0]) + Encode(s[1..])
  }

  /** `str::len`: the length of a string in bytes. */
  function ByteLen(s: string): nat { |Encode(s)| }

  /** `str::is_char_boundary`, decided as the standard library decides it: from one byte. */
  predicate IsCharBoundary(bytes: seq<Byte>, at: nat) {
    at == 0 || at == |bytes| || (at < |bytes| && !IsContinuation(bytes[at]))
  }

  lemma {:induction false} EncodeConcat(a: string, b: string)
    ensures Encode(a + b) == Encode(a) + Encode(b)
  {
    if a == [] {
      assert a + b == b;
    } else {
      EncodeConcat(a[1..], b);
      assert (a + b)[1..] == a[1..] + b;
    }
  }

  lemma ByteLenConcat(a: string, b: string)
    ensures ByteLen(a + b) == ByteLen(a) + ByteLen(b)
  {
    EncodeConcat(a, b);
  }

  lemma {:induction false} ByteLenBounds(s: string)
    ensures |s| <= ByteLen(s) <= 4 * |s|
  {
    if s != [] { ByteLenBounds(s[1..]); }
  }

  /** The characters whose encoding ends at byte `at`. */
  function SliceTo(s: string, at: nat): (r: string)
    requires at <= ByteLen(s) && IsCharBoundary(Encode(s), at)
    ensures r <= s && ByteLen(r) == at
  {
    if at == 0 then []
    else
      var first := EncodeChar(s[0]);
      assert Encode(s) == first + Encode(s[1..]);
      assert forall i :: 0 <= i < |first| ==> Encode(s)[i] == first[i];
      assert at >= |first|;
      assert IsCharBoundary(Encode(s[1..]), at - |first|) by {
        if |first| < at < |Encode(s)| {
          assert Encode(s)[at] == Encode(s[1..])[at - |first|];
        }
      }
      var rest := SliceTo(s[1..], at - |first|);
      assert ([s[0]] + rest)[1..] == rest;
      [s[0]] + rest
  }

  /** The longest prefix of whole characters that fits in `budget` bytes. */
  function Truncated(s: string, budget: nat): (r: string)
    ensures r <= s && ByteLen(r) <= budget
    ensures r != s ==> ByteLen(s[..|r| + 1]) > budget
  {
    if s == [] || |EncodeChar(s[0])| > budget then
      assert s != [] ==> s[..1][1..] == [];
      []
    else
      var rest := Truncated(s[1..], budget - |EncodeChar(s[0])|);
      var r := [s[0]] + rest;
      assert r[1..] == rest;
      assert r != s ==> s[..|r| + 1][1..] == s[1..][..|rest| + 1];
      r
  }

  lemma {:induction false} ByteLenMonotone(s: string, i: nat, j: nat)
    requires i <= j <= |s|
    ensures ByteLen(s[..i]) <= ByteLen(s[..j])
  {
    assert s[..j] == s[..i] + s[i..j];
    ByteLenConcat(s[..i], s[i..j]);
  }

  /** No prefix longer than the cut fits: the cut is the greatest one, not just some one. */
  lemma TruncatedIsLongest(s: string, budget: nat, k: nat)
    requires k <= |s| && ByteLen(s[..k]) <= budget
    ensures k <= |Truncated(s, budget)|
  {
    var r := Truncated(s, budget);
    if k > |r| { ByteLenMonotone(s, |r| + 1, k); }
  }

  lemma FirstCharacterFits(s: string, budget: nat)
    requires s != [] && 4 <= budget
    ensures Truncated(s, budget) != []
  {}

  /** Two cuts that both fit, where the next character of neither does, are the same cut. */
  lemma LongestPrefixIsUnique(s: string, budget: nat, r: string)
    requires r <= s && ByteLen(r) <= budget
    requires r != s ==> ByteLen(s[..|r| + 1]) > budget
    ensures r == Truncated(s, budget)
  {
    var t := Truncated(s, budget);
    assert r == s[..|r|] && t == s[..|t|];
    TruncatedIsLongest(s, budget, |r|);
    if |r| < |t| { ByteLenMonotone(s, |r| + 1, |t|); }
  }

  lemma BoundaryAfterPrefix(s: string, k: nat)
    requires k <= |s|
    ensures ByteLen(s[..k]) <= ByteLen(s)
    ensures IsCharBoundary(Encode(s), ByteLen(s[..k]))
  {
    assert s == s[..k] + s[k..];
    EncodeConcat(s[..k], s[k..]);
    if k < |s| {
      assert Encode(s[k..]) == EncodeChar(s[k]) + Encode(s[k..][1..]);
      assert Encode(s)[ByteLen(s[..k])] == EncodeChar(s[k])[0];
    }
  }

  /** `truncate_utf8`: step the cut back, byte by byte, until it falls between characters. */
  method TruncateUtf8(value: string, maxBytes: nat) returns (r: string)
    ensures r == Truncated(value, maxBytes)
  {
    var bytes := Encode(value);
    if |bytes| <= maxBytes {
      LongestPrefixIsUnique(value, maxBytes, value);
      return value;
    }
    var end := maxBytes;
    while !IsCharBoundary(bytes, end)
      invariant 0 <= end <= maxBytes
      invariant forall i: nat :: end < i <= maxBytes ==> !IsCharBoundary(bytes, i)
      decreases end
    {
      end := end - 1;
    }
    r := SliceTo(value, end);
    assert r != value;
    if ByteLen(value[..|r| + 1]) <= maxBytes {
      BoundaryAfterPrefix(value, |r| + 1);
      assert value[..|r| + 1] == r + [value[|r|]];
      ByteLenConcat(r, [value[|r|]]);
    }
    LongestPrefixIsUnique(value, maxBytes, r);
  }

  // ----- UTF-8 reads back -----

  /** Two encodings that begin alike begin with the same character. */
  lemma EncodeCharIsPrefixFree(a: char, b: char, x: seq<Byte>, y: seq<Byte>)
    requires EncodeChar(a) + x == EncodeChar(b) + y
    ensures a == b && x == y
  {
    var p, q := EncodeChar(a), EncodeChar(b);
    var whole := p + x;
    assert whole[0] == p[0] == q[0];
    assert forall i :: 0 <= i < |p| ==> whole[i] == p[i];
    assert forall i :: 0 <= i < |q| ==> whole[i] == q[i];
    assert |p| == |q|;
    assert p == whole[..|p|] == q;
    assert x == whole[|p|..] == y;
    EncodeCharIsInjective(a, b);
  }

  lemma EncodeCharIsInjective(a: char, b: char)
    requires EncodeChar(a) == EncodeChar(b)
    ensures a == b
  {
    var p, q := EncodeChar(a), EncodeChar(b);
    var n, m := a as int, b as int;
    match |p| {
      case 1 => assert n == m;
      case 2 => assert n / 64 == m / 64 && n % 64 == m % 64;
      case 3 => assert n / 64 / 64 == m / 64 / 64 && n / 64 % 64 == m / 64 % 64 && n % 64 == m % 64;
      case _ =>
        assert n / 64 / 64 / 64 == m / 64 / 64 / 64 && n / 64 / 64 % 64 == m / 64 / 64 % 64;
        assert n / 64 % 64 == m / 64 % 64 && n % 64 == m % 64;
    }
  }

  lemma {:induction false} EncodeIsInjective(a: string, b: string)
    requires Encode(a) == Encode(b)
    ensures a == b
  {
    if a != [] && b != [] {
      EncodeCharIsPrefixFree(a[0], b[0], Encode(a[1..]), Encode(b[1..]));
      EncodeIsInjective(a[1..], b[1..]);
      assert a == [a[0]] + a[1..] && b == [b[0]] + b[1..];
    }
  }
}
