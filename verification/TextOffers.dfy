/** Text descriptors: the bounded preview and the checks a stored text source must pass. */
module TextOffers {
  import opened Prelude
  import opened Utf8
  import opened PortableNames

  const MAX_TEXT_BYTES: nat := 1024 * 1024
  const MAX_PREVIEW_BYTES: nat := 256

  datatype DescriptorError =
    | EmptyText | TextTooLarge | TextByteCountOverflow | LineCountOverflow
    | EmptyLineCount | PreviewTooLarge | PreviewContainsControl

  datatype TextDescriptor = TextDescriptor(utf8Bytes: U32, lineCount: U32, preview: string)

  predicate IsLineBreak(c: char) { c as int == 10 || c as int == 13 }

  /** One character joins the preview: a line break becomes at most one space, controls vanish. */
  function Normalize(sofar: string, c: char): string {
    if IsLineBreak(c) then (if EndsWith(sofar, ' ') then sofar else sofar + [' '])
    else if IsControl(c) then sofar
    else sofar + [c]
  }

  function Normalized(text: string): string {
    if text == [] then [] else Normalize(Normalized(text[..|text| - 1]), text[|text| - 1])
  }

  function PreviewOf(text: string): string { Truncated(Normalized(text), MAX_PREVIEW_BYTES) }

  predicate ControlFree(s: string) { forall i :: 0 <= i < |s| ==> !IsControl(s[i]) }

  /** `OfferDescriptor::preview`. */
  method Preview(text: string) returns (preview: string)
    ensures preview == PreviewOf(text)
  {
    var normalized := "";
    for i := 0 to |text|
      invariant normalized == Normalized(text[..i])
    {
      assert text[..i + 1][..i] == text[..i];
      if IsLineBreak(text[i]) {
        if !EndsWith(normalized, ' ') {
          normalized := normalized + [' '];
        }
      } else if !IsControl(text[i]) {
        normalized := normalized + [text[i]];
      }
    }
    assert text[..|text|] == text;
    preview := TruncateUtf8(normalized, MAX_PREVIEW_BYTES);
  }

  lemma {:induction false} NormalizedIsControlFree(text: string)
    ensures ControlFree(Normalized(text))
  {
    if text != [] { NormalizedIsControlFree(text[..|text| - 1]); }
  }

  lemma {:induction false} ControlFreeIsNormal(text: string)
    requires ControlFree(text)
    ensures Normalized(text) == text
  {
    if text != [] {
      ControlFreeIsNormal(text[..|text| - 1]);
      assert text == text[..|text| - 1] + [text[|text| - 1]];
    }
  }

  /** Text without controls is taken over as it is, whatever stands before it. */
  lemma {:induction false} PlainTextIsAppended(text: string, plain: string)
    requires ControlFree(plain)
    ensures Normalized(text + plain) == Normalized(text) + plain
    decreases |plain|
  {
    if plain == [] {
      assert text + plain == text;
    } else {
      var most, last := plain[..|plain| - 1], plain[|plain| - 1];
      PlainTextIsAppended(text, most);
      assert (text + plain)[..|text + plain| - 1] == text + most;
      assert most + [last] == plain;
    }
  }

  predicate AllBreaks(s: string) { forall i :: 0 <= i < |s| ==> IsLineBreak(s[i]) }

  /** However many line breaks come together, they give one space, and none after a space. */
  lemma {:induction false} BreaksBecomeOneSpace(text: string, breaks: string)
    requires breaks != [] && AllBreaks(breaks)
    ensures Normalized(text + breaks)
         == if EndsWith(Normalized(text), ' ') then Normalized(text) else Normalized(text) + " "
    decreases |breaks|
  {
    var most := breaks[..|breaks| - 1];
    assert (text + breaks)[..|text + breaks| - 1] == text + most;
    if most == [] { assert text + most == text; } else { BreaksBecomeOneSpace(text, most); }
  }

  /** Two plain lines are joined by one space. */
  lemma JoinedByOneSpace(a: string, breaks: string, b: string)
    requires ControlFree(a) && ControlFree(b) && !EndsWith(a, ' ') && breaks != [] && AllBreaks(breaks)
    ensures Normalized(a + breaks + b) == a + " " + b
  {
    ControlFreeIsNormal(a);
    BreaksBecomeOneSpace(a, breaks);
    PlainTextIsAppended(a + breaks, b);
  }

  /** The text without the controls that are not line breaks. */
  function WithoutControls(text: string): string {
    if text == [] then []
    else
      var last := text[|text| - 1];
      WithoutControls(text[..|text| - 1]) + (if IsControl(last) && !IsLineBreak(last) then [] else [last])
  }

  lemma {:induction false} ControlsDoNotShow(text: string)
    ensures Normalized(WithoutControls(text)) == Normalized(text)
  {
    if text != [] {
      var most, last := text[..|text| - 1], text[|text| - 1];
      ControlsDoNotShow(most);
      var kept := WithoutControls(most);
      if IsControl(last) && !IsLineBreak(last) {
        assert kept + [] == kept;
      } else {
        assert (kept + [last])[..|kept|] == kept;
      }
    }
  }

  /** The characters of a text that are neither controls nor spaces. */
  function Visible(text: string): string {
    if text == [] then []
    else
      var last := text[|text| - 1];
      Visible(text[..|text| - 1]) + (if IsControl(last) || last == ' ' then [] else [last])
  }

  lemma VisibleOneMore(text: string, c: char)
    ensures Visible(text + [c]) == Visible(text) + (if IsControl(c) || c == ' ' then [] else [c])
  {
    assert (text + [c])[..|text|] == text;
  }

  /** Every visible character of the text is kept, once and in order, and nothing visible is added. */
  lemma {:induction false} VisibleTextIsKept(text: string)
    ensures Visible(Normalized(text)) == Visible(text)
  {
    if text != [] {
      var most, last := text[..|text| - 1], text[|text| - 1];
      VisibleTextIsKept(most);
      VisibleOneMore(Normalized(most), last);
      VisibleOneMore(Normalized(most), ' ');
      assert Visible(most) + [] == Visible(most);
    }
  }

  /**
   * The preview shows no control character, is the longest whole-character prefix of the normalised
   * text within its bound, and previewing a preview changes nothing.
   */
  lemma PreviewIsCleanLongestAndStable(text: string, k: nat)
    ensures ControlFree(PreviewOf(text)) && ByteLen(PreviewOf(text)) <= MAX_PREVIEW_BYTES
    ensures PreviewOf(text) <= Normalized(text)
    ensures k <= |Normalized(text)| && ByteLen(Normalized(text)[..k]) <= MAX_PREVIEW_BYTES ==> k <= |PreviewOf(text)|
    ensures PreviewOf(PreviewOf(text)) == PreviewOf(text)
  {
    var normalized, preview := Normalized(text), PreviewOf(text);
    NormalizedIsControlFree(text);
    assert forall i :: 0 <= i < |preview| ==> preview[i] == normalized[i];
    if k <= |normalized| && ByteLen(normalized[..k]) <= MAX_PREVIEW_BYTES {
      TruncatedIsLongest(normalized, MAX_PREVIEW_BYTES, k);
    }
    ControlFreeIsNormal(preview);
    LongestPrefixIsUnique(preview, MAX_PREVIEW_BYTES, preview);
  }

  predicate EndsALine(c: char) { c as int == 10 }

  function LineFeeds(text: string): nat {
    if text == [] then 0
    else LineFeeds(text[..|text| - 1]) + (if EndsALine(text[|text| - 1]) then 1 else 0)
  }

  /** `str::lines().count()`: a last line needs no terminator. */
  function LineCount(text: string): nat {
    LineFeeds(text) + (if text != [] && !EndsALine(text[|text| - 1]) then 1 else 0)
  }

  lemma {:induction false} LineCountBounds(text: string)
    ensures LineFeeds(text) <= |text| && LineCount(text) <= |text| && (text != [] ==> LineCount(text) >= 1)
  {
    if text != [] { LineCountBounds(text[..|text| - 1]); }
  }

  predicate OneLine(s: string) { forall i :: 0 <= i < |s| ==> !EndsALine(s[i]) }

  lemma {:induction false} LineFeedsConcat(a: string, b: string)
    ensures LineFeeds(a + b) == LineFeeds(a) + LineFeeds(b)
    decreases |b|
  {
    if b == [] {
      assert a + b == a;
    } else {
      LineFeedsConcat(a, b[..|b| - 1]);
      assert (a + b)[..|a + b| - 1] == a + b[..|b| - 1];
    }
  }

  lemma {:induction false} OneLineHasNoFeeds(line: string)
    requires OneLine(line)
    ensures LineFeeds(line) == 0
  {
    if line != [] { OneLineHasNoFeeds(line[..|line| - 1]); }
  }

  /** A line counts once, with or without a terminator, and an empty rest counts nothing. */
  lemma LinesAreCounted(line: string, rest: string)
    requires OneLine(line)
    ensures LineCount(line) == if line == "" then 0 else 1
    ensures LineCount(line + ['\n'] + rest) == 1 + LineCount(rest)
  {
    OneLineHasNoFeeds(line);
    var first := line + ['\n'];
    assert first[..|line|] == line && LineFeeds(first) == 1;
    LineFeedsConcat(first, rest);
    if rest == [] { assert first + rest == first; }
  }

  /** `OfferDescriptor::validate` for text. */
  function ValidateDescriptor(d: TextDescriptor): Option<DescriptorError> {
    if d.utf8Bytes == 0 then Some(EmptyText)
    else if d.utf8Bytes > MAX_TEXT_BYTES then Some(TextTooLarge)
    else if d.lineCount == 0 then Some(EmptyLineCount)
    else if ByteLen(d.preview) > MAX_PREVIEW_BYTES then Some(PreviewTooLarge)
    else if !ControlFree(d.preview) then Some(PreviewContainsControl)
    else None
  }

  /** `OfferDescriptor::text`. */
  function DescribeText(text: string): Result<TextDescriptor, DescriptorError> {
    if ByteLen(text) == 0 then Failure(EmptyText)
    else if ByteLen(text) > MAX_TEXT_BYTES then Failure(TextTooLarge)
    else if LineCount(text) > U32_MAX then Failure(LineCountOverflow)
    else if ByteLen(text) > U32_MAX then Failure(TextByteCountOverflow)
    else
      var descriptor := TextDescriptor(ByteLen(text), LineCount(text), PreviewOf(text));
      match ValidateDescriptor(descriptor)
      case None => Success(descriptor)
      case Some(error) => Failure(error)
  }

  /** `OfferSource::validate_for` for a stored text. */
  predicate ValidSource(text: string, descriptor: TextDescriptor) {
    ByteLen(text) <= MAX_TEXT_BYTES && DescribeText(text) == Success(descriptor)
  }

  /** Every non-empty text of at most a mebibyte is described, and its source validates against that. */
  lemma TextIsDescribedIffWithinBounds(text: string)
    ensures DescribeText(text).Success? <==> 1 <= |text| && ByteLen(text) <= MAX_TEXT_BYTES
    ensures DescribeText(text).Success? ==>
              && DescribeText(text).value == TextDescriptor(ByteLen(text), LineCount(text), PreviewOf(text))
              && ValidSource(text, DescribeText(text).value)
              && ValidateDescriptor(DescribeText(text).value) == None
  {
    hide PreviewOf, LineCount, ControlFree, ByteLen;
    ByteLenBounds(text);
    LineCountBounds(text);
    PreviewIsCleanLongestAndStable(text, 0);
  }
}
