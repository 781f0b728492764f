/** The two name policies, spelled out, and how they treat device names. */
module NamePolicy {
  import opened Utf8
  import opened PortableNames
  import opened Trees

  const PLAIN_DEVICES: set<string> := {
    "CON", "PRN", "AUX", "NUL", "COM1", "COM2", "COM3", "COM4", "COM5", "COM6", "COM7", "COM8", "COM9",
    "LPT1", "LPT2", "LPT3", "LPT4", "LPT5", "LPT6", "LPT7", "LPT8", "LPT9"}

  /** Numbered devices whose number is a superscript one, two or three. */
  const SUPERSCRIPT_DEVICES: set<string> := {
    "COM\U{B9}", "COM\U{B2}", "COM\U{B3}", "LPT\U{B9}", "LPT\U{B2}", "LPT\U{B3}"}

  const FORBIDDEN: set<char> := {'<', '>', ':', '"', '/', '\\', '|', '?', '*'}

  lemma DigitIsPlain(c: char)
    requires '1' <= c <= '9'
    ensures "COM" + [c] in PLAIN_DEVICES && "LPT" + [c] in PLAIN_DEVICES
  {
    var com, lpt := "COM" + [c], "LPT" + [c];
    assert com[0] == 'C' && com[1] == 'O' && com[2] == 'M' && com[3] == c;
    assert lpt[0] == 'L' && lpt[1] == 'P' && lpt[2] == 'T' && lpt[3] == c;
    if c <= '3' {
      assert com == "COM1" || com == "COM2" || com == "COM3";
      assert lpt == "LPT1" || lpt == "LPT2" || lpt == "LPT3";
    } else if c <= '6' {
      assert com == "COM4" || com == "COM5" || com == "COM6";
      assert lpt == "LPT4" || lpt == "LPT5" || lpt == "LPT6";
    } else {
      assert com == "COM7" || com == "COM8" || com == "COM9";
      assert lpt == "LPT7" || lpt == "LPT8" || lpt == "LPT9";
    }
  }

  lemma PlainHasDigit(stem: string)
    requires stem in PLAIN_DEVICES && |stem| == 4
    ensures (stem[..3] == "COM" || stem[..3] == "LPT") && '1' <= stem[3] <= '9'
  {}

  /** The four-letter test is membership in the list. */
  lemma NumberedIff(stem: string)
    requires |stem| == 4
    ensures (stem[..3] == "COM" || stem[..3] == "LPT") && '1' <= stem[3] <= '9' <==> stem in PLAIN_DEVICES
  {
    assert stem == stem[..3] + [stem[3]];
    if (stem[..3] == "COM" || stem[..3] == "LPT") && '1' <= stem[3] <= '9' { DigitIsPlain(stem[3]); }
    if stem in PLAIN_DEVICES { PlainHasDigit(stem); }
  }

  lemma SuperscriptIff(stem: string)
    requires |stem| == 4
    ensures (stem[..3] == "COM" || stem[..3] == "LPT") && stem[3] as int in {0xB9, 0xB2, 0xB3}
       <==> stem in SUPERSCRIPT_DEVICES
  {
    if (stem[..3] == "COM" || stem[..3] == "LPT") && stem[3] as int in {0xB9, 0xB2, 0xB3} {
      assert stem[0] == stem[..3][0] && stem[1] == stem[..3][1] && stem[2] == stem[..3][2];
      if stem[..3] == "COM" {
        assert stem == "COM\U{B9}" || stem == "COM\U{B2}" || stem == "COM\U{B3}";
      } else {
        assert stem == "LPT\U{B9}" || stem == "LPT\U{B2}" || stem == "LPT\U{B3}";
      }
    }
  }

  lemma ShortDevices(stem: string)
    ensures |stem| != 4 ==>
      (stem in PLAIN_DEVICES <==> stem == "CON" || stem == "PRN" || stem == "AUX" || stem == "NUL")
    ensures |stem| != 4 ==> stem !in SUPERSCRIPT_DEVICES
  {}

  lemma ReservedIff(stem: string)
    ensures IsReservedStem(stem) <==> stem in PLAIN_DEVICES || stem in SUPERSCRIPT_DEVICES
  {
    ShortDevices(stem);
    if |stem| == 4 {
      NumberedIff(stem);
      SuperscriptIff(stem);
    }
    hide PLAIN_DEVICES, SUPERSCRIPT_DEVICES;
  }

  predicate PlainlyNamed(name: string) {
    && name != "" && name != "." && name != ".." && name[|name| - 1] != ' ' && name[|name| - 1] != '.'
    && forall i :: 0 <= i < |name| ==>
         name[i] !in FORBIDDEN && name[i] as int >= 0x20 && !(0x7F <= name[i] as int <= 0x9F)
  }

  lemma PlainIff(name: string)
    ensures PlainlyNamed(name) <==>
            name != "" && name != "." && name != ".." && AllAllowed(name) && !EndsLoosely(name)
  {}

  /** The destination's policy: plain characters, 255 bytes, and no device once the stem is trimmed. */
  lemma PortableIff(name: string)
    ensures ValidComponent(name) <==>
            && PlainlyNamed(name) && |Encode(name)| <= 255
            && DeviceStem(name) !in PLAIN_DEVICES && DeviceStem(name) !in SUPERSCRIPT_DEVICES
  {
    ReservedIff(DeviceStem(name));
    PlainIff(name);
    assert ByteLen(name) == |Encode(name)| && MAX_COMPONENT_BYTES == 255;
    hide DeviceStem, PLAIN_DEVICES, SUPERSCRIPT_DEVICES, Encode, IsReservedStem, PlainlyNamed, AllAllowed, EndsLoosely,
      ByteLen;
  }

  /** The offer-time policy: plain characters of any number, and no plain device before the first dot. */
  lemma OfferableIff(name: string)
    ensures OfferComponent(name) <==> PlainlyNamed(name) && AsciiUpper(BeforeFirstDot(name)) !in PLAIN_DEVICES
  {
    var stem := AsciiUpper(BeforeFirstDot(name));
    ShortDevices(stem);
    if |stem| == 4 { NumberedIff(stem); }
    PlainIff(name);
    hide PLAIN_DEVICES, SUPERSCRIPT_DEVICES, BeforeFirstDot, AsciiUpper, PlainlyNamed, AllAllowed, EndsLoosely;
  }

  // ----- a device by any other spelling -----

  lemma {:induction false} PaddingIsTrimmed(s: string, n: nat)
    requires !EndsLoosely(s)
    ensures TrimEnd(s + Repeat(' ', n)) == s
  {
    var padded := s + Repeat(' ', n);
    if n == 0 {
      assert padded == s;
    } else {
      assert padded[..|padded| - 1] == s + Repeat(' ', n - 1);
      PaddingIsTrimmed(s, n - 1);
    }
  }

  lemma DevicesAreSolid(device: string, spelled: string)
    requires (device in PLAIN_DEVICES || device in SUPERSCRIPT_DEVICES) && AsciiUpper(spelled) == device
    ensures '.' !in spelled && !EndsLoosely(spelled)
  {
    assert forall i :: 0 <= i < |device| ==> device[i] != '.' && device[i] != ' ';
    assert forall i :: 0 <= i < |spelled| ==> UpperChar(spelled[i]) == device[i];
  }

  /** Every device is refused in any case, with any padding and any extension. */
  lemma DevicesAreRefused(device: string, spelled: string, padding: nat, rest: string)
    requires (device in PLAIN_DEVICES || device in SUPERSCRIPT_DEVICES) && AsciiUpper(spelled) == device
    requires rest == "" || rest[0] == '.'
    ensures !ValidComponent(spelled + Repeat(' ', padding) + rest)
    ensures device in PLAIN_DEVICES ==> !OfferComponent(spelled + rest)
  {
    DevicesAreSolid(device, spelled);
    var stem := spelled + Repeat(' ', padding);
    assert '.' !in stem;
    StemIsBeforeDot(stem, rest);
    StemIsBeforeDot(spelled, rest);
    PaddingIsTrimmed(spelled, padding);
    PortableIff(stem + rest);
    OfferableIff(spelled + rest);
    hide PLAIN_DEVICES, SUPERSCRIPT_DEVICES, ValidComponent, OfferComponent, PlainlyNamed, Encode;
  }

  lemma StemIsBeforeDot(stem: string, rest: string)
    requires '.' !in stem && (rest == "" || rest[0] == '.')
    ensures BeforeFirstDot(stem + rest) == stem
  {
    if rest == "" { assert stem + rest == stem; } else { BeforeFirstDotOfConcat(stem, rest); }
  }
}
