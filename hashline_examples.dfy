/**
 * The concrete tags of the source's tests, read by the model of
 * `parse_tag`.
 */
module HashlineExamples {
  import opened Wrappers
  import opened PyStr
  import opened Hashline

  // Accepted forms.

  lemma ParseTagPlain()
    ensures ParseTag("5#ZP") == Ok(LineTag(5, "ZP"))
  {
    var p := TagParts("", "", "", "5", "", "", "ZP", "");
    BareTagText("5", "ZP", "");
    assert "5" + "#" + "ZP" + "" == "5#ZP";
    ParseTagAccepts(p, 5);
  }

  lemma ParseTagPadded()
    ensures ParseTag("  10#MQ  ") == Ok(LineTag(10, "MQ"))
  {
    var p := TagParts("  ", "", "", "10", "", "", "MQ", "  ");
    assert p.Text() == "  10#MQ  ";
    ParseTagAccepts(p, 10);
  }

  /** Whatever follows the tag, here a line's content, is ignored. */
  lemma ParseTagWithContent(content: string)
    ensures ParseTag("3#VR:" + content) == Ok(LineTag(3, "VR"))
  {
    var p := TagParts("", "", "", "3", "", "", "VR", ":" + content);
    BareTagText("3", "VR", ":" + content);
    assert "3" + "#" + "VR" + (":" + content) == "3#VR:" + content;
    ParseTagAccepts(p, 3);
  }

  lemma ParseTagQuoted()
    ensures ParseTag(">>> 12 # KT:x") == Ok(LineTag(12, "KT"))
  {
    var p := TagParts("", ">>>", " ", "12", " ", " ", "KT", ":x");
    assert p.Text() == ">>> 12 # KT:x";
    ParseTagAccepts(p, 12);
  }

  // Rejected forms.

  lemma ParseTagNotATag()
    ensures ParseTag("not-a-tag") == Err(InvalidReference("not-a-tag"))
  {
    NoDigitsAfterLead("not-a-tag", "not-a-tag");
  }

  lemma ParseTagMissingHash()
    ensures ParseTag("5#") == Err(InvalidReference("5#"))
  {
    ParseTagPrefix("5#", "5", "#", "");
  }

  lemma ParseTagLowerCase()
    ensures ParseTag("5#zp") == Err(InvalidReference("5#zp"))
  {
    assert !IsNibble('z') by { NibbleIndexInverse(); }
    ParseTagPrefix("5#zp", "5", "#zp", "zp");
  }

  /** Markers must come before the gap: a second marker after a space stops the scan. */
  lemma ParseTagSplitMarkers()
    ensures ParseTag("> > 5#ZP") == Err(InvalidReference("> > 5#ZP"))
  {
    var ref := "> > 5#ZP";
    var sp := " > 5#ZP";
    assert ref[1..] == sp;
    assert DropWhile(ref, IsMarker) == DropWhile(sp, IsMarker);
    assert DropWhile(sp, IsSpace) == DropWhile("> 5#ZP", IsSpace);
    NoDigitsAfterLead(ref, "> 5#ZP");
  }

  lemma ParseTagLineZero()
    ensures ParseTag("0#ZP") == Err(LineBelowOne(0, "0#ZP"))
  {
    ParseTagPrefix("0#ZP", "0", "#ZP", "ZP");
  }

  lemma NoDigitsAfterLead(ref: string, rest: string)
    requires AfterLead(ref) == rest
    requires rest != [] && !IsDigit(rest[0])
    ensures ParseTag(ref) == Err(InvalidReference(ref))
  {
  }

  /** How `parse_tag` treats a text that starts with digits and then `#`. */
  lemma ParseTagPrefix(ref: string, digits: string, rest: string, afterHash: string)
    requires ref == digits + rest && digits != [] && AllDigits(digits)
    requires rest != [] && rest[0] == '#' && rest[1..] == afterHash
    requires afterHash == [] || !IsSpace(afterHash[0])
    ensures ParseTag(ref) == (
      if |afterHash| >= 2 && IsNibble(afterHash[0]) && IsNibble(afterHash[1]) then
        if ParseDigits(digits) >= 1 then Ok(LineTag(ParseDigits(digits), afterHash[..2]))
        else Err(LineBelowOne(ParseDigits(digits), ref))
      else Err(InvalidReference(ref)))
  {
    LeadSkipped("", "", "", ref);
    assert "" + ("" + ("" + ref)) == ref;
    TakeWhileOver(digits, rest, IsDigit);
    assert ref[|digits|..] == rest;
    DropWhileStops(rest, IsSpace);
    DropWhileStops(afterHash, IsSpace);
  }
}
