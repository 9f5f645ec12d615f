/**
 * Hash-anchored line editing (patchpal/tools/hashline.py).
 *
 * Every line of a file is shown as `LINE#ID:CONTENT`, where ID is a
 * two-letter name of the low byte of an xxHash32 digest of the line with
 * its whitespace removed.  Edits refer to lines by these tags; a batch is
 * validated against the current file before anything changes, then applied
 * from the bottom of the file upwards.
 *
 * The digest itself (xxHash32 over the UTF-8 bytes) is a parameter of type
 * `Digest`: nothing here depends on its values.
 */
module Hashline {
  import opened Wrappers
  import opened PyStr

  /** xxHash32 of the UTF-8 encoding of a string, as an unsigned integer. */
  type Digest = string -> nat

  // ---------------------------------------------------------------------
  // The hash alphabet
  // ---------------------------------------------------------------------

  const NibbleStr: string := "ZPMQVRWSNKTXJBYH"

  /** Position of a character in the nibble alphabet (16 when absent). */
  function NibbleIndex(c: char): (k: nat)
    ensures k <= 16
  {
    match c
    case 'Z' => 0 case 'P' => 1 case 'M' => 2 case 'Q' => 3
    case 'V' => 4 case 'R' => 5 case 'W' => 6 case 'S' => 7
    case 'N' => 8 case 'K' => 9 case 'T' => 10 case 'X' => 11
    case 'J' => 12 case 'B' => 13 case 'Y' => 14 case 'H' => 15
    case _ => 16
  }

  lemma NibbleIndexInverse()
    ensures |NibbleStr| == 16
    ensures forall k :: 0 <= k < 16 ==> NibbleIndex(NibbleStr[k]) == k
    ensures forall c :: NibbleIndex(c) < 16 <==> c in NibbleStr
  {
    forall c | c in NibbleStr ensures NibbleIndex(c) < 16 {
      var k :| 0 <= k < 16 && NibbleStr[k] == c;
    }
  }

  /** The entry of the hash dictionary for byte value `b`: high nibble, then low nibble. */
  function HashName(b: nat): (r: string)
    requires b < 256
    ensures IsHashName(r)
  {
    [NibbleStr[b / 16], NibbleStr[b % 16]]
  }

  /** A two-character string over the nibble alphabet. */
  predicate IsHashName(h: string)
  {
    |h| == 2 && h[0] in NibbleStr && h[1] in NibbleStr
  }

  /** The 256-entry lookup table from byte values to hash names. */
  const HashDict: seq<string> := seq(256, i requires 0 <= i < 256 => HashName(i))

  /** The byte value a hash name stands for. */
  function HashValue(h: string): (b: nat)
    requires IsHashName(h)
    ensures b < 256
  {
    NibbleIndexInverse();
    16 * NibbleIndex(h[0]) + NibbleIndex(h[1])
  }

  /** The hash dictionary is a bijection between the 256 byte values and the
    * 256 two-letter names over the alphabet. */
  lemma {:induction false} HashDictBijection()
    ensures |HashDict| == 256
    ensures forall b :: 0 <= b < 256 ==> HashValue(HashDict[b]) == b
    ensures forall h :: IsHashName(h) ==> HashDict[HashValue(h)] == h
    ensures forall h :: h in HashDict <==> IsHashName(h)
  {
    forall b | 0 <= b < 256 ensures HashValue(HashDict[b]) == b {
      assert HashDict[b] == HashName(b);
      HashNameValue(b);
    }
    forall h | IsHashName(h) ensures HashDict[HashValue(h)] == h {
      HashValueName(h);
      assert HashDict[HashValue(h)] == HashName(HashValue(h));
    }
    forall h ensures h in HashDict <==> IsHashName(h) {
      if h in HashDict {
        var b :| 0 <= b < 256 && HashDict[b] == h;
        assert HashDict[b] == HashName(b);
      }
      if IsHashName(h) {
        assert HashDict[HashValue(h)] == h;
      }
    }
  }

  lemma HashNameValue(b: nat)
    requires b < 256
    ensures HashValue(HashName(b)) == b
  {
    NibbleIndexInverse();
  }

  lemma HashValueName(h: string)
    requires IsHashName(h)
    ensures HashName(HashValue(h)) == h
  {
    var hi, lo := NibbleIndex(h[0]), NibbleIndex(h[1]);
    NibbleAt(h[0]);
    NibbleAt(h[1]);
    DivMod16(hi, lo);
    assert h == [h[0], h[1]];
  }

  lemma NibbleAt(c: char)
    requires c in NibbleStr
    ensures NibbleIndex(c) < 16 && NibbleStr[NibbleIndex(c)] == c
  {
    NibbleIndexInverse();
    var k :| 0 <= k < 16 && NibbleStr[k] == c;
  }

  lemma DivMod16(hi: nat, lo: nat)
    requires lo < 16
    ensures (16 * hi + lo) / 16 == hi && (16 * hi + lo) % 16 == lo
  {
  }

  // ---------------------------------------------------------------------
  // Line hashes
  // ---------------------------------------------------------------------

  /** The text that is hashed: one trailing carriage return dropped, then
    * every whitespace character removed. */
  function HashInput(line: string): string
  {
    var l := if EndsWith(line, "\r") then line[..|line| - 1] else line;
    RemoveSpace(l)
  }

  /** `compute_line_hash`: the dictionary entry of the digest's low byte.
    * The line number is accepted and ignored, as in the source. */
  function ComputeLineHash(digest: Digest, idx: int, line: string): (r: string)
    ensures IsHashName(r)
  {
    HashDict[digest(HashInput(line)) % 256]
  }

  /** Dropping the carriage return first makes no difference: the hash input
    * is exactly the line without its whitespace. */
  lemma HashInputIsRemoveSpace(line: string)
    ensures HashInput(line) == RemoveSpace(line)
  {
    if EndsWith(line, "\r") {
      var l := line[..|line| - 1];
      assert line == l + "\r";
      RemoveSpaceAppend(l, "\r");
      assert RemoveSpace("\r") == "" by {
        RemoveSpaceOfAllSpace("\r");
      }
    }
  }

  /** Two lines that differ only in whitespace, at whatever line numbers,
    * get the same hash. */
  lemma HashIgnoresWhitespace(digest: Digest, i: int, a: string, j: int, b: string)
    requires RemoveSpace(a) == RemoveSpace(b)
    ensures ComputeLineHash(digest, i, a) == ComputeLineHash(digest, j, b)
  {
    HashInputIsRemoveSpace(a);
    HashInputIsRemoveSpace(b);
  }

  /** Inserting a run of whitespace anywhere in a line keeps its hash. */
  lemma HashIgnoresInsertedWhitespace(digest: Digest, i: int, x: string, ws: string, y: string)
    requires AllSpace(ws)
    ensures ComputeLineHash(digest, i, x + ws + y) == ComputeLineHash(digest, i, x + y)
  {
    RemoveSpaceAppend(x + ws, y);
    RemoveSpaceAppend(x, ws);
    RemoveSpaceAppend(x, y);
    RemoveSpaceOfAllSpace(ws);
    HashIgnoresWhitespace(digest, i, x + ws + y, i, x + y);
  }

  // ---------------------------------------------------------------------
  // Tags and their text form
  // ---------------------------------------------------------------------

  datatype LineTag = LineTag(line: int, hash: string)

  /** `f"{line}#{hash}"` */
  function TagText(t: LineTag): string
  {
    IntToString(t.line) + "#" + t.hash
  }

  /** A tag's text determines the tag: the number ends at the first `#`. */
  lemma TagTextInjective(a: LineTag, b: LineTag)
    requires TagText(a) == TagText(b)
    ensures a == b
  {
    var x := IntToString(a.line);
    var y := IntToString(b.line);
    IntToStringChars(a.line);
    IntToStringChars(b.line);
    HashPosOf(x, a.hash);
    HashPosOf(y, b.hash);
    var t := TagText(a);
    assert x == t[..|x|] && y == t[..|y|];
    IntToStringInjective(a.line, b.line);
    assert a.hash == t[|x| + 1..] == b.hash;
  }

  /** The index of the first `#` of `s`, or `|s|`. */
  function HashPos(s: string): (k: nat)
    ensures k <= |s|
  {
    if s == [] || s[0] == '#' then 0 else 1 + HashPos(s[1..])
  }

  lemma {:induction false} HashPosOf(x: string, h: string)
    requires forall k :: 0 <= k < |x| ==> x[k] != '#'
    ensures HashPos(x + "#" + h) == |x|
  {
    if x != [] {
      assert (x + "#" + h)[1..] == x[1..] + "#" + h;
      HashPosOf(x[1..], h);
    } else {
      assert x + "#" + h == "#" + h;
    }
  }

  /** One displayed line, `f"{num}#{hash}:{line}"`. */
  function HashLine(digest: Digest, num: int, line: string): string
  {
    TagText(LineTag(num, ComputeLineHash(digest, num, line))) + ":" + line
  }

  /** The displayed form of consecutive lines numbered from `start`. */
  function HashLines(digest: Digest, lines: seq<string>, start: int): (r: seq<string>)
    ensures |r| == |lines|
  {
    if lines == [] then []
    else HashLines(digest, lines[..|lines| - 1], start)
         + [HashLine(digest, start + |lines| - 1, lines[|lines| - 1])]
  }

  lemma {:induction false} HashLinesAt(digest: Digest, lines: seq<string>, start: int, i: int)
    requires 0 <= i < |lines|
    ensures HashLines(digest, lines, start)[i] == HashLine(digest, start + i, lines[i])
  {
    if i < |lines| - 1 {
      HashLinesAt(digest, lines[..|lines| - 1], start, i);
    }
  }

  lemma HashLinesSnoc(digest: Digest, lines: seq<string>, i: nat, start: int)
    requires i < |lines|
    ensures HashLines(digest, lines[..i + 1], start)
         == HashLines(digest, lines[..i], start) + [HashLine(digest, start + i, lines[i])]
  {
    assert lines[..i + 1][..i] == lines[..i];
  }

  /** `format_hash_lines`. */
  method FormatHashLines(digest: Digest, content: string, startLine: int) returns (r: string)
    ensures r == Join(HashLines(digest, Split(content, "\n"), startLine), "\n")
  {
    var lines := Split(content, "\n");
    var result: seq<string> := [];
    var i := 0;
    while i < |lines|
      invariant 0 <= i <= |lines|
      invariant result == HashLines(digest, lines[..i], startLine)
    {
      var num := startLine + i;
      var hashVal := ComputeLineHash(digest, num, lines[i]);
      var shown := IntToString(num) + "#" + hashVal + ":" + lines[i];
      assert shown == HashLine(digest, num, lines[i]);
      HashLinesSnoc(digest, lines, i, startLine);
      result := result + [shown];
      i := i + 1;
    }
    assert lines[..i] == lines;
    r := Join(result, "\n");
  }

  /** The displayed form has exactly one line per line of the content, and
    * line `i` is the tag of line `start + i` followed by `:` and the line. */
  lemma {:induction false} FormatHashLinesShape(digest: Digest, content: string, start: int)
    ensures var lines := Split(content, "\n");
            var shown := Split(Join(HashLines(digest, lines, start), "\n"), "\n");
            |shown| == |lines| &&
            forall i :: 0 <= i < |lines| ==> shown[i] == HashLine(digest, start + i, lines[i])
  {
    var lines := Split(content, "\n");
    var hl := HashLines(digest, lines, start);
    SplitNoSeparator(content, '\n');
    forall p | p in hl ensures '\n' !in p {
      var i :| 0 <= i < |hl| && hl[i] == p;
      HashLinesAt(digest, lines, start, i);
      assert lines[i] in lines;
      HashLineHasNoNewline(digest, start + i, lines[i]);
    }
    SplitJoin(hl, '\n');
    forall i | 0 <= i < |lines| ensures hl[i] == HashLine(digest, start + i, lines[i]) {
      HashLinesAt(digest, lines, start, i);
    }
  }

  /** A displayed line starts with its line number. */
  lemma HashLineStart(digest: Digest, num: int, line: string)
    ensures |HashLine(digest, num, line)| > 0
    ensures IsDigit(HashLine(digest, num, line)[0]) || HashLine(digest, num, line)[0] == '-'
  {
    var n := IntToString(num);
    IntToStringChars(num);
    assert HashLine(digest, num, line)[0] == n[0];
  }

  lemma HashLineHasNoNewline(digest: Digest, num: int, line: string)
    requires '\n' !in line
    ensures '\n' !in HashLine(digest, num, line)
  {
    var h := ComputeLineHash(digest, num, line);
    var n := IntToString(num);
    IntToStringChars(num);
    assert '\n' !in n;
    assert '\n' !in h by {
      assert h == [h[0], h[1]];
      assert '\n' !in NibbleStr;
    }
    NotInConcat('\n', n, "#");
    NotInConcat('\n', n + "#", h);
    NotInConcat('\n', n + "#" + h, ":");
    NotInConcat('\n', n + "#" + h + ":", line);
  }

  lemma NotInConcat<T>(x: T, a: seq<T>, b: seq<T>)
    requires x !in a && x !in b
    ensures x !in a + b
  {
  }

  // ---------------------------------------------------------------------
  // parse_tag
  // ---------------------------------------------------------------------

  datatype TagError =
    | InvalidReference(ref: string)     // the text does not start with LINE#ID
    | LineBelowOne(line: int, ref: string)

  predicate IsMarker(c: char)
  {
    c == '>' || c == '+' || c == '-'
  }

  predicate IsNibble(c: char)
  {
    c in NibbleStr
  }

  /** What is left of `s` after its longest prefix of characters satisfying `p`. */
  function DropWhile(s: string, p: char -> bool): (r: string)
    ensures |r| <= |s|
  {
    if s != [] && p(s[0]) then DropWhile(s[1..], p) else s
  }

  /** The longest prefix of `s` of characters satisfying `p`. */
  function TakeWhile(s: string, p: char -> bool): (r: string)
    ensures |r| <= |s|
    ensures forall k :: 0 <= k < |r| ==> p(r[k])
  {
    if s != [] && p(s[0]) then [s[0]] + TakeWhile(s[1..], p) else []
  }

  lemma {:induction false} DropWhileSuffix(s: string, p: char -> bool)
    ensures var r := DropWhile(s, p);
      r == s[|s| - |r|..] && (r == [] || !p(r[0]))
      && forall k :: 0 <= k < |s| - |r| ==> p(s[k])
  {
    if s != [] && p(s[0]) {
      DropWhileSuffix(s[1..], p);
    }
  }

  lemma {:induction false} TakeWhilePrefix(s: string, p: char -> bool)
    ensures var r := TakeWhile(s, p);
      r == s[..|r|] && (|r| == |s| || !p(s[|r|]))
  {
    if s != [] && p(s[0]) {
      TakeWhilePrefix(s[1..], p);
    }
  }

  lemma {:induction false} DropWhileOver(x: string, y: string, p: char -> bool)
    requires forall k :: 0 <= k < |x| ==> p(x[k])
    ensures DropWhile(x + y, p) == DropWhile(y, p)
  {
    if x != [] {
      assert (x + y)[0] == x[0];
      assert (x + y)[1..] == x[1..] + y;
      DropWhileOver(x[1..], y, p);
    } else {
      assert x + y == y;
    }
  }

  lemma DropWhileStops(y: string, p: char -> bool)
    requires y == [] || !p(y[0])
    ensures DropWhile(y, p) == y
  {
  }

  lemma {:induction false} TakeWhileOver(x: string, y: string, p: char -> bool)
    requires forall k :: 0 <= k < |x| ==> p(x[k])
    requires y == [] || !p(y[0])
    ensures TakeWhile(x + y, p) == x
  {
    if x != [] {
      assert (x + y)[0] == x[0];
      assert (x + y)[1..] == x[1..] + y;
      TakeWhileOver(x[1..], y, p);
    } else {
      assert x + y == y;
    }
  }

  /** The text after the optional leading whitespace and diff markers. */
  function AfterLead(ref: string): string
  {
    DropWhile(DropWhile(DropWhile(ref, IsSpace), IsMarker), IsSpace)
  }

  /** `parse_tag`: the pattern `^\s*[>+\-]*\s*(\d+)\s*#\s*([ZPMQVRWSNKTXJBYH]{2})`
    * matched at the start of `ref`, then the line number checked.  The
    * character classes of the pattern are pairwise disjoint, so the only
    * possible match is the greedy one, which the scan below takes. */
  function ParseTag(ref: string): (r: Result<LineTag, TagError>)
    ensures r.Ok? ==> r.value.line >= 1 && IsHashName(r.value.hash)
    ensures r.Err? && r.error.LineBelowOne? ==> r.error.line == 0
  {
    var rest := AfterLead(ref);
    var digits := TakeWhile(rest, IsDigit);
    if digits == [] then Err(InvalidReference(ref))
    else
      var afterDigits := DropWhile(rest[|digits|..], IsSpace);
      if afterDigits == [] || afterDigits[0] != '#' then Err(InvalidReference(ref))
      else
        var h := DropWhile(afterDigits[1..], IsSpace);
        if |h| < 2 || !IsNibble(h[0]) || !IsNibble(h[1]) then Err(InvalidReference(ref))
        else
          var line := ParseDigits(digits);
          if line < 1 then Err(LineBelowOne(line, ref))
          else Ok(LineTag(line, h[..2]))
  }

  /** The pieces of a text that the tag pattern matches. */
  datatype TagParts = TagParts(
    lead: string, markers: string, gap: string, digits: string,
    beforeHash: string, afterHash: string, hash: string, suffix: string)
  {
    function Text(): string
    {
      lead + (markers + (gap + (digits + (beforeHash + ("#" + (afterHash + (hash + suffix)))))))
    }

    predicate WellFormed()
    {
      AllSpace(lead) && (forall i :: 0 <= i < |markers| ==> IsMarker(markers[i]))
      && AllSpace(gap) && digits != [] && AllDigits(digits)
      && AllSpace(beforeHash) && AllSpace(afterHash) && IsHashName(hash)
    }

    /** The outcome the source gives for text of this shape. */
    function Expected(): Result<LineTag, TagError>
      requires WellFormed()
    {
      var n := ParseDigits(digits);
      if n >= 1 then Ok(LineTag(n, hash)) else Err(LineBelowOne(n, Text()))
    }
  }

  /** Every text of the pattern's shape is accepted, with the line number
    * its digits spell and the two letters after the `#`. */
  lemma ParseTagComplete(p: TagParts)
    requires p.WellFormed()
    ensures ParseTag(p.Text()) == p.Expected()
  {
    var hs := p.hash + p.suffix;
    var hf := "#" + (p.afterHash + hs);
    var e := p.beforeHash + hf;
    var tail := p.digits + e;
    assert p.Text() == p.lead + (p.markers + (p.gap + tail));
    LeadSkipped(p.lead, p.markers, p.gap, tail);
    HashSkipped(p.beforeHash, p.afterHash, p.hash, p.suffix);
    TakeWhileOver(p.digits, e, IsDigit);
    assert tail[|p.digits|..] == e;
  }

  /** After the digits: optional whitespace, `#`, optional whitespace, and
    * the two letters of the hash. */
  lemma HashSkipped(beforeHash: string, afterHash: string, hash: string, suffix: string)
    requires AllSpace(beforeHash) && AllSpace(afterHash) && IsHashName(hash)
    ensures var hs := hash + suffix;
      var hf := "#" + (afterHash + hs);
      var e := beforeHash + hf;
      && !IsDigit(e[0])
      && DropWhile(e, IsSpace) == hf && hf[0] == '#'
      && DropWhile(hf[1..], IsSpace) == hs
      && |hs| >= 2 && IsNibble(hs[0]) && IsNibble(hs[1]) && hs[..2] == hash
  {
    var hs := hash + suffix;
    var f := afterHash + hs;
    var hf := "#" + f;
    var e := beforeHash + hf;
    assert e[0] == (if beforeHash == [] then '#' else beforeHash[0]);
    DropWhileOver(beforeHash, hf, IsSpace);
    DropWhileStops(hf, IsSpace);
    assert hf[1..] == f;
    DropWhileOver(afterHash, hs, IsSpace);
    assert hs[0] == hash[0] && hs[1] == hash[1];
    NibbleNotSpace(hash[0]);
    DropWhileStops(hs, IsSpace);
    assert hs[..2] == hash;
  }

  /** The accepting case of the above: a positive line number. */
  lemma ParseTagAccepts(p: TagParts, n: nat)
    requires p.WellFormed() && ParseDigits(p.digits) == n && n >= 1
    ensures ParseTag(p.Text()) == Ok(LineTag(n, p.hash))
  {
    ParseTagComplete(p);
  }

  lemma NibbleNotSpace(c: char)
    requires c in NibbleStr
    ensures !IsSpace(c) && !IsDigit(c) && !IsMarker(c)
  {
    NibbleIndexInverse();
    assert NibbleIndex(c) < 16;
  }

  lemma LeadSkipped(lead: string, markers: string, gap: string, tail: string)
    requires AllSpace(lead) && AllSpace(gap)
    requires forall i :: 0 <= i < |markers| ==> IsMarker(markers[i])
    requires tail != [] && IsDigit(tail[0])
    ensures AfterLead(lead + (markers + (gap + tail))) == tail
  {
    var gt := gap + tail;
    var mgt := markers + gt;
    DropWhileOver(lead, mgt, IsSpace);
    DropWhileOver(gap, tail, IsSpace);
    DropWhileStops(tail, IsSpace);
    DropWhileStops(tail, IsMarker);
    if markers == [] {
      assert mgt == gt;
    } else {
      assert mgt[0] == markers[0];
      DropWhileStops(mgt, IsSpace);
      DropWhileOver(markers, gt, IsMarker);
      assert gt[0] == (if gap == [] then tail[0] else gap[0]);
      DropWhileStops(gt, IsMarker);
    }
  }

  /** The prefix of `s` that `DropWhile(s, p)` removes. */
  function Dropped(s: string, p: char -> bool): string
  {
    s[..|s| - |DropWhile(s, p)|]
  }

  /** The pieces the scan of `parse_tag` finds in `ref`. */
  function TagPartsOf(ref: string): TagParts
  {
    var r1 := DropWhile(ref, IsSpace);
    var r2 := DropWhile(r1, IsMarker);
    var rest := DropWhile(r2, IsSpace);
    var digits := TakeWhile(rest, IsDigit);
    var r4 := rest[|digits|..];
    var r5 := if DropWhile(r4, IsSpace) == [] then [] else DropWhile(r4, IsSpace)[1..];
    var h := DropWhile(r5, IsSpace);
    TagParts(Dropped(ref, IsSpace), Dropped(r1, IsMarker), Dropped(r2, IsSpace), digits,
             Dropped(r4, IsSpace), Dropped(r5, IsSpace),
             if |h| >= 2 then h[..2] else h, if |h| >= 2 then h[2..] else [])
  }

  /** Conversely, whatever `parse_tag` does not reject as malformed has the
    * pattern's shape, and the result is read off that shape. */
  lemma ParseTagSound(ref: string)
    requires !(ParseTag(ref).Err? && ParseTag(ref).error.InvalidReference?)
    ensures TagPartsOf(ref).WellFormed()
    ensures TagPartsOf(ref).Text() == ref
    ensures ParseTag(ref) == TagPartsOf(ref).Expected()
  {
    var p := TagPartsOf(ref);
    var r1 := DropWhile(ref, IsSpace);
    var r2 := DropWhile(r1, IsMarker);
    var rest := DropWhile(r2, IsSpace);
    var digits := TakeWhile(rest, IsDigit);
    var r4 := rest[|digits|..];
    var afterDigits := DropWhile(r4, IsSpace);
    var r5 := afterDigits[1..];
    var h := DropWhile(r5, IsSpace);
    assert digits != [] && afterDigits != [] && afterDigits[0] == '#';
    assert |h| >= 2 && IsNibble(h[0]) && IsNibble(h[1]);
    var n := ParseDigits(digits);
    assert ParseTag(ref) == if n < 1 then Err(LineBelowOne(n, ref)) else Ok(LineTag(n, h[..2]));
    assert p.digits == digits && p.hash == h[..2];
    DropWhileSplit(ref, IsSpace);
    DropWhileSplit(r1, IsMarker);
    DropWhileSplit(r2, IsSpace);
    DropWhileSplit(r4, IsSpace);
    DropWhileSplit(r5, IsSpace);
    TakeWhileSplit(rest, IsDigit);
    SplitAt(h, 2);
    HeadTail(afterDigits, '#');
    AssembleText(p, ref, r1, r2, rest, r4, afterDigits, r5, h);
    assert IsHashName(p.hash) by {
      assert p.hash[0] == h[0] && p.hash[1] == h[1];
    }
    assert AllSpace(p.lead) && AllSpace(p.gap) && AllSpace(p.beforeHash) && AllSpace(p.afterHash);
    assert p.WellFormed();
  }

  lemma AssembleText(p: TagParts, ref: string, r1: string, r2: string, rest: string,
                     r4: string, afterDigits: string, r5: string, h: string)
    requires ref == p.lead + r1 && r1 == p.markers + r2 && r2 == p.gap + rest
    requires rest == p.digits + r4 && r4 == p.beforeHash + afterDigits
    requires afterDigits == "#" + r5 && r5 == p.afterHash + h && h == p.hash + p.suffix
    ensures p.Text() == ref
  {
  }

  lemma SplitAt(s: string, n: nat)
    requires n <= |s|
    ensures s == s[..n] + s[n..]
  {
  }

  lemma HeadTail(s: string, c: char)
    requires s != [] && s[0] == c
    ensures s == [c] + s[1..]
  {
  }

  /** `s` is the prefix `DropWhile` removes, all satisfying `p`, followed by what is left. */
  lemma DropWhileSplit(s: string, p: char -> bool)
    ensures s == Dropped(s, p) + DropWhile(s, p)
    ensures forall k :: 0 <= k < |Dropped(s, p)| ==> p(Dropped(s, p)[k])
  {
    DropWhileSuffix(s, p);
    var r := DropWhile(s, p);
    var d := Dropped(s, p);
    assert s == d + s[|s| - |r|..];
    forall k | 0 <= k < |d| ensures p(d[k]) {
      assert d[k] == s[k];
    }
  }

  /** `s` is what `TakeWhile` takes followed by the rest. */
  lemma TakeWhileSplit(s: string, p: char -> bool)
    ensures s == TakeWhile(s, p) + s[|TakeWhile(s, p)|..]
  {
    TakeWhilePrefix(s, p);
    var t := TakeWhile(s, p);
    assert s == s[..|t|] + s[|t|..];
  }

  /** A tag written as `f"{line}#{hash}"`, followed by anything, reads back as itself. */
  lemma ParseTagText(t: LineTag, suffix: string)
    requires t.line >= 1 && IsHashName(t.hash)
    ensures ParseTag(TagText(t) + suffix) == Ok(t)
  {
    var digits := NatToString(t.line);
    var p := TagParts("", "", "", digits, "", "", t.hash, suffix);
    ParseNatToString(t.line);
    BareTagText(digits, t.hash, suffix);
    assert TagText(t) == digits + "#" + t.hash;
    ParseTagComplete(p);
  }

  /** The text of a tag with no whitespace and no markers. */
  lemma BareTagText(digits: string, hash: string, suffix: string)
    ensures TagParts("", "", "", digits, "", "", hash, suffix).Text() == digits + "#" + hash + suffix
  {
  }

  /** Each line `format_hash_lines` shows reads back as the tag of that line. */
  lemma ParseHashLine(digest: Digest, num: int, line: string)
    requires num >= 1
    ensures ParseTag(HashLine(digest, num, line)) == Ok(LineTag(num, ComputeLineHash(digest, num, line)))
  {
    var t := LineTag(num, ComputeLineHash(digest, num, line));
    AppendAssoc(TagText(t), ":", line);
    ParseTagText(t, ":" + line);
  }

  lemma AppendAssoc<T>(a: seq<T>, b: seq<T>, c: seq<T>)
    ensures a + b + c == a + (b + c)
  {
  }
}
