/**
 * The pure halves of `read_lines` and `read_file`
 * (`patchpal/tools/file_operations.py`): range checks and numbered output
 * for a line range, and the `IMAGE_DATA:` text that stands for a raster
 * image.  The file itself is a parameter: `lines` is what `readlines()`
 * returned.
 */
module FileOperations {
  import opened Wrappers
  import opened PyStr

  // ---------------------------------------------------------------------
  // read_lines
  // ---------------------------------------------------------------------

  /** The three `ValueError`s `read_lines` raises about line numbers. */
  datatype RangeError =
    | StartBelowOne(start: int)
    | EndBeforeStart(end: int, start: int)
    | StartPastEnd(start: int, total: int)

  /** `f"{i:4d}  {line.rstrip()}"`. */
  function NumberedLine(i: int, line: string): string
  {
    PadLeft(IntToString(i), 4) + "  " + RStrip(line)
  }

  /** The rows for lines `start..stop` (1-based, inclusive), each with
    * its own number. */
  function Rows(lines: seq<string>, start: int, stop: int): (rows: seq<string>)
    requires 1 <= start <= stop + 1 && stop <= |lines|
    ensures |rows| == stop - start + 1
    ensures forall k :: 0 <= k < |rows| ==> rows[k] == NumberedLine(start + k, lines[start - 1 + k])
  {
    seq(stop - start + 1, k requires 0 <= k < stop - start + 1 => NumberedLine(start + k, lines[start - 1 + k]))
  }

  lemma RowsSnoc(lines: seq<string>, start: int, i: int)
    requires 1 <= start <= i <= |lines|
    ensures Rows(lines, start, i) == Rows(lines, start, i - 1) + [NumberedLine(i, lines[i - 1])]
  {
    var a := Rows(lines, start, i);
    var b := Rows(lines, start, i - 1) + [NumberedLine(i, lines[i - 1])];
    assert |a| == |b|;
    forall k | 0 <= k < |a| ensures a[k] == b[k] {
      if k < |a| - 1 {
        assert b[k] == Rows(lines, start, i - 1)[k];
      }
    }
  }

  const NotePrefix := "\n\n(Note: Requested lines up to "
  const NoteMiddle := ", but file only has "
  const NoteSuffix := " lines)"

  /** The note added when `end_line` lay past the end of the file. */
  function Note(end: int, total: int): string
  {
    NotePrefix + IntToString(end) + NoteMiddle + IntToString(total) + NoteSuffix
  }

  /** Which check, if any, rejects the arguments; the checks run in the
    * order of the source. */
  function CheckRange(start: int, end: Option<int>, total: nat): (r: Option<RangeError>)
    ensures r.None? <==> 1 <= start <= total && (end.None? || start <= end.value)
  {
    if start < 1 then Some(StartBelowOne(start))
    else if end.Some? && end.value < start then Some(EndBeforeStart(end.value, start))
    else if start > total then Some(StartPastEnd(start, total))
    else None
  }

  /** `read_lines` once the file has been read: the error the checks
    * raise, or rows `start..min(end, total)` joined by `"\n"`, followed by
    * the note exactly when `end` exceeded the file length. */
  method ReadLines(lines: seq<string>, start: int, end: Option<int>) returns (r: Result<string, RangeError>)
    ensures CheckRange(start, end, |lines|).Some? ==> r == Err(CheckRange(start, end, |lines|).value)
    ensures CheckRange(start, end, |lines|).None? && end.GetOr(start) <= |lines| ==>
      r == Ok(Join(Rows(lines, start, end.GetOr(start)), "\n"))
    ensures CheckRange(start, end, |lines|).None? && end.GetOr(start) > |lines| ==>
      r == Ok(Join(Rows(lines, start, |lines|), "\n") + Note(end.GetOr(start), |lines|))
  {
    if start < 1 {
      return Err(StartBelowOne(start));
    }
    var endLine := start;
    if end.Some? {
      if end.value < start {
        return Err(EndBeforeStart(end.value, start));
      }
      endLine := end.value;
    }
    var total := |lines|;
    if start > total {
      return Err(StartPastEnd(start, total));
    }
    var actualEnd := if endLine <= total then endLine else total;
    var result := NumberRows(lines, start, actualEnd);
    assert endLine == end.GetOr(start);
    var output := Join(result, "\n");
    if actualEnd < endLine {
      output := output + Note(endLine, total);
    }
    return Ok(output);
  }

  /** The loop of `read_lines` collecting the numbered rows `start..stop`. */
  method NumberRows(lines: seq<string>, start: int, stop: int) returns (result: seq<string>)
    requires 1 <= start <= stop + 1 && stop <= |lines|
    ensures result == Rows(lines, start, stop)
  {
    result := [];
    var i := start;
    while i <= stop
      invariant start <= i <= stop + 1
      invariant result == Rows(lines, start, i - 1)
    {
      RowsSnoc(lines, start, i);
      result := result + [NumberedLine(i, lines[i - 1])];
      i := i + 1;
    }
  }

  /** `readlines()` keeps each line's terminator: a `"\n"` can only be the
    * last character of a line. */
  predicate LineShaped(line: string)
  {
    forall j :: 0 <= j < |line| - 1 ==> line[j] != '\n'
  }

  /** Stripping a read line removes its terminator. */
  lemma StrippedHasNoNewline(line: string)
    requires LineShaped(line)
    ensures '\n' !in RStrip(line)
  {
    var r := RStrip(line);
    RStripShape(line);
    forall j | 0 <= j < |r| ensures r[j] != '\n' {
      assert r[j] == line[j];
      if j == |r| - 1 {
        assert !IsSpace(r[j]);
      } else {
        assert j < |line| - 1;
      }
    }
  }

  lemma NumberedLineNoNewline(i: int, line: string)
    requires LineShaped(line)
    ensures '\n' !in NumberedLine(i, line)
  {
    StrippedHasNoNewline(line);
    var num := PadLeft(IntToString(i), 4);
    IntToStringChars(i);
    PadLeftChars(IntToString(i), 4);
    assert '\n' !in num;
    assert NumberedLine(i, line) == num + "  " + RStrip(line);
  }

  /** Padding only adds spaces in front. */
  lemma {:induction false} PadLeftChars(s: string, width: nat)
    ensures forall c :: c in PadLeft(s, width) ==> c in s || c == ' '
    decreases width - |s|
  {
    if |s| < width {
      PadLeftChars([' '] + s, width);
    }
  }

  /** The output holds one text line per row: splitting it at `"\n"` gives
    * back the rows, so exactly `min(end, total) - start + 1` lines come
    * before the note. */
  lemma RowsSplit(lines: seq<string>, start: int, stop: int)
    requires 1 <= start <= stop <= |lines|
    requires forall j :: 0 <= j < |lines| ==> LineShaped(lines[j])
    ensures Split(Join(Rows(lines, start, stop), "\n"), "\n") == Rows(lines, start, stop)
  {
    var rows := Rows(lines, start, stop);
    forall p | p in rows ensures '\n' !in p {
      var k :| 0 <= k < |rows| && rows[k] == p;
      NumberedLineNoNewline(start + k, lines[start - 1 + k]);
    }
    SplitJoin(rows, '\n');
  }

  /** Below line 10000 the number takes exactly four columns: the row is
    * the right-aligned number, two spaces, then the stripped line. */
  lemma NumberedLineLayout(i: int, line: string)
    requires 1 <= i < 10000
    ensures var row := NumberedLine(i, line);
      |row| >= 6 && row[4..6] == "  " && row[6..] == RStrip(line)
      && EndsWith(row[..4], IntToString(i))
  {
    NatToStringShort(i);
    var num := PadLeft(IntToString(i), 4);
    var row := NumberedLine(i, line);
    assert |num| == 4;
    assert row == num + "  " + RStrip(line);
    assert row[..4] == num;
    assert row[4..6] == "  ";
    assert row[6..] == RStrip(line);
  }

  lemma {:induction false} NatToStringShort(n: nat)
    ensures n < 10 ==> |NatToString(n)| <= 1
    ensures n < 100 ==> |NatToString(n)| <= 2
    ensures n < 1000 ==> |NatToString(n)| <= 3
    ensures n < 10000 ==> |NatToString(n)| <= 4
  {
    if n >= 10 {
      NatToStringShort(n / 10);
    }
  }

  // ---------------------------------------------------------------------
  // read_file, raster images
  // ---------------------------------------------------------------------

  const ImageDataTag := "IMAGE_DATA:"

  /** The MIME type `read_file` reports for a raster image: the guessed
    * type when there is one, else one chosen from the lower-cased
    * extension, with `image/png` as the fallback. */
  function ImageMime(guessed: Option<string>, ext: string): (mime: string)
    ensures guessed.Some? && guessed.value != "" ==> mime == guessed.value
    ensures (guessed.None? || guessed.value == "") && ext !in {".jpg", ".jpeg", ".gif", ".bmp", ".webp", ".ico"}
            ==> mime == "image/png"
  {
    if guessed.Some? && guessed.value != "" then guessed.value
    else if ext == ".jpg" || ext == ".jpeg" then "image/jpeg"
    else if ext == ".png" then "image/png"
    else if ext == ".gif" then "image/gif"
    else if ext == ".bmp" then "image/bmp"
    else if ext == ".webp" then "image/webp"
    else if ext == ".ico" then "image/x-icon"
    else "image/png"
  }

  /** `f"IMAGE_DATA:{image_mime}:{b64_data}"`. */
  function ImageData(mime: string, b64: string): (s: string)
    ensures StartsWith(s, ImageDataTag)
    ensures s[|ImageDataTag|..] == mime + ":" + b64
  {
    var s := ImageDataTag + mime + ":" + b64;
    assert s[..|ImageDataTag|] == ImageDataTag;
    s
  }

  /** A MIME type `read_file` picks itself never holds a colon, so the
    * first colon after the tag ends it. */
  lemma ImageMimeNoColon(ext: string)
    ensures ':' !in ImageMime(None, ext)
  {
  }
}
