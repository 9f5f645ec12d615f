/**
 * The pure part of `edit_file` (`patchpal/tools/file_editing.py`): after
 * the strategies have found the text to replace, the check that it is
 * unique (with the line of every occurrence when it is not), the
 * re-indentation of the new text to the indentation of the matched text,
 * the preservation of the matched text's trailing newlines, and the
 * replacement itself.  Reading and writing the file, the permission
 * prompt, the backup and the diff are not part of this model.
 */
module EditFile {
  import opened Wrappers
  import opened PyStr
  import opened FileEditing

  // ---------------------------------------------------------------------
  // Occurrences
  // ---------------------------------------------------------------------

  /** Every index at or after `start` where `m` occurs, in increasing
    * order, overlapping occurrences included: the positions the
    * `content.find(matched_string, start)` loop visits. */
  function Positions(content: string, m: string, start: nat): (r: seq<nat>)
    requires |m| > 0
    decreases |content| - start
  {
    match Find(content, m, start)
    case None => []
    case Some(p) => [p] + Positions(content, m, p + 1)
  }

  /** Each position is an occurrence at or after `start`. */
  lemma {:induction false} PositionsOccur(content: string, m: string, start: nat)
    requires |m| > 0
    ensures forall k :: 0 <= k < |Positions(content, m, start)| ==>
      start <= Positions(content, m, start)[k] && OccursAt(content, m, Positions(content, m, start)[k])
    decreases |content| - start
  {
    var f := Find(content, m, start);
    if f.Some? {
      var p := f.value;
      var rest := Positions(content, m, p + 1);
      PositionsOccur(content, m, p + 1);
      assert Positions(content, m, start) == [p] + rest;
    }
  }

  /** The positions increase. */
  lemma {:induction false} PositionsIncrease(content: string, m: string, start: nat)
    requires |m| > 0
    ensures forall k :: 0 <= k < |Positions(content, m, start)| - 1 ==>
      Positions(content, m, start)[k] < Positions(content, m, start)[k + 1]
    decreases |content| - start
  {
    var f := Find(content, m, start);
    if f.Some? {
      var p := f.value;
      var rest := Positions(content, m, p + 1);
      PositionsIncrease(content, m, p + 1);
      if rest != [] {
        PositionsHead(content, m, p + 1);
      }
      var r := Positions(content, m, start);
      assert r == [p] + rest;
      forall k | 0 <= k < |r| - 1 ensures r[k] < r[k + 1] {
        assert r[k + 1] == rest[k];
        if k > 0 {
          assert r[k] == rest[k - 1];
        }
      }
    }
  }

  lemma PositionsHead(content: string, m: string, start: nat)
    requires |m| > 0 && Positions(content, m, start) != []
    ensures Positions(content, m, start)[0] == Find(content, m, start).value >= start
  {
  }

  /** No occurrence at or after `start` is missed. */
  lemma {:induction false} PositionsComplete(content: string, m: string, start: nat, q: nat)
    requires |m| > 0 && start <= q && OccursAt(content, m, q)
    ensures q in Positions(content, m, start)
    decreases |content| - start
  {
    match Find(content, m, start)
    case None =>
    case Some(p) =>
      if p < q {
        PositionsComplete(content, m, p + 1, q);
      }
  }

  /** The line an index falls on: one more than the newlines before it
    * (an index past the end counts all of them). */
  function LineOf(content: string, pos: nat): nat
  {
    var end := if pos <= |content| then pos else |content|;
    CountChar(content[..end], '\n') + 1
  }

  /** The line of each position. */
  function LinesAt(content: string, ps: seq<nat>): (r: seq<nat>)
    ensures |r| == |ps|
    ensures forall k :: 0 <= k < |ps| ==> r[k] == LineOf(content, ps[k])
  {
    seq(|ps|, k requires 0 <= k < |ps| => LineOf(content, ps[k]))
  }

  /** The line numbers `edit_file` lists when the matched text is not
    * unique, from `start` on: the line of each of `Positions`. */
  function OccurrenceLines(content: string, m: string, start: nat): (r: seq<nat>)
    requires |m| > 0
    decreases |content| - start
  {
    match Find(content, m, start)
    case None => []
    case Some(p) => [LineOf(content, p)] + OccurrenceLines(content, m, p + 1)
  }

  /** The listed lines are those of the occurrences, in order. */
  lemma {:induction false} OccurrenceLinesOfPositions(content: string, m: string, start: nat)
    requires |m| > 0
    ensures OccurrenceLines(content, m, start) == LinesAt(content, Positions(content, m, start))
    decreases |content| - start
  {
    match Find(content, m, start)
    case None =>
    case Some(p) =>
      var ps := Positions(content, m, p + 1);
      OccurrenceLinesOfPositions(content, m, p + 1);
      assert Positions(content, m, start) == [p] + ps;
      LinesAtCons(content, p, ps);
  }

  lemma LinesAtCons(content: string, p: nat, ps: seq<nat>)
    ensures LinesAt(content, [p] + ps) == [LineOf(content, p)] + LinesAt(content, ps)
  {
  }

  /** The position loop of `edit_file`. */
  method ListOccurrenceLines(content: string, m: string) returns (lines: seq<nat>)
    requires |m| > 0
    ensures lines == OccurrenceLines(content, m, 0)
  {
    lines := [];
    var start: nat := 0;
    while true
      invariant lines + OccurrenceLines(content, m, start) == OccurrenceLines(content, m, 0)
      decreases |content| + 1 - start
    {
      var pos := Find(content, m, start);
      if pos.None? {
        break;
      }
      lines := lines + [LineOf(content, pos.value)];
      start := pos.value + 1;
    }
  }

  /** `Find` from `k` on the whole text agrees with `Find` on the text
    * from `k`. */
  lemma FindFromNone(s: string, t: string, k: nat, rest: string)
    requires k <= |s| && rest == s[k..] && Find(s, t, k).None?
    ensures Find(rest, t, 0).None?
  {
    var f := Find(rest, t, 0);
    if f.Some? {
      var x := f.value;
      assert rest[x..x + |t|] == s[k + x..k + x + |t|];
      assert OccursAt(s, t, k + x);
    }
  }

  /** A text with no occurrence is left alone by `replace`. */
  lemma ReplaceNone(s: string, t: string, r: string)
    requires |t| > 0 && Find(s, t, 0).None?
    ensures Replace(s, t, r) == s
  {
  }

  /** With exactly one occurrence, there is none after the first. */
  lemma CountOne(s: string, t: string)
    requires |t| > 0 && Count(s, t, 0) == 1
    ensures Find(s, t, 0).Some?
    ensures Find(s, t, Find(s, t, 0).value + |t|).None?
  {
  }

  /** `replace` at the first occurrence. */
  lemma ReplaceAt(s: string, t: string, r: string)
    requires |t| > 0 && Find(s, t, 0).Some?
    ensures var i := Find(s, t, 0).value;
      Replace(s, t, r) == s[..i] + r + Replace(s[i + |t|..], t, r)
  {
  }

  /** When the first occurrence is the only one, `replace` swaps it. */
  lemma ReplaceOnly(s: string, t: string, r: string)
    requires |t| > 0 && Find(s, t, 0).Some?
    requires Find(s[Find(s, t, 0).value + |t|..], t, 0).None?
    ensures var i := Find(s, t, 0).value;
      Replace(s, t, r) == s[..i] + r + s[i + |t|..]
  {
    ReplaceAt(s, t, r);
    var i := Find(s, t, 0).value;
    ReplaceNone(s[i + |t|..], t, r);
  }

  /** With exactly one occurrence, `replace` swaps that one. */
  lemma ReplaceOnce(s: string, t: string, r: string)
    requires |t| > 0 && Count(s, t, 0) == 1
    ensures Find(s, t, 0).Some?
    ensures var i := Find(s, t, 0).value;
      Replace(s, t, r) == s[..i] + r + s[i + |t|..]
  {
    CountOne(s, t);
    var i := Find(s, t, 0).value;
    FindFromNone(s, t, i + |t|, s[i + |t|..]);
    ReplaceOnly(s, t, r);
  }

  /** What occurs is counted at least once. */
  lemma CountPositive(s: string, t: string)
    requires |t| > 0 && Contains(s, t)
    ensures Count(s, t, 0) >= 1
  {
  }

  // ---------------------------------------------------------------------
  // Indentation
  // ---------------------------------------------------------------------

  /** `len(line) - len(line.lstrip())`. */
  function Indent(line: string): nat
  {
    LeadingSpace(line)
  }

  /** `c * n`: the character `c`, `n` times. */
  function Repeat(c: char, n: nat): (r: string)
    ensures |r| == n && forall i :: 0 <= i < n ==> r[i] == c
  {
    seq(n, _ => c)
  }

  /** One line of the new text moved by `diff` columns: blank lines stay;
    * a positive `diff` adds that many spaces; a negative one removes
    * that many leading characters when they are all whitespace. */
  function ShiftLine(line: string, diff: int): string
  {
    if Strip(line) == "" then line
    else if diff > 0 then Repeat(' ', diff) + line
    else
      var cut := if -diff <= |line| then -diff else |line|;
      if Strip(line[..cut]) == "" then line[cut..] else line
  }

  function ShiftLines(ls: seq<string>, diff: int): (r: seq<string>)
    ensures |r| == |ls|
    ensures forall i :: 0 <= i < |ls| ==> r[i] == ShiftLine(ls[i], diff)
  {
    seq(|ls|, i requires 0 <= i < |ls| => ShiftLine(ls[i], diff))
  }

  /** The condition under which `edit_file` re-indents: both first lines
    * non-empty with different indentation. */
  predicate NeedsShift(matched: string, replacement: string)
  {
    Lines(matched)[0] != "" && Lines(replacement)[0] != ""
    && Indent(Lines(matched)[0]) != Indent(Lines(replacement)[0])
  }

  function IndentDiff(matched: string, replacement: string): int
  {
    Indent(Lines(matched)[0]) - Indent(Lines(replacement)[0])
  }

  /** Step 1 of `edit_file`: the new text with every line moved by the
    * difference between the first lines' indentation. */
  function Reindented(matched: string, replacement: string): string
  {
    if NeedsShift(matched, replacement) then
      Join(ShiftLines(Lines(replacement), IndentDiff(matched, replacement)), "\n")
    else replacement
  }

  /** The loop of step 1 that moves every line. */
  method ShiftAll(ls: seq<string>, diff: int) returns (out: seq<string>)
    ensures out == ShiftLines(ls, diff)
  {
    out := [];
    for i := 0 to |ls|
      invariant |out| == i
      invariant forall j :: 0 <= j < i ==> out[j] == ShiftLine(ls[j], diff)
    {
      out := out + [ShiftLine(ls[i], diff)];
    }
  }

  /** Step 1. */
  method AdjustIndentation(matched: string, replacement: string) returns (adjusted: string)
    ensures adjusted == Reindented(matched, replacement)
  {
    adjusted := replacement;
    var matchedLines := Lines(matched);
    var newLines := Lines(replacement);
    if matchedLines[0] != "" && newLines[0] != "" {
      var matchedIndent: int := Indent(matchedLines[0]);
      var newIndent: int := Indent(newLines[0]);
      if matchedIndent != newIndent {
        var diff := matchedIndent - newIndent;
        assert NeedsShift(matched, replacement) && diff == IndentDiff(matched, replacement);
        var adjustedLines := ShiftAll(newLines, diff);
        adjusted := Join(adjustedLines, "\n");
      } else {
        assert !NeedsShift(matched, replacement);
      }
    } else {
      assert !NeedsShift(matched, replacement);
    }
  }

  /** Moving a line keeps it free of newlines. */
  lemma ShiftLineNoNewline(line: string, diff: int)
    requires '\n' !in line
    ensures '\n' !in ShiftLine(line, diff)
  {
    if Strip(line) != "" && diff > 0 {
      assert forall c :: c in Repeat(' ', diff) ==> c == ' ';
    }
  }

  /** The re-indented text splits back into the moved lines. */
  lemma ReindentedLines(matched: string, replacement: string)
    requires NeedsShift(matched, replacement)
    ensures Lines(Reindented(matched, replacement))
            == ShiftLines(Lines(replacement), IndentDiff(matched, replacement))
  {
    var ls := Lines(replacement);
    var shifted := ShiftLines(ls, IndentDiff(matched, replacement));
    SplitNoSeparator(replacement, '\n');
    forall p | p in shifted ensures '\n' !in p {
      var i :| 0 <= i < |shifted| && shifted[i] == p;
      assert ls[i] in ls;
      ShiftLineNoNewline(ls[i], IndentDiff(matched, replacement));
    }
    SplitJoin(shifted, '\n');
  }

  /** Re-indenting keeps the number of lines. */
  lemma ReindentKeepsLineCount(matched: string, replacement: string)
    ensures |Lines(Reindented(matched, replacement))| == |Lines(replacement)|
  {
    if NeedsShift(matched, replacement) {
      ReindentedLines(matched, replacement);
    }
  }

  /** Leading spaces in front of a line add to its indentation. */
  lemma {:induction false} IndentSpaces(n: nat, line: string)
    ensures Indent(Repeat(' ', n) + line) == n + Indent(line)
  {
    if n > 0 {
      assert Repeat(' ', n) + line == [' '] + (Repeat(' ', n - 1) + line);
      assert (Repeat(' ', n) + line)[1..] == Repeat(' ', n - 1) + line;
      IndentSpaces(n - 1, line);
    } else {
      assert Repeat(' ', n) + line == line;
    }
  }

  /** Dropping part of the indentation takes that much off it. */
  lemma {:induction false} IndentDrop(line: string, k: nat)
    requires k <= Indent(line)
    ensures Indent(line[k..]) == Indent(line) - k
  {
    if k > 0 {
      assert line[..Indent(line)][0] == line[0];
      assert IsSpace(line[0]);
      assert line[1..][k - 1..] == line[k..];
      assert LStrip(line) == LStrip(line[1..]);
      IndentDrop(line[1..], k - 1);
    } else {
      assert line[0..] == line;
    }
  }

  /** A non-blank line moved right by `diff` columns is indented `diff`
    * more. */
  lemma ShiftLineRight(line: string, diff: int)
    requires Strip(line) != "" && diff > 0
    ensures Indent(ShiftLine(line, diff)) == Indent(line) + diff
  {
    IndentSpaces(diff, line);
  }

  /** A non-blank line moved left by no more than its indentation is
    * indented that much less. */
  lemma ShiftLineLeft(line: string, diff: int)
    requires Strip(line) != "" && diff <= 0 && -diff <= Indent(line)
    ensures Indent(ShiftLine(line, diff)) == Indent(line) + diff
  {
    var cut := -diff;
    var n := Indent(line);
    assert AllSpace(line[..cut]) by {
      assert forall j :: 0 <= j < cut ==> line[..cut][j] == line[..n][j];
    }
    StripEmptyIffAllSpace(line[..cut]);
    assert ShiftLine(line, diff) == line[cut..];
    IndentDrop(line, cut);
  }

  /** A non-blank line moved by `diff` columns is indented `diff` more,
    * when no more than its indentation is taken away. */
  lemma ShiftLineIndent(line: string, diff: int)
    requires Strip(line) != "" && -diff <= Indent(line)
    ensures Indent(ShiftLine(line, diff)) == Indent(line) + diff
  {
    if diff > 0 {
      ShiftLineRight(line, diff);
    } else {
      ShiftLineLeft(line, diff);
    }
  }

  /** The first line of the new text takes the matched text's
    * indentation, provided it is not blank. */
  lemma ReindentFirstLine(matched: string, replacement: string)
    requires NeedsShift(matched, replacement)
    requires Strip(Lines(replacement)[0]) != ""
    ensures Indent(Lines(Reindented(matched, replacement))[0]) == Indent(Lines(matched)[0])
  {
    ReindentedLines(matched, replacement);
    ShiftLineIndent(Lines(replacement)[0], IndentDiff(matched, replacement));
  }

  // ---------------------------------------------------------------------
  // Trailing newlines
  // ---------------------------------------------------------------------

  /** `len(s) - len(s.rstrip("\n"))`. */
  function TrailingNewlines(s: string): (n: nat)
    ensures n <= |s|
  {
    if s != [] && s[|s| - 1] == '\n' then 1 + TrailingNewlines(s[..|s| - 1]) else 0
  }

  /** Step 2 of `edit_file`: when the matched text ends with a newline
    * and the adjusted text does not, as many newlines as the matched
    * text ends with are appended. */
  function KeepTrailingNewlines(matched: string, adjusted: string): string
  {
    if EndsWith(matched, "\n") && !EndsWith(adjusted, "\n") then
      adjusted + Repeat('\n', TrailingNewlines(matched))
    else adjusted
  }

  lemma {:induction false} TrailingNewlinesOfAppend(a: string, n: nat)
    requires !EndsWith(a, "\n")
    ensures TrailingNewlines(a + Repeat('\n', n)) == n
  {
    if n > 0 {
      var s := a + Repeat('\n', n);
      assert s[|s| - 1] == '\n';
      assert s[..|s| - 1] == a + Repeat('\n', n - 1);
      TrailingNewlinesOfAppend(a, n - 1);
    } else {
      assert a + Repeat('\n', 0) == a;
      if a != [] {
        assert a[|a| - 1 ..] == "\n" <==> a[|a| - 1] == '\n';
      }
    }
  }

  /** After step 2 the new text ends with exactly as many newlines as
    * the matched text, whenever step 2 acted; otherwise it is unchanged. */
  lemma KeepTrailingNewlinesCount(matched: string, adjusted: string)
    ensures EndsWith(matched, "\n") && !EndsWith(adjusted, "\n") ==>
      TrailingNewlines(KeepTrailingNewlines(matched, adjusted)) == TrailingNewlines(matched)
      && StartsWith(KeepTrailingNewlines(matched, adjusted), adjusted)
    ensures !(EndsWith(matched, "\n") && !EndsWith(adjusted, "\n")) ==>
      KeepTrailingNewlines(matched, adjusted) == adjusted
  {
    if EndsWith(matched, "\n") && !EndsWith(adjusted, "\n") {
      var r := KeepTrailingNewlines(matched, adjusted);
      TrailingNewlinesOfAppend(adjusted, TrailingNewlines(matched));
      assert r[..|adjusted|] == adjusted;
    }
  }

  // ---------------------------------------------------------------------
  // edit_file
  // ---------------------------------------------------------------------

  /** The two `ValueError`s `edit_file` raises about the match. */
  datatype EditError =
    | NotFound(search: string)
    | Ambiguous(count: nat, lines: seq<nat>)

  /** The text that replaces the match: steps 1 and 2. */
  function Adjusted(matched: string, replacement: string): string
  {
    KeepTrailingNewlines(matched, Reindented(matched, replacement))
  }

  /** `edit_file` between reading and writing the file: the new content,
    * or the error. */
  function EditSpec(content: string, search: string, replacement: string): Result<string, EditError>
  {
    var m := Strategies(content, search);
    if !Truthy(m) then Err(NotFound(search))
    else
      var count := Count(content, m.value, 0);
      if count > 1 then Err(Ambiguous(count, OccurrenceLines(content, m.value, 0)))
      else Ok(Replace(content, m.value, Adjusted(m.value, replacement)))
  }

  /** `edit_file` between reading and writing the file. */
  method EditContent(content: string, search: string, replacement: string) returns (r: Result<string, EditError>)
    ensures r == EditSpec(content, search, replacement)
  {
    var matched := FindMatchWithStrategies(content, search);
    if !Truthy(matched) {
      return Err(NotFound(search));
    }
    var m := matched.value;
    var count := Count(content, m, 0);
    if count > 1 {
      var positions := ListOccurrenceLines(content, m);
      return Err(Ambiguous(count, positions));
    }
    var adjusted := AdjustIndentation(m, replacement);
    if EndsWith(m, "\n") && !EndsWith(adjusted, "\n") {
      var trailing := TrailingNewlines(m);
      adjusted := adjusted + Repeat('\n', trailing);
    }
    return Ok(Replace(content, m, adjusted));
  }

  /** The search fails exactly when every strategy does. */
  lemma EditNotFoundIff(content: string, search: string, replacement: string)
    ensures EditSpec(content, search, replacement) == Err(NotFound(search)) <==>
      !Truthy(SimpleMatch(content, search)) && !Truthy(TrimmedMatchFixed(content, search))
      && !Truthy(NormalizedMatch(content, search))
  {
    StrategiesFailIff(content, search);
  }

  /** A match that occurs more than once is reported with the line of
    * every occurrence, in order. */
  lemma EditAmbiguousLines(content: string, search: string, replacement: string)
    requires EditSpec(content, search, replacement).Err?
    requires EditSpec(content, search, replacement).error.Ambiguous?
    ensures var m := Strategies(content, search).value;
      var e := EditSpec(content, search, replacement).error;
      e.count == Count(content, m, 0) > 1
      && e.lines == LinesAt(content, Positions(content, m, 0))
  {
    var m := Strategies(content, search).value;
    OccurrenceLinesOfPositions(content, m, 0);
  }

  /** Replacing a match that occurs and is counted at most once. */
  lemma ReplaceTheMatch(content: string, m: string, adjusted: string)
    requires m != "" && Contains(content, m) && Count(content, m, 0) <= 1
    ensures Find(content, m, 0).Some?
    ensures var i := Find(content, m, 0).value;
      Replace(content, m, adjusted) == content[..i] + adjusted + content[i + |m|..]
  {
    CountPositive(content, m);
    ReplaceOnce(content, m, adjusted);
  }

  /** A successful edit replaces the one occurrence of the match and
    * nothing else. */
  lemma EditReplacesTheMatch(content: string, search: string, replacement: string)
    requires EditSpec(content, search, replacement).Ok?
    ensures var m := Strategies(content, search).value;
      Find(content, m, 0).Some?
      && var i := Find(content, m, 0).value;
      EditSpec(content, search, replacement).value
        == content[..i] + Adjusted(m, replacement) + content[i + |m|..]
  {
    var r := Strategies(content, search);
    StrategiesFindText(content, search);
    var m := r.value;
    assert Count(content, m, 0) <= 1;
    assert EditSpec(content, search, replacement).value == Replace(content, m, Adjusted(m, replacement));
    ReplaceTheMatch(content, m, Adjusted(m, replacement));
  }
}
