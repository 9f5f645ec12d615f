/**
 * The matching strategies of `edit_file` (`patchpal/tools/file_editing.py`):
 * an exact match, a match of whole lines compared after `strip()`, and a
 * match after collapsing whitespace, tried in the order
 * `_find_match_with_strategies` fixes.  Every strategy answers with the
 * text of the file that `edit_file` is then to replace.
 */
module FileEditing {
  import opened Wrappers
  import opened PyStr

  /** `text.split("\n")`. */
  function Lines(text: string): (r: seq<string>)
    ensures |r| >= 1
  {
    Split(text, "\n")
  }

  /** Python's truth test on an optional string: `None` and `""` are
    * both false. */
  predicate Truthy(m: Option<string>)
  {
    m.Some? && m.value != ""
  }

  /** The number of windows of `k` lines in `n` lines:
    * `range(n - k + 1)` is empty when `k > n`. */
  function Windows(n: nat, k: nat): nat
  {
    if k <= n then n - k + 1 else 0
  }

  /** `m` occurs in `x + m + y`. */
  lemma OccursBetween(x: string, m: string, y: string)
    ensures Contains(x + m + y, m)
  {
    var s := x + m + y;
    assert s[|x|..|x| + |m|] == m;
    assert OccursAt(s, m, |x|);
    ContainsIff(s, m);
  }

  /** What occurs in a text occurs in any text that contains it. */
  lemma ContainsTrans(a: string, b: string, c: string)
    requires Contains(a, b) && Contains(b, c)
    ensures Contains(a, c)
  {
    ContainsIff(a, b);
    ContainsIff(b, c);
    var i :| OccursAt(a, b, i);
    var j :| OccursAt(b, c, j);
    forall t | 0 <= t < |c| ensures a[i + j + t] == c[t] {
      assert a[i..i + |b|][j + t] == b[j + t];
      assert b[j..j + |c|][t] == c[t];
    }
    assert a[i + j..i + j + |c|] == c;
    assert OccursAt(a, c, i + j);
    ContainsIff(a, c);
  }

  /** Joining splits at any inner line boundary. */
  lemma JoinAt(parts: seq<string>, i: nat)
    requires 0 < i < |parts|
    ensures Join(parts, "\n") == Join(parts[..i], "\n") + "\n" + Join(parts[i..], "\n")
  {
    JoinAppend(parts[..i], parts[i..], "\n");
    assert parts[..i] + parts[i..] == parts;
  }

  /** The lines from `i` on occur in the joined text. */
  lemma SuffixOccurs(parts: seq<string>, i: nat)
    requires i < |parts|
    ensures Contains(Join(parts, "\n"), Join(parts[i..], "\n"))
  {
    if i == 0 {
      assert parts[0..] == parts;
      OccursBetween("", Join(parts, "\n"), "");
      assert "" + Join(parts, "\n") + "" == Join(parts, "\n");
    } else {
      JoinAt(parts, i);
      OccursBetween(Join(parts[..i], "\n") + "\n", Join(parts[i..], "\n"), "");
      assert Join(parts[..i], "\n") + "\n" + Join(parts[i..], "\n") + "" == Join(parts, "\n");
    }
  }

  /** A text occurs in itself. */
  lemma ContainsSelf(s: string)
    ensures Contains(s, s)
  {
    OccursBetween("", s, "");
    assert "" + s + "" == s;
  }

  /** The first `k` lines, with the newline after them, occur in the
    * joined text when more lines follow. */
  lemma PrefixOccurs(rest: seq<string>, k: nat)
    requires 0 < k < |rest|
    ensures Contains(Join(rest, "\n"), Join(rest[..k], "\n") + "\n")
  {
    var w := Join(rest[..k], "\n");
    JoinAt(rest, k);
    OccursBetween("", w + "\n", Join(rest[k..], "\n"));
    assert "" + (w + "\n") + Join(rest[k..], "\n") == Join(rest, "\n");
  }

  /** A text occurs in itself followed by a newline. */
  lemma LineOccursInLineBreak(w: string)
    ensures Contains(w + "\n", w)
  {
    OccursBetween("", w, "\n");
    assert "" + w + "\n" == w + "\n";
  }

  /** A window of lines followed by another line occurs, with the
    * newline after it, in the joined text. */
  lemma WindowBreakOccurs(parts: seq<string>, i: nat, k: nat)
    requires k > 0 && i + k < |parts|
    ensures Contains(Join(parts, "\n"), Join(parts[i..i + k], "\n") + "\n")
  {
    var rest := parts[i..];
    SuffixOccurs(parts, i);
    assert rest[..k] == parts[i..i + k];
    PrefixOccurs(rest, k);
    ContainsTrans(Join(parts, "\n"), Join(rest, "\n"), Join(parts[i..i + k], "\n") + "\n");
  }

  /** The text a window of lines covers occurs in the joined text, and so
    * does that text with the newline after it when another line follows
    * the window. */
  lemma WindowOccurs(parts: seq<string>, i: nat, k: nat)
    requires i + k <= |parts|
    ensures Contains(Join(parts, "\n"), Join(parts[i..i + k], "\n"))
    ensures k > 0 && i + k < |parts| ==> Contains(Join(parts, "\n"), Join(parts[i..i + k], "\n") + "\n")
  {
    var s := Join(parts, "\n");
    var w := Join(parts[i..i + k], "\n");
    if k == 0 {
      assert w == "";
      OccursBetween("", w, s);
      assert "" + w + s == s;
    } else if i + k < |parts| {
      WindowBreakOccurs(parts, i, k);
      LineOccursInLineBreak(w);
      ContainsTrans(s, w + "\n", w);
    } else {
      SuffixOccurs(parts, i);
      assert parts[i..] == parts[i..i + k];
    }
  }

  /** A line of the file occurs in it. */
  lemma LineOccurs(content: string, j: nat)
    requires j < |Lines(content)|
    ensures Contains(content, Lines(content)[j])
  {
    var cl := Lines(content);
    JoinSplit(content, "\n");
    WindowOccurs(cl, j, 1);
    assert Join(cl[j..j + 1], "\n") == cl[j];
  }

  /** The window of `cl` at `i` agrees with `sl` line by line once both
    * are passed through `key`. */
  predicate WindowAt(cl: seq<string>, sl: seq<string>, i: nat, key: string -> string)
  {
    i + |sl| <= |cl| && forall j :: 0 <= j < |sl| ==> key(cl[i + j]) == key(sl[j])
  }

  /** The first window at or after `lo` that agrees. */
  function FirstWindow(cl: seq<string>, sl: seq<string>, key: string -> string, lo: nat): (r: Option<nat>)
    decreases |cl| - lo
    ensures r.Some? ==> lo <= r.value && WindowAt(cl, sl, r.value, key)
    ensures r.Some? ==> forall j :: lo <= j < r.value ==> !WindowAt(cl, sl, j, key)
    ensures r.None? ==> forall j :: lo <= j ==> !WindowAt(cl, sl, j, key)
  {
    if lo + |sl| > |cl| then None
    else if WindowAt(cl, sl, lo, key) then Some(lo)
    else FirstWindow(cl, sl, key, lo + 1)
  }

  /** One window compared line by line, stopping at the first line that
    * differs. */
  method CompareWindow(cl: seq<string>, sl: seq<string>, i: nat, key: string -> string) returns (matches: bool)
    requires i + |sl| <= |cl|
    ensures matches == WindowAt(cl, sl, i, key)
  {
    matches := true;
    for j := 0 to |sl|
      invariant matches == forall j' :: 0 <= j' < j ==> key(cl[i + j']) == key(sl[j'])
    {
      if key(cl[i + j]) != key(sl[j]) {
        matches := false;
        break;
      }
    }
  }

  /** The windows tried in order, the first that agrees returned. */
  method FindWindow(cl: seq<string>, sl: seq<string>, key: string -> string) returns (r: Option<nat>)
    ensures r == FirstWindow(cl, sl, key, 0)
  {
    var n := Windows(|cl|, |sl|);
    for i := 0 to n
      invariant forall j :: 0 <= j < i ==> !WindowAt(cl, sl, j, key)
    {
      var matches := CompareWindow(cl, sl, i, key);
      if matches {
        return Some(i);
      }
    }
    return None;
  }

  // ---------------------------------------------------------------------
  // _try_simple_match
  // ---------------------------------------------------------------------

  /** `_try_simple_match`: `old_string` itself when it occurs. */
  function SimpleMatch(content: string, search: string): (r: Option<string>)
    ensures r.Some? <==> exists i :: OccursAt(content, search, i)
    ensures r.Some? ==> r.value == search
  {
    ContainsIff(content, search);
    if Contains(content, search) then Some(search) else None
  }

  // ---------------------------------------------------------------------
  // _try_line_trimmed_match
  // ---------------------------------------------------------------------

  /** The lines searched for: `old_string`'s lines less one trailing
    * empty line. */
  function SearchLines(search: string): (r: seq<string>)
    ensures Lines(search) == r || Lines(search) == r + [""]
  {
    var s := Lines(search);
    if s[|s| - 1] == "" then
      assert s == s[..|s| - 1] + [""];
      s[..|s| - 1]
    else s
  }

  /** What `_try_line_trimmed_match` returns for the window at `i`: its
    * lines joined, then one newline if more content follows the window
    * or, at the end of the file, if the file ends with a newline. */
  function TrimmedText(content: string, i: nat, k: nat): string
    requires i + k <= |Lines(content)|
  {
    var cl := Lines(content);
    Join(cl[i..i + k], "\n")
    + (if i + k < |cl| then "\n" else if EndsWith(content, "\n") then "\n" else "")
  }

  /** The first window of the file's lines that agrees with `sl` under
    * `key`, as the text `_try_line_trimmed_match` returns. */
  function WindowMatch(content: string, sl: seq<string>, key: string -> string): (r: Option<string>)
    ensures r.Some? <==> exists i :: WindowAt(Lines(content), sl, i, key)
  {
    match FirstWindow(Lines(content), sl, key, 0)
    case None => None
    case Some(i) => Some(TrimmedText(content, i, |sl|))
  }

  /** `_try_line_trimmed_match` as written. */
  function TrimmedMatch(content: string, search: string): (r: Option<string>)
    ensures r.Some? <==> exists i :: WindowAt(Lines(content), SearchLines(search), i, Strip)
  {
    WindowMatch(content, SearchLines(search), Strip)
  }

  /** A file that ends with a newline splits into lines whose last one is
    * empty, so a window that reaches the end already ends with that
    * newline; the second branch adds another, and the text returned
    * does not occur in the file.  With `content = "a\n"` and
    * `old_string = "a\n "` the window is both lines and the answer is
    * `"a\n\n"`. */
  lemma TrimmedMatchInventsText()
    ensures TrimmedMatch("a\n", "a\n ") == Some("a\n\n")
    ensures !Contains("a\n", "a\n\n")
  {
    ExampleLines();
    ExampleWindow();
    assert FirstWindow(["a", ""], ["a", " "], Strip, 0) == Some(0);
    assert ["a", ""][0..2] == ["a", ""];
    assert Join(["a", ""], "\n") == "a\n";
    assert EndsWith("a\n", "\n");
    assert TrimmedText("a\n", 0, 2) == "a\n\n";
    ContainsIff("a\n", "a\n\n");
  }

  lemma ExampleLines()
    ensures Lines("a\n") == ["a", ""]
    ensures SearchLines("a\n ") == ["a", " "]
  {
    var content := "a\n";
    var search := "a\n ";
    assert content[1..2] == "\n";
    assert content[0..1] == "a";
    FindLeast(content, "\n", 1);
    assert content[2..] == "";
    assert search[1..2] == "\n";
    assert search[0..1] == "a";
    FindLeast(search, "\n", 1);
    assert search[2..] == " ";
    NoCharNoFind(" ", '\n');
  }

  lemma ExampleWindow()
    ensures WindowAt(["a", ""], ["a", " "], 0, Strip)
  {
    var cl := ["a", ""];
    var sl := ["a", " "];
    ExampleStrips();
    forall j | 0 <= j < 2 ensures Strip(cl[0 + j]) == Strip(sl[j]) {
      if j == 0 {
        assert cl[0] == "a" && sl[0] == "a";
      } else {
        assert cl[1] == "" && sl[1] == " ";
      }
    }
  }

  lemma ExampleStrips()
    ensures Strip(" ") == Strip("")
  {
    StripEmptyIffAllSpace(" ");
    StripEmptyIffAllSpace("");
  }

  /** The text a window covers, as the strategy intends it: the newline
    * after the window is added only when a line follows a non-empty
    * window, so the text always occurs in the file.  For an empty window
    * (an empty `old_string`) the text is `""`: a newline there would be
    * text the file need not hold. */
  function TrimmedTextFixed(content: string, i: nat, k: nat): (r: string)
    requires i + k <= |Lines(content)|
    ensures Contains(content, r)
  {
    var cl := Lines(content);
    JoinSplit(content, "\n");
    WindowOccurs(cl, i, k);
    if k > 0 && i + k < |cl| then Join(cl[i..i + k], "\n") + "\n" else Join(cl[i..i + k], "\n")
  }

  /** The first window of the file's lines that agrees with `sl` under
    * `key`, as the text the corrected strategy returns. */
  function WindowMatchFixed(content: string, sl: seq<string>, key: string -> string): (r: Option<string>)
    ensures r.Some? ==> Contains(content, r.value)
    ensures r.Some? <==> exists i :: WindowAt(Lines(content), sl, i, key)
  {
    match FirstWindow(Lines(content), sl, key, 0)
    case None => None
    case Some(i) => Some(TrimmedTextFixed(content, i, |sl|))
  }

  /** `_try_line_trimmed_match` with the trailing newline added only
    * where the file has one after the window. */
  function TrimmedMatchFixed(content: string, search: string): (r: Option<string>)
    ensures r.Some? ==> Contains(content, r.value)
    ensures r.Some? <==> exists i :: WindowAt(Lines(content), SearchLines(search), i, Strip)
  {
    WindowMatchFixed(content, SearchLines(search), Strip)
  }

  /** An empty `old_string` has no search lines, so the window at the
    * start of the file agrees.  As written the strategy answers `"\n"`
    * for every file, a text that a file without a newline does not hold;
    * the corrected strategy answers the empty window's text `""`. */
  lemma TrimmedMatchEmptySearch(content: string)
    ensures TrimmedMatch(content, "") == Some("\n")
    ensures TrimmedMatchFixed(content, "") == Some("")
    ensures !Contains(content, "\n") ==> !Contains(content, TrimmedMatch(content, "").value)
  {
    NoCharNoFind("", '\n');
    assert Lines("") == [""];
    assert SearchLines("") == [];
    var cl := Lines(content);
    assert WindowAt(cl, [], 0, Strip);
    assert FirstWindow(cl, [], Strip, 0) == Some(0);
    assert cl[0..0] == [];
    assert TrimmedText(content, 0, 0) == "\n";
  }

  /** The search lines of `_try_line_trimmed_match`. */
  method SearchLinesOf(search: string) returns (sl: seq<string>)
    ensures sl == SearchLines(search)
  {
    sl := Split(search, "\n");
    if sl[|sl| - 1] == "" {
      sl := sl[..|sl| - 1];
    }
  }

  /** The window search and the text built from the window, as
    * `_try_line_trimmed_match` does them. */
  method MatchWindow(content: string, sl: seq<string>, key: string -> string) returns (r: Option<string>)
    ensures r == WindowMatch(content, sl, key)
  {
    var cl := Split(content, "\n");
    var i := FindWindow(cl, sl, key);
    if i.None? {
      return None;
    }
    assert cl == Lines(content);
    var result := Join(cl[i.value..i.value + |sl|], "\n");
    var endIndex := i.value + |sl|;
    if endIndex < |cl| {
      result := result + "\n";
    } else if EndsWith(content, "\n") {
      result := result + "\n";
    }
    assert result == TrimmedText(content, i.value, |sl|);
    return Some(result);
  }

  /** The same with the corrected text. */
  method MatchWindowFixed(content: string, sl: seq<string>, key: string -> string) returns (r: Option<string>)
    ensures r == WindowMatchFixed(content, sl, key)
  {
    var cl := Split(content, "\n");
    var i := FindWindow(cl, sl, key);
    if i.None? {
      return None;
    }
    assert cl == Lines(content);
    var result := Join(cl[i.value..i.value + |sl|], "\n");
    if |sl| > 0 && i.value + |sl| < |cl| {
      result := result + "\n";
    }
    assert result == TrimmedTextFixed(content, i.value, |sl|);
    return Some(result);
  }

  /** `_try_line_trimmed_match`, as written. */
  method TryLineTrimmedMatch(content: string, search: string) returns (r: Option<string>)
    ensures r == TrimmedMatch(content, search)
  {
    var sl := SearchLinesOf(search);
    r := MatchWindow(content, sl, Strip);
  }

  /** `_try_line_trimmed_match`, corrected: the strategy chain below uses
    * this one. */
  method TryLineTrimmedMatchFixed(content: string, search: string) returns (r: Option<string>)
    ensures r == TrimmedMatchFixed(content, search)
  {
    var sl := SearchLinesOf(search);
    r := MatchWindowFixed(content, sl, Strip);
  }

  // ---------------------------------------------------------------------
  // _try_whitespace_normalized_match
  // ---------------------------------------------------------------------

  /** The first line at or after `lo` whose normal form under `key` is
    * `n`. */
  function FirstLine(cl: seq<string>, n: string, key: string -> string, lo: nat): (r: Option<nat>)
    decreases |cl| - lo
    ensures r.Some? ==> lo <= r.value < |cl| && key(cl[r.value]) == n
    ensures r.Some? ==> forall j :: lo <= j < r.value ==> key(cl[j]) != n
    ensures r.None? ==> forall j :: lo <= j < |cl| ==> key(cl[j]) != n
  {
    if lo >= |cl| then None
    else if key(cl[lo]) == n then Some(lo)
    else FirstLine(cl, n, key, lo + 1)
  }

  /** The block of `k` lines at `i`, joined, has normal form `n`. */
  predicate BlockAt(cl: seq<string>, k: nat, i: nat, n: string, key: string -> string)
  {
    i + k <= |cl| && key(Join(cl[i..i + k], "\n")) == n
  }

  /** The first block at or after `lo` with normal form `n`. */
  function FirstBlock(cl: seq<string>, k: nat, n: string, key: string -> string, lo: nat): (r: Option<nat>)
    decreases |cl| - lo
    ensures r.Some? ==> lo <= r.value && BlockAt(cl, k, r.value, n, key)
    ensures r.Some? ==> forall j :: lo <= j < r.value ==> !BlockAt(cl, k, j, n, key)
    ensures r.None? ==> forall j :: lo <= j ==> !BlockAt(cl, k, j, n, key)
  {
    if lo + k > |cl| then None
    else if BlockAt(cl, k, lo, n, key) then Some(lo)
    else FirstBlock(cl, k, n, key, lo + 1)
  }

  /** Line `j` is the first line with normal form `n`. */
  predicate FirstLineAt(cl: seq<string>, n: string, key: string -> string, j: int)
  {
    0 <= j < |cl| && key(cl[j]) == n && forall j' :: 0 <= j' < j ==> key(cl[j']) != n
  }

  /** The block of `k` lines at `i` is the first with normal form `n`. */
  predicate FirstBlockAt(cl: seq<string>, k: nat, n: string, key: string -> string, i: int)
  {
    0 <= i && BlockAt(cl, k, i, n, key) && forall i' :: 0 <= i' < i ==> !BlockAt(cl, k, i', n, key)
  }

  lemma FirstLineUnique(cl: seq<string>, n: string, key: string -> string, j: nat)
    requires FirstLine(cl, n, key, 0) == Some(j)
    ensures forall j' :: FirstLineAt(cl, n, key, j') ==> j' == j
  {
  }

  lemma FirstBlockUnique(cl: seq<string>, k: nat, n: string, key: string -> string, i: nat)
    requires FirstBlock(cl, k, n, key, 0) == Some(i)
    ensures forall i' :: FirstBlockAt(cl, k, n, key, i') ==> i' == i
  {
  }

  /** The first block of `k` lines with normal form `n`, joined. */
  function BlockMatch(content: string, k: nat, n: string, key: string -> string): (r: Option<string>)
    ensures r.Some? ==> Contains(content, r.value) && key(r.value) == n
    ensures r.None? <==> forall i :: 0 <= i ==> !BlockAt(Lines(content), k, i, n, key)
    ensures forall i :: FirstBlockAt(Lines(content), k, n, key, i) ==> r == Some(Join(Lines(content)[i..i + k], "\n"))
  {
    var cl := Lines(content);
    match FirstBlock(cl, k, n, key, 0)
    case Some(i) =>
      JoinSplit(content, "\n");
      WindowOccurs(cl, i, k);
      FirstBlockUnique(cl, k, n, key, i);
      Some(Join(cl[i..i + k], "\n"))
    case None => None
  }

  /** The normalised strategy for a normal form `key`: a single line
    * first, then, for a search text of several lines, a block of as many
    * lines.  The first agreeing line wins over any block, and the first
    * agreeing block over later ones; whatever it returns occurs in the
    * file and has the search text's normal form; it finds nothing only
    * when no line and no block has that form. */
  function NormalMatch(content: string, search: string, key: string -> string): (r: Option<string>)
    ensures r.Some? ==> Contains(content, r.value) && key(r.value) == key(search)
    ensures r.None? <==>
      (forall j :: 0 <= j < |Lines(content)| ==> key(Lines(content)[j]) != key(search))
      && (|Lines(search)| > 1 ==> forall i :: 0 <= i ==> !BlockAt(Lines(content), |Lines(search)|, i, key(search), key))
    ensures forall j :: FirstLineAt(Lines(content), key(search), key, j) ==> r == Some(Lines(content)[j])
    ensures (forall j :: 0 <= j < |Lines(content)| ==> key(Lines(content)[j]) != key(search)) && |Lines(search)| > 1 ==>
      forall i :: FirstBlockAt(Lines(content), |Lines(search)|, key(search), key, i) ==>
        r == Some(Join(Lines(content)[i..i + |Lines(search)|], "\n"))
  {
    var cl := Lines(content);
    var n := key(search);
    match FirstLine(cl, n, key, 0)
    case Some(j) =>
      LineOccurs(content, j);
      FirstLineUnique(cl, n, key, j);
      Some(cl[j])
    case None =>
      var k := |Lines(search)|;
      if k > 1 then BlockMatch(content, k, n, key) else None
  }

  /** `_try_whitespace_normalized_match`, with `normalize` the collapse
    * of whitespace runs to one space. */
  function NormalizedMatch(content: string, search: string): (r: Option<string>)
    ensures r.Some? ==> Contains(content, r.value) && NormalizeSpace(r.value) == NormalizeSpace(search)
    ensures r.None? <==>
      (forall j :: 0 <= j < |Lines(content)| ==> NormalizeSpace(Lines(content)[j]) != NormalizeSpace(search))
      && (|Lines(search)| > 1 ==>
        forall i :: 0 <= i ==> !BlockAt(Lines(content), |Lines(search)|, i, NormalizeSpace(search), NormalizeSpace))
    ensures forall j :: FirstLineAt(Lines(content), NormalizeSpace(search), NormalizeSpace, j) ==>
      r == Some(Lines(content)[j])
    ensures (forall j :: 0 <= j < |Lines(content)| ==> NormalizeSpace(Lines(content)[j]) != NormalizeSpace(search))
            && |Lines(search)| > 1 ==>
      forall i :: FirstBlockAt(Lines(content), |Lines(search)|, NormalizeSpace(search), NormalizeSpace, i) ==>
        r == Some(Join(Lines(content)[i..i + |Lines(search)|], "\n"))
  {
    NormalMatch(content, search, NormalizeSpace)
  }

  /** The single-line loop. */
  method FindLine(cl: seq<string>, n: string, key: string -> string) returns (r: Option<nat>)
    ensures r == FirstLine(cl, n, key, 0)
  {
    for j := 0 to |cl|
      invariant forall j' :: 0 <= j' < j ==> key(cl[j']) != n
    {
      if key(cl[j]) == n {
        return Some(j);
      }
    }
    return None;
  }

  /** The multi-line loop. */
  method FindBlock(cl: seq<string>, k: nat, n: string, key: string -> string) returns (r: Option<nat>)
    ensures r == FirstBlock(cl, k, n, key, 0)
  {
    for i := 0 to Windows(|cl|, k)
      invariant forall j :: 0 <= j < i ==> !BlockAt(cl, k, j, n, key)
    {
      if key(Join(cl[i..i + k], "\n")) == n {
        assert BlockAt(cl, k, i, n, key);
        return Some(i);
      }
    }
    return None;
  }

  /** The two loops of `_try_whitespace_normalized_match` for a normal
    * form `key`. */
  method MatchNormal(content: string, search: string, key: string -> string) returns (r: Option<string>)
    ensures r == NormalMatch(content, search, key)
  {
    var n := key(search);
    var cl := Split(content, "\n");
    assert cl == Lines(content);
    var j := FindLine(cl, n, key);
    if j.Some? {
      assert NormalMatch(content, search, key) == Some(cl[j.value]);
      return Some(cl[j.value]);
    }
    var sl := Split(search, "\n");
    assert sl == Lines(search);
    if |sl| > 1 {
      var i := FindBlock(cl, |sl|, n, key);
      if i.Some? {
        assert NormalMatch(content, search, key) == Some(Join(cl[i.value..i.value + |sl|], "\n"));
        return Some(Join(cl[i.value..i.value + |sl|], "\n"));
      }
    }
    assert NormalMatch(content, search, key).None?;
    return None;
  }

  /** `_try_whitespace_normalized_match`. */
  method TryWhitespaceNormalizedMatch(content: string, search: string) returns (r: Option<string>)
    ensures r == NormalizedMatch(content, search)
  {
    r := MatchNormal(content, search, NormalizeSpace);
  }

  // ---------------------------------------------------------------------
  // _find_match_with_strategies
  // ---------------------------------------------------------------------

  const CodePatterns := ["(", ")", "=", "def ", "class ", "if ", "for ", "while ", "return ", "print("]

  /** `any(pattern in old_string for pattern in code_patterns)`. */
  predicate LooksLikeCode(search: string)
  {
    exists k :: 0 <= k < |CodePatterns| && Contains(search, CodePatterns[k])
  }

  /** `old_string.startswith((" ", "\t", "\n"))`. */
  predicate Indented(search: string)
  {
    StartsWith(search, " ") || StartsWith(search, "\t") || StartsWith(search, "\n")
  }

  /** `_find_match_with_strategies`: for code-like text that occurs as
    * given and starts without indentation, the trimmed strategy first;
    * then exact, trimmed and normalised in that order, each taken when
    * its answer is a non-empty string. */
  function Strategies(content: string, search: string): Option<string>
  {
    var trimmed := TrimmedMatchFixed(content, search);
    var simple := SimpleMatch(content, search);
    var normal := NormalizedMatch(content, search);
    if Contains(content, search) && !Indented(search) && LooksLikeCode(search) && Truthy(trimmed) then trimmed
    else if Truthy(simple) then simple
    else if Truthy(trimmed) then trimmed
    else if Truthy(normal) then normal
    else None
  }

  /** What the strategies find is a non-empty piece of the file. */
  lemma StrategiesFindText(content: string, search: string)
    ensures Strategies(content, search).Some? ==>
      Strategies(content, search).value != "" && Contains(content, Strategies(content, search).value)
  {
    var r := Strategies(content, search);
    var trimmed := TrimmedMatchFixed(content, search);
    var simple := SimpleMatch(content, search);
    var normal := NormalizedMatch(content, search);
    assert r.None? || (r == trimmed && Truthy(trimmed)) || (r == simple && Truthy(simple))
      || (r == normal && Truthy(normal));
    if simple.Some? {
      ContainsIff(content, search);
    }
  }

  /** The strategies fail exactly when all three do. */
  lemma StrategiesFailIff(content: string, search: string)
    ensures Strategies(content, search).None? <==>
      !Truthy(SimpleMatch(content, search)) && !Truthy(TrimmedMatchFixed(content, search))
      && !Truthy(NormalizedMatch(content, search))
  {
  }

  /** Code-like text given without indentation prefers the trimmed match,
    * even though it occurs exactly. */
  lemma StrategiesCodeFirst(content: string, search: string)
    requires Contains(content, search) && !Indented(search) && LooksLikeCode(search)
    requires Truthy(TrimmedMatchFixed(content, search))
    ensures Strategies(content, search) == TrimmedMatchFixed(content, search)
  {
  }

  /** Any other text that occurs as given is matched exactly. */
  lemma StrategiesExactFirst(content: string, search: string)
    requires Contains(content, search) && search != ""
    requires Indented(search) || !LooksLikeCode(search)
    ensures Strategies(content, search) == Some(search)
  {
    ContainsIff(content, search);
  }

  /** `_find_match_with_strategies`. */
  method FindMatchWithStrategies(content: string, search: string) returns (r: Option<string>)
    ensures r == Strategies(content, search)
  {
    var useExact := Contains(content, search);
    if useExact && !Indented(search) {
      if LooksLikeCode(search) {
        var m := TryLineTrimmedMatchFixed(content, search);
        if Truthy(m) {
          return m;
        }
      }
    }
    var m := SimpleMatch(content, search);
    if Truthy(m) {
      return m;
    }
    m := TryLineTrimmedMatchFixed(content, search);
    if Truthy(m) {
      return m;
    }
    m := TryWhitespaceNormalizedMatch(content, search);
    if Truthy(m) {
      return m;
    }
    return None;
  }
}
