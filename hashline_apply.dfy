/**
 * `apply_hashline_edits`: a validated batch is sorted bottom-up and each
 * edit is spliced into the file's lines in that order.
 */
module HashlineApply {
  import opened Wrappers
  import opened PyStr
  import opened Hashline
  import opened HashlineEdits

  // ---------------------------------------------------------------------
  // Ordering
  // ---------------------------------------------------------------------

  /** `get_sort_key`: the anchor line and the precedence of an edit in a
    * file of `n` lines. */
  function SortKey(e: Edit, n: int): (int, int)
  {
    match e
    case SetEdit(tag, _) => (tag.line, 0)
    case ReplaceEdit(_, last, _) => (last.line, 0)
    case AppendEdit(_, after) => (if after.Some? then after.value.line else n + 1, 1)
    case PrependEdit(_, before) => (if before.Some? then before.value.line else 0, 2)
    case InsertEdit(_, before, _) => (before.line, 3)
  }

  /** An alternative key, for comparison: an Append after line `L` splices
    * below line `L`, and with its precedence lowered below that of a Set or
    * Replace it goes before one that ends at `L`. Nothing else changes. */
  function SortKeyAppendFirst(e: Edit, n: int): (int, int)
  {
    var k := SortKey(e, n);
    if e.AppendEdit? then (k.0, -1) else k
  }

  /** Key `a` sorts strictly before key `b` under `(-line, precedence)`. */
  predicate KeyBefore(a: (int, int), b: (int, int))
  {
    a.0 > b.0 || (a.0 == b.0 && a.1 < b.1)
  }

  /** The key function the batch is sorted with. */
  function KeyOf(n: int): Edit -> (int, int)
  {
    (e: Edit) => SortKey(e, n)
  }

  /** No element is followed by one whose key sorts strictly before its own. */
  predicate SortedBy<T>(s: seq<T>, key: T -> (int, int))
  {
    forall i, j :: 0 <= i < j < |s| ==> !KeyBefore(key(s[j]), key(s[i]))
  }

  /** Insert `e` after every element whose key does not sort after its own. */
  function InsertBy<T>(e: T, s: seq<T>, key: T -> (int, int)): seq<T>
  {
    if s == [] || KeyBefore(key(e), key(s[0])) then [e] + s
    else [s[0]] + InsertBy(e, s[1..], key)
  }

  /** A stable insertion sort by `key`. */
  function SortBy<T>(s: seq<T>, key: T -> (int, int)): seq<T>
  {
    if s == [] then [] else InsertBy(s[|s| - 1], SortBy(s[..|s| - 1], key), key)
  }

  /** `sorted(edits, key=lambda e: (-line, precedence))`; Python's sort is
    * stable. */
  function SortEdits(es: seq<Edit>, n: int): seq<Edit>
  {
    SortBy(es, KeyOf(n))
  }

  function KeyOfAppendFirst(n: int): Edit -> (int, int)
  {
    (e: Edit) => SortKeyAppendFirst(e, n)
  }

  /** The sort with the alternative key. */
  function SortEditsAppendFirst(es: seq<Edit>, n: int): seq<Edit>
  {
    SortBy(es, KeyOfAppendFirst(n))
  }

  lemma {:induction false} InsertByPerm<T>(e: T, s: seq<T>, key: T -> (int, int))
    ensures multiset(InsertBy(e, s, key)) == multiset(s) + multiset{e}
  {
    if s != [] && !KeyBefore(key(e), key(s[0])) {
      InsertByPerm(e, s[1..], key);
      assert s == [s[0]] + s[1..];
    }
  }

  lemma {:induction false} InsertBySorted<T>(e: T, s: seq<T>, key: T -> (int, int))
    requires SortedBy(s, key)
    ensures SortedBy(InsertBy(e, s, key), key)
  {
    var r := InsertBy(e, s, key);
    if s == [] {
    } else if KeyBefore(key(e), key(s[0])) {
      forall j | 0 < j < |r| ensures !KeyBefore(key(r[j]), key(e)) {
        assert r[j] == s[j - 1];
        if j - 1 > 0 {
          assert !KeyBefore(key(s[j - 1]), key(s[0]));
        }
      }
    } else {
      var t := InsertBy(e, s[1..], key);
      InsertBySorted(e, s[1..], key);
      InsertByPerm(e, s[1..], key);
      forall j | 0 < j < |r| ensures !KeyBefore(key(r[j]), key(s[0])) {
        assert r[j] == t[j - 1];
        assert t[j - 1] in multiset(t);
        if t[j - 1] != e {
          assert t[j - 1] in multiset(s[1..]);
          var q :| 0 <= q < |s[1..]| && s[1..][q] == t[j - 1];
          assert s[q + 1] == t[j - 1];
        }
      }
    }
  }

  lemma {:induction false} SortBySpec<T>(s: seq<T>, key: T -> (int, int))
    ensures multiset(SortBy(s, key)) == multiset(s)
    ensures SortedBy(SortBy(s, key), key)
  {
    if s != [] {
      var init := s[..|s| - 1];
      var last := s[|s| - 1];
      var t := SortBy(init, key);
      assert SortBy(s, key) == InsertBy(last, t, key);
      SortBySpec(init, key);
      InsertByPerm(last, t, key);
      InsertBySorted(last, t, key);
      assert s == init + [last];
      assert multiset(s) == multiset(init) + multiset{last};
    }
  }

  /** The elements of key `k`, in order. */
  function WithKey<T>(s: seq<T>, k: (int, int), key: T -> (int, int)): seq<T>
  {
    if s == [] then [] else (if key(s[0]) == k then [s[0]] else []) + WithKey(s[1..], k, key)
  }

  lemma {:induction false} WithKeyAppend<T>(a: seq<T>, b: seq<T>, k: (int, int), key: T -> (int, int))
    ensures WithKey(a + b, k, key) == WithKey(a, k, key) + WithKey(b, k, key)
  {
    if a != [] {
      assert (a + b)[1..] == a[1..] + b;
      WithKeyAppend(a[1..], b, k, key);
    } else {
      assert a + b == b;
    }
  }

  lemma {:induction false} WithKeyNone<T>(s: seq<T>, k: (int, int), key: T -> (int, int))
    requires forall i :: 0 <= i < |s| ==> key(s[i]) != k
    ensures WithKey(s, k, key) == []
  {
    if s != [] {
      WithKeyNone(s[1..], k, key);
    }
  }

  /** Inserting places the element after every other element of its key. */
  lemma {:induction false} InsertByStable<T>(e: T, s: seq<T>, k: (int, int), key: T -> (int, int))
    requires SortedBy(s, key)
    ensures WithKey(InsertBy(e, s, key), k, key) == WithKey(s, k, key) + (if key(e) == k then [e] else [])
  {
    if s == [] {
    } else if KeyBefore(key(e), key(s[0])) {
      InsertAtFront(e, s, k, key);
    } else {
      assert ([s[0]] + InsertBy(e, s[1..], key))[1..] == InsertBy(e, s[1..], key);
      InsertByStable(e, s[1..], k, key);
    }
  }

  /** An element that goes before the whole sorted sequence is the only one
    * of its key there. */
  lemma InsertAtFront<T>(e: T, s: seq<T>, k: (int, int), key: T -> (int, int))
    requires SortedBy(s, key) && s != [] && KeyBefore(key(e), key(s[0]))
    ensures WithKey([e] + s, k, key) == WithKey(s, k, key) + (if key(e) == k then [e] else [])
  {
    assert ([e] + s)[1..] == s;
    if key(e) == k {
      forall i | 0 <= i < |s| ensures key(s[i]) != k {
        if i > 0 {
          assert !KeyBefore(key(s[i]), key(s[0]));
        }
      }
      WithKeyNone(s, k, key);
    }
  }

  lemma {:induction false} SortByStable<T>(s: seq<T>, k: (int, int), key: T -> (int, int))
    ensures WithKey(SortBy(s, key), k, key) == WithKey(s, k, key)
  {
    if s != [] {
      var init := s[..|s| - 1];
      var last := s[|s| - 1];
      SortByStable(init, k, key);
      SortBySpec(init, key);
      InsertByStable(last, SortBy(init, key), k, key);
      assert s == init + [last];
      WithKeyAppend(init, [last], k, key);
      assert WithKey([last], k, key) == if key(last) == k then [last] else [] by {
        assert [last][1..] == [];
      }
    }
  }

  /** The batch is applied in a permutation of its list order, by descending
    * anchor line and then ascending precedence. */
  lemma SortEditsSpec(es: seq<Edit>, n: int)
    ensures multiset(SortEdits(es, n)) == multiset(es)
    ensures forall i, j :: 0 <= i < j < |SortEdits(es, n)| ==>
              var a := SortKey(SortEdits(es, n)[i], n);
              var b := SortKey(SortEdits(es, n)[j], n);
              a.0 > b.0 || (a.0 == b.0 && a.1 <= b.1)
  {
    SortBySpec(es, KeyOf(n));
  }

  /** Stability: edits with equal keys keep their list order. */
  lemma SortEditsStable(es: seq<Edit>, k: (int, int), n: int)
    ensures WithKey(SortEdits(es, n), k, KeyOf(n)) == WithKey(es, k, KeyOf(n))
  {
    SortByStable(es, k, KeyOf(n));
  }

  /** Two edits with different keys are applied in the same order whichever
    * order the batch lists them in. */
  lemma SortPairOrderFree(a: Edit, b: Edit, n: int)
    requires SortKey(a, n) != SortKey(b, n)
    ensures SortEdits([a, b], n) == SortEdits([b, a], n)
    ensures SortEdits([a, b], n) == if KeyBefore(SortKey(a, n), SortKey(b, n)) then [a, b] else [b, a]
  {
    SortByPair(a, b, KeyOf(n));
  }

  /** A sort of two elements of different keys does not depend on their
    * order. */
  lemma SortByPair<T>(a: T, b: T, key: T -> (int, int))
    requires key(a) != key(b)
    ensures SortBy([a, b], key) == SortBy([b, a], key)
    ensures SortBy([a, b], key) == if KeyBefore(key(a), key(b)) then [a, b] else [b, a]
  {
    assert [a, b][..1] == [a] && [b, a][..1] == [b];
    SortByOne(a, key);
    SortByOne(b, key);
  }

  // ---------------------------------------------------------------------
  // Splicing
  // ---------------------------------------------------------------------

  function Max(a: int, b: int): int { if a >= b then a else b }
  function Min(a: int, b: int): int { if a <= b then a else b }

  /** How Python clamps a slice bound `i` of a list of length `n`. */
  function ClampIndex(i: int, n: nat): (r: nat)
    ensures r <= n
  {
    if i < 0 then Max(i + n, 0) else Min(i, n)
  }

  /** `l[a:b] = c`: an empty or reversed slice inserts `c` at `a`. */
  function Splice(l: seq<string>, a: int, b: int, c: seq<string>): seq<string>
  {
    var lo := ClampIndex(a, |l|);
    var hi := Max(lo, ClampIndex(b, |l|));
    l[..lo] + c + l[hi..]
  }

  /** Within the list, the slice that is assigned is exactly replaced. */
  lemma SpliceWithin(l: seq<string>, a: int, b: int, c: seq<string>)
    requires 0 <= a <= b <= |l|
    ensures Splice(l, a, b, c) == l[..a] + c + l[b..]
    ensures |Splice(l, a, b, c)| == |l| - (b - a) + |c|
  {
  }

  /** The file's lines and `first_changed_line`, as the loop updates them. */
  datatype State = State(lines: seq<string>, firstChanged: Option<int>)

  /** `if first is None or x < first: first = x`. */
  function Lower(first: Option<int>, x: int): (r: Option<int>)
    ensures r.Some?
    ensures first.None? ==> r == Some(x)
    ensures first.Some? ==> r.value == Min(first.value, x)
  {
    if first.None? || x < first.value then Some(x) else first
  }

  /** One pass of the application loop. */
  function ApplyEdit(st: State, e: Edit): State
  {
    var l := st.lines;
    var f := st.firstChanged;
    match e
    case SetEdit(tag, c) =>
      State(Splice(l, tag.line - 1, tag.line, c), Lower(f, tag.line))
    case ReplaceEdit(first, last, c) =>
      var count := last.line - first.line + 1;
      State(Splice(l, first.line - 1, first.line - 1 + count, c), Lower(f, first.line))
    case AppendEdit(c, after) =>
      if after.Some? then
        State(Splice(l, after.value.line, after.value.line, c), Lower(f, after.value.line + 1))
      else if |l| == 1 && l[0] == "" then State(c, Some(1))
      else State(l + c, if f.None? then Some(|l + c| - |c| + 1) else f)
    case PrependEdit(c, before) =>
      if before.Some? then
        State(Splice(l, before.value.line - 1, before.value.line - 1, c), Lower(f, before.value.line))
      else State(if |l| == 1 && l[0] == "" then c else c + l, Some(1))
    case InsertEdit(_, before, c) =>
      State(Splice(l, before.line - 1, before.line - 1, c), Lower(f, before.line))
  }

  /** The loop over the sorted edits. */
  function ApplyAll(st: State, es: seq<Edit>): State
  {
    if es == [] then st else ApplyEdit(ApplyAll(st, es[..|es| - 1]), es[|es| - 1])
  }

  /** `apply_hashline_edits` as a function of the content and the batch. */
  function ApplySpec(digest: Digest, content: string, edits: seq<Edit>): Result<EditResult, EditError>
  {
    if edits == [] then Ok(EditResult(content, None))
    else
      var lines := Split(content, "\n");
      match Validate(digest, edits, lines)
      case Err(e) => Err(e)
      case Ok(ms) =>
        if ms != [] then Err(Stale(ms, lines))
        else
          var st := ApplyAll(State(lines, None), SortEdits(edits, |lines|));
          Ok(EditResult(Join(st.lines, "\n"), st.firstChanged))
  }

  // ---------------------------------------------------------------------
  // The applier
  // ---------------------------------------------------------------------

  /** One pass of the loop of `apply_hashline_edits`. */
  method ApplyOne(lines: seq<string>, first: Option<int>, edit: Edit)
    returns (fileLines: seq<string>, firstChanged: Option<int>)
    ensures State(fileLines, firstChanged) == ApplyEdit(State(lines, first), edit)
  {
    fileLines, firstChanged := lines, first;
  match edit {
      case SetEdit(tag, c) =>
        fileLines := Splice(fileLines, tag.line - 1, tag.line, c);
        if firstChanged.None? || tag.line < firstChanged.value {
          firstChanged := Some(tag.line);
        }
      case ReplaceEdit(first, last, c) =>
        var count := last.line - first.line + 1;
        fileLines := Splice(fileLines, first.line - 1, first.line - 1 + count, c);
        if firstChanged.None? || first.line < firstChanged.value {
          firstChanged := Some(first.line);
        }
      case AppendEdit(c, after) =>
        if after.Some? {
          fileLines := Splice(fileLines, after.value.line, after.value.line, c);
          if firstChanged.None? || after.value.line + 1 < firstChanged.value {
            firstChanged := Some(after.value.line + 1);
          }
        } else if |fileLines| == 1 && fileLines[0] == "" {
          fileLines := c;
          firstChanged := Some(1);
        } else {
          fileLines := fileLines + c;
          if firstChanged.None? {
            firstChanged := Some(|fileLines| - |c| + 1);
          }
        }
      case PrependEdit(c, before) =>
        if before.Some? {
          fileLines := Splice(fileLines, before.value.line - 1, before.value.line - 1, c);
          if firstChanged.None? || before.value.line < firstChanged.value {
            firstChanged := Some(before.value.line);
          }
        } else {
          if |fileLines| == 1 && fileLines[0] == "" {
            fileLines := c;
          } else {
            fileLines := c + fileLines;
          }
          firstChanged := Some(1);
        }
      case InsertEdit(_, before, c) =>
        fileLines := Splice(fileLines, before.line - 1, before.line - 1, c);
        if firstChanged.None? || before.line < firstChanged.value {
          firstChanged := Some(before.line);
        }
    }
  }

  /** `apply_hashline_edits`. */
  method ApplyHashlineEdits(digest: Digest, content: string, edits: seq<Edit>)
    returns (r: Result<EditResult, EditError>)
    ensures r == ApplySpec(digest, content, edits)
    ensures edits == [] ==> r == Ok(EditResult(content, None))
  {
    if edits == [] {
      return Ok(EditResult(content, None));
    }
    var fileLines := Split(content, "\n");
    ghost var original := fileLines;
    var firstChanged: Option<int> := None;
    var checked := ValidateEdits(digest, edits, fileLines);
    if checked.Err? {
      return Err(checked.error);
    }
    if checked.value != [] {
      return Err(Stale(checked.value, fileLines));
    }
    var sorted := SortEdits(edits, |fileLines|);
    var i := 0;
    while i < |sorted|
      invariant 0 <= i <= |sorted|
      invariant State(fileLines, firstChanged) == ApplyAll(State(original, None), sorted[..i])
    {
      fileLines, firstChanged := ApplyOne(fileLines, firstChanged, sorted[i]);
      assert sorted[..i + 1][..i] == sorted[..i];
      i := i + 1;
    }
    assert sorted[..i] == sorted;
    return Ok(EditResult(Join(fileLines, "\n"), firstChanged));
  }

  // ---------------------------------------------------------------------
  // Properties of the applier
  // ---------------------------------------------------------------------

  /** Every line an edit refers to exists, and its range is well ordered. */
  predicate AnchorsInFile(e: Edit, n: int)
  {
    match e
    case SetEdit(tag, _) => 1 <= tag.line <= n
    case ReplaceEdit(first, last, _) => 1 <= first.line <= last.line <= n
    case AppendEdit(_, after) => after.Some? ==> 1 <= after.value.line <= n
    case PrependEdit(_, before) => before.Some? ==> 1 <= before.value.line <= n
    case InsertEdit(after, before, _) => 1 <= after.line < before.line <= n
  }

  lemma CurrentAnchors(digest: Digest, e: Edit, lines: seq<string>)
    requires EditCurrent(digest, e, lines)
    ensures AnchorsInFile(e, |lines|)
  {
  }

  /** The batch goes ahead exactly when it is empty or every edit's
    * references are current; otherwise no result is produced. */
  lemma ApplyOkIff(digest: Digest, content: string, edits: seq<Edit>)
    ensures ApplySpec(digest, content, edits).Ok?
            <==> edits == [] || forall k :: 0 <= k < |edits| ==> EditCurrent(digest, edits[k], Split(content, "\n"))
  {
    var lines := Split(content, "\n");
    ValidateCurrent(digest, edits, lines);
  }

  /** A `HashlineMismatchError` carries the lines as read and a non-empty
    * list of genuine mismatches, each naming a line in the file. */
  lemma ApplyStaleReport(digest: Digest, content: string, edits: seq<Edit>)
    requires ApplySpec(digest, content, edits).Err? && ApplySpec(digest, content, edits).error.Stale?
    ensures var e := ApplySpec(digest, content, edits).error;
      && e.fileLines == Split(content, "\n") && e.mismatches != []
      && LinesInRange(e.mismatches, e.fileLines)
      && forall m :: m in e.mismatches ==> IsMismatchOf(digest, m, e.fileLines)
  {
    var lines := Split(content, "\n");
    assert edits != [];
    ValidateErrNotStale(digest, edits, lines);
    assert Validate(digest, edits, lines).Ok?;
    ValidateMismatches(digest, edits, lines);
  }

  /** A `ValueError` is the one raised by the first edit, in list order,
    * whose checks fail. */
  lemma ApplyValueError(digest: Digest, content: string, edits: seq<Edit>)
    requires ApplySpec(digest, content, edits).Err? && !ApplySpec(digest, content, edits).error.Stale?
    ensures var lines := Split(content, "\n");
      exists k :: 0 <= k < |edits| && CheckEdit(digest, edits[k], lines) == Err(ApplySpec(digest, content, edits).error)
                  && forall j :: 0 <= j < k ==> CheckEdit(digest, edits[j], lines).Ok?
  {
    var lines := Split(content, "\n");
    assert Validate(digest, edits, lines).Err?;
    ValidateFirstError(digest, edits, lines);
  }

  /** What the loop keeps: until the first edit nothing is changed, and
    * afterwards `first_changed_line` lies within the file or just past it. */
  predicate FirstChangedBound(st: State, original: seq<string>)
  {
    (st.firstChanged.None? ==> st.lines == original)
    && (st.firstChanged.Some? ==> 1 <= st.firstChanged.value <= |original| + 1)
  }

  lemma ApplyEditBound(st: State, e: Edit, original: seq<string>)
    requires FirstChangedBound(st, original) && AnchorsInFile(e, |original|)
    ensures FirstChangedBound(ApplyEdit(st, e), original)
    ensures ApplyEdit(st, e).firstChanged.Some?
  {
  }

  lemma {:induction false} ApplyAllBound(original: seq<string>, es: seq<Edit>)
    requires forall k :: 0 <= k < |es| ==> AnchorsInFile(es[k], |original|)
    ensures FirstChangedBound(ApplyAll(State(original, None), es), original)
    ensures es != [] ==> ApplyAll(State(original, None), es).firstChanged.Some?
  {
    if es != [] {
      var init := es[..|es| - 1];
      ApplyAllBound(original, init);
      ApplyEditBound(ApplyAll(State(original, None), init), es[|es| - 1], original);
    }
  }

  /** A non-empty batch that goes ahead reports a first changed line within
    * the file or just past its end. */
  lemma FirstChangedInRange(digest: Digest, content: string, edits: seq<Edit>)
    requires edits != [] && ApplySpec(digest, content, edits).Ok?
    ensures var r := ApplySpec(digest, content, edits).value;
      r.firstChangedLine.Some? && 1 <= r.firstChangedLine.value <= |Split(content, "\n")| + 1
  {
    var lines := Split(content, "\n");
    var n := |lines|;
    ApplyOkIff(digest, content, edits);
    var sorted := SortEdits(edits, n);
    SortEditsSpec(edits, n);
    forall k | 0 <= k < |sorted| ensures AnchorsInFile(sorted[k], n) {
      assert sorted[k] in multiset(edits);
      var q :| 0 <= q < |edits| && edits[q] == sorted[k];
      CurrentAnchors(digest, edits[q], lines);
    }
    ApplyAllBound(lines, sorted);
  }

  /** A batch of one edit is applied on its own. */
  lemma Single(digest: Digest, content: string, e: Edit)
    requires EditCurrent(digest, e, Split(content, "\n"))
    ensures var lines := Split(content, "\n");
      var st := ApplyEdit(State(lines, None), e);
      ApplySpec(digest, content, [e]) == Ok(EditResult(Join(st.lines, "\n"), st.firstChanged))
  {
    var lines := Split(content, "\n");
    ValidateSingle(digest, e, lines);
    SortSingle(e, |lines|);
    ApplyAllSingle(State(lines, None), e);
  }

  lemma ValidateSingle(digest: Digest, e: Edit, lines: seq<string>)
    requires EditCurrent(digest, e, lines)
    ensures Validate(digest, [e], lines) == Ok([])
  {
    ValidateCurrent(digest, [e], lines);
  }

  lemma SortSingle(e: Edit, n: int)
    ensures SortEdits([e], n) == [e]
  {
    SortByOne(e, KeyOf(n));
  }

  lemma SortByOne<T>(e: T, key: T -> (int, int))
    ensures SortBy([e], key) == [e]
  {
    assert [e][..0] == [];
    assert SortBy([e], key) == InsertBy(e, SortBy([], key), key);
    assert InsertBy(e, [], key) == [e] + [];
  }

  lemma ApplyAllSingle(st: State, e: Edit)
    ensures ApplyAll(st, [e]) == ApplyEdit(st, e)
  {
    assert [e][..0] == [];
  }

  /** Set replaces exactly its line. */
  lemma ApplySet(digest: Digest, content: string, tag: LineTag, c: seq<string>)
    requires RefCurrent(digest, tag, Split(content, "\n"))
    ensures var lines := Split(content, "\n");
      ApplySpec(digest, content, [SetEdit(tag, c)])
        == Ok(EditResult(Join(lines[..tag.line - 1] + c + lines[tag.line..], "\n"), Some(tag.line)))
  {
    var lines := Split(content, "\n");
    Single(digest, content, SetEdit(tag, c));
    SpliceWithin(lines, tag.line - 1, tag.line, c);
  }

  /** Replace replaces exactly the lines from `first` to `last`. */
  lemma ApplyReplace(digest: Digest, content: string, first: LineTag, last: LineTag, c: seq<string>)
    requires first.line <= last.line
    requires RefCurrent(digest, first, Split(content, "\n")) && RefCurrent(digest, last, Split(content, "\n"))
    ensures var lines := Split(content, "\n");
      ApplySpec(digest, content, [ReplaceEdit(first, last, c)])
        == Ok(EditResult(Join(lines[..first.line - 1] + c + lines[last.line..], "\n"), Some(first.line)))
  {
    var lines := Split(content, "\n");
    Single(digest, content, ReplaceEdit(first, last, c));
    SpliceWithin(lines, first.line - 1, last.line, c);
  }

  /** Append after a line inserts right after it and removes nothing. */
  lemma ApplyAppendAfter(digest: Digest, content: string, after: LineTag, c: seq<string>)
    requires RefCurrent(digest, after, Split(content, "\n"))
    ensures var lines := Split(content, "\n");
      ApplySpec(digest, content, [AppendEdit(c, Some(after))])
        == Ok(EditResult(Join(lines[..after.line] + c + lines[after.line..], "\n"), Some(after.line + 1)))
  {
    var lines := Split(content, "\n");
    Single(digest, content, AppendEdit(c, Some(after)));
    SpliceWithin(lines, after.line, after.line, c);
  }

  /** Append without an anchor adds at the end, except that a file holding
    * one empty line is replaced. */
  lemma ApplyAppendEnd(digest: Digest, content: string, c: seq<string>)
    ensures var lines := Split(content, "\n");
      ApplySpec(digest, content, [AppendEdit(c, None)])
        == if lines == [""] then Ok(EditResult(Join(c, "\n"), Some(1)))
           else Ok(EditResult(Join(lines + c, "\n"), Some(|lines| + 1)))
  {
    var lines := Split(content, "\n");
    Single(digest, content, AppendEdit(c, None));
    var st := ApplyEdit(State(lines, None), AppendEdit(c, None));
    if lines == [""] {
      assert st == State(c, Some(1));
    } else {
      assert !(|lines| == 1 && lines[0] == "");
      assert st == State(lines + c, Some(|lines| + 1));
    }
  }

  /** Prepend before a line inserts right before it and removes nothing. */
  lemma ApplyPrependBefore(digest: Digest, content: string, before: LineTag, c: seq<string>)
    requires RefCurrent(digest, before, Split(content, "\n"))
    ensures var lines := Split(content, "\n");
      ApplySpec(digest, content, [PrependEdit(c, Some(before))])
        == Ok(EditResult(Join(lines[..before.line - 1] + c + lines[before.line - 1..], "\n"), Some(before.line)))
  {
    var lines := Split(content, "\n");
    Single(digest, content, PrependEdit(c, Some(before)));
    SpliceWithin(lines, before.line - 1, before.line - 1, c);
  }

  /** Prepend without an anchor adds at the start, except that a file
    * holding one empty line is replaced. */
  lemma ApplyPrependStart(digest: Digest, content: string, c: seq<string>)
    ensures var lines := Split(content, "\n");
      ApplySpec(digest, content, [PrependEdit(c, None)])
        == Ok(EditResult(Join(if lines == [""] then c else c + lines, "\n"), Some(1)))
  {
    var lines := Split(content, "\n");
    Single(digest, content, PrependEdit(c, None));
    var st := ApplyEdit(State(lines, None), PrependEdit(c, None));
    if lines == [""] {
      assert st == State(c, Some(1));
    } else {
      assert !(|lines| == 1 && lines[0] == "");
      assert st == State(c + lines, Some(1));
    }
  }

  /** Insert puts the lines between its two anchors and removes nothing. */
  lemma ApplyInsert(digest: Digest, content: string, after: LineTag, before: LineTag, c: seq<string>)
    requires after.line < before.line
    requires RefCurrent(digest, after, Split(content, "\n")) && RefCurrent(digest, before, Split(content, "\n"))
    ensures var lines := Split(content, "\n");
      ApplySpec(digest, content, [InsertEdit(after, before, c)])
        == Ok(EditResult(Join(lines[..before.line - 1] + c + lines[before.line - 1..], "\n"), Some(before.line)))
  {
    var lines := Split(content, "\n");
    Single(digest, content, InsertEdit(after, before, c));
    SpliceWithin(lines, before.line - 1, before.line - 1, c);
  }

  /** Every anchor of the edit is given: an Append or Prepend names its
    * line. */
  predicate Anchored(e: Edit)
  {
    match e
    case AppendEdit(_, after) => after.Some?
    case PrependEdit(_, before) => before.Some?
    case _ => true
  }

  /** The start of the slice of the original lines that an anchored edit
    * assigns. */
  function Lo(e: Edit): int
    requires Anchored(e)
  {
    match e
    case SetEdit(tag, _) => tag.line - 1
    case ReplaceEdit(first, _, _) => first.line - 1
    case AppendEdit(_, after) => after.value.line
    case PrependEdit(_, before) => before.value.line - 1
    case InsertEdit(_, before, _) => before.line - 1
  }

  /** The end of that slice: a Set or Replace removes the lines up to it,
    * the others only insert. */
  function Hi(e: Edit): int
    requires Anchored(e)
  {
    match e
    case SetEdit(tag, _) => tag.line
    case ReplaceEdit(_, last, _) => last.line
    case AppendEdit(_, after) => after.value.line
    case PrependEdit(_, before) => before.value.line - 1
    case InsertEdit(_, before, _) => before.line - 1
  }

  /** `x` acts above `y` on no common line, and the two do not both
    * insert at the same place (where their order would be a choice). */
  predicate Apart(x: Edit, y: Edit)
    requires Anchored(x) && Anchored(y)
  {
    Hi(y) < Lo(x) || (Hi(y) == Lo(x) && (Lo(y) < Hi(y) || Lo(x) < Hi(x)))
  }

  /** Apart, and `x` is not an Append after the last line of `y`: such a
    * pair `get_sort_key` orders Set or Replace first (precedence 0 before
    * 1), so the Append acts on the edited lines (AppendAfterEdit). */
  predicate Disjoint(x: Edit, y: Edit)
    requires Anchored(x) && Anchored(y)
  {
    Apart(x, y) && !(x.AppendEdit? && Hi(y) == Lo(x))
  }

  /** An anchored edit assigns its slice and lowers the first changed line
    * to the first line of that slice. */
  lemma ApplyAnchored(st: State, e: Edit)
    requires Anchored(e)
    ensures ApplyEdit(st, e) == State(Splice(st.lines, Lo(e), Hi(e), e.content), Lower(st.firstChanged, Lo(e) + 1))
  {
  }

  /** A current anchored edit's slice lies within the file. */
  lemma SliceInFile(digest: Digest, e: Edit, lines: seq<string>)
    requires Anchored(e) && EditCurrent(digest, e, lines)
    ensures 0 <= Lo(e) <= Hi(e) <= |lines|
  {
    CurrentAnchors(digest, e, lines);
  }

  /** Of two disjoint edits the upper one is applied first. */
  lemma DisjointKeys(x: Edit, y: Edit, n: int)
    requires Anchored(x) && Anchored(y) && AnchorsInFile(x, n) && AnchorsInFile(y, n)
    requires Disjoint(x, y)
    ensures KeyBefore(SortKey(x, n), SortKey(y, n))
  {
  }

  /** With the Append-first key, of two edits that are apart the upper one
    * is applied first. */
  lemma ApartKeysAppendFirst(x: Edit, y: Edit, n: int)
    requires Anchored(x) && Anchored(y) && AnchorsInFile(x, n) && AnchorsInFile(y, n)
    requires Apart(x, y)
    ensures KeyBefore(SortKeyAppendFirst(x, n), SortKeyAppendFirst(y, n))
  {
  }

  /** Two splices, the upper one first, act at their original places. */
  lemma SplicesAtOriginal(lines: seq<string>, ly: int, hy: int, cy: seq<string>, lx: int, hx: int, cx: seq<string>)
    requires 0 <= ly <= hy <= lx <= hx <= |lines|
    ensures Splice(Splice(lines, lx, hx, cx), ly, hy, cy) == lines[..ly] + cy + lines[hy..lx] + cx + lines[hx..]
  {
    SpliceWithin(lines, lx, hx, cx);
    var mid := lines[..lx] + cx + lines[hx..];
    SpliceWithin(mid, ly, hy, cy);
    assert mid[..ly] == lines[..ly];
    assert mid[hy..] == lines[hy..lx] + cx + lines[hx..];
  }

  /** The loop over two disjoint edits, the upper one first. */
  lemma DisjointSplices(lines: seq<string>, x: Edit, y: Edit)
    requires Anchored(x) && Anchored(y)
    requires 0 <= Lo(y) <= Hi(y) <= Lo(x) <= Hi(x) <= |lines|
    ensures ApplyAll(State(lines, None), [x, y])
            == State(lines[..Lo(y)] + y.content + lines[Hi(y)..Lo(x)] + x.content + lines[Hi(x)..], Some(Lo(y) + 1))
  {
    var lx, hx, ly, hy := Lo(x), Hi(x), Lo(y), Hi(y);
    var mid := Splice(lines, lx, hx, x.content);
    var st1 := ApplyEdit(State(lines, None), x);
    assert st1 == State(mid, Some(lx + 1)) by {
      ApplyAnchored(State(lines, None), x);
    }
    assert ApplyEdit(st1, y) == State(Splice(mid, ly, hy, y.content), Some(ly + 1)) by {
      ApplyAnchored(st1, y);
    }
    ApplyAllPair(State(lines, None), x, y);
    SplicesAtOriginal(lines, ly, hy, y.content, lx, hx, x.content);
  }

  /** Two current anchored edits on disjoint parts of the file act at their
    * original line numbers, whichever order the batch lists them in, and
    * the first changed line is the first line of the lower one. */
  lemma DisjointPair(digest: Digest, content: string, x: Edit, y: Edit)
    requires Anchored(x) && Anchored(y)
    requires EditCurrent(digest, x, Split(content, "\n")) && EditCurrent(digest, y, Split(content, "\n"))
    requires Disjoint(x, y)
    ensures var lines := Split(content, "\n");
      var expected := Ok(EditResult(
        Join(lines[..Lo(y)] + y.content + lines[Hi(y)..Lo(x)] + x.content + lines[Hi(x)..], "\n"), Some(Lo(y) + 1)));
      ApplySpec(digest, content, [x, y]) == expected && ApplySpec(digest, content, [y, x]) == expected
  {
    var lines := Split(content, "\n");
    var n := |lines|;
    SliceInFile(digest, x, lines);
    SliceInFile(digest, y, lines);
    ValidatePair(digest, x, y, lines);
    ValidatePair(digest, y, x, lines);
    ApplyGoesAhead(digest, content, [x, y]);
    ApplyGoesAhead(digest, content, [y, x]);
    CurrentAnchors(digest, x, lines);
    CurrentAnchors(digest, y, lines);
    DisjointKeys(x, y, n);
    SortPairOrderFree(x, y, n);
    DisjointSplices(lines, x, y);
  }

  /** An Append after the last line of a Set or Replace is applied second,
    * at its line number in the edited lines: below that line are the
    * Set's or Replace's new lines, not the old ones. */
  lemma AppendAfterEdit(digest: Digest, content: string, x: Edit, y: Edit)
    requires x.AppendEdit? && Anchored(x) && (y.SetEdit? || y.ReplaceEdit?)
    requires EditCurrent(digest, x, Split(content, "\n")) && EditCurrent(digest, y, Split(content, "\n"))
    requires Hi(y) == Lo(x)
    ensures var lines := Split(content, "\n");
      var edited := lines[..Lo(y)] + y.content + lines[Hi(y)..];
      var expected := Ok(EditResult(Join(Splice(edited, Lo(x), Lo(x), x.content), "\n"), Some(Lo(y) + 1)));
      ApplySpec(digest, content, [x, y]) == expected && ApplySpec(digest, content, [y, x]) == expected
  {
    var lines := Split(content, "\n");
    var n := |lines|;
    SliceInFile(digest, y, lines);
    ValidatePair(digest, x, y, lines);
    ValidatePair(digest, y, x, lines);
    ApplyGoesAhead(digest, content, [x, y]);
    ApplyGoesAhead(digest, content, [y, x]);
    CurrentAnchors(digest, y, lines);
    assert KeyBefore(SortKey(y, n), SortKey(x, n));
    SortPairOrderFree(x, y, n);
    var edited := lines[..Lo(y)] + y.content + lines[Hi(y)..];
    var st1 := ApplyEdit(State(lines, None), y);
    assert st1 == State(edited, Some(Lo(y) + 1)) by {
      ApplyAnchored(State(lines, None), y);
      SpliceWithin(lines, Lo(y), Hi(y), y.content);
    }
    assert ApplyEdit(st1, x) == State(Splice(edited, Lo(x), Lo(x), x.content), Some(Lo(y) + 1)) by {
      ApplyAnchored(st1, x);
    }
    ApplyAllPair(State(lines, None), y, x);
  }

  /** A Set of line 2 to two lines and an Append after line 2 are sorted
    * Set first (precedence 0 before 1), and the appended line lands
    * between the Set's two lines: on `"a\nb\nc"` the batch gives
    * `"a\nx\nz\ny\nc"`. */
  lemma SetThenAppend(t: LineTag)
    requires t.line == 2
    ensures ApplyAll(State(["a", "b", "c"], None), SortEdits([SetEdit(t, ["x", "y"]), AppendEdit(["z"], Some(t))], 3))
            == State(["a", "x", "z", "y", "c"], Some(2))
  {
    var st := SetEdit(t, ["x", "y"]);
    var app := AppendEdit(["z"], Some(t));
    var lines := ["a", "b", "c"];
    assert SortEdits([st, app], 3) == [st, app] by {
      SortPairOrderFree(st, app, 3);
    }
    ApplyAllPair(State(lines, None), st, app);
    var s1 := ["a", "x", "y", "c"];
    assert ApplyEdit(State(lines, None), st) == State(s1, Some(2)) by {
      ApplyAnchored(State(lines, None), st);
      assert Splice(lines, 1, 2, ["x", "y"]) == lines[..1] + ["x", "y"] + lines[2..] == s1;
    }
    assert ApplyEdit(State(s1, Some(2)), app) == State(["a", "x", "z", "y", "c"], Some(2)) by {
      ApplyAnchored(State(s1, Some(2)), app);
      assert Splice(s1, 2, 2, ["z"]) == s1[..2] + ["z"] + s1[2..] == ["a", "x", "z", "y", "c"];
    }
  }

  // ---------------------------------------------------------------------
  // For comparison: the Append-first order
  // ---------------------------------------------------------------------

  /** `apply_hashline_edits` with the Append-first key: the same checks and
    * errors, and the same application loop. */
  function ApplySpecAppendFirst(digest: Digest, content: string, edits: seq<Edit>): Result<EditResult, EditError>
  {
    var r := ApplySpec(digest, content, edits);
    if edits == [] || r.Err? then r
    else
      var lines := Split(content, "\n");
      var st := ApplyAll(State(lines, None), SortEditsAppendFirst(edits, |lines|));
      Ok(EditResult(Join(st.lines, "\n"), st.firstChanged))
  }

  /** With the Append-first key, any two current anchored edits that are
    * apart, touching ones included, act at their original line numbers in
    * either list order. */
  lemma ApartPairAppendFirst(digest: Digest, content: string, x: Edit, y: Edit)
    requires Anchored(x) && Anchored(y)
    requires EditCurrent(digest, x, Split(content, "\n")) && EditCurrent(digest, y, Split(content, "\n"))
    requires Apart(x, y)
    ensures var lines := Split(content, "\n");
      var expected := Ok(EditResult(
        Join(lines[..Lo(y)] + y.content + lines[Hi(y)..Lo(x)] + x.content + lines[Hi(x)..], "\n"), Some(Lo(y) + 1)));
      ApplySpecAppendFirst(digest, content, [x, y]) == expected && ApplySpecAppendFirst(digest, content, [y, x]) == expected
  {
    var lines := Split(content, "\n");
    var n := |lines|;
    SliceInFile(digest, x, lines);
    SliceInFile(digest, y, lines);
    ValidatePair(digest, x, y, lines);
    ValidatePair(digest, y, x, lines);
    AppendFirstGoesAhead(digest, content, [x, y]);
    AppendFirstGoesAhead(digest, content, [y, x]);
    CurrentAnchors(digest, x, lines);
    CurrentAnchors(digest, y, lines);
    assert SortEditsAppendFirst([x, y], n) == [x, y] && SortEditsAppendFirst([y, x], n) == [x, y] by {
      ApartKeysAppendFirst(x, y, n);
      SortByPair(x, y, KeyOfAppendFirst(n));
    }
    DisjointSplices(lines, x, y);
  }

  /** A valid batch with no stale reference is sorted with the Append-first
    * key and applied. */
  lemma AppendFirstGoesAhead(digest: Digest, content: string, edits: seq<Edit>)
    requires edits != [] && Validate(digest, edits, Split(content, "\n")) == Ok([])
    ensures var lines := Split(content, "\n");
      var st := ApplyAll(State(lines, None), SortEditsAppendFirst(edits, |lines|));
      ApplySpecAppendFirst(digest, content, edits) == Ok(EditResult(Join(st.lines, "\n"), st.firstChanged))
  {
    ApplyGoesAhead(digest, content, edits);
  }

  /** With the Append-first key the appended line follows both of the Set's
    * lines. */
  lemma SetThenAppendAppendFirst(t: LineTag)
    requires t.line == 2
    ensures ApplyAll(State(["a", "b", "c"], None), SortEditsAppendFirst([SetEdit(t, ["x", "y"]), AppendEdit(["z"], Some(t))], 3))
            == State(["a", "x", "y", "z", "c"], Some(2))
  {
    var st := SetEdit(t, ["x", "y"]);
    var app := AppendEdit(["z"], Some(t));
    var lines := ["a", "b", "c"];
    assert SortEditsAppendFirst([st, app], 3) == [app, st] by {
      SortByPair(st, app, KeyOfAppendFirst(3));
    }
    DisjointSplices(lines, app, st);
    assert lines[..1] + ["x", "y"] + lines[2..2] + ["z"] + lines[2..] == ["a", "x", "y", "z", "c"];
  }

  /** A valid batch with no stale reference is sorted and applied. */
  lemma ApplyGoesAhead(digest: Digest, content: string, edits: seq<Edit>)
    requires edits != [] && Validate(digest, edits, Split(content, "\n")) == Ok([])
    ensures var lines := Split(content, "\n");
      var st := ApplyAll(State(lines, None), SortEdits(edits, |lines|));
      ApplySpec(digest, content, edits) == Ok(EditResult(Join(st.lines, "\n"), st.firstChanged))
  {
  }

  lemma ValidatePair(digest: Digest, x: Edit, y: Edit, lines: seq<string>)
    requires EditCurrent(digest, x, lines) && EditCurrent(digest, y, lines)
    ensures Validate(digest, [x, y], lines) == Ok([])
  {
    CheckEditCurrent(digest, x, lines);
    CheckEditCurrent(digest, y, lines);
    assert [x, y][..1] == [x];
    assert Validate(digest, [x], lines) == Ok([]) by {
      assert [x][..0] == [];
      AndThenEmpty(Validate(digest, [], lines), CheckEdit(digest, x, lines));
    }
    AndThenEmpty(Validate(digest, [x], lines), CheckEdit(digest, y, lines));
  }

  lemma ApplyAllPair(st: State, x: Edit, y: Edit)
    ensures ApplyAll(st, [x, y]) == ApplyEdit(ApplyEdit(st, x), y)
  {
    assert [x, y][..1] == [x];
    ApplyAllSingle(st, x);
  }

}
