/**
 * The edit half of the hashline engine: the five edit kinds, the check
 * that every line reference is current, the error that reports stale
 * references, and the batch applier that splices edits bottom-up.
 */
module HashlineEdits {
  import opened Wrappers
  import opened PyStr
  import opened Hashline

  // ---------------------------------------------------------------------
  // Edits, mismatches, errors
  // ---------------------------------------------------------------------

  /** The five edit kinds.  An absent anchor of an append (prepend) means
    * the end (start) of the file. */
  datatype Edit =
    | SetEdit(tag: LineTag, content: seq<string>)
    | ReplaceEdit(first: LineTag, last: LineTag, content: seq<string>)
    | AppendEdit(content: seq<string>, after: Option<LineTag>)
    | PrependEdit(content: seq<string>, before: Option<LineTag>)
    | InsertEdit(afterTag: LineTag, beforeTag: LineTag, content: seq<string>)

  /** A reference whose hash no longer matches its line. */
  datatype HashMismatch = HashMismatch(line: int, expected: string, actual: string)

  /** What `apply_hashline_edits` raises: the three `ValueError`s, and the
    * `HashlineMismatchError` with the arguments it is constructed from. */
  datatype EditError =
    | LineMissing(line: int, fileLength: nat)
    | BadRange(firstLine: int, lastLine: int)
    | BadInsert(afterLine: int, beforeLine: int)
    | Stale(mismatches: seq<HashMismatch>, fileLines: seq<string>)

  /** The message of each `ValueError`. */
  function ValueErrorText(e: EditError): string
    requires !e.Stale?
  {
    match e
    case LineMissing(line, n) =>
      "Line " + IntToString(line) + " does not exist (file has " + IntToString(n) + " lines)"
    case BadRange(f, l) =>
      "Range start line " + IntToString(f) + " must be <= end line " + IntToString(l)
    case BadInsert(a, b) =>
      "insert requires after (" + IntToString(a) + ") < before (" + IntToString(b) + ")"
  }

  datatype EditResult = EditResult(content: string, firstChangedLine: Option<int>)

  // ---------------------------------------------------------------------
  // Validation
  // ---------------------------------------------------------------------

  /** A reference names an existing line and carries that line's hash. */
  predicate RefCurrent(digest: Digest, ref: LineTag, lines: seq<string>)
  {
    1 <= ref.line <= |lines| && ComputeLineHash(digest, ref.line, lines[ref.line - 1]) == ref.hash
  }

  /** `validate_line_ref`: nothing when the reference is current, else the
    * error it raises. */
  function ValidateLineRef(digest: Digest, ref: LineTag, lines: seq<string>): (r: Option<EditError>)
    ensures r.None? <==> RefCurrent(digest, ref, lines)
    ensures r.Some? && r.value.Stale? ==> 1 <= ref.line <= |lines|
  {
    if ref.line < 1 || ref.line > |lines| then Some(LineMissing(ref.line, |lines|))
    else
      var actual := ComputeLineHash(digest, ref.line, lines[ref.line - 1]);
      if actual != ref.hash then Some(Stale([HashMismatch(ref.line, ref.hash, actual)], lines))
      else None
  }

  /** The `validate_ref` closure: an out-of-range line is an error, a stale
    * hash is recorded as a mismatch. */
  function CheckRef(digest: Digest, ref: LineTag, lines: seq<string>): (r: Result<seq<HashMismatch>, EditError>)
    ensures r.Err? <==> !(1 <= ref.line <= |lines|)
    ensures r == Ok([]) <==> RefCurrent(digest, ref, lines)
  {
    if ref.line < 1 || ref.line > |lines| then Err(LineMissing(ref.line, |lines|))
    else
      var actual := ComputeLineHash(digest, ref.line, lines[ref.line - 1]);
      if actual == ref.hash then Ok([]) else Ok([HashMismatch(ref.line, ref.hash, actual)])
  }

  /** The first error of the two, else both lists of mismatches in order. */
  function AndThen(a: Result<seq<HashMismatch>, EditError>, b: Result<seq<HashMismatch>, EditError>)
    : Result<seq<HashMismatch>, EditError>
  {
    if a.Err? then a else if b.Err? then b else Ok(a.value + b.value)
  }

  /** The checks of one edit, in the order the source makes them. */
  function CheckEdit(digest: Digest, e: Edit, lines: seq<string>): Result<seq<HashMismatch>, EditError>
  {
    match e
    case SetEdit(tag, _) => CheckRef(digest, tag, lines)
    case ReplaceEdit(first, last, _) =>
      if first.line > last.line then Err(BadRange(first.line, last.line))
      else AndThen(CheckRef(digest, first, lines), CheckRef(digest, last, lines))
    case AppendEdit(_, after) =>
      if after.Some? then CheckRef(digest, after.value, lines) else Ok([])
    case PrependEdit(_, before) =>
      if before.Some? then CheckRef(digest, before.value, lines) else Ok([])
    case InsertEdit(after, before, _) =>
      if before.line <= after.line then Err(BadInsert(after.line, before.line))
      else AndThen(CheckRef(digest, after, lines), CheckRef(digest, before, lines))
  }

  /** The checks of a whole batch, edit by edit in list order. */
  function Validate(digest: Digest, edits: seq<Edit>, lines: seq<string>): Result<seq<HashMismatch>, EditError>
  {
    if edits == [] then Ok([])
    else AndThen(Validate(digest, edits[..|edits| - 1], lines), CheckEdit(digest, edits[|edits| - 1], lines))
  }

  /** What an edit requires of the file for the batch to go ahead. */
  predicate EditCurrent(digest: Digest, e: Edit, lines: seq<string>)
  {
    match e
    case SetEdit(tag, _) => RefCurrent(digest, tag, lines)
    case ReplaceEdit(first, last, _) =>
      first.line <= last.line && RefCurrent(digest, first, lines) && RefCurrent(digest, last, lines)
    case AppendEdit(_, after) => after.Some? ==> RefCurrent(digest, after.value, lines)
    case PrependEdit(_, before) => before.Some? ==> RefCurrent(digest, before.value, lines)
    case InsertEdit(after, before, _) =>
      after.line < before.line && RefCurrent(digest, after, lines) && RefCurrent(digest, before, lines)
  }

  lemma CheckEditCurrent(digest: Digest, e: Edit, lines: seq<string>)
    ensures CheckEdit(digest, e, lines) == Ok([]) <==> EditCurrent(digest, e, lines)
  {
    match e
    case SetEdit(tag, _) =>
    case ReplaceEdit(first, last, _) =>
      AndThenEmpty(CheckRef(digest, first, lines), CheckRef(digest, last, lines));
    case AppendEdit(_, after) =>
    case PrependEdit(_, before) =>
    case InsertEdit(after, before, _) =>
      AndThenEmpty(CheckRef(digest, after, lines), CheckRef(digest, before, lines));
  }

  /** A batch passes validation with no mismatch exactly when every edit's
    * references are current and its range is well ordered. */
  lemma {:induction false} ValidateCurrent(digest: Digest, edits: seq<Edit>, lines: seq<string>)
    ensures Validate(digest, edits, lines) == Ok([])
            <==> forall k :: 0 <= k < |edits| ==> EditCurrent(digest, edits[k], lines)
  {
    if edits != [] {
      var init := edits[..|edits| - 1];
      var e := edits[|edits| - 1];
      ValidateCurrent(digest, init, lines);
      CheckEditCurrent(digest, e, lines);
      AndThenEmpty(Validate(digest, init, lines), CheckEdit(digest, e, lines));
      AllButLast(edits, init, (x: Edit) => EditCurrent(digest, x, lines));
    }
  }

  lemma AndThenEmpty(a: Result<seq<HashMismatch>, EditError>, b: Result<seq<HashMismatch>, EditError>)
    ensures AndThen(a, b) == Ok([]) <==> a == Ok([]) && b == Ok([])
  {
    if a.Ok? && b.Ok? && a.value + b.value == [] {
      assert |a.value + b.value| == 0;
    }
  }

  /** A property holds of every element exactly when it holds of all but
    * the last and of the last. */
  lemma AllButLast<T>(s: seq<T>, init: seq<T>, p: T -> bool)
    requires s != [] && init == s[..|s| - 1]
    ensures (forall k :: 0 <= k < |s| ==> p(s[k]))
            <==> (forall k :: 0 <= k < |init| ==> p(init[k])) && p(s[|s| - 1])
  {
    assert forall k :: 0 <= k < |init| ==> init[k] == s[k];
  }

  /** A batch passes validation exactly when no edit raises a `ValueError`. */
  lemma {:induction false} ValidateOk(digest: Digest, edits: seq<Edit>, lines: seq<string>)
    ensures Validate(digest, edits, lines).Ok?
            <==> forall k :: 0 <= k < |edits| ==> CheckEdit(digest, edits[k], lines).Ok?
  {
    if edits != [] {
      var init := edits[..|edits| - 1];
      ValidateOk(digest, init, lines);
      AllButLast(edits, init, (x: Edit) => CheckEdit(digest, x, lines).Ok?);
    }
  }

  /** The `ValueError`s are raised at the first offending edit in list
    * order: when the batch fails, it fails with the error of an edit that
    * every edit before it passes. */
  lemma {:induction false} ValidateFirstError(digest: Digest, edits: seq<Edit>, lines: seq<string>)
    requires Validate(digest, edits, lines).Err?
    ensures exists k :: 0 <= k < |edits| && CheckEdit(digest, edits[k], lines) == Validate(digest, edits, lines)
                      && forall j :: 0 <= j < k ==> CheckEdit(digest, edits[j], lines).Ok?
  {
    var n := |edits| - 1;
    var init := edits[..n];
    var v := Validate(digest, init, lines);
    assert forall k :: 0 <= k < n ==> init[k] == edits[k];
    if v.Err? {
      ValidateFirstError(digest, init, lines);
      var k :| 0 <= k < n && CheckEdit(digest, init[k], lines) == v
               && forall j :: 0 <= j < k ==> CheckEdit(digest, init[j], lines).Ok?;
      assert CheckEdit(digest, edits[k], lines) == Validate(digest, edits, lines);
    } else {
      ValidateOk(digest, init, lines);
      assert CheckEdit(digest, edits[n], lines) == Validate(digest, edits, lines);
    }
  }

  /** Validation fails only with a `ValueError`; stale hashes are collected. */
  lemma ValidateErrNotStale(digest: Digest, edits: seq<Edit>, lines: seq<string>)
    ensures Validate(digest, edits, lines).Err? ==> !Validate(digest, edits, lines).error.Stale?
  {
    if Validate(digest, edits, lines).Err? {
      ValidateFirstError(digest, edits, lines);
      var k :| 0 <= k < |edits| && CheckEdit(digest, edits[k], lines) == Validate(digest, edits, lines);
      CheckEditNotStale(digest, edits[k], lines);
    }
  }

  lemma CheckEditNotStale(digest: Digest, e: Edit, lines: seq<string>)
    ensures CheckEdit(digest, e, lines).Err? ==> !CheckEdit(digest, e, lines).error.Stale?
  {
  }

  /** Every recorded mismatch names an existing line, expects a hash that
    * differs from the line's, and reports the line's current hash. */
  predicate IsMismatchOf(digest: Digest, m: HashMismatch, lines: seq<string>)
  {
    1 <= m.line <= |lines| && m.actual == ComputeLineHash(digest, m.line, lines[m.line - 1])
    && m.expected != m.actual
  }

  lemma {:induction false} ValidateMismatches(digest: Digest, edits: seq<Edit>, lines: seq<string>)
    requires Validate(digest, edits, lines).Ok?
    ensures forall m :: m in Validate(digest, edits, lines).value ==> IsMismatchOf(digest, m, lines)
  {
    if edits != [] {
      var init := edits[..|edits| - 1];
      ValidateMismatches(digest, init, lines);
      CheckEditMismatches(digest, edits[|edits| - 1], lines);
    }
  }

  lemma CheckRefMismatches(digest: Digest, ref: LineTag, lines: seq<string>)
    requires CheckRef(digest, ref, lines).Ok?
    ensures forall m :: m in CheckRef(digest, ref, lines).value ==> IsMismatchOf(digest, m, lines)
  {
    var actual := ComputeLineHash(digest, ref.line, lines[ref.line - 1]);
    if actual != ref.hash {
      var m := HashMismatch(ref.line, ref.hash, actual);
      assert CheckRef(digest, ref, lines).value == [m];
      assert IsMismatchOf(digest, m, lines);
    }
  }

  lemma CheckEditMismatches(digest: Digest, e: Edit, lines: seq<string>)
    requires CheckEdit(digest, e, lines).Ok?
    ensures forall m :: m in CheckEdit(digest, e, lines).value ==> IsMismatchOf(digest, m, lines)
  {
    match e
    case SetEdit(tag, _) => CheckRefMismatches(digest, tag, lines);
    case ReplaceEdit(first, last, _) =>
      CheckRefMismatches(digest, first, lines);
      CheckRefMismatches(digest, last, lines);
    case AppendEdit(_, after) =>
      if after.Some? { CheckRefMismatches(digest, after.value, lines); }
    case PrependEdit(_, before) =>
      if before.Some? { CheckRefMismatches(digest, before.value, lines); }
    case InsertEdit(after, before, _) =>
      CheckRefMismatches(digest, after, lines);
      CheckRefMismatches(digest, before, lines);
  }

  /** A tag as `format_hash_lines` shows it reads back, through `parse_tag`,
    * as a reference that passes `validate_line_ref` on the same lines. */
  lemma ShownTagIsCurrent(digest: Digest, lines: seq<string>, n: int)
    requires 1 <= n <= |lines|
    ensures ParseTag(HashLine(digest, n, lines[n - 1])) == Ok(LineTag(n, ComputeLineHash(digest, n, lines[n - 1])))
    ensures ValidateLineRef(digest, LineTag(n, ComputeLineHash(digest, n, lines[n - 1])), lines) == None
  {
    ParseHashLine(digest, n, lines[n - 1]);
  }

  /** The validation loop of `apply_hashline_edits`: each reference is
    * checked in turn, mismatches are appended to a list, and the first
    * `ValueError` ends the loop. */
  method ValidateEdits(digest: Digest, edits: seq<Edit>, lines: seq<string>)
    returns (r: Result<seq<HashMismatch>, EditError>)
    ensures r == Validate(digest, edits, lines)
  {
    var mismatches: seq<HashMismatch> := [];
    var i := 0;
    while i < |edits|
      invariant 0 <= i <= |edits|
      invariant Validate(digest, edits[..i], lines) == Ok(mismatches)
    {
      var c := CheckEdit(digest, edits[i], lines);
      assert edits[..i + 1][..i] == edits[..i];
      if c.Err? {
        PrefixErrorStays(digest, edits, i + 1, lines);
        return c;
      }
      mismatches := mismatches + c.value;
      i := i + 1;
    }
    assert edits[..i] == edits;
    r := Ok(mismatches);
  }

  /** Once a prefix of the batch fails, the whole batch fails the same way. */
  lemma {:induction false} PrefixErrorStays(digest: Digest, edits: seq<Edit>, i: nat, lines: seq<string>)
    requires i <= |edits| && Validate(digest, edits[..i], lines).Err?
    ensures Validate(digest, edits, lines) == Validate(digest, edits[..i], lines)
    decreases |edits| - i
  {
    if i < |edits| {
      assert edits[..i + 1][..i] == edits[..i];
      PrefixErrorStays(digest, edits, i + 1, lines);
    } else {
      assert edits[..i] == edits;
    }
  }

  // ---------------------------------------------------------------------
  // HashlineMismatchError
  // ---------------------------------------------------------------------

  predicate LinesInRange(ms: seq<HashMismatch>, lines: seq<string>)
  {
    forall m :: m in ms ==> 1 <= m.line <= |lines|
  }

  /** The stale reference `f"{m.line}#{m.expected}"`. */
  function RemapKey(m: HashMismatch): string
  {
    TagText(LineTag(m.line, m.expected))
  }

  /** The reference line `line` has now, `f"{line}#{actual_hash}"`. */
  function RemapValue(digest: Digest, line: int, lines: seq<string>): string
    requires 1 <= line <= |lines|
  {
    TagText(LineTag(line, ComputeLineHash(digest, line, lines[line - 1])))
  }

  /** The map a loop of `d[k] = v` over `ps` leaves behind, starting empty. */
  function MapOfPairs<K, V>(ps: seq<(K, V)>): map<K, V>
  {
    if ps == [] then map[] else MapOfPairs(ps[..|ps| - 1])[ps[|ps| - 1].0 := ps[|ps| - 1].1]
  }

  lemma {:induction false} MapOfPairsKeys<K, V>(ps: seq<(K, V)>)
    ensures MapOfPairs(ps).Keys == set i | 0 <= i < |ps| :: ps[i].0
  {
    if ps != [] {
      var init := ps[..|ps| - 1];
      MapOfPairsKeys(init);
      assert forall i :: 0 <= i < |init| ==> init[i] == ps[i];
      var whole := set i | 0 <= i < |ps| :: ps[i].0;
      var front := set i | 0 <= i < |init| :: init[i].0;
      assert whole == front + {ps[|ps| - 1].0} by {
        forall k | k in whole
          ensures k in front + {ps[|ps| - 1].0}
        {
          var i :| 0 <= i < |ps| && ps[i].0 == k;
          if i < |init| {
            assert init[i].0 == k;
          }
        }
      }
    }
  }

  /** When equal keys always carry equal values, every pair is in the map. */
  lemma {:induction false} MapOfPairsLookup<K, V>(ps: seq<(K, V)>, i: int)
    requires forall a, b :: 0 <= a < |ps| && 0 <= b < |ps| && ps[a].0 == ps[b].0 ==> ps[a].1 == ps[b].1
    requires 0 <= i < |ps|
    ensures ps[i].0 in MapOfPairs(ps) && MapOfPairs(ps)[ps[i].0] == ps[i].1
  {
    var init := ps[..|ps| - 1];
    if ps[i].0 != ps[|ps| - 1].0 {
      assert init[i] == ps[i];
      MapOfPairsLookup(init, i);
    }
  }

  /** The (stale reference, current reference) pairs in mismatch order. */
  function RemapPairs(digest: Digest, ms: seq<HashMismatch>, lines: seq<string>): seq<(string, string)>
    requires LinesInRange(ms, lines)
  {
    seq(|ms|, i requires 0 <= i < |ms| && ms[i] in ms => (RemapKey(ms[i]), RemapValue(digest, ms[i].line, lines)))
  }

  /** `remaps` after the constructor's loop over the mismatches. */
  function Remaps(digest: Digest, ms: seq<HashMismatch>, lines: seq<string>): map<string, string>
    requires LinesInRange(ms, lines)
  {
    MapOfPairs(RemapPairs(digest, ms, lines))
  }

  /** `remaps` has a key for every stale reference and for nothing else. */
  lemma RemapsKeys(digest: Digest, ms: seq<HashMismatch>, lines: seq<string>)
    requires LinesInRange(ms, lines)
    ensures Remaps(digest, ms, lines).Keys == set m | m in ms :: RemapKey(m)
  {
    var ps := RemapPairs(digest, ms, lines);
    MapOfPairsKeys(ps);
    forall i | 0 <= i < |ms| ensures ps[i].0 == RemapKey(ms[i]) {
      RemapPairAt(digest, ms, lines, i);
    }
    KeysOfPairs(ms, ps, RemapKey);
  }

  /** The first components of pairs made from `xs` by `f`. */
  lemma KeysOfPairs<T, K, V>(xs: seq<T>, ps: seq<(K, V)>, f: T -> K)
    requires |ps| == |xs| && forall i :: 0 <= i < |xs| ==> ps[i].0 == f(xs[i])
    ensures (set i | 0 <= i < |ps| :: ps[i].0) == set x | x in xs :: f(x)
  {
    var keys := set i | 0 <= i < |ps| :: ps[i].0;
    var images := set x | x in xs :: f(x);
    forall k | k in images
      ensures k in keys
    {
      var x :| x in xs && f(x) == k;
      var i :| 0 <= i < |xs| && xs[i] == x;
      assert ps[i].0 == k;
    }
    forall k | k in keys
      ensures k in images
    {
      var i :| 0 <= i < |ps| && ps[i].0 == k;
      assert xs[i] in xs;
    }
  }

  lemma RemapPairAt(digest: Digest, ms: seq<HashMismatch>, lines: seq<string>, i: int)
    requires LinesInRange(ms, lines) && 0 <= i < |ms|
    ensures ms[i] in ms
    ensures |RemapPairs(digest, ms, lines)| == |ms|
    ensures RemapPairs(digest, ms, lines)[i] == (RemapKey(ms[i]), RemapValue(digest, ms[i].line, lines))
  {
  }

  /** Two mismatches with the same stale reference are about the same line. */
  lemma RemapsConsistent(digest: Digest, ms: seq<HashMismatch>, lines: seq<string>)
    requires LinesInRange(ms, lines)
    ensures var ps := RemapPairs(digest, ms, lines);
      forall a, b :: 0 <= a < |ps| && 0 <= b < |ps| && ps[a].0 == ps[b].0 ==> ps[a].1 == ps[b].1
  {
    var ps := RemapPairs(digest, ms, lines);
    forall a, b | 0 <= a < |ps| && 0 <= b < |ps| && ps[a].0 == ps[b].0
      ensures ps[a].1 == ps[b].1
    {
      RemapPairAt(digest, ms, lines, a);
      RemapPairAt(digest, ms, lines, b);
      SameKeySameLine(ms[a], ms[b]);
    }
  }

  lemma SameKeySameLine(m: HashMismatch, n: HashMismatch)
    requires RemapKey(m) == RemapKey(n)
    ensures m.line == n.line
  {
    TagTextInjective(LineTag(m.line, m.expected), LineTag(n.line, n.expected));
  }

  /** Each stale reference maps to the current reference of its line, even
    * when the same line is reported twice. */
  lemma RemapsValues(digest: Digest, ms: seq<HashMismatch>, lines: seq<string>, m: HashMismatch)
    requires LinesInRange(ms, lines) && m in ms
    ensures RemapKey(m) in Remaps(digest, ms, lines)
    ensures Remaps(digest, ms, lines)[RemapKey(m)] == RemapValue(digest, m.line, lines)
  {
    var i :| 0 <= i < |ms| && ms[i] == m;
    RemapsConsistent(digest, ms, lines);
    MapOfPairsLookup(RemapPairs(digest, ms, lines), i);
  }

  /** The header line: `"1 line has"` or `"N lines have"`. */
  function Header(count: int): string
  {
    IntToString(count) + " line" + (if count > 1 then "s have" else " has") + ChangedNotice
  }

  const ChangedNotice := " changed since last read. Use the updated LINE#ID references shown below (>>> marks changed lines)."

  const ContextLines := 2
  const GapLine := "    ..."

  function Max(a: int, b: int): int { if a >= b then a else b }
  function Min(a: int, b: int): int { if a <= b then a else b }

  /** The integers from `lo` to `hi`: `range(lo, hi + 1)` as a set. */
  function Span(lo: int, hi: int): (r: set<int>)
    decreases hi - lo
  {
    if lo > hi then {} else {lo} + Span(lo + 1, hi)
  }

  lemma {:induction false} SpanIff(lo: int, hi: int, x: int)
    ensures x in Span(lo, hi) <==> lo <= x <= hi
    decreases hi - lo
  {
    if lo <= hi {
      SpanIff(lo + 1, hi, x);
    }
  }

  /** The lines shown around mismatched line `l`, clamped to the file. */
  function Window(l: int, n: int): set<int>
  {
    Span(Max(1, l - ContextLines), Min(n, l + ContextLines))
  }

  /** `display_lines`: the union of the windows of all mismatches. */
  function DisplayLines(ms: seq<HashMismatch>, n: int): set<int>
  {
    if ms == [] then {} else DisplayLines(ms[..|ms| - 1], n) + Window(ms[|ms| - 1].line, n)
  }

  /** Whether line `i` lies within two lines of some mismatch. */
  predicate NearMismatch(ms: seq<HashMismatch>, i: int)
  {
    exists m :: m in ms && m.line - ContextLines <= i <= m.line + ContextLines
  }

  /** A line is shown exactly when it exists and lies within two lines of
    * some mismatch. */
  lemma {:induction false} DisplayLinesIff(ms: seq<HashMismatch>, n: int, i: int)
    ensures i in DisplayLines(ms, n) <==> 1 <= i <= n && NearMismatch(ms, i)
  {
    if ms != [] {
      var init := ms[..|ms| - 1];
      var last := ms[|ms| - 1];
      DisplayLinesIff(init, n, i);
      SpanIff(Max(1, last.line - ContextLines), Min(n, last.line + ContextLines), i);
      assert ms == init + [last];
      NearSnoc(ms, init, last, i);
    }
  }

  lemma NearSnoc(ms: seq<HashMismatch>, init: seq<HashMismatch>, last: HashMismatch, i: int)
    requires ms == init + [last]
    ensures NearMismatch(ms, i)
            <==> NearMismatch(init, i) || last.line - ContextLines <= i <= last.line + ContextLines
  {
    assert forall m :: m in ms <==> m in init || m == last;
  }

  /** The members of `d` between `lo` and `hi`, ascending: `sorted(d)` for
    * a set of lines `d` within the file. */
  function SortedWithin(d: set<int>, lo: int, hi: int): (r: seq<int>)
    decreases hi - lo
  {
    if lo > hi then [] else (if lo in d then [lo] else []) + SortedWithin(d, lo + 1, hi)
  }

  lemma {:induction false} SortedWithinSpec(d: set<int>, lo: int, hi: int)
    ensures forall i, j :: 0 <= i < j < |SortedWithin(d, lo, hi)|
              ==> SortedWithin(d, lo, hi)[i] < SortedWithin(d, lo, hi)[j]
    ensures forall x :: x in SortedWithin(d, lo, hi) <==> x in d && lo <= x <= hi
    decreases hi - lo
  {
    if lo <= hi {
      var rest := SortedWithin(d, lo + 1, hi);
      SortedWithinSpec(d, lo + 1, hi);
      var head := if lo in d then [lo] else [];
      assert SortedWithin(d, lo, hi) == head + rest;
      forall k | 0 <= k < |rest| ensures rest[k] > lo {
        assert rest[k] in rest;
      }
    }
  }

  /** The mismatched line numbers: the keys of `mismatch_map`. */
  function MarkedLines(ms: seq<HashMismatch>): set<int>
  {
    if ms == [] then {} else MarkedLines(ms[..|ms| - 1]) + {ms[|ms| - 1].line}
  }

  lemma {:induction false} MarkedLinesIff(ms: seq<HashMismatch>, i: int)
    ensures i in MarkedLines(ms) <==> exists m :: m in ms && m.line == i
  {
    if ms != [] {
      var init := ms[..|ms| - 1];
      MarkedLinesIff(init, i);
      assert ms == init + [ms[|ms| - 1]];
      assert forall m :: m in ms <==> m in init || m == ms[|ms| - 1];
    }
  }

  /** A row of the message body: a separator, or a shown line. */
  datatype Row = Gap | Shown(line: int)

  /** The rows for the ascending lines `s`: one per line, and a separator
    * before each line that does not follow the one before it. */
  function Layout(s: seq<int>): (r: seq<Row>)
  {
    if s == [] then []
    else
      var init := s[..|s| - 1];
      Layout(init)
      + (if |s| > 1 && s[|s| - 1] > s[|s| - 2] + 1 then [Gap] else [])
      + [Shown(s[|s| - 1])]
  }

  lemma LayoutSnoc(s: seq<int>, k: int)
    requires 0 <= k < |s|
    ensures Layout(s[..k + 1])
            == Layout(s[..k]) + (if k > 0 && s[k] > s[k - 1] + 1 then [Gap] else []) + [Shown(s[k])]
  {
    assert s[..k + 1][..k] == s[..k];
  }

  /** The lines a layout shows, in order. */
  function ShownLines(rows: seq<Row>): seq<int>
  {
    if rows == [] then []
    else ShownLines(rows[..|rows| - 1]) + (if rows[|rows| - 1].Shown? then [rows[|rows| - 1].line] else [])
  }

  /** Without its separators, the layout is the displayed lines in order. */
  lemma {:induction false} LayoutShowsAll(s: seq<int>)
    ensures ShownLines(Layout(s)) == s
  {
    if s != [] {
      var n := |s| - 1;
      var init := s[..n];
      var gap: seq<Row> := if n > 0 && s[n] > s[n - 1] + 1 then [Gap] else [];
      var front := Layout(init) + gap;
      LayoutSnoc(s, n);
      assert s[..n + 1] == s;
      assert Layout(s) == front + [Shown(s[n])];
      LayoutShowsAll(init);
      if gap != [] {
        ShownLinesSnoc(Layout(init), Gap);
      } else {
        assert front == Layout(init);
      }
      assert ShownLines(front) == init;
      ShownLinesSnoc(front, Shown(s[n]));
      assert init + [s[n]] == s;
    }
  }

  lemma ShownLinesSnoc(rows: seq<Row>, row: Row)
    ensures ShownLines(rows + [row]) == ShownLines(rows) + if row.Shown? then [row.line] else []
  {
    assert (rows + [row])[..|rows|] == rows;
  }

  /** Whether some displayed line does not follow the line before it. */
  predicate HasBreak(s: seq<int>)
  {
    exists k :: 0 < k < |s| && s[k] > s[k - 1] + 1
  }

  lemma BreakSnoc(s: seq<int>)
    requires |s| >= 1
    ensures HasBreak(s) <==> HasBreak(s[..|s| - 1]) || (|s| > 1 && s[|s| - 1] > s[|s| - 2] + 1)
  {
    var init := s[..|s| - 1];
    if HasBreak(s) {
      var k :| 0 < k < |s| && s[k] > s[k - 1] + 1;
      if k < |s| - 1 {
        assert init[k] == s[k] && init[k - 1] == s[k - 1];
      }
    }
    if HasBreak(init) {
      var k :| 0 < k < |init| && init[k] > init[k - 1] + 1;
      assert s[k] == init[k] && s[k - 1] == init[k - 1];
    }
  }

  /** A separator appears exactly when the displayed lines are not one
    * contiguous run. */
  lemma {:induction false} LayoutGapIff(s: seq<int>)
    ensures Gap in Layout(s) <==> HasBreak(s)
  {
    if s != [] {
      var n := |s| - 1;
      LayoutSnoc(s, n);
      assert s[..n + 1] == s;
      LayoutGapIff(s[..n]);
      BreakSnoc(s);
    }
  }

  predicate WithinFile(s: seq<int>, lines: seq<string>)
  {
    forall k :: 0 <= k < |s| ==> 1 <= s[k] <= |lines|
  }

  predicate RowsWithin(rows: seq<Row>, lines: seq<string>)
  {
    forall k :: 0 <= k < |rows| && rows[k].Shown? ==> 1 <= rows[k].line <= |lines|
  }

  lemma {:induction false} LayoutWithin(s: seq<int>, lines: seq<string>)
    requires WithinFile(s, lines)
    ensures RowsWithin(Layout(s), lines)
  {
    if s != [] {
      var n := |s| - 1;
      LayoutSnoc(s, n);
      assert s[..n + 1] == s;
      LayoutWithin(s[..n], lines);
    }
  }

  const ChangedMark := ">>> "
  const UnchangedMark := "    "

  function Marker(ms: seq<HashMismatch>, i: int): string
  {
    if i in MarkedLines(ms) then ChangedMark else UnchangedMark
  }

  /** The displayed form of line `i`: marked `>>> ` when it is mismatched. */
  function Entry(digest: Digest, ms: seq<HashMismatch>, lines: seq<string>, i: int): string
    requires 1 <= i <= |lines|
  {
    Marker(ms, i) + HashLines(digest, lines, 1)[i - 1]
  }

  function RowText(digest: Digest, ms: seq<HashMismatch>, lines: seq<string>, row: Row): string
    requires row.Shown? ==> 1 <= row.line <= |lines|
  {
    match row
    case Gap => GapLine
    case Shown(i) => Entry(digest, ms, lines, i)
  }

  /** The text of each row. */
  function Texts(digest: Digest, ms: seq<HashMismatch>, lines: seq<string>, rows: seq<Row>): (r: seq<string>)
    requires RowsWithin(rows, lines)
    ensures |r| == |rows|
    ensures forall k :: 0 <= k < |rows| ==> r[k] == RowText(digest, ms, lines, rows[k])
  {
    if rows == [] then []
    else [RowText(digest, ms, lines, rows[0])] + Texts(digest, ms, lines, rows[1..])
  }

  lemma DisplayWithinFile(ms: seq<HashMismatch>, lines: seq<string>)
    ensures WithinFile(SortedWithin(DisplayLines(ms, |lines|), 1, |lines|), lines)
    ensures RowsWithin(Layout(SortedWithin(DisplayLines(ms, |lines|), 1, |lines|)), lines)
  {
    var s := SortedWithin(DisplayLines(ms, |lines|), 1, |lines|);
    SortedWithinSpec(DisplayLines(ms, |lines|), 1, |lines|);
    forall k | 0 <= k < |s| ensures 1 <= s[k] <= |lines| {
      assert s[k] in s;
    }
    LayoutWithin(s, lines);
  }

  /** The lines of the message, before they are joined with `"\n"`. */
  function MessageLines(digest: Digest, ms: seq<HashMismatch>, lines: seq<string>): seq<string>
  {
    [Header(|ms|), ""] + Body(digest, ms, lines)
  }

  /** The lines after the header: the displayed lines in order, with the
    * gap markers between runs. */
  function Body(digest: Digest, ms: seq<HashMismatch>, lines: seq<string>): seq<string>
  {
    var sorted := SortedWithin(DisplayLines(ms, |lines|), 1, |lines|);
    DisplayWithinFile(ms, lines);
    Texts(digest, ms, lines, Layout(sorted))
  }

  /** The entries are never taken for the gap marker. */
  lemma EntryNotGap(digest: Digest, ms: seq<HashMismatch>, lines: seq<string>, i: int)
    requires 1 <= i <= |lines|
    ensures Entry(digest, ms, lines, i) != GapLine
  {
    HashLinesStart(digest, lines, 1, i - 1);
    MarkerNotGap(Marker(ms, i), HashLines(digest, lines, 1)[i - 1]);
  }

  lemma HashLinesStart(digest: Digest, lines: seq<string>, start: int, i: int)
    requires 0 <= i < |lines|
    ensures |HashLines(digest, lines, start)[i]| > 0
    ensures IsDigit(HashLines(digest, lines, start)[i][0]) || HashLines(digest, lines, start)[i][0] == '-'
  {
    HashLinesAt(digest, lines, start, i);
    HashLineStart(digest, start + i, lines[i]);
  }

  lemma MarkerNotGap(mark: string, h: string)
    requires mark == ChangedMark || mark == UnchangedMark
    requires |h| > 0 && (IsDigit(h[0]) || h[0] == '-')
    ensures mark + h != GapLine
  {
    if mark == ChangedMark {
      assert (mark + h)[0] == '>';
    } else {
      assert (mark + h)[4] == h[0];
    }
  }

  /** Every mismatch within the file has its entry in the message; by
    * `MismatchEntry` that entry is the line marked with `>>> `. */
  lemma MismatchInMessage(digest: Digest, ms: seq<HashMismatch>, lines: seq<string>, m: HashMismatch)
    requires m in ms && 1 <= m.line <= |lines|
    ensures Entry(digest, ms, lines, m.line) in MessageLines(digest, ms, lines)
  {
    MismatchShown(digest, ms, lines, m);
    InSuffix(Entry(digest, ms, lines, m.line), [Header(|ms|), ""], Body(digest, ms, lines));
  }

  /** The entry of a mismatched line is `>>> ` followed by the line as
    * `format_hash_lines` numbers it, with its current hash. */
  lemma MismatchEntry(digest: Digest, ms: seq<HashMismatch>, lines: seq<string>, m: HashMismatch)
    requires m in ms && 1 <= m.line <= |lines|
    ensures Entry(digest, ms, lines, m.line) == ChangedMark + HashLine(digest, m.line, lines[m.line - 1])
  {
    MarkedLinesIff(ms, m.line);
    HashLinesAt(digest, lines, 1, m.line - 1);
  }

  /** The entry of every mismatch within the file is in the body. */
  lemma MismatchShown(digest: Digest, ms: seq<HashMismatch>, lines: seq<string>, m: HashMismatch)
    requires m in ms && 1 <= m.line <= |lines|
    ensures Entry(digest, ms, lines, m.line) in Body(digest, ms, lines)
  {
    var sorted := SortedWithin(DisplayLines(ms, |lines|), 1, |lines|);
    DisplayWithinFile(ms, lines);
    var rows := Layout(sorted);
    var t := Texts(digest, ms, lines, rows);
    var p := MismatchRow(ms, lines, m);
    assert t[p] == RowText(digest, ms, lines, rows[p]);
  }

  /** The row of a mismatch within the file. */
  lemma MismatchRow(ms: seq<HashMismatch>, lines: seq<string>, m: HashMismatch) returns (p: int)
    requires m in ms && 1 <= m.line <= |lines|
    ensures 0 <= p < |Layout(SortedWithin(DisplayLines(ms, |lines|), 1, |lines|))|
    ensures Layout(SortedWithin(DisplayLines(ms, |lines|), 1, |lines|))[p] == Shown(m.line)
  {
    var sorted := SortedWithin(DisplayLines(ms, |lines|), 1, |lines|);
    MismatchDisplayed(ms, |lines|, m);
    var rows := Layout(sorted);
    LayoutShowsAll(sorted);
    ShownIn(rows, m.line);
    p :| 0 <= p < |rows| && rows[p] == Shown(m.line);
  }

  lemma InSuffix<T>(x: T, a: seq<T>, b: seq<T>)
    requires x in b
    ensures x in a + b
  {
  }

  lemma MismatchDisplayed(ms: seq<HashMismatch>, n: int, m: HashMismatch)
    requires m in ms && 1 <= m.line <= n
    ensures m.line in SortedWithin(DisplayLines(ms, n), 1, n)
  {
    DisplayLinesIff(ms, n, m.line);
    SortedWithinSpec(DisplayLines(ms, n), 1, n);
  }

  lemma {:induction false} ShownIn(rows: seq<Row>, i: int)
    requires i in ShownLines(rows)
    ensures exists p :: 0 <= p < |rows| && rows[p] == Shown(i)
  {
    var init := rows[..|rows| - 1];
    if i in ShownLines(init) {
      ShownIn(init, i);
      var p :| 0 <= p < |init| && init[p] == Shown(i);
      assert rows[p] == Shown(i);
    }
  }

  /** A line that no mismatch names is shown without the marker. */
  lemma UnmarkedEntry(digest: Digest, ms: seq<HashMismatch>, lines: seq<string>, i: int)
    requires 1 <= i <= |lines| && forall m :: m in ms ==> m.line != i
    ensures Entry(digest, ms, lines, i) == UnchangedMark + HashLine(digest, i, lines[i - 1])
  {
    MarkedLinesIff(ms, i);
    HashLinesAt(digest, lines, 1, i - 1);
  }

  lemma HeaderNotGap(count: int)
    ensures Header(count) != GapLine
  {
    IntToStringChars(count);
    assert Header(count)[0] == IntToString(count)[0];
  }

  /** The message holds a `    ...` separator exactly when the displayed
    * lines are not one contiguous run. */
  lemma MessageGapIff(digest: Digest, ms: seq<HashMismatch>, lines: seq<string>)
    ensures GapLine in MessageLines(digest, ms, lines)
            <==> HasBreak(SortedWithin(DisplayLines(ms, |lines|), 1, |lines|))
  {
    BodyGapIff(digest, ms, lines);
    HeaderNotGap(|ms|);
    var head := [Header(|ms|), ""];
    assert GapLine !in head;
    InAppendIff(GapLine, head, Body(digest, ms, lines));
  }

  lemma InAppendIff<T>(x: T, a: seq<T>, b: seq<T>)
    ensures x in a + b <==> x in a || x in b
  {
    if x in a + b {
      var k :| 0 <= k < |a + b| && (a + b)[k] == x;
      if k >= |a| {
        assert b[k - |a|] == x;
      }
    }
  }

  lemma BodyGapIff(digest: Digest, ms: seq<HashMismatch>, lines: seq<string>)
    ensures GapLine in Body(digest, ms, lines)
            <==> HasBreak(SortedWithin(DisplayLines(ms, |lines|), 1, |lines|))
  {
    var sorted := SortedWithin(DisplayLines(ms, |lines|), 1, |lines|);
    DisplayWithinFile(ms, lines);
    var rows := Layout(sorted);
    var t := Texts(digest, ms, lines, rows);
    LayoutGapIff(sorted);
    forall k | 0 <= k < |rows| ensures t[k] == GapLine <==> rows[k] == Gap {
      if rows[k].Shown? {
        EntryNotGap(digest, ms, lines, rows[k].line);
      }
    }
    assert Body(digest, ms, lines) == t;
  }

  // The methods below follow the constructor and `_format_message`.

  /** The constructor's loop filling `remaps`. */
  method BuildRemaps(digest: Digest, ms: seq<HashMismatch>, lines: seq<string>) returns (remaps: map<string, string>)
    requires LinesInRange(ms, lines)
    ensures remaps == Remaps(digest, ms, lines)
  {
    ghost var ps := RemapPairs(digest, ms, lines);
    remaps := map[];
    var i := 0;
    while i < |ms|
      invariant 0 <= i <= |ms|
      invariant remaps == MapOfPairs(ps[..i])
    {
      var m := ms[i];
      var actual := ComputeLineHash(digest, m.line, lines[m.line - 1]);
      remaps := remaps[TagText(LineTag(m.line, m.expected)) := TagText(LineTag(m.line, actual))];
      assert ps[..i + 1][..i] == ps[..i];
      i := i + 1;
    }
    assert ps[..|ms|] == ps;
  }

  lemma SpanSnoc(lo: int, i: int)
    requires lo <= i
    ensures Span(lo, i) == Span(lo, i - 1) + {i}
  {
    forall x ensures x in Span(lo, i) <==> x in Span(lo, i - 1) + {i} {
      SpanIff(lo, i, x);
      SpanIff(lo, i - 1, x);
    }
  }

  /** `display_lines` lie within the file. */
  lemma DisplayLinesWithin(ms: seq<HashMismatch>, n: int)
    ensures forall i :: i in DisplayLines(ms, n) ==> 1 <= i <= n
  {
    forall i | i in DisplayLines(ms, n) ensures 1 <= i <= n {
      DisplayLinesIff(ms, n, i);
    }
  }

  /** `sorted(display_lines)`: ascending and holding exactly the displayed lines. */
  lemma SortedDisplay(ms: seq<HashMismatch>, n: int)
    ensures var s := SortedWithin(DisplayLines(ms, n), 1, n);
      (forall i, j :: 0 <= i < j < |s| ==> s[i] < s[j])
      && forall x :: x in s <==> x in DisplayLines(ms, n)
  {
    SortedWithinSpec(DisplayLines(ms, n), 1, n);
    DisplayLinesWithin(ms, n);
  }

  lemma TextsSnoc(digest: Digest, ms: seq<HashMismatch>, lines: seq<string>, a: seq<Row>, b: seq<Row>)
    requires RowsWithin(a, lines) && RowsWithin(b, lines)
    ensures RowsWithin(a + b, lines)
    ensures Texts(digest, ms, lines, a + b) == Texts(digest, ms, lines, a) + Texts(digest, ms, lines, b)
  {
    assert forall k :: 0 <= k < |a + b| ==> (a + b)[k] == if k < |a| then a[k] else b[k - |a|];
  }

  lemma TextsOne(digest: Digest, ms: seq<HashMismatch>, lines: seq<string>, row: Row)
    requires row.Shown? ==> 1 <= row.line <= |lines|
    ensures RowsWithin([row], lines)
    ensures Texts(digest, ms, lines, [row]) == [RowText(digest, ms, lines, row)]
  {
  }

  /** One step of the rendering loop: the separator, if any, then the entry. */
  lemma RenderStep(digest: Digest, ms: seq<HashMismatch>, lines: seq<string>, sorted: seq<int>, k: int)
    requires WithinFile(sorted, lines) && 0 <= k < |sorted|
    ensures RowsWithin(Layout(sorted[..k]), lines) && RowsWithin(Layout(sorted[..k + 1]), lines)
    ensures Texts(digest, ms, lines, Layout(sorted[..k + 1]))
            == Texts(digest, ms, lines, Layout(sorted[..k]))
               + (if k > 0 && sorted[k] > sorted[k - 1] + 1 then [GapLine] else [])
               + [Entry(digest, ms, lines, sorted[k])]
  {
    var gap: seq<Row> := if k > 0 && sorted[k] > sorted[k - 1] + 1 then [Gap] else [];
    var pre := Layout(sorted[..k]);
    var row := Shown(sorted[k]);
    LayoutSnoc(sorted, k);
    LayoutWithin(sorted[..k], lines);
    TextsSnoc(digest, ms, lines, pre, gap);
    TextsSnoc(digest, ms, lines, pre + gap, [row]);
    TextsOne(digest, ms, lines, row);
    if gap != [] {
      TextsOne(digest, ms, lines, Gap);
    }
  }

  lemma EntryParts(digest: Digest, ms: seq<HashMismatch>, lines: seq<string>, l: int, marker: string)
    requires 1 <= l <= |lines| && marker == Marker(ms, l)
    ensures marker + TagText(LineTag(l, ComputeLineHash(digest, l, lines[l - 1]))) + ":" + lines[l - 1]
            == Entry(digest, ms, lines, l)
  {
    HashLinesAt(digest, lines, 1, l - 1);
  }

  /** The first loop of `_format_message`, collecting `display_lines`. */
  method CollectDisplayLines(ms: seq<HashMismatch>, n: int) returns (display: set<int>)
    ensures display == DisplayLines(ms, n)
  {
    display := {};
    var j := 0;
    while j < |ms|
      invariant 0 <= j <= |ms|
      invariant display == DisplayLines(ms[..j], n)
    {
      var lo := Max(1, ms[j].line - ContextLines);
      var hi := Min(n, ms[j].line + ContextLines);
      ghost var before := display;
      var i := lo;
      while i <= hi
        invariant lo <= i && (i <= hi + 1 || i == lo)
        invariant display == before + Span(lo, i - 1)
      {
        SpanSnoc(lo, i);
        display := display + {i};
        i := i + 1;
      }
      assert ms[..j + 1][..j] == ms[..j];
      j := j + 1;
    }
    assert ms[..|ms|] == ms;
  }

  /** The second loop of `_format_message`: the entries, with a separator
    * wherever `line_num > prev_line + 1`. */
  method RenderEntries(digest: Digest, ms: seq<HashMismatch>, lines: seq<string>, sorted: seq<int>)
    returns (body: seq<string>)
    requires WithinFile(sorted, lines)
    ensures RowsWithin(Layout(sorted), lines)
    ensures body == Texts(digest, ms, lines, Layout(sorted))
  {
    var marked := set m | m in ms :: m.line;
    body := [];
    var prev := -1;
    var k := 0;
    while k < |sorted|
      invariant 0 <= k <= |sorted|
      invariant RowsWithin(Layout(sorted[..k]), lines)
      invariant body == Texts(digest, ms, lines, Layout(sorted[..k]))
      invariant prev == if k == 0 then -1 else sorted[k - 1]
    {
      var l := sorted[k];
      var sep: seq<string> := [];
      if prev != -1 && l > prev + 1 {
        sep := [GapLine];
      }
      prev := l;
      var entry := RenderEntry(digest, ms, marked, lines, l);
      RenderStep(digest, ms, lines, sorted, k);
      body := body + sep + [entry];
      k := k + 1;
    }
    assert sorted[..|sorted|] == sorted;
  }

  /** One entry of the second loop: the marker, the tag and the content. */
  method RenderEntry(digest: Digest, ms: seq<HashMismatch>, marked: set<int>, lines: seq<string>, l: int)
    returns (entry: string)
    requires marked == set m | m in ms :: m.line
    requires 1 <= l <= |lines|
    ensures entry == Entry(digest, ms, lines, l)
  {
    var content := lines[l - 1];
    var prefix := TagText(LineTag(l, ComputeLineHash(digest, l, content)));
    var marker := if l in marked then ChangedMark else UnchangedMark;
    assert l in marked <==> l in MarkedLines(ms) by { MarkedLinesIff(ms, l); }
    entry := marker + prefix + ":" + content;
    EntryParts(digest, ms, lines, l, marker);
  }

  method FormatMessage(digest: Digest, ms: seq<HashMismatch>, lines: seq<string>) returns (msg: string)
    ensures msg == Join(MessageLines(digest, ms, lines), "\n")
  {
    var display := CollectDisplayLines(ms, |lines|);
    var sorted := SortedWithin(display, 1, |lines|);
    DisplayWithinFile(ms, lines);
    var body := RenderEntries(digest, ms, lines, sorted);
    var out := [Header(|ms|), ""] + body;
    msg := Join(out, "\n");
  }
}
