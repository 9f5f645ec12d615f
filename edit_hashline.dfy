/**
 * `edit_file_hashline` (`patchpal/tools/file_editing.py`) between reading
 * and writing the file: the edits an LLM sends as JSON dictionaries are
 * decoded into hashline edits, the batch is applied, and an edit that
 * leaves the text as it was is reported as such.  Reading and writing the
 * file, the operation limit, read-only mode, the permission prompt, the
 * backup and the diff are not part of this model.
 */
module EditHashline {
  import opened Wrappers
  import opened PyData
  import opened Hashline
  import opened HashlineEdits
  import opened HashlineApply

  /** An element of the `edits` list: a dictionary from the LLM, or an
    * edit object given directly. */
  datatype EditInput = FromDict(d: Dict) | Given(edit: Edit)

  /** Why a dictionary does not decode: an unknown `op`, a missing
    * required key (`KeyError`), a tag that is not text, a tag
    * `parse_tag` rejects, or content that is neither text nor a list of
    * texts. */
  datatype DecodeError =
    | UnknownOp(op: Option<Value>)
    | MissingKey(key: string)
    | TagNotText(key: string)
    | BadTag(key: string, reason: TagError)
    | BadContent

  /** What `edit_file_hashline` raises. */
  datatype HashlineError =
    | Decode(decodeError: DecodeError)
    | NoEdits
    | Apply(applyError: EditError)

  /** What it reports: no change, or the new content. */
  datatype Outcome = Unchanged | Changed(result: EditResult)

  // ---------------------------------------------------------------------
  // Decoding one dictionary
  // ---------------------------------------------------------------------

  /** `parse_tag(edit[key])`. */
  function TagField(d: Dict, key: string): (r: Result<LineTag, DecodeError>)
    ensures r.Ok? <==> key in d && d[key].PStr? && ParseTag(d[key].s).Ok?
    ensures r.Ok? ==> r.value == ParseTag(d[key].s).value
  {
    if key !in d then Err(MissingKey(key))
    else if !d[key].PStr? then Err(TagNotText(key))
    else match ParseTag(d[key].s)
      case Err(e) => Err(BadTag(key, e))
      case Ok(t) => Ok(t)
  }

  /** `parse_tag(edit[key]) if key in edit else None`. */
  function OptionalTagField(d: Dict, key: string): (r: Result<Option<LineTag>, DecodeError>)
    ensures key !in d ==> r == Ok(None)
    ensures key in d ==> (r.Ok? <==> TagField(d, key).Ok?)
    ensures key in d && r.Ok? ==> r.value == Some(TagField(d, key).value)
  {
    if key !in d then Ok(None)
    else match TagField(d, key)
      case Err(e) => Err(e)
      case Ok(t) => Ok(Some(t))
  }

  /** The texts of a list whose every element is a text. */
  function Texts(items: seq<Value>): (r: Option<seq<string>>)
    ensures r.Some? <==> forall k :: 0 <= k < |items| ==> items[k].PStr?
    ensures r.Some? ==> |r.value| == |items| && forall k :: 0 <= k < |items| ==> items[k] == PStr(r.value[k])
  {
    if items == [] then Some([])
    else if !items[0].PStr? then None
    else match Texts(items[1..])
      case None => None
      case Some(rest) => Some([items[0].s] + rest)
  }

  /** `edit.get("content", [])`, a text standing for a one-line list. */
  function ContentField(d: Dict): (r: Result<seq<string>, DecodeError>)
    ensures "content" !in d ==> r == Ok([])
    ensures "content" in d && d["content"].PStr? ==> r == Ok([d["content"].s])
  {
    if "content" !in d then Ok([])
    else match d["content"]
      case PStr(s) => Ok([s])
      case PList(items) =>
        (match Texts(items)
         case Some(c) => Ok(c)
         case None => Err(BadContent))
      case _ => Err(BadContent)
  }

  /** The `set` branch: `tag`, then `content`. */
  function DecodeSet(d: Dict): Result<Edit, DecodeError>
  {
    match TagField(d, "tag")
    case Err(e) => Err(e)
    case Ok(tag) =>
      match ContentField(d)
      case Err(e) => Err(e)
      case Ok(c) => Ok(SetEdit(tag, c))
  }

  /** The `replace` branch: `first`, `last`, then `content`. */
  function DecodeReplace(d: Dict): Result<Edit, DecodeError>
  {
    match TagField(d, "first")
    case Err(e) => Err(e)
    case Ok(first) =>
      match TagField(d, "last")
      case Err(e) => Err(e)
      case Ok(last) =>
        match ContentField(d)
        case Err(e) => Err(e)
        case Ok(c) => Ok(ReplaceEdit(first, last, c))
  }

  /** The `append` branch: an optional `after`, then `content`. */
  function DecodeAppend(d: Dict): Result<Edit, DecodeError>
  {
    match OptionalTagField(d, "after")
    case Err(e) => Err(e)
    case Ok(after) =>
      match ContentField(d)
      case Err(e) => Err(e)
      case Ok(c) => Ok(AppendEdit(c, after))
  }

  /** The `prepend` branch: an optional `before`, then `content`. */
  function DecodePrepend(d: Dict): Result<Edit, DecodeError>
  {
    match OptionalTagField(d, "before")
    case Err(e) => Err(e)
    case Ok(before) =>
      match ContentField(d)
      case Err(e) => Err(e)
      case Ok(c) => Ok(PrependEdit(c, before))
  }

  /** The `insert` branch: `after`, `before`, then `content`. */
  function DecodeInsert(d: Dict): Result<Edit, DecodeError>
  {
    match TagField(d, "after")
    case Err(e) => Err(e)
    case Ok(after) =>
      match TagField(d, "before")
      case Err(e) => Err(e)
      case Ok(before) =>
        match ContentField(d)
        case Err(e) => Err(e)
        case Ok(c) => Ok(InsertEdit(after, before, c))
  }

  /** One dictionary, dispatched on `edit.get("op")`. */
  function DecodeEdit(d: Dict): Result<Edit, DecodeError>
  {
    var op := Get(d, "op");
    if op == Some(PStr("set")) then DecodeSet(d)
    else if op == Some(PStr("replace")) then DecodeReplace(d)
    else if op == Some(PStr("append")) then DecodeAppend(d)
    else if op == Some(PStr("prepend")) then DecodePrepend(d)
    else if op == Some(PStr("insert")) then DecodeInsert(d)
    else Err(UnknownOp(op))
  }

  function DecodeInput(input: EditInput): Result<Edit, DecodeError>
  {
    match input
    case FromDict(d) => DecodeEdit(d)
    case Given(e) => Ok(e)
  }

  /** The conversion loop: every input decoded, or the first failure. */
  function DecodeAll(inputs: seq<EditInput>): Result<seq<Edit>, DecodeError>
  {
    if inputs == [] then Ok([])
    else match DecodeAll(inputs[..|inputs| - 1])
      case Err(e) => Err(e)
      case Ok(es) =>
        match DecodeInput(inputs[|inputs| - 1])
        case Err(e) => Err(e)
        case Ok(x) => Ok(es + [x])
  }

  /** A decoded dictionary names one of the five operations, yields an
    * edit of that kind, and has the keys that kind requires; an anchor
    * of `append` or `prepend` is present exactly when its key is. */
  lemma DecodeEditKinds(d: Dict)
    requires DecodeEdit(d).Ok?
    ensures var e := DecodeEdit(d).value;
      "op" in d
      && (e.SetEdit? <==> d["op"] == PStr("set"))
      && (e.ReplaceEdit? <==> d["op"] == PStr("replace"))
      && (e.AppendEdit? <==> d["op"] == PStr("append"))
      && (e.PrependEdit? <==> d["op"] == PStr("prepend"))
      && (e.InsertEdit? <==> d["op"] == PStr("insert"))
      && (e.SetEdit? ==> "tag" in d)
      && (e.ReplaceEdit? ==> "first" in d && "last" in d)
      && (e.InsertEdit? ==> "after" in d && "before" in d)
      && (e.AppendEdit? ==> (e.after.Some? <==> "after" in d))
      && (e.PrependEdit? ==> (e.before.Some? <==> "before" in d))
  {
  }

  // ---------------------------------------------------------------------
  // The dictionary form of an edit
  // ---------------------------------------------------------------------

  /** A tag `parse_tag` can read back. */
  predicate ValidTag(t: LineTag)
  {
    t.line >= 1 && IsHashName(t.hash)
  }

  predicate ValidEdit(e: Edit)
  {
    match e
    case SetEdit(tag, _) => ValidTag(tag)
    case ReplaceEdit(first, last, _) => ValidTag(first) && ValidTag(last)
    case AppendEdit(_, after) => after.Some? ==> ValidTag(after.value)
    case PrependEdit(_, before) => before.Some? ==> ValidTag(before.value)
    case InsertEdit(after, before, _) => ValidTag(after) && ValidTag(before)
  }

  function TextList(c: seq<string>): (r: seq<Value>)
    ensures |r| == |c| && forall k :: 0 <= k < |c| ==> r[k] == PStr(c[k])
  {
    seq(|c|, k requires 0 <= k < |c| => PStr(c[k]))
  }

  /** The dictionary the docstring of `edit_file_hashline` shows for each
    * kind of edit. */
  function EncodeEdit(e: Edit): Dict
  {
    match e
    case SetEdit(tag, c) =>
      map["op" := PStr("set"), "tag" := PStr(TagText(tag)), "content" := PList(TextList(c))]
    case ReplaceEdit(first, last, c) =>
      map["op" := PStr("replace"), "first" := PStr(TagText(first)), "last" := PStr(TagText(last)),
          "content" := PList(TextList(c))]
    case AppendEdit(c, after) =>
      var d := map["op" := PStr("append"), "content" := PList(TextList(c))];
      if after.Some? then d["after" := PStr(TagText(after.value))] else d
    case PrependEdit(c, before) =>
      var d := map["op" := PStr("prepend"), "content" := PList(TextList(c))];
      if before.Some? then d["before" := PStr(TagText(before.value))] else d
    case InsertEdit(after, before, c) =>
      map["op" := PStr("insert"), "after" := PStr(TagText(after)), "before" := PStr(TagText(before)),
          "content" := PList(TextList(c))]
  }

  lemma ParseTagTextAlone(t: LineTag)
    requires ValidTag(t)
    ensures ParseTag(TagText(t)) == Ok(t)
  {
    ParseTagText(t, "");
    assert TagText(t) + "" == TagText(t);
  }

  /** The tag entry of an encoded edit reads back as the tag. */
  lemma TagFieldOfText(d: Dict, key: string, t: LineTag)
    requires ValidTag(t) && key in d && d[key] == PStr(TagText(t))
    ensures TagField(d, key) == Ok(t)
  {
    ParseTagTextAlone(t);
  }

  lemma TextsOfTextList(c: seq<string>)
    ensures Texts(TextList(c)) == Some(c)
  {
    var r := Texts(TextList(c));
    assert r.Some?;
    assert r.value == c;
  }

  lemma ContentFieldOfTextList(d: Dict, c: seq<string>)
    requires "content" in d && d["content"] == PList(TextList(c))
    ensures ContentField(d) == Ok(c)
  {
    TextsOfTextList(c);
  }

  lemma DecodeEncodeSet(tag: LineTag, c: seq<string>)
    requires ValidTag(tag)
    ensures DecodeEdit(EncodeEdit(SetEdit(tag, c))) == Ok(SetEdit(tag, c))
  {
    var d := EncodeEdit(SetEdit(tag, c));
    assert Get(d, "op") == Some(PStr("set"));
    assert DecodeEdit(d) == DecodeSet(d);
    TagFieldOfText(d, "tag", tag);
    ContentFieldOfTextList(d, c);
  }

  lemma DecodeEncodeReplace(first: LineTag, last: LineTag, c: seq<string>)
    requires ValidTag(first) && ValidTag(last)
    ensures DecodeEdit(EncodeEdit(ReplaceEdit(first, last, c))) == Ok(ReplaceEdit(first, last, c))
  {
    var d := EncodeEdit(ReplaceEdit(first, last, c));
    assert Get(d, "op") == Some(PStr("replace"));
    assert DecodeEdit(d) == DecodeReplace(d);
    TagFieldOfText(d, "first", first);
    TagFieldOfText(d, "last", last);
    ContentFieldOfTextList(d, c);
  }

  lemma DecodeEncodeAppend(c: seq<string>, after: Option<LineTag>)
    requires after.Some? ==> ValidTag(after.value)
    ensures DecodeEdit(EncodeEdit(AppendEdit(c, after))) == Ok(AppendEdit(c, after))
  {
    var d := EncodeEdit(AppendEdit(c, after));
    assert Get(d, "op") == Some(PStr("append"));
    assert DecodeEdit(d) == DecodeAppend(d);
    if after.Some? {
      TagFieldOfText(d, "after", after.value);
    } else {
      assert "after" !in d;
    }
    ContentFieldOfTextList(d, c);
  }

  lemma DecodeEncodePrepend(c: seq<string>, before: Option<LineTag>)
    requires before.Some? ==> ValidTag(before.value)
    ensures DecodeEdit(EncodeEdit(PrependEdit(c, before))) == Ok(PrependEdit(c, before))
  {
    var d := EncodeEdit(PrependEdit(c, before));
    assert Get(d, "op") == Some(PStr("prepend"));
    assert DecodeEdit(d) == DecodePrepend(d);
    if before.Some? {
      TagFieldOfText(d, "before", before.value);
    } else {
      assert "before" !in d;
    }
    ContentFieldOfTextList(d, c);
  }

  lemma InsertFields(after: LineTag, before: LineTag, c: seq<string>)
    ensures var d := EncodeEdit(InsertEdit(after, before, c));
      && Get(d, "op") == Some(PStr("insert"))
      && "after" in d && d["after"] == PStr(TagText(after))
      && "before" in d && d["before"] == PStr(TagText(before))
      && "content" in d && d["content"] == PList(TextList(c))
  {
  }

  lemma DispatchInsert(d: Dict)
    requires Get(d, "op") == Some(PStr("insert"))
    ensures DecodeEdit(d) == DecodeInsert(d)
  {
  }

  lemma DecodeInsertOf(d: Dict, after: LineTag, before: LineTag, c: seq<string>)
    requires ValidTag(after) && ValidTag(before)
    requires Get(d, "op") == Some(PStr("insert"))
    requires "after" in d && d["after"] == PStr(TagText(after))
    requires "before" in d && d["before"] == PStr(TagText(before))
    requires "content" in d && d["content"] == PList(TextList(c))
    ensures DecodeEdit(d) == Ok(InsertEdit(after, before, c))
  {
    DispatchInsert(d);
    TagFieldOfText(d, "after", after);
    TagFieldOfText(d, "before", before);
    ContentFieldOfTextList(d, c);
  }

  lemma DecodeEncodeInsert(after: LineTag, before: LineTag, c: seq<string>)
    requires ValidTag(after) && ValidTag(before)
    ensures DecodeEdit(EncodeEdit(InsertEdit(after, before, c))) == Ok(InsertEdit(after, before, c))
  {
    InsertFields(after, before, c);
    DecodeInsertOf(EncodeEdit(InsertEdit(after, before, c)), after, before, c);
  }

  /** Decoding the dictionary form of a valid edit gives the edit back. */
  lemma DecodeEncode(e: Edit)
    requires ValidEdit(e)
    ensures DecodeEdit(EncodeEdit(e)) == Ok(e)
  {
    match e
    case SetEdit(tag, c) => DecodeEncodeSet(tag, c);
    case ReplaceEdit(first, last, c) => DecodeEncodeReplace(first, last, c);
    case AppendEdit(c, after) => DecodeEncodeAppend(c, after);
    case PrependEdit(c, before) => DecodeEncodePrepend(c, before);
    case InsertEdit(after, before, c) => DecodeEncodeInsert(after, before, c);
  }

  // ---------------------------------------------------------------------
  // The conversion loop
  // ---------------------------------------------------------------------

  /** A decoded batch has one edit per input, each the decoding of its
    * input. */
  lemma {:induction false} DecodeAllOk(inputs: seq<EditInput>)
    requires DecodeAll(inputs).Ok?
    ensures var es := DecodeAll(inputs).value;
      |es| == |inputs| && forall k :: 0 <= k < |inputs| ==> DecodeInput(inputs[k]) == Ok(es[k])
  {
    if inputs != [] {
      var init := inputs[..|inputs| - 1];
      DecodeAllOk(init);
      var es := DecodeAll(inputs).value;
      var es0 := DecodeAll(init).value;
      assert es == es0 + [DecodeInput(inputs[|inputs| - 1]).value];
      forall k | 0 <= k < |inputs| ensures DecodeInput(inputs[k]) == Ok(es[k]) {
        if k < |init| {
          assert inputs[k] == init[k];
        }
      }
    }
  }

  /** A failed batch fails with the error of its first input that does
    * not decode. */
  lemma {:induction false} DecodeAllErr(inputs: seq<EditInput>)
    requires DecodeAll(inputs).Err?
    ensures exists k :: 0 <= k < |inputs| && DecodeInput(inputs[k]) == Err(DecodeAll(inputs).error)
                       && forall j :: 0 <= j < k ==> DecodeInput(inputs[j]).Ok?
  {
    var init := inputs[..|inputs| - 1];
    var last := |inputs| - 1;
    if DecodeAll(init).Err? {
      DecodeAllErr(init);
      var k :| 0 <= k < |init| && DecodeInput(init[k]) == Err(DecodeAll(init).error)
        && forall j :: 0 <= j < k ==> DecodeInput(init[j]).Ok?;
      assert inputs[k] == init[k];
      assert forall j :: 0 <= j < k ==> inputs[j] == init[j];
    } else {
      DecodeAllOk(init);
      assert forall j :: 0 <= j < last ==> inputs[j] == init[j];
      assert DecodeInput(inputs[last]) == Err(DecodeAll(inputs).error);
    }
  }

  /** Inputs that are all edit objects pass through unchanged. */
  lemma {:induction false} DecodeAllGiven(es: seq<Edit>)
    ensures DecodeAll(seq(|es|, k requires 0 <= k < |es| => Given(es[k]))) == Ok(es)
  {
    var inputs := seq(|es|, k requires 0 <= k < |es| => Given(es[k]));
    if es != [] {
      var init := es[..|es| - 1];
      assert inputs[..|inputs| - 1] == seq(|init|, k requires 0 <= k < |init| => Given(init[k]));
      DecodeAllGiven(init);
      assert init + [es[|es| - 1]] == es;
    }
  }

  lemma DecodeAllStep(inputs: seq<EditInput>, i: nat, out: seq<Edit>)
    requires i < |inputs| && DecodeAll(inputs[..i]) == Ok(out)
    ensures DecodeAll(inputs[..i + 1]) == match DecodeInput(inputs[i])
      case Err(e) => Err(e)
      case Ok(x) => Ok(out + [x])
  {
    assert inputs[..i + 1][..i] == inputs[..i];
  }

  /** A batch whose beginning fails fails the same way. */
  lemma {:induction false} DecodeAllPrefixErr(inputs: seq<EditInput>, i: nat)
    requires i <= |inputs| && DecodeAll(inputs[..i]).Err?
    ensures DecodeAll(inputs) == DecodeAll(inputs[..i])
    decreases |inputs| - i
  {
    if i == |inputs| {
      assert inputs[..i] == inputs;
    } else {
      assert inputs[..i + 1][..i] == inputs[..i];
      DecodeAllPrefixErr(inputs, i + 1);
    }
  }

  /** The loop that converts dictionaries to edit objects. */
  method DecodeEdits(inputs: seq<EditInput>) returns (r: Result<seq<Edit>, DecodeError>)
    ensures r == DecodeAll(inputs)
  {
    var out: seq<Edit> := [];
    for i := 0 to |inputs|
      invariant DecodeAll(inputs[..i]) == Ok(out)
    {
      var x := DecodeInput(inputs[i]);
      DecodeAllStep(inputs, i, out);
      if x.Err? {
        DecodeAllPrefixErr(inputs, i + 1);
        return Err(x.error);
      }
      out := out + [x.value];
    }
    assert inputs[..|inputs|] == inputs;
    return Ok(out);
  }

  // ---------------------------------------------------------------------
  // edit_file_hashline
  // ---------------------------------------------------------------------

  /** `edit_file_hashline` between reading and writing the file. */
  function HashlineSpec(digest: Digest, content: string, inputs: seq<EditInput>): Result<Outcome, HashlineError>
  {
    match DecodeAll(inputs)
    case Err(e) => Err(Decode(e))
    case Ok(edits) =>
      if edits == [] then Err(NoEdits)
      else match ApplySpec(digest, content, edits)
        case Err(e) => Err(Apply(e))
        case Ok(res) => if res.content == content then Ok(Unchanged) else Ok(Changed(res))
  }

  method EditFileHashline(digest: Digest, content: string, inputs: seq<EditInput>)
    returns (r: Result<Outcome, HashlineError>)
    ensures r == HashlineSpec(digest, content, inputs)
  {
    var decoded := DecodeEdits(inputs);
    if decoded.Err? {
      return Err(Decode(decoded.error));
    }
    var edits := decoded.value;
    if edits == [] {
      return Err(NoEdits);
    }
    var applied := ApplyHashlineEdits(digest, content, edits);
    if applied.Err? {
      return Err(Apply(applied.error));
    }
    if applied.value.content == content {
      return Ok(Unchanged);
    }
    return Ok(Changed(applied.value));
  }

  /** "No edits provided" exactly for an empty list. */
  lemma NoEditsIff(digest: Digest, content: string, inputs: seq<EditInput>)
    ensures HashlineSpec(digest, content, inputs) == Err(NoEdits) <==> inputs == []
  {
    if DecodeAll(inputs).Ok? {
      DecodeAllOk(inputs);
    }
  }

  /** A reported change differs from the original; no change is reported
    * exactly when the applied batch gives the original back. */
  lemma ChangedIff(digest: Digest, content: string, inputs: seq<EditInput>)
    requires DecodeAll(inputs).Ok? && inputs != []
    ensures var a := ApplySpec(digest, content, DecodeAll(inputs).value);
      (HashlineSpec(digest, content, inputs) == Ok(Unchanged) <==> a.Ok? && a.value.content == content)
      && (HashlineSpec(digest, content, inputs).Ok? && HashlineSpec(digest, content, inputs).value.Changed?
          ==> a.Ok? && HashlineSpec(digest, content, inputs).value.result == a.value
              && a.value.content != content)
  {
    DecodeAllOk(inputs);
  }
}
