/**
 * Tool schemas derived from Python functions (`patchpal/tool_schema.py`):
 * the JSON-schema type of a type hint, the parameter descriptions of a
 * Google-style docstring, the LiteLLM tool schema of a function, the test
 * a custom tool function must pass, and the policy by which custom tools
 * found later override earlier ones of the same name.
 *
 * Python's introspection is not modelled: a function is given as its
 * name, docstring and signature (`FunctionDef`), and a type hint as a
 * `PyType`.
 */
module ToolSchema {
  import opened Wrappers
  import opened PyStr
  import opened PyData

  // ---------------------------------------------------------------------
  // Type hints
  // ---------------------------------------------------------------------

  /** The type hints the conversion distinguishes. `ListOf` is a hint whose
    * origin is `list` (`List[T]`, `list[T]`, or a bare `List` with no
    * arguments), `DictOf` one whose origin is `dict`, `UnionOf` one whose
    * origin is `typing.Union` (`Optional[T]` among them); `List` and
    * `Dict` are the builtin classes themselves, and `Other` every other
    * hint. */
  datatype PyType =
    | NoneType | Str | Int | Float | Bool | List | Dict
    | ListOf(args: seq<PyType>)
    | DictOf
    | UnionOf(args: seq<PyType>)
    | Other

  /** A JSON schema: `{"type": kind}`, with `items` for an array of known
    * element type. */
  datatype Schema = Schema(kind: string, items: Option<Schema>)

  /** The JSON-schema type names. */
  const JsonTypes: set<string> := {"null", "string", "integer", "number", "boolean", "array", "object"}

  predicate NotNone(t: PyType)
  {
    t != NoneType
  }

  /** `python_type_to_json_schema`. Every schema it builds names a JSON
    * type, and only arrays carry `items`. */
  function TypeSchema(t: PyType): (r: Schema)
    ensures r.kind in JsonTypes
    ensures r.items.Some? ==> r.kind == "array" && r.items.value.kind in JsonTypes
    ensures r.kind == "null" ==> t == NoneType || t.UnionOf?
    decreases t
  {
    match t
    case NoneType => Schema("null", None)
    case UnionOf(args) =>
      var nonNone := FilterSeq(args, NotNone);
      if nonNone != [] then
        assert nonNone[0] in args;
        TypeSchema(nonNone[0])
      else Schema("string", None)
    case ListOf(args) =>
      if args != [] then Schema("array", Some(TypeSchema(args[0]))) else Schema("array", None)
    case DictOf => Schema("object", None)
    case Str => Schema("string", None)
    case Int => Schema("integer", None)
    case Float => Schema("number", None)
    case Bool => Schema("boolean", None)
    case List => Schema("array", None)
    case Dict => Schema("object", None)
    case Other => Schema("string", None)
  }

  /** `Optional[T]` has the schema of `T`, whichever side `None` is on. */
  lemma OptionalSchema(t: PyType)
    requires t != NoneType
    ensures TypeSchema(UnionOf([t, NoneType])) == TypeSchema(t)
    ensures TypeSchema(UnionOf([NoneType, t])) == TypeSchema(t)
  {
    assert FilterSeq([t, NoneType], NotNone) == [t] by {
      assert [t, NoneType][1..] == [NoneType];
    }
    assert FilterSeq([NoneType, t], NotNone) == [t] by {
      assert [NoneType, t][1..] == [t];
    }
  }

  /** A union takes the schema of its first member that is not `None`. */
  lemma UnionSchema(args: seq<PyType>, k: nat)
    requires k < |args| && args[k] != NoneType
    requires forall j :: 0 <= j < k ==> args[j] == NoneType
    ensures TypeSchema(UnionOf(args)) == TypeSchema(args[k])
  {
    FilterNoneFirst(args, k);
  }

  lemma {:induction false} FilterNoneFirst(args: seq<PyType>, k: nat)
    requires k < |args| && args[k] != NoneType
    requires forall j :: 0 <= j < k ==> args[j] == NoneType
    ensures FilterSeq(args, NotNone) != [] && FilterSeq(args, NotNone)[0] == args[k]
  {
    if k > 0 {
      FilterNoneFirst(args[1..], k - 1);
    }
  }

  /** `List[T]` is an array of `T`'s schema, and the schema of a hint that
    * is not a union never says `null`. */
  lemma ListSchema(t: PyType)
    ensures TypeSchema(ListOf([t])) == Schema("array", Some(TypeSchema(t)))
    ensures TypeSchema(ListOf([t])).items.value.kind != "null" || t == NoneType || t.UnionOf?
  {
  }

  // ---------------------------------------------------------------------
  // Docstring parameters
  // ---------------------------------------------------------------------

  /** The headers that open the parameter section (compared after
    * stripping and lower-casing). */
  const Headers: set<string> := {"args:", "arguments:", "parameters:"}

  predicate IsHeader(stripped: string)
  {
    Lower(stripped) in Headers
  }

  predicate IsIndented(line: string)
  {
    StartsWith(line, " ") || StartsWith(line, "\t")
  }

  /** The index of the first `c` in `s`, `|s|` when there is none. */
  function IndexOf(s: string, c: char): (r: nat)
    ensures r <= |s|
    ensures r < |s| <==> c in s
    ensures r < |s| ==> s[r] == c
    ensures forall j :: 0 <= j < r ==> s[j] != c
  {
    if s == [] then 0 else if s[0] == c then 0 else 1 + IndexOf(s[1..], c)
  }

  /** `stripped.split(":", 1)[0].strip()`: the text before the first colon. */
  function ParamName(stripped: string): string
  {
    Strip(stripped[..IndexOf(stripped, ':')])
  }

  /** `stripped.split(":", 1)[1].strip()`: the text after the first colon. */
  function ParamText(stripped: string): string
    requires ':' in stripped
  {
    Strip(stripped[IndexOf(stripped, ':') + 1..])
  }

  /** The continuation of a description from line `j` on: each following
    * line, stripped and after a space, up to a blank line or one with a
    * colon. */
  function Continuation(lines: seq<string>, j: nat): string
    decreases |lines| - j
  {
    if j >= |lines| then ""
    else
      var next := Strip(lines[j]);
      if next == "" || ':' in next then "" else " " + next + Continuation(lines, j + 1)
  }

  /** The state of the scan over the docstring's lines: inside the
    * parameter section or not, the parameters read so far, and whether the
    * section has ended. */
  datatype Scan = Scan(inArgs: bool, params: map<string, string>, done: bool)

  /** What line `i` does to the scan. */
  function LineStep(lines: seq<string>, i: nat, st: Scan): Scan
    requires i < |lines|
  {
    var line := lines[i];
    var stripped := Strip(line);
    if IsHeader(stripped) then st.(inArgs := true)
    else if !st.inArgs then st
    else if stripped != "" && !IsIndented(line) && ':' in stripped then st.(done := true)
    else if ':' in stripped then
      st.(params := st.params[ParamName(stripped) := ParamText(stripped) + Continuation(lines, i + 1)])
    else st
  }

  /** The parameters read from line `i` on. */
  function ParamsFrom(lines: seq<string>, i: nat, st: Scan): map<string, string>
    decreases |lines| - i
  {
    if i >= |lines| then st.params
    else
      var next := LineStep(lines, i, st);
      if next.done then next.params else ParamsFrom(lines, i + 1, next)
  }

  /** What `parse_docstring_params` returns. */
  function DocParams(doc: string): map<string, string>
  {
    if doc == "" then map[] else ParamsFrom(Split(doc, "\n"), 0, Scan(false, map[], false))
  }

  /** The inner loop of `parse_docstring_params`: the continuation lines
    * of the description that starts on line `i`. */
  method CollectDescription(lines: seq<string>, i: nat, text: string) returns (description: string)
    ensures description == text + Continuation(lines, i + 1)
  {
    description := text;
    var j := i + 1;
    while j < |lines|
      invariant i + 1 <= j
      invariant description + Continuation(lines, j) == text + Continuation(lines, i + 1)
      decreases |lines| - j
    {
      var next := Strip(lines[j]);
      if next == "" || ':' in next {
        break;
      }
      assert Continuation(lines, j) == " " + next + Continuation(lines, j + 1);
      Regroup(description, " ", next, Continuation(lines, j + 1));
      description := description + " " + next;
      j := j + 1;
    }
  }

  lemma Regroup(a: string, b: string, c: string, d: string)
    ensures a + b + c + d == a + (b + c + d)
  {
  }

  /** One iteration of the outer loop of `parse_docstring_params`; `done`
    * is its `break`. */
  method ScanLine(lines: seq<string>, i: nat, inArgs: bool, params: map<string, string>)
    returns (inArgs': bool, params': map<string, string>, done: bool)
    requires i < |lines|
    ensures Scan(inArgs', params', done) == LineStep(lines, i, Scan(inArgs, params, false))
  {
    inArgs', params', done := inArgs, params, false;
    var line := lines[i];
    var stripped := Strip(line);
    if IsHeader(stripped) {
      inArgs' := true;
      return;
    }
    if inArgs {
      if stripped != "" && !IsIndented(line) && ':' in stripped {
        done := true;
        return;
      }
      if ':' in stripped {
        var colon := IndexOf(stripped, ':');
        var name := Strip(stripped[..colon]);
        var description := CollectDescription(lines, i, Strip(stripped[colon + 1..]));
        params' := params[name := description];
      }
    }
  }

  /** `parse_docstring_params`, with its two loops. */
  method ParseDocstringParams(doc: string) returns (params: map<string, string>)
    ensures params == DocParams(doc)
  {
    if doc == "" {
      return map[];
    }
    var lines := Split(doc, "\n");
    ghost var target := ParamsFrom(lines, 0, Scan(false, map[], false));
    params := map[];
    var inArgs := false;
    for i := 0 to |lines|
      invariant ParamsFrom(lines, i, Scan(inArgs, params, false)) == target
    {
      ghost var st := Scan(inArgs, params, false);
      var done;
      inArgs, params, done := ScanLine(lines, i, inArgs, params);
      ParamsFromStep(lines, i, st, Scan(inArgs, params, done));
      if done {
        return;
      }
    }
  }

  lemma ParamsFromStep(lines: seq<string>, i: nat, st: Scan, next: Scan)
    requires i < |lines| && next == LineStep(lines, i, st)
    ensures next.done ==> ParamsFrom(lines, i, st) == next.params
    ensures !next.done ==> ParamsFrom(lines, i, st) == ParamsFrom(lines, i + 1, next.(done := false))
  {
  }

  /** Outside a parameter section, lines that are not headers read
    * nothing. */
  lemma {:induction false} NoHeaderFrom(lines: seq<string>, i: nat, params: map<string, string>)
    requires forall k :: i <= k < |lines| ==> !IsHeader(Strip(lines[k]))
    ensures ParamsFrom(lines, i, Scan(false, params, false)) == params
    decreases |lines| - i
  {
    if i < |lines| {
      NoHeaderFrom(lines, i + 1, params);
    }
  }

  /** A docstring without an `Args:`, `Arguments:` or `Parameters:` line
    * documents no parameter. */
  lemma NoHeaderNoParams(doc: string)
    requires forall k :: 0 <= k < |Split(doc, "\n")| ==> !IsHeader(Strip(Split(doc, "\n")[k]))
    ensures DocParams(doc) == map[]
  {
    if doc != "" {
      NoHeaderFrom(Split(doc, "\n"), 0, map[]);
    }
  }

  /** A slice keeps a missing character missing. */
  lemma SliceLacks(s: string, c: char, a: nat, b: nat)
    requires a <= b <= |s| && c !in s
    ensures c !in s[a..b]
  {
  }

  lemma StripLacks(s: string, c: char)
    requires c !in s
    ensures c !in Strip(s)
  {
    var l := LStrip(s);
    LStripShape(s);
    RStripShape(l);
    SliceLacks(s, c, |s| - |l|, |s|);
    assert s[|s| - |l|..|s|] == l;
    SliceLacks(l, c, 0, |RStrip(l)|);
    assert l[0..|RStrip(l)|] == RStrip(l);
  }

  lemma {:induction false} ContinuationLacks(lines: seq<string>, j: nat)
    requires forall k :: 0 <= k < |lines| ==> '\n' !in lines[k]
    ensures '\n' !in Continuation(lines, j)
    decreases |lines| - j
  {
    if j < |lines| {
      StripLacks(lines[j], '\n');
      ContinuationLacks(lines, j + 1);
    }
  }

  predicate WellFormedParams(params: map<string, string>)
  {
    forall name :: name in params ==> ':' !in name && '\n' !in params[name]
  }

  /** A recorded name is the stripped text before the first colon, and a
    * recorded description is made of stripped pieces of lines. */
  lemma LineStepWellFormed(lines: seq<string>, i: nat, st: Scan)
    requires i < |lines|
    requires forall k :: 0 <= k < |lines| ==> '\n' !in lines[k]
    requires WellFormedParams(st.params)
    ensures WellFormedParams(LineStep(lines, i, st).params)
  {
    var stripped := Strip(lines[i]);
    if ':' in stripped {
      EntryWellFormed(lines, i);
      InsertWellFormed(st.params, ParamName(stripped), ParamText(stripped) + Continuation(lines, i + 1));
    }
  }

  /** The entry a `name: text` line records has a colon-free name and a
    * one-line description. */
  lemma EntryWellFormed(lines: seq<string>, i: nat)
    requires i < |lines| && ':' in Strip(lines[i])
    requires forall k :: 0 <= k < |lines| ==> '\n' !in lines[k]
    ensures ':' !in ParamName(Strip(lines[i]))
    ensures '\n' !in ParamText(Strip(lines[i])) + Continuation(lines, i + 1)
  {
    var stripped := Strip(lines[i]);
    var colon := IndexOf(stripped, ':');
    StripLacks(lines[i], '\n');
    assert ':' !in stripped[..colon];
    StripLacks(stripped[..colon], ':');
    SliceLacks(stripped, '\n', colon + 1, |stripped|);
    assert stripped[colon + 1..|stripped|] == stripped[colon + 1..];
    StripLacks(stripped[colon + 1..], '\n');
    ContinuationLacks(lines, i + 1);
  }

  lemma InsertWellFormed(params: map<string, string>, name: string, text: string)
    requires WellFormedParams(params) && ':' !in name && '\n' !in text
    ensures WellFormedParams(params[name := text])
  {
  }

  lemma {:induction false} ParamsFromWellFormed(lines: seq<string>, i: nat, st: Scan)
    requires forall k :: 0 <= k < |lines| ==> '\n' !in lines[k]
    requires WellFormedParams(st.params)
    ensures WellFormedParams(ParamsFrom(lines, i, st))
    decreases |lines| - i
  {
    if i < |lines| {
      LineStepWellFormed(lines, i, st);
      ParamsFromWellFormed(lines, i + 1, LineStep(lines, i, st));
    }
  }

  /** A documented parameter's name holds no colon and its description is
    * one line: continuation lines are joined by spaces. */
  lemma DocParamsWellFormed(doc: string)
    ensures WellFormedParams(DocParams(doc))
  {
    if doc != "" {
      var lines := Split(doc, "\n");
      SplitPiecesFree(doc, "\n");
      forall k | 0 <= k < |lines| ensures '\n' !in lines[k] {
        assert lines[k] in lines;
        NoCharFree(lines[k], '\n');
      }
      ParamsFromWellFormed(lines, 0, Scan(false, map[], false));
    }
  }

  /** In the parameter section, an indented `name: text` line records
    * `text` followed by its continuation lines, a later line recording the
    * same name again; a line that is not indented and has a colon ends the
    * section, and nothing after it is read. */
  lemma ParamLine(lines: seq<string>, i: nat, params: map<string, string>)
    requires i < |lines|
    requires var st := Strip(lines[i]); !IsHeader(st) && ':' in st
    ensures var st := Strip(lines[i]);
      ParamsFrom(lines, i, Scan(true, params, false))
      == if IsIndented(lines[i])
         then ParamsFrom(lines, i + 1, Scan(true, params[ParamName(st) := ParamText(st) + Continuation(lines, i + 1)], false))
         else params
  {
    assert Strip(lines[i]) != "";
  }

  // ---------------------------------------------------------------------
  // Function signatures and tool schemas
  // ---------------------------------------------------------------------

  datatype ParamKind = PositionalOrKeyword | PositionalOnly | KeywordOnly | VarPositional | VarKeyword

  /** A signature parameter: its name, kind, annotation (if any) and
    * whether it has a default. */
  datatype Param = Param(name: string, kind: ParamKind, annotation: Option<PyType>, hasDefault: bool)

  /** A function as the discovery sees it: its name, its docstring
    * (`__doc__`, already cleaned as `inspect.getdoc` does), its
    * parameters, and whether it is defined in the module being loaded
    * rather than imported into it. */
  datatype FunctionDef = FunctionDef(name: string, doc: Option<string>, params: seq<Param>, definedHere: bool)

  /** `*args` and `**kwargs` take no part in the schema. */
  predicate NotVariadic(p: Param)
  {
    p.kind != VarPositional && p.kind != VarKeyword
  }

  /** A parameter the caller must give. */
  predicate IsRequired(p: Param)
  {
    NotVariadic(p) && !p.hasDefault
  }

  /** A property of the parameters schema. */
  datatype Property = Property(name: string, schema: Schema, description: string)

  /** The schema `function_to_tool_schema` builds. */
  datatype ToolDef = ToolDef(name: string, description: string, properties: seq<Property>, required: seq<string>)

  /** A parameter's property: the schema of its hint (`str` for none) and
    * its documented description, else `Parameter {name}`. */
  function PropertyOf(p: Param, descriptions: map<string, string>): Property
  {
    Property(p.name, TypeSchema(p.annotation.GetOr(Str)),
             if p.name in descriptions then descriptions[p.name] else "Parameter " + p.name)
  }

  function PropertyFn(descriptions: map<string, string>): Param -> Property
  {
    p => PropertyOf(p, descriptions)
  }

  function NameOf(p: Param): string
  {
    p.name
  }

  function Properties(params: seq<Param>, descriptions: map<string, string>): seq<Property>
  {
    MapSeq(FilterSeq(params, NotVariadic), PropertyFn(descriptions))
  }

  function Required(params: seq<Param>): seq<string>
  {
    MapSeq(FilterSeq(params, IsRequired), NameOf)
  }

  /** The loop of `function_to_tool_schema` that fills `properties` and
    * `required`. */
  method BuildParameters(params: seq<Param>, descriptions: map<string, string>)
    returns (properties: seq<Property>, required: seq<string>)
    ensures properties == Properties(params, descriptions)
    ensures required == Required(params)
  {
    properties := [];
    required := [];
    for i := 0 to |params|
      invariant properties == Properties(params[..i], descriptions)
      invariant required == Required(params[..i])
    {
      ParametersStep(params, i, descriptions);
      properties, required := AddParameter(properties, required, params[i], descriptions);
    }
    assert params[..|params|] == params;
  }

  /** One pass of that loop: `*args` and `**kwargs` are skipped; any other
    * parameter gets its property, and its name is required when it has
    * no default. */
  method AddParameter(properties: seq<Property>, required: seq<string>, p: Param, descriptions: map<string, string>)
    returns (properties': seq<Property>, required': seq<string>)
    ensures properties' == properties + (if NotVariadic(p) then [PropertyOf(p, descriptions)] else [])
    ensures required' == required + (if IsRequired(p) then [p.name] else [])
  {
    properties', required' := properties, required;
    if p.kind == VarPositional || p.kind == VarKeyword {
      assert properties' == properties + [];
      assert required' == required + [];
      return;
    }
    var schema := TypeSchema(p.annotation.GetOr(Str));
    var description := if p.name in descriptions then descriptions[p.name] else "Parameter " + p.name;
    properties' := properties + [Property(p.name, schema, description)];
    if !p.hasDefault {
      required' := required + [p.name];
    } else {
      assert required' == required + [];
    }
  }

  lemma ParametersStep(params: seq<Param>, i: nat, descriptions: map<string, string>)
    requires i < |params|
    ensures Properties(params[..i + 1], descriptions)
         == Properties(params[..i], descriptions) + (if NotVariadic(params[i]) then [PropertyOf(params[i], descriptions)] else [])
    ensures Required(params[..i + 1]) == Required(params[..i]) + (if IsRequired(params[i]) then [params[i].name] else [])
  {
    var p := params[i];
    assert params[..i + 1] == params[..i] + [p];
    FilterSeqSnoc(params[..i], p, NotVariadic);
    FilterSeqSnoc(params[..i], p, IsRequired);
    if NotVariadic(p) {
      MapSeqSnoc(FilterSeq(params[..i], NotVariadic), p, PropertyFn(descriptions));
    } else {
      assert FilterSeq(params[..i], NotVariadic) + [] == FilterSeq(params[..i], NotVariadic);
      assert Properties(params[..i], descriptions) + [] == Properties(params[..i], descriptions);
    }
    if IsRequired(p) {
      MapSeqSnoc(FilterSeq(params[..i], IsRequired), p, NameOf);
    } else {
      assert FilterSeq(params[..i], IsRequired) + [] == FilterSeq(params[..i], IsRequired);
      assert Required(params[..i]) + [] == Required(params[..i]);
    }
  }

  /** `required` names exactly the parameters without a default that are
    * not `*args` or `**kwargs`. */
  lemma RequiredIff(params: seq<Param>, name: string)
    ensures name in Required(params) <==> exists k :: 0 <= k < |params| && IsRequired(params[k]) && params[k].name == name
  {
    var kept := FilterSeq(params, IsRequired);
    if name in Required(params) {
      var j :| 0 <= j < |kept| && kept[j].name == name;
      assert kept[j] in kept;
      var k :| 0 <= k < |params| && params[k] == kept[j];
    }
    if exists k :: 0 <= k < |params| && IsRequired(params[k]) && params[k].name == name {
      var k :| 0 <= k < |params| && IsRequired(params[k]) && params[k].name == name;
      FilterSeqKeeps(params, IsRequired, k);
      var j :| 0 <= j < |kept| && kept[j] == params[k];
      assert Required(params)[j] == name;
    }
  }

  /** The filter keeps every element that passes. */
  lemma {:induction false} FilterSeqKeeps<T>(s: seq<T>, p: T -> bool, k: nat)
    requires k < |s| && p(s[k])
    ensures s[k] in FilterSeq(s, p)
  {
    if k > 0 {
      FilterSeqKeeps(s[1..], p, k - 1);
    }
  }

  /** Every parameter other than `*args` and `**kwargs` has a property,
    * and every required name is a property's name. */
  lemma PropertiesCover(params: seq<Param>, descriptions: map<string, string>, k: nat)
    requires k < |params| && NotVariadic(params[k])
    ensures PropertyOf(params[k], descriptions) in Properties(params, descriptions)
    ensures exists q :: q in Properties(params, descriptions) && q.name == params[k].name
  {
    var kept := FilterSeq(params, NotVariadic);
    FilterSeqKeeps(params, NotVariadic, k);
    var j :| 0 <= j < |kept| && kept[j] == params[k];
    assert Properties(params, descriptions)[j] == PropertyOf(params[k], descriptions);
  }

  /** An undocumented parameter is described as `Parameter {name}`. */
  lemma UndocumentedParameter(p: Param, descriptions: map<string, string>)
    requires p.name !in descriptions
    ensures PropertyOf(p, descriptions).description == "Parameter " + p.name
  {
  }

  // ---------------------------------------------------------------------
  // The description
  // ---------------------------------------------------------------------

  /** `docstring.split("\n\n")[0]`. */
  function FirstParagraph(doc: string): string
  {
    Split(doc, "\n\n")[0]
  }

  /** The description: the first paragraph on one line, stripped, or
    * `Execute {name}` when that is empty. */
  function Description(doc: string, name: string): (r: string)
    requires '\n' !in name
    ensures r != "" && '\n' !in r
    ensures AllSpace(Replace(FirstParagraph(doc), "\n", " ")) ==> r == "Execute " + name
    ensures !AllSpace(Replace(FirstParagraph(doc), "\n", " ")) ==> !IsSpace(r[0]) && !IsSpace(r[|r| - 1])
  {
    var text := Strip(Replace(FirstParagraph(doc), "\n", " "));
    StripEmptyIffAllSpace(Replace(FirstParagraph(doc), "\n", " "));
    ReplaceCharGone(FirstParagraph(doc), '\n', ' ');
    StripLacks(Replace(FirstParagraph(doc), "\n", " "), '\n');
    StripEdges(Replace(FirstParagraph(doc), "\n", " "));
    if text != "" then text else "Execute " + name
  }

  /** Replacing a character by another leaves none of it. */
  lemma {:induction false} ReplaceCharGone(s: string, c: char, d: char)
    requires c != d
    ensures c !in Replace(s, [c], [d])
    decreases |s|
  {
    match Find(s, [c], 0)
    case None =>
      forall j | 0 <= j < |s| ensures s[j] != c {
        OccursCharAt(s, c, j);
      }
    case Some(i) =>
      forall j | 0 <= j < i ensures s[j] != c {
        OccursCharAt(s, c, j);
      }
      ReplaceCharGone(s[i + 1..], c, d);
  }

  /** `function_to_tool_schema`. */
  method FunctionToToolSchema(f: FunctionDef) returns (tool: ToolDef)
    requires '\n' !in f.name
    ensures tool == ToolSchemaOf(f)
  {
    var doc := f.doc.GetOr("");
    var description := Description(doc, f.name);
    var descriptions := ParseDocstringParams(doc);
    var properties, required := BuildParameters(f.params, descriptions);
    tool := ToolDef(f.name, description, properties, required);
  }

  /** The tool schema of a function. */
  function ToolSchemaOf(f: FunctionDef): (tool: ToolDef)
    requires '\n' !in f.name
    ensures tool.name == f.name && tool.description != ""
    ensures |tool.required| <= |tool.properties| <= |f.params|
  {
    var doc := f.doc.GetOr("");
    RequiredWithin(f.params);
    ToolDef(f.name, Description(doc, f.name), Properties(f.params, DocParams(doc)), Required(f.params))
  }

  lemma {:induction false} RequiredWithin(params: seq<Param>)
    ensures |FilterSeq(params, IsRequired)| <= |FilterSeq(params, NotVariadic)|
  {
    if params != [] {
      RequiredWithin(params[1..]);
    }
  }

  // ---------------------------------------------------------------------
  // Valid tool functions
  // ---------------------------------------------------------------------

  /** `_is_valid_tool_function`: a docstring, and an annotation on every
    * parameter other than `*args` and `**kwargs`. */
  predicate ValidTool(f: FunctionDef)
  {
    f.doc.Some? && f.doc.value != ""
    && forall k :: 0 <= k < |f.params| && NotVariadic(f.params[k]) ==> f.params[k].annotation.Some?
  }

  /** The check as the source writes it, a loop with early returns. */
  method IsValidToolFunction(f: FunctionDef) returns (ok: bool)
    ensures ok == ValidTool(f)
  {
    if f.doc.None? || f.doc.value == "" {
      return false;
    }
    for i := 0 to |f.params|
      invariant forall k :: 0 <= k < i && NotVariadic(f.params[k]) ==> f.params[k].annotation.Some?
    {
      var p := f.params[i];
      if p.kind == VarPositional || p.kind == VarKeyword {
        continue;
      }
      if p.annotation.None? {
        return false;
      }
    }
    return true;
  }

  // ---------------------------------------------------------------------
  // Discovery
  // ---------------------------------------------------------------------

  /** A `.py` file of a tools directory: the functions of its module, or
    * `None` when loading it raised (the file is then skipped). */
  type ToolFile = Option<seq<FunctionDef>>

  /** A tools directory's files in sorted order; a missing directory has
    * none. */
  type ToolDir = seq<ToolFile>

  /** A function becomes a tool when it is public, defined in its own
    * module and valid. */
  predicate Accepted(f: FunctionDef)
  {
    !StartsWith(f.name, "_") && f.definedHere && ValidTool(f)
  }

  /** `tools_by_name[name] = obj` for one function, when it is accepted. */
  function Register(tools: map<string, FunctionDef>, f: FunctionDef): map<string, FunctionDef>
  {
    if Accepted(f) then tools[f.name := f] else tools
  }

  /** The registry after the functions `fs`, in order. */
  function RegisterAll(tools: map<string, FunctionDef>, fs: seq<FunctionDef>): map<string, FunctionDef>
  {
    if fs == [] then tools else Register(RegisterAll(tools, fs[..|fs| - 1]), fs[|fs| - 1])
  }

  lemma RegisterAllSnoc(tools: map<string, FunctionDef>, fs: seq<FunctionDef>, f: FunctionDef)
    ensures RegisterAll(tools, fs + [f]) == Register(RegisterAll(tools, fs), f)
  {
    assert (fs + [f])[..|fs|] == fs;
  }

  function Loaded(file: ToolFile): seq<FunctionDef>
  {
    if file.Some? then file.value else []
  }

  /** The functions of a directory, file after file. */
  function DirFunctions(dir: ToolDir): seq<FunctionDef>
  {
    Concat(MapSeq(dir, Loaded))
  }

  /** The directories searched: only the explicit one when given, else
    * the global one and then the repository's. */
  function SearchOrder(explicit: Option<ToolDir>, global: ToolDir, repo: Option<ToolDir>): seq<ToolDir>
  {
    if explicit.Some? then [explicit.value] else [global] + (if repo.Some? then [repo.value] else [])
  }

  /** Every function seen, in search order. */
  function AllFunctions(dirs: seq<ToolDir>): seq<FunctionDef>
  {
    if dirs == [] then [] else AllFunctions(dirs[..|dirs| - 1]) + DirFunctions(dirs[|dirs| - 1])
  }

  /** What `discover_tools` collects, by name. */
  function DiscoverSpec(explicit: Option<ToolDir>, global: ToolDir, repo: Option<ToolDir>): map<string, FunctionDef>
  {
    RegisterAll(map[], AllFunctions(SearchOrder(explicit, global, repo)))
  }

  lemma {:induction false} RegisterAllAppend(tools: map<string, FunctionDef>, a: seq<FunctionDef>, b: seq<FunctionDef>)
    ensures RegisterAll(tools, a + b) == RegisterAll(RegisterAll(tools, a), b)
    decreases |b|
  {
    if b == [] {
      assert a + b == a;
    } else {
      var init := b[..|b| - 1];
      assert a + b == (a + init) + [b[|b| - 1]];
      RegisterAllAppend(tools, a, init);
      RegisterAllSnoc(tools, a + init, b[|b| - 1]);
      RegisterAllSnoc(RegisterAll(tools, a), init, b[|b| - 1]);
      assert init + [b[|b| - 1]] == b;
    }
  }

  /** `_load_from_directory`: every function of every loaded file is
    * registered, in order. */
  method LoadFromDirectory(dir: ToolDir, tools: map<string, FunctionDef>)
    returns (tools': map<string, FunctionDef>)
    ensures tools' == RegisterAll(tools, DirFunctions(dir))
  {
    tools' := tools;
    for i := 0 to |dir|
      invariant tools' == RegisterAll(tools, DirFunctions(dir[..i]))
    {
      DirFunctionsStep(dir, i);
      RegisterAllAppend(tools, DirFunctions(dir[..i]), Loaded(dir[i]));
      if dir[i].None? {
        continue;
      }
      var fs := dir[i].value;
      ghost var before := tools';
      for j := 0 to |fs|
        invariant tools' == RegisterAll(before, fs[..j])
      {
        var f := fs[j];
        RegisterAllSnoc(before, fs[..j], f);
        assert fs[..j + 1] == fs[..j] + [f];
        if StartsWith(f.name, "_") {
          continue;
        }
        if !f.definedHere {
          continue;
        }
        var ok := IsValidToolFunction(f);
        if ok {
          tools' := tools'[f.name := f];
        }
      }
      assert fs[..|fs|] == fs;
    }
    assert dir[..|dir|] == dir;
  }

  lemma DirFunctionsStep(dir: ToolDir, i: nat)
    requires i < |dir|
    ensures DirFunctions(dir[..i + 1]) == DirFunctions(dir[..i]) + Loaded(dir[i])
  {
    assert dir[..i + 1] == dir[..i] + [dir[i]];
    MapSeqSnoc(dir[..i], dir[i], Loaded);
    ConcatSnoc(MapSeq(dir[..i], Loaded), Loaded(dir[i]));
  }

  /** `discover_tools`, before its result is turned into a list. */
  method DiscoverTools(explicit: Option<ToolDir>, global: ToolDir, repo: Option<ToolDir>)
    returns (tools: map<string, FunctionDef>)
    ensures tools == DiscoverSpec(explicit, global, repo)
  {
    var dirs := SearchOrder(explicit, global, repo);
    tools := map[];
    for i := 0 to |dirs|
      invariant tools == RegisterAll(map[], AllFunctions(dirs[..i]))
    {
      assert dirs[..i + 1][..i] == dirs[..i];
      RegisterAllAppend(map[], AllFunctions(dirs[..i]), DirFunctions(dirs[i]));
      tools := LoadFromDirectory(dirs[i], tools);
    }
    assert dirs[..|dirs|] == dirs;
  }

  /** A name is registered exactly when it was already, or some accepted
    * function has it; and then it maps to a function of that name. */
  lemma {:induction false} RegisterAllKeys(tools: map<string, FunctionDef>, fs: seq<FunctionDef>, name: string)
    requires forall n :: n in tools ==> tools[n].name == n
    ensures name in RegisterAll(tools, fs) <==>
      name in tools || exists k :: 0 <= k < |fs| && Accepted(fs[k]) && fs[k].name == name
    ensures name in RegisterAll(tools, fs) ==> RegisterAll(tools, fs)[name].name == name
  {
    if fs != [] {
      var init := fs[..|fs| - 1];
      var f := fs[|fs| - 1];
      RegisterAllKeys(tools, init, name);
      assert forall k :: 0 <= k < |init| ==> init[k] == fs[k];
      if exists k :: 0 <= k < |fs| && Accepted(fs[k]) && fs[k].name == name {
        var k :| 0 <= k < |fs| && Accepted(fs[k]) && fs[k].name == name;
        if k < |init| {
          assert Accepted(init[k]) && init[k].name == name;
        }
      }
    }
  }

  /** The last accepted definition of a name wins. */
  lemma {:induction false} LaterDefinitionWins(tools: map<string, FunctionDef>, fs: seq<FunctionDef>, k: nat)
    requires k < |fs| && Accepted(fs[k])
    requires forall j :: k < j < |fs| ==> !(Accepted(fs[j]) && fs[j].name == fs[k].name)
    ensures fs[k].name in RegisterAll(tools, fs) && RegisterAll(tools, fs)[fs[k].name] == fs[k]
  {
    var init := fs[..|fs| - 1];
    if k < |fs| - 1 {
      assert forall j :: k < j < |init| ==> init[j] == fs[j];
      LaterDefinitionWins(tools, init, k);
    }
  }

  lemma AllFunctionsSnoc(dirs: seq<ToolDir>, d: ToolDir)
    ensures AllFunctions(dirs + [d]) == AllFunctions(dirs) + DirFunctions(d)
  {
    assert (dirs + [d])[..|dirs|] == dirs;
  }

  /** A repository tool overrides a global tool of the same name: what is
    * discovered under a name the repository defines is the repository's
    * last accepted definition of it. */
  lemma RepoOverridesGlobal(global: ToolDir, repo: ToolDir, k: nat)
    requires k < |DirFunctions(repo)| && Accepted(DirFunctions(repo)[k])
    requires forall j :: k < j < |DirFunctions(repo)| ==>
      !(Accepted(DirFunctions(repo)[j]) && DirFunctions(repo)[j].name == DirFunctions(repo)[k].name)
    ensures var f := DirFunctions(repo)[k];
      f.name in DiscoverSpec(None, global, Some(repo)) && DiscoverSpec(None, global, Some(repo))[f.name] == f
  {
    var g := DirFunctions(global);
    var r := DirFunctions(repo);
    SearchGlobalThenRepo(global, repo);
    ShiftedLast(g, r, k);
    LaterDefinitionWins(map[], g + r, |g| + k);
  }

  /** Without an explicit directory, the global tools are seen before the
    * repository's. */
  lemma SearchGlobalThenRepo(global: ToolDir, repo: ToolDir)
    ensures AllFunctions(SearchOrder(None, global, Some(repo))) == DirFunctions(global) + DirFunctions(repo)
  {
    AllFunctionsSnoc([], global);
    AllFunctionsSnoc([global], repo);
    assert [] + [global] == [global];
    assert [global] + [repo] == [global, repo];
  }

  /** The last accepted definition of a name in `r` is still the last one
    * after `g` is put in front. */
  lemma ShiftedLast(g: seq<FunctionDef>, r: seq<FunctionDef>, k: nat)
    requires k < |r|
    requires forall j :: k < j < |r| ==> !(Accepted(r[j]) && r[j].name == r[k].name)
    ensures (g + r)[|g| + k] == r[k]
    ensures forall j :: |g| + k < j < |g + r| ==> !(Accepted((g + r)[j]) && (g + r)[j].name == r[k].name)
  {
    forall j | |g| + k < j < |g + r|
      ensures !(Accepted((g + r)[j]) && (g + r)[j].name == r[k].name)
    {
      assert (g + r)[j] == r[j - |g|];
    }
  }

  /** With an explicit directory, nothing else is searched. */
  lemma ExplicitOnly(explicit: ToolDir, global: ToolDir, repo: Option<ToolDir>)
    ensures DiscoverSpec(Some(explicit), global, repo) == RegisterAll(map[], DirFunctions(explicit))
  {
    AllFunctionsSnoc([], explicit);
    assert [] + [explicit] == [explicit];
    assert AllFunctions([explicit]) == [] + DirFunctions(explicit);
    assert [] + DirFunctions(explicit) == DirFunctions(explicit);
  }
}
