/**
 * The text protocol of `patchpal-simple` (`patchpal/simple.py`), used
 * with small local models that write tool calls as one JSON object per
 * line: validation and extraction of those lines, the scan for tool
 * names the protocol does not know, the no-op `echo` test, the TODO list
 * the model plans with, the clarifying-question test, and the caps put
 * on a command's output.
 *
 * `json.loads` is the parameter `parse`: it maps a text that starts with
 * "{" and ends with "}" to the object it denotes, or to `None` when the
 * text is not valid JSON.  The regular expressions of the source are
 * written out as scanners.
 */
module Simple {
  import opened Wrappers
  import opened PyStr
  import opened PyData

  const MaxOutputChars := 10000
  const MaxOutputLines := 500
  const TruncationMarker := "\n\n... output truncated ..."

  /** `QUESTION_INDICATORS`; the first of them is `"?"` itself. */
  const QuestionIndicators := ["?", "which", "what type", "do you want", "would you like", "could you clarify"]

  const SupportedTools := ["run", "write"]

  /** `json.loads` on a braced line: the object, or `None` for a decode error. */
  type Parser = string -> Option<Dict>

  /** `text.split("\n")`. */
  function Lines(text: string): (r: seq<string>)
    ensures |r| >= 1
  {
    Split(text, "\n")
  }

  // ---------------------------------------------------------------------
  // parse_tool_json_line
  // ---------------------------------------------------------------------

  /** The two tool calls of the protocol: `run` with a string `cmd`, and
    * `write` with a string `path` and a string `content`. */
  predicate Accepted(obj: Dict)
  {
    (Get(obj, "tool") == Some(PStr("run")) && GetStr(obj, "cmd").Some?)
    || (Get(obj, "tool") == Some(PStr("write")) && GetStr(obj, "path").Some? && GetStr(obj, "content").Some?)
  }

  predicate Braced(t: string)
  {
    StartsWith(t, "{") && EndsWith(t, "}")
  }

  /** A line is a tool call exactly when, once stripped, it is braced,
    * parses, and is one of the two accepted calls. */
  function ParseToolJsonLine(line: string, parse: Parser): (r: Option<Dict>)
    ensures r.Some? ==> Accepted(r.value) && Braced(Strip(line)) && parse(Strip(line)) == r
    ensures r.None? ==> !Braced(Strip(line)) || parse(Strip(line)).None? || !Accepted(parse(Strip(line)).value)
  {
    var t := Strip(line);
    if !Braced(t) then None
    else match parse(t)
      case None => None
      case Some(obj) => if Accepted(obj) then Some(obj) else None
  }

  // ---------------------------------------------------------------------
  // Code fences
  // ---------------------------------------------------------------------

  /** The length of a regular-expression match starting at `i`, or 0 when
    * there is none there. */
  type Matcher = (string, nat) -> nat

  /** `re.sub(pattern, "", s)` from index `i` on, for a pattern that never
    * matches the empty string: matches are removed left to right and the
    * scan resumes after each one. */
  function Scrub(s: string, i: nat, m: Matcher): (r: string)
    decreases |s| - i
    ensures i <= |s| ==> |r| <= |s| - i
  {
    if i >= |s| then ""
    else if m(s, i) > 0 then Scrub(s, i + m(s, i), m)
    else [s[i]] + Scrub(s, i + 1, m)
  }

  /** The pattern matches nowhere in `s`. */
  predicate Quiet(s: string, m: Matcher)
  {
    forall i :: 0 <= i < |s| ==> m(s, i) == 0
  }

  lemma {:induction false} ScrubQuiet(s: string, i: nat, m: Matcher)
    requires i <= |s| && Quiet(s, m)
    ensures Scrub(s, i, m) == s[i..]
    decreases |s| - i
  {
    if i < |s| {
      ScrubQuiet(s, i + 1, m);
      assert s[i..] == [s[i]] + s[i + 1..];
    }
  }

  const Fence := "```"

  /** `^` under `re.MULTILINE`. */
  predicate LineStart(s: string, i: nat)
  {
    i == 0 || (i <= |s| && s[i - 1] == '\n')
  }

  /** `$` under `re.MULTILINE`. */
  predicate LineEnd(s: string, i: nat)
  {
    i == |s| || (i < |s| && s[i] == '\n')
  }

  /** `^```(?:json)?\s*\n?`: the fence, an optional `json`, then all the
    * whitespace that follows (newlines included, so `\n?` is left with
    * nothing to match). */
  function OpenFenceLen(s: string, i: nat): (n: nat)
    ensures n > 0 ==> OccursAt(s, Fence, i)
  {
    if LineStart(s, i) && OccursAt(s, Fence, i) then
      var j := if OccursAt(s, "json", i + 3) then i + 7 else i + 3;
      (j - i) + LeadingSpace(s[j..])
    else 0
  }

  /** `\n?```$`: a fence that ends its line, with the newline before it
    * when there is one. */
  function CloseFenceLen(s: string, i: nat): (n: nat)
    ensures n > 0 ==> OccursAt(s, Fence, i) || OccursAt(s, Fence, i + 1)
  {
    if OccursAt(s, "\n" + Fence, i) && LineEnd(s, i + 4) then
      assert s[i + 1..i + 4] == s[i..i + 4][1..];
      4
    else if OccursAt(s, Fence, i) && LineEnd(s, i + 3) then 3
    else 0
  }

  /** `\w` on ASCII text. */
  predicate IsWordChar(c: char)
  {
    'a' <= c <= 'z' || 'A' <= c <= 'Z' || '0' <= c <= '9' || c == '_'
  }

  /** The length of the run of word characters starting at `i`. */
  function WordRun(s: string, i: nat): (n: nat)
    decreases |s| - i
    ensures i <= |s| ==> i + n <= |s|
  {
    if i < |s| && IsWordChar(s[i]) then 1 + WordRun(s, i + 1) else 0
  }

  /** `^```\w*\n?`: a fence, a language name, and the newline after it. */
  function TodoOpenFenceLen(s: string, i: nat): (n: nat)
    ensures n > 0 ==> OccursAt(s, Fence, i)
  {
    if LineStart(s, i) && OccursAt(s, Fence, i) then
      var j := i + 3 + WordRun(s, i + 3);
      (j - i) + (if j < |s| && s[j] == '\n' then 1 else 0)
    else 0
  }

  /** "```$": a fence that ends its line. */
  function TodoCloseFenceLen(s: string, i: nat): (n: nat)
    ensures n > 0 ==> OccursAt(s, Fence, i)
  {
    if OccursAt(s, Fence, i) && LineEnd(s, i + 3) then 3 else 0
  }

  /** None of the fence patterns matches a text without a backquote. */
  lemma FencesQuiet(s: string)
    requires '`' !in s
    ensures Quiet(s, OpenFenceLen) && Quiet(s, CloseFenceLen)
    ensures Quiet(s, TodoOpenFenceLen) && Quiet(s, TodoCloseFenceLen)
  {
    forall i | 0 <= i < |s| ensures OpenFenceLen(s, i) == 0 && CloseFenceLen(s, i) == 0
      && TodoOpenFenceLen(s, i) == 0 && TodoCloseFenceLen(s, i) == 0
    {
      NoFenceAt(s, i);
      NoFenceAt(s, i + 1);
    }
  }

  lemma NoFenceAt(s: string, i: nat)
    requires '`' !in s
    ensures !OccursAt(s, Fence, i)
  {
    if i + 3 <= |s| {
      assert s[i] in s;
      assert s[i..i + 3][0] == s[i];
    }
  }

  // ---------------------------------------------------------------------
  // extract_tool_calls
  // ---------------------------------------------------------------------

  const WritePrefix := "{\"tool\":\"write\""
  const SpacedWritePrefix := "{\"tool\": \"write\""

  /** The two characters `\` and `n` that glue the lines of a write call
    * spread over several lines. */
  const Glue := "\\n"

  /** The response once the fences are removed and the ends stripped. */
  function Cleaned(text: string): string
  {
    Strip(Scrub(Scrub(text, 0, OpenFenceLen), 0, CloseFenceLen))
  }

  /** A response without backquotes only loses its outer whitespace. */
  lemma CleanedPlainText(text: string)
    requires '`' !in text
    ensures Cleaned(text) == Strip(text)
  {
    FencesQuiet(text);
    ScrubQuiet(text, 0, OpenFenceLen);
    ScrubQuiet(text, 0, CloseFenceLen);
  }

  /** The inner loop: append stripped lines from `j` on until the text
    * ends with "}" or the lines run out. */
  function Combine(acc: string, lines: seq<string>, j: nat): string
    decreases |lines| - j
  {
    if j < |lines| && !EndsWith(acc, "}") then Combine(acc + Glue + Strip(lines[j]), lines, j + 1)
    else acc
  }

  /** Lines `j..m`, each stripped and preceded by the glue. */
  function Glued(lines: seq<string>, j: nat, m: nat): string
    requires j <= m <= |lines|
    decreases m - j
  {
    if j == m then "" else Glue + Strip(lines[j]) + Glued(lines, j + 1, m)
  }

  /** Where the inner loop stops: at the first `m` at which the text
    * ends with "}", or after the last line; the combined text is the
    * start followed by the glued lines before `m`. */
  lemma {:induction false} CombineStops(acc: string, lines: seq<string>, j: nat, m: nat)
    requires j <= m <= |lines|
    requires forall k :: j <= k < m ==> !EndsWith(acc + Glued(lines, j, k), "}")
    requires m == |lines| || EndsWith(acc + Glued(lines, j, m), "}")
    ensures Combine(acc, lines, j) == acc + Glued(lines, j, m)
    decreases m - j
  {
    if m == j {
      assert acc + Glued(lines, j, j) == acc;
    } else {
      assert acc + Glued(lines, j, j) == acc;
      assert !EndsWith(acc, "}");
      var next := acc + Glue + Strip(lines[j]);
      var j1 := j + 1;
      forall k | j1 <= k < m ensures !EndsWith(next + Glued(lines, j1, k), "}") {
        GluedStep(acc, lines, j, k);
        assert !EndsWith(acc + Glued(lines, j, k), "}");
      }
      GluedStep(acc, lines, j, m);
      assert m == |lines| || EndsWith(next + Glued(lines, j1, m), "}");
      CombineStops(next, lines, j1, m);
      assert Combine(acc, lines, j) == Combine(next, lines, j1);
    }
  }

  lemma GluedStep(acc: string, lines: seq<string>, j: nat, m: nat)
    requires j < m <= |lines|
    ensures acc + Glued(lines, j, m) == acc + Glue + Strip(lines[j]) + Glued(lines, j + 1, m)
  {
  }

  /** The tool call line `i` contributes: the line itself, or, for the
    * start of a write call that does not parse alone, the call combined
    * with the lines after it. */
  function LineTool(lines: seq<string>, i: nat, parse: Parser): (r: Option<Dict>)
    requires i < |lines|
    ensures r.Some? ==> Accepted(r.value)
  {
    var trimmed := Strip(lines[i]);
    match ParseToolJsonLine(lines[i], parse)
    case Some(obj) => Some(obj)
    case None =>
      if StartsWith(trimmed, WritePrefix) || StartsWith(trimmed, SpacedWritePrefix)
      then ParseToolJsonLine(Combine(trimmed, lines, i + 1), parse)
      else None
  }

  /** The calls found on the first `n` lines, in line order. */
  function ToolsOf(lines: seq<string>, n: nat, parse: Parser): (r: seq<Dict>)
    requires n <= |lines|
  {
    if n == 0 then []
    else ToolsOf(lines, n - 1, parse) + (match LineTool(lines, n - 1, parse) case Some(t) => [t] case None => [])
  }

  lemma ToolsOfStep(lines: seq<string>, i: nat, parse: Parser, tools: seq<Dict>, tool: Option<Dict>)
    requires i < |lines|
    requires tools == ToolsOf(lines, i, parse) && tool == LineTool(lines, i, parse)
    ensures (if tool.Some? then tools + [tool.value] else tools) == ToolsOf(lines, i + 1, parse)
  {
  }

  /** Every call in the list is accepted. */
  predicate AllAccepted(calls: seq<Dict>)
  {
    calls == [] || (AllAccepted(calls[..|calls| - 1]) && Accepted(calls[|calls| - 1]))
  }

  lemma {:induction false} AllAcceptedEach(calls: seq<Dict>)
    requires AllAccepted(calls)
    ensures forall k :: 0 <= k < |calls| ==> Accepted(calls[k])
  {
    if calls != [] {
      var init := calls[..|calls| - 1];
      AllAcceptedEach(init);
      forall k | 0 <= k < |calls| ensures Accepted(calls[k]) {
        if k < |init| {
          assert calls[k] == init[k];
        }
      }
    }
  }

  lemma AllAcceptedSnoc(calls: seq<Dict>, call: Dict)
    requires AllAccepted(calls) && Accepted(call)
    ensures AllAccepted(calls + [call])
  {
    assert (calls + [call])[..|calls|] == calls;
  }

  /** The calls on the lines of the cleaned response. */
  function CallsIn(text: string, parse: Parser): (r: seq<Dict>)
  {
    ToolsOf(Lines(Cleaned(text)), |Lines(Cleaned(text))|, parse)
  }

  /** `extract_tool_calls`: every accepted call of the cleaned response,
    * one per line, in order. */
  method ExtractToolCalls(text: string, parse: Parser) returns (tools: seq<Dict>)
    ensures tools == CallsIn(text, parse)
    ensures forall k :: 0 <= k < |tools| ==> Accepted(tools[k])
  {
    var lines := CleanLines(text);
    tools := CollectTools(lines, parse);
    AllAcceptedEach(tools);
  }

  /** The outer loop of `extract_tool_calls`. */
  method CollectTools(lines: seq<string>, parse: Parser) returns (tools: seq<Dict>)
    ensures tools == ToolsOf(lines, |lines|, parse)
    ensures AllAccepted(tools)
  {
    tools := [];
    for i := 0 to |lines|
      invariant tools == ToolsOf(lines, i, parse)
      invariant AllAccepted(tools)
    {
      var tool := ToolAt(lines, i, parse);
      ToolsOfStep(lines, i, parse, tools, tool);
      if tool.Some? {
        AllAcceptedSnoc(tools, tool.value);
        tools := tools + [tool.value];
      }
    }
  }

  /** The start of `extract_tool_calls`: fences removed, ends stripped,
    * split into lines. */
  method CleanLines(text: string) returns (lines: seq<string>)
    ensures lines == Lines(Cleaned(text))
  {
    var cleaned := Scrub(text, 0, OpenFenceLen);
    cleaned := Scrub(cleaned, 0, CloseFenceLen);
    cleaned := Strip(cleaned);
    lines := Split(cleaned, "\n");
  }

  /** The body of the outer loop of `extract_tool_calls`: the line as a
    * call, or else a write call rebuilt from the lines after it. */
  method ToolAt(lines: seq<string>, i: nat, parse: Parser) returns (tool: Option<Dict>)
    requires i < |lines|
    ensures tool == LineTool(lines, i, parse)
  {
    tool := ParseToolJsonLine(lines[i], parse);
    if tool.None? {
      var trimmed := Strip(lines[i]);
      if StartsWith(trimmed, WritePrefix) || StartsWith(trimmed, SpacedWritePrefix) {
        var combined := CombineWrite(trimmed, lines, i + 1);
        tool := ParseToolJsonLine(combined, parse);
      }
    }
  }

  /** The inner loop of `extract_tool_calls`, which grows `combined`. */
  method CombineWrite(trimmed: string, lines: seq<string>, from: nat) returns (combined: string)
    requires from <= |lines|
    ensures combined == Combine(trimmed, lines, from)
  {
    combined := trimmed;
    var j := from;
    while j < |lines| && !EndsWith(combined, "}")
      invariant from <= j <= |lines|
      invariant Combine(combined, lines, j) == Combine(trimmed, lines, from)
    {
      combined := combined + Glue + Strip(lines[j]);
      j := j + 1;
    }
  }

  // ---------------------------------------------------------------------
  // find_unsupported_tool_line
  // ---------------------------------------------------------------------

  /** The quoted key `"tool"`. */
  const ToolKey := "\"tool\""

  /** The unknown tool a line names: a braced line that mentions "tool",
    * parses, and whose `tool` is a string other than `run` and `write`. */
  function UnsupportedName(raw: string, parse: Parser): (r: Option<string>)
    ensures r.Some? ==> r.value !in SupportedTools
    ensures r.Some? ==> Braced(Strip(raw)) && Contains(Strip(raw), ToolKey)
  {
    var line := Strip(raw);
    if !Braced(line) || !Contains(line, ToolKey) then None
    else match parse(line)
      case None => None
      case Some(obj) =>
        match GetStr(obj, "tool")
        case None => None
        case Some(name) => if name !in SupportedTools then Some(name) else None
  }

  /** The loop of `find_unsupported_tool_line`, with the test it applies
    * to each line as the parameter `name`: the first name a line yields. */
  method FirstNamed(lines: seq<string>, name: string -> Option<string>) returns (r: Option<string>)
    ensures r.None? <==> forall k :: 0 <= k < |lines| ==> name(lines[k]).None?
    ensures r.Some? ==> exists k :: (0 <= k < |lines| && name(lines[k]) == r
      && forall k' :: 0 <= k' < k ==> name(lines[k']).None?)
  {
    var i := 0;
    while i < |lines|
      invariant 0 <= i <= |lines|
      invariant forall k :: 0 <= k < i ==> name(lines[k]).None?
    {
      var found := name(lines[i]);
      if found.Some? {
        return found;
      }
      i := i + 1;
    }
    return None;
  }

  /** `find_unsupported_tool_line`: the unknown tool named on the first
    * line that names one, or `None` when no line does. */
  method FindUnsupportedToolLine(text: string, parse: Parser) returns (r: Option<string>)
    ensures r.Some? ==> r.value !in SupportedTools
    ensures r.None? <==> forall k :: 0 <= k < |Lines(text)| ==> UnsupportedName(Lines(text)[k], parse).None?
    ensures r.Some? ==> exists k :: (0 <= k < |Lines(text)| && UnsupportedName(Lines(text)[k], parse) == r
      && forall k' :: 0 <= k' < k ==> UnsupportedName(Lines(text)[k'], parse).None?)
  {
    r := FirstNamed(Lines(text), raw => UnsupportedName(raw, parse));
  }

  // ---------------------------------------------------------------------
  // is_noop_echo
  // ---------------------------------------------------------------------

  predicate IsNoopEcho(cmd: string)
  {
    var trimmed := Strip(cmd);
    StartsWith(trimmed, "echo ") && !(Contains(trimmed, ">") || Contains(trimmed, ">>") || Contains(trimmed, "|"))
  }

  /** An `echo` is a no-op exactly when it neither redirects nor pipes;
    * the test for `>>` adds nothing to the test for `>`. */
  lemma NoopEchoIff(cmd: string)
    ensures IsNoopEcho(cmd) <==> StartsWith(Strip(cmd), "echo ") && '>' !in Strip(cmd) && '|' !in Strip(cmd)
  {
    var t := Strip(cmd);
    ContainsCharIff(t, '>');
    ContainsCharIff(t, '|');
    if Contains(t, ">>") {
      var i := Find(t, ">>", 0).value;
      assert t[i..i + 2][0] == t[i];
      assert t[i] in t;
    }
  }

  // ---------------------------------------------------------------------
  // TODO lists
  // ---------------------------------------------------------------------

  const TodoHeader := "TODO:"
  const UncheckedMark := "- [ ] "

  /** A line that `^TODO:\s*$` matches under `re.MULTILINE | re.IGNORECASE`:
    * "TODO:" in any case, then nothing but whitespace to the end of the
    * line. */
  predicate IsTodoHeader(line: string)
  {
    |line| >= 5 && Lower(line[..5]) == "todo:" && AllSpace(line[5..])
  }

  predicate HasTodoHeader(text: string)
  {
    exists k :: 0 <= k < |Lines(text)| && IsTodoHeader(Lines(text)[k])
  }

  /** The item of a line that `^- \[ \] (.+)$` matches: the stripped text
    * after the box, which may be empty once stripped. */
  function ItemOf(line: string): (r: Option<string>)
    ensures r.Some? <==> StartsWith(line, UncheckedMark) && |line| > |UncheckedMark|
  {
    if StartsWith(line, UncheckedMark) && |line| > 6 then Some(Strip(line[6..])) else None
  }

  /** The items of the lines, in order. */
  function TodoItems(lines: seq<string>): (r: seq<string>)
    ensures |r| <= |lines|
  {
    if lines == [] then []
    else TodoItems(lines[..|lines| - 1]) + (match ItemOf(lines[|lines| - 1]) case Some(x) => [x] case None => [])
  }

  /** `parse_todo_list`'s text: fences removed, ends stripped. */
  function TodoText(text: string): string
  {
    Strip(Scrub(Scrub(text, 0, TodoOpenFenceLen), 0, TodoCloseFenceLen))
  }

  /** `parse_todo_list`: the items of a response that has a TODO header
    * and at least one unchecked item, else `None`. */
  method ParseTodoList(text: string) returns (r: Option<seq<string>>)
    ensures r.Some? <==> HasTodoHeader(TodoText(text)) && TodoItems(Lines(TodoText(text))) != []
    ensures r.Some? ==> r.value == TodoItems(Lines(TodoText(text)))
  {
    var cleaned := TodoText(text);
    if !HasTodoHeader(cleaned) {
      return None;
    }
    var items := CollectItems(Lines(cleaned));
    return if items == [] then None else Some(items);
  }

  /** The loop of `parse_todo_list` over the lines. */
  method CollectItems(lines: seq<string>) returns (items: seq<string>)
    ensures items == TodoItems(lines)
  {
    items := [];
    for i := 0 to |lines|
      invariant items == TodoItems(lines[..i])
    {
      TodoItemsStep(lines, i);
      var item := ItemOf(lines[i]);
      if item.Some? {
        items := items + [item.value];
      }
    }
    assert lines[..|lines|] == lines;
  }

  lemma TodoItemsStep(lines: seq<string>, i: nat)
    requires i < |lines|
    ensures TodoItems(lines[..i + 1]) == TodoItems(lines[..i]) + (match ItemOf(lines[i]) case Some(x) => [x] case None => [])
  {
    assert lines[..i + 1][..i] == lines[..i];
  }

  /** `f"- [{checked}] {item}"`. */
  function TodoLine(item: string, checked: bool): string
  {
    "- [" + (if checked then "x" else " ") + "] " + item
  }

  /** The item lines of `format_todo_list`: item `i` is checked exactly
    * when `i <= done`. */
  function TodoLines(items: seq<string>, done: int): (r: seq<string>)
    ensures |r| == |items|
    ensures forall i :: 0 <= i < |items| ==> r[i] == TodoLine(items[i], i <= done)
  {
    seq(|items|, i requires 0 <= i < |items| => TodoLine(items[i], i <= done))
  }

  /** `format_todo_list`: the header line, then one line per item. */
  function FormatTodoList(items: seq<string>, done: int): string
  {
    Join([TodoHeader] + TodoLines(items, done), "\n")
  }

  /** The items past `done`: those `format_todo_list` leaves unchecked. */
  function Unchecked(items: seq<string>, done: int): (r: seq<string>)
    ensures forall i :: 0 <= i < |items| && i > done ==> items[i] in r
    ensures forall x :: x in r ==> x in items
  {
    if done + 1 <= 0 then items else if done + 1 >= |items| then [] else items[done + 1..]
  }

  /** A formatted list always has its header: it is the first line. */
  lemma FormattedListHasHeader(items: seq<string>, done: int)
    ensures HasTodoHeader(FormatTodoList(items, done))
  {
    var parts := [TodoHeader] + TodoLines(items, done);
    var s := FormatTodoList(items, done);
    assert IsTodoHeader(TodoHeader) by {
      assert Lower(TodoHeader) == "todo:";
    }
    if |parts| == 1 {
      assert s == TodoHeader;
      NoCharNoFind(TodoHeader, '\n');
    } else {
      JoinCons(TodoHeader, parts[1..], "\n");
      assert [TodoHeader] + parts[1..] == parts;
      assert s == TodoHeader + "\n" + Join(parts[1..], "\n");
      assert OccursAt(s, "\n", 5);
      forall j | 0 <= j < 5 ensures !OccursAt(s, "\n", j) {
        OccursCharAt(s, '\n', j);
        assert s[j] == TodoHeader[j];
      }
      FindLeast(s, "\n", 5);
      assert s[..5] == TodoHeader;
    }
    assert Lines(s)[0] == TodoHeader;
  }

  /** What a line of `format_todo_list` gives back to `parse_todo_list`:
    * its item when unchecked, nothing when checked. */
  lemma ItemOfTodoLine(item: string, checked: bool)
    requires item != [] && Strip(item) == item
    ensures ItemOf(TodoLine(item, checked)) == if checked then None else Some(item)
  {
    var line := TodoLine(item, checked);
    if checked {
      assert line[..6][3] == 'x';
      assert line[..6] != UncheckedMark;
    } else {
      assert line == UncheckedMark + item;
      assert line[..6] == UncheckedMark;
      assert line[6..] == item;
    }
  }

  /** An item `format_todo_list` can write so that `parse_todo_list`
    * reads it back unchanged: one line, no backquote, no edge space. */
  predicate PlainItem(item: string)
  {
    item != [] && Strip(item) == item && '\n' !in item && '`' !in item
  }

  /** `min(max(x, 0), n)`. */
  function Clamp(x: int, n: nat): (r: nat)
    ensures r <= n
  {
    if x < 0 then 0 else if x > n then n else x
  }

  lemma TodoLineFree(item: string, checked: bool, c: char)
    requires c !in item && c !in "- [x] "
    ensures c !in TodoLine(item, checked)
  {
  }

  lemma {:induction false} TodoItemsAppend(a: seq<string>, b: seq<string>)
    ensures TodoItems(a + b) == TodoItems(a) + TodoItems(b)
  {
    if b == [] {
      assert a + b == a;
    } else {
      var b0 := b[..|b| - 1];
      assert (a + b)[..|a + b| - 1] == a + b0;
      assert (a + b)[|a + b| - 1] == b[|b| - 1];
      TodoItemsAppend(a, b0);
    }
  }

  /** Reading back the first `n` of a list of lines whose items are
    * `None` up to `done` and `items[i]` after it gives the items after
    * `done`. */
  lemma SliceSnoc<T>(s: seq<T>, lo: nat, n: nat)
    requires lo < n <= |s|
    ensures s[lo..n] == s[lo..n - 1] + [s[n - 1]]
  {
  }

  lemma {:induction false} TodoItemsMarked(ls: seq<string>, items: seq<string>, done: int, n: nat)
    requires |ls| == |items| && n <= |ls|
    requires forall i :: 0 <= i < |ls| ==> ItemOf(ls[i]) == (if i <= done then None else Some(items[i]))
    ensures TodoItems(ls[..n]) == items[Clamp(done + 1, n)..n]
  {
    if n > 0 {
      TodoItemsMarked(ls, items, done, n - 1);
      TodoItemsStep(ls, n - 1);
      if n - 1 <= done {
        assert ItemOf(ls[n - 1]) == None;
        assert TodoItems(ls[..n]) == TodoItems(ls[..n - 1]);
        assert Clamp(done + 1, n) == n && Clamp(done + 1, n - 1) == n - 1;
      } else {
        assert ItemOf(ls[n - 1]) == Some(items[n - 1]);
        assert TodoItems(ls[..n]) == TodoItems(ls[..n - 1]) + [items[n - 1]];
        var lo := Clamp(done + 1, n);
        assert lo == Clamp(done + 1, n - 1);
        SliceSnoc(items, lo, n);
      }
    }
  }

  /** A character that neither the items nor the line markup hold is in
    * no line of a formatted list. */
  lemma FormattedParts(items: seq<string>, done: int, c: char)
    requires c !in "- [x] " && c !in TodoHeader
    requires forall i :: 0 <= i < |items| ==> c !in items[i]
    ensures forall p :: p in [TodoHeader] + TodoLines(items, done) ==> c !in p
  {
    var lines := TodoLines(items, done);
    forall i | 0 <= i < |lines| ensures c !in lines[i] {
      TodoLineFree(items[i], i <= done, c);
    }
    forall p | p in [TodoHeader] + lines ensures c !in p {
      if p != TodoHeader {
        assert p in lines;
      }
    }
  }

  /** The fence and strip pass leaves alone a text with no backquote and
    * no space at either end. */
  lemma TodoTextPlain(s: string)
    requires '`' !in s && s != [] && !IsSpace(s[0]) && !IsSpace(s[|s| - 1])
    ensures TodoText(s) == s
  {
    FencesQuiet(s);
    ScrubQuiet(s, 0, TodoOpenFenceLen);
    ScrubQuiet(s, 0, TodoCloseFenceLen);
    NoEdgeSpaceStrip(s);
  }

  /** A formatted list starts with its header and ends with the end of
    * its last line. */
  lemma FormattedEdges(items: seq<string>, done: int)
    requires |items| > 0 ==> items[|items| - 1] != [] && !IsSpace(items[|items| - 1][|items[|items| - 1]| - 1])
    ensures var f := FormatTodoList(items, done);
      f != [] && !IsSpace(f[0]) && !IsSpace(f[|f| - 1])
  {
    var parts := [TodoHeader] + TodoLines(items, done);
    var f := FormatTodoList(items, done);
    JoinEnds(parts, "\n");
    assert f[0] == parts[0][0];
    var last := parts[|parts| - 1];
    assert f[|f| - 1] == last[|last| - 1] by {
      assert f[|f| - |last|..] == last;
    }
    if |items| > 0 {
      var k := |items| - 1;
      var item := items[k];
      assert last == TodoLine(item, k <= done);
      assert last[|last| - 1] == item[|item| - 1];
    }
  }

  lemma FormattedTodoText(items: seq<string>, done: int)
    requires forall i :: 0 <= i < |items| ==> '`' !in items[i]
    requires |items| > 0 ==> items[|items| - 1] != [] && Strip(items[|items| - 1]) == items[|items| - 1]
    ensures TodoText(FormatTodoList(items, done)) == FormatTodoList(items, done)
  {
    FormattedParts(items, done, '`');
    JoinNoChar([TodoHeader] + TodoLines(items, done), "\n", '`');
    if |items| > 0 {
      StrippedEdges(items[|items| - 1]);
    }
    FormattedEdges(items, done);
    TodoTextPlain(FormatTodoList(items, done));
  }

  /** Splitting a formatted list at newlines gives back its lines. */
  lemma FormattedLines(items: seq<string>, done: int)
    requires forall i :: 0 <= i < |items| ==> '\n' !in items[i]
    ensures Lines(FormatTodoList(items, done)) == [TodoHeader] + TodoLines(items, done)
  {
    FormattedParts(items, done, '\n');
    SplitJoin([TodoHeader] + TodoLines(items, done), '\n');
  }

  /** The item lines read back as the items after `done`. */
  lemma TodoLinesItems(items: seq<string>, done: int)
    requires forall i :: 0 <= i < |items| ==> items[i] != [] && Strip(items[i]) == items[i]
    ensures TodoItems(TodoLines(items, done)) == items[Clamp(done + 1, |items|)..|items|]
  {
    var lines := TodoLines(items, done);
    forall i | 0 <= i < |lines|
      ensures ItemOf(lines[i]) == (if i <= done then None else Some(items[i]))
    {
      ItemOfTodoLine(items[i], i <= done);
    }
    TodoItemsMarked(lines, items, done, |items|);
    assert lines[..|items|] == lines;
  }

  lemma FormattedItems(items: seq<string>, done: int)
    requires forall i :: 0 <= i < |items| ==> '\n' !in items[i]
    requires forall i :: 0 <= i < |items| ==> items[i] != [] && Strip(items[i]) == items[i]
    ensures TodoItems(Lines(FormatTodoList(items, done))) == Unchecked(items, done)
  {
    FormattedLines(items, done);
    TodoLinesItems(items, done);
    TodoItemsAppend([TodoHeader], TodoLines(items, done));
    assert [TodoHeader][..0] == [];
    assert TodoItems([TodoHeader]) == [];
    UncheckedClamp(items, done);
  }

  lemma UncheckedClamp(items: seq<string>, done: int)
    ensures Unchecked(items, done) == items[Clamp(done + 1, |items|)..|items|]
  {
  }

  /** `format_todo_list` and `parse_todo_list` agree: the formatted text
    * survives the fence and strip pass, keeps its header, and reads
    * back exactly the items that were left unchecked. */
  lemma TodoRoundTrip(items: seq<string>, done: int)
    requires forall i :: 0 <= i < |items| ==> PlainItem(items[i])
    ensures TodoText(FormatTodoList(items, done)) == FormatTodoList(items, done)
    ensures HasTodoHeader(FormatTodoList(items, done))
    ensures TodoItems(Lines(FormatTodoList(items, done))) == Unchecked(items, done)
  {
    FormattedTodoText(items, done);
    FormattedListHasHeader(items, done);
    FormattedItems(items, done);
  }

  /** A non-empty stripped string has no space at either end. */
  lemma StrippedEdges(s: string)
    requires s != [] && Strip(s) == s
    ensures !IsSpace(s[0]) && !IsSpace(s[|s| - 1])
  {
    StripEdges(s);
  }

  // ---------------------------------------------------------------------
  // looks_like_clarifying_question
  // ---------------------------------------------------------------------

  /** Some indicator occurs in the lower-cased text. */
  predicate MentionsIndicator(lower: string)
  {
    exists i :: 0 <= i < |QuestionIndicators| && Contains(lower, QuestionIndicators[i])
  }

  /** What `looks_like_clarifying_question` decides. */
  predicate ClarifyingQuestion(text: string)
  {
    '?' in text && !HasTodoHeader(text) && MentionsIndicator(Lower(text))
  }

  /** `looks_like_clarifying_question`: the question-mark gate, the TODO
    * gate, then the scan over the indicators. */
  method LooksLikeClarifyingQuestion(text: string) returns (b: bool)
    ensures b == ClarifyingQuestion(text)
  {
    var lower := Lower(text);
    if '?' !in text {
      return false;
    }
    if HasTodoHeader(text) {
      return false;
    }
    for i := 0 to |QuestionIndicators|
      invariant forall j :: 0 <= j < i ==> !Contains(lower, QuestionIndicators[j])
    {
      if Contains(lower, QuestionIndicators[i]) {
        return true;
      }
    }
    return false;
  }

  /** `"?"` is itself an indicator and lower-casing keeps it, so once the
    * first gate passes the scan always succeeds: the decision is "has a
    * question mark and no TODO header". */
  lemma ClarifyingQuestionIff(text: string)
    ensures ClarifyingQuestion(text) <==> '?' in text && !HasTodoHeader(text)
  {
    if '?' in text {
      var lower := Lower(text);
      var j :| 0 <= j < |text| && text[j] == '?';
      assert lower[j] == '?';
      ContainsCharIff(lower, '?');
      assert QuestionIndicators[0] == ['?'];
    }
  }

  /** A formatted TODO list never reads as a clarifying question. */
  lemma TodoListIsNoQuestion(items: seq<string>, done: int)
    ensures !ClarifyingQuestion(FormatTodoList(items, done))
  {
    FormattedListHasHeader(items, done);
  }

  // ---------------------------------------------------------------------
  // run_command: output limits
  // ---------------------------------------------------------------------

  /** The `stdout` and `truncated` fields `run_command` returns. */
  datatype Capped = Capped(stdout: string, truncated: bool)

  /** The character cap, then the line cap, each appending the marker. */
  function CapOutput(stdout: string): (r: Capped)
    ensures r.truncated <==> |stdout| > MaxOutputChars || |Lines(stdout)| > MaxOutputLines
    ensures !r.truncated ==> r.stdout == stdout
    ensures r.truncated ==> EndsWith(r.stdout, TruncationMarker)
  {
    var s1 := if |stdout| > MaxOutputChars then stdout[..MaxOutputChars] + TruncationMarker else stdout;
    var lines := Lines(s1);
    if |lines| > MaxOutputLines then
      var out := Join(lines[..MaxOutputLines], "\n") + TruncationMarker;
      assert out[|out| - |TruncationMarker|..] == TruncationMarker;
      Capped(out, true)
    else
      assert |stdout| > MaxOutputChars ==> s1[|s1| - |TruncationMarker|..] == TruncationMarker;
      Capped(s1, |stdout| > MaxOutputChars)
  }

  /** The marker holds two newlines: it adds two lines to the output. */
  lemma MarkerNewlines()
    ensures CountChar(TruncationMarker, '\n') == 2
  {
    var tail := TruncationMarker[2..];
    assert TruncationMarker == "\n\n" + tail;
    assert forall j :: 0 <= j < |tail| ==> tail[j] != '\n';
    NoCharCount(tail, '\n');
    CountCharAppend("\n\n", tail, '\n');
  }

  /** Joining the first `n` pieces of a split keeps exactly `n - 1`
    * separators. */
  lemma JoinedPrefixCount(s: string, n: nat)
    requires 1 <= n <= |Lines(s)|
    ensures CountChar(Join(Lines(s)[..n], "\n"), '\n') == n - 1
  {
    var ls := Lines(s);
    SplitNoSeparator(s, '\n');
    forall p | p in ls[..n] ensures '\n' !in p {
      assert p in ls;
    }
    CountCharJoin(ls[..n], '\n');
  }

  /** However long the output, at most two lines beyond the line limit
    * come back: the kept lines and the marker's. */
  lemma CapLineBound(stdout: string)
    ensures |Lines(CapOutput(stdout).stdout)| <= MaxOutputLines + 2
  {
    var s1 := if |stdout| > MaxOutputChars then stdout[..MaxOutputChars] + TruncationMarker else stdout;
    var lines := Lines(s1);
    if |lines| > MaxOutputLines {
      var kept := Join(lines[..MaxOutputLines], "\n");
      JoinedPrefixCount(s1, MaxOutputLines);
      MarkerNewlines();
      CountCharAppend(kept, TruncationMarker, '\n');
      SplitLength(kept + TruncationMarker, '\n');
    }
  }

  /** Output within both limits comes back as it was. */
  lemma CapWithinLimits(stdout: string)
    requires |stdout| <= MaxOutputChars && |Lines(stdout)| <= MaxOutputLines
    ensures CapOutput(stdout) == Capped(stdout, false)
  {
  }

  /** Short output with too many lines keeps its first `MaxOutputLines`
    * lines: a prefix of the original, which splits back into exactly
    * those lines. */
  lemma CapKeepsFirstLines(stdout: string)
    requires |stdout| <= MaxOutputChars && |Lines(stdout)| > MaxOutputLines
    ensures var kept := Join(Lines(stdout)[..MaxOutputLines], "\n");
      CapOutput(stdout).stdout == kept + TruncationMarker
      && StartsWith(stdout, kept)
      && Lines(kept) == Lines(stdout)[..MaxOutputLines]
  {
    var ls := Lines(stdout);
    var kept := Join(ls[..MaxOutputLines], "\n");
    JoinSplit(stdout, "\n");
    JoinAppend(ls[..MaxOutputLines], ls[MaxOutputLines..], "\n");
    assert ls[..MaxOutputLines] + ls[MaxOutputLines..] == ls;
    assert stdout[..|kept|] == kept;
    SplitNoSeparator(stdout, '\n');
    forall p | p in ls[..MaxOutputLines] ensures '\n' !in p {
      assert p in ls;
    }
    SplitJoin(ls[..MaxOutputLines], '\n');
  }

  /** Long output with few newlines in its first `MaxOutputChars`
    * characters is cut at that length only. */
  lemma CapCharsOnly(stdout: string)
    requires |stdout| > MaxOutputChars
    requires CountChar(stdout[..MaxOutputChars], '\n') <= MaxOutputLines - 3
    ensures CapOutput(stdout) == Capped(stdout[..MaxOutputChars] + TruncationMarker, true)
  {
    var s1 := stdout[..MaxOutputChars] + TruncationMarker;
    MarkerNewlines();
    CountCharAppend(stdout[..MaxOutputChars], TruncationMarker, '\n');
    SplitLength(s1, '\n');
  }
}
