/**
 * The direct AWS Bedrock backend (`patchpal/bedrock_direct.py`): the
 * client's model id and region, the conversion of OpenAI-style chat
 * messages and tool definitions into the body of a Bedrock `invoke_model`
 * request, and the conversion of Bedrock's answer back into the
 * OpenAI-style response the agent reads.
 *
 * Messages, tool definitions and response blocks are Python dictionaries
 * (`PyData.Dict`); Python's `str()` of a value that is not a string is the
 * parameter `show`, and the call to Bedrock itself is the parameter
 * `invoke`.
 */
module BedrockDirect {
  import opened Wrappers
  import opened PyStr
  import opened PyData
  import Agent

  // ---------------------------------------------------------------------
  // The client
  // ---------------------------------------------------------------------

  /** `__init__`'s model-id handling: a leading `bedrock/` is removed (once). */
  function StripModelId(id: string): (r: string)
    ensures StartsWith(id, Agent.BedrockPrefix) ==> Agent.BedrockPrefix + r == id
    ensures !StartsWith(id, Agent.BedrockPrefix) ==> r == id
  {
    if StartsWith(id, Agent.BedrockPrefix) then id[|Agent.BedrockPrefix|..] else id
  }

  /** Stripping undoes the prefix that the agent's id normalisation adds:
    * the client talks to Bedrock under the id the user gave. */
  lemma StripUndoesNormalize(id: string)
    requires !StartsWith(id, Agent.BedrockPrefix)
    ensures StripModelId(Agent.NormalizeBedrockModelId(id)) == id
  {
    if Agent.NormalizeBedrockModelId(id) != id {
      Agent.PrefixedStartsWith(id);
      assert (Agent.BedrockPrefix + id)[|Agent.BedrockPrefix|..] == id;
    }
  }

  /** Only one prefix is removed: `bedrock/bedrock/x` becomes `bedrock/x`. */
  lemma StripOnce(id: string)
    ensures StripModelId(Agent.BedrockPrefix + id) == id
  {
    Agent.PrefixedStartsWith(id);
    assert (Agent.BedrockPrefix + id)[|Agent.BedrockPrefix|..] == id;
  }

  /** Python's `a or b or ...` over optional strings: the first present,
    * non-empty one. */
  function FirstNonEmpty(candidates: seq<Option<string>>): (r: Option<string>)
  {
    if candidates == [] then None
    else if candidates[0].Some? && candidates[0].value != "" then candidates[0]
    else FirstNonEmpty(candidates[1..])
  }

  lemma {:induction false} FirstNonEmptyIs(candidates: seq<Option<string>>)
    ensures FirstNonEmpty(candidates).Some? <==>
      exists k :: 0 <= k < |candidates| && candidates[k].Some? && candidates[k].value != ""
    ensures FirstNonEmpty(candidates).Some? ==>
      exists k :: 0 <= k < |candidates| && candidates[k] == FirstNonEmpty(candidates)
        && (forall j :: 0 <= j < k ==> candidates[j].None? || candidates[j].value == "")
    ensures FirstNonEmpty(candidates).Some? ==> FirstNonEmpty(candidates).value != ""
  {
    if candidates != [] && !(candidates[0].Some? && candidates[0].value != "") {
      var tail := candidates[1..];
      FirstNonEmptyIs(tail);
      assert forall k :: 1 <= k < |candidates| ==> candidates[k] == tail[k - 1];
      if FirstNonEmpty(tail).Some? {
        var k :| 0 <= k < |tail| && tail[k] == FirstNonEmpty(tail)
          && (forall j :: 0 <= j < k ==> tail[j].None? || tail[j].value == "");
        assert candidates[k + 1] == FirstNonEmpty(candidates);
      }
    }
  }

  /** The environment the client reads its region and endpoint from. */
  type Env = map<string, string>

  function EnvGet(env: Env, name: string): Option<string>
  {
    if name in env then Some(env[name]) else None
  }

  const DefaultRegion := "us-east-1"

  /** The region argument, else the first of the region variables that is
    * set and non-empty, else `us-east-1`. */
  function Region(region: Option<string>, env: Env): (r: string)
  {
    FirstNonEmpty([region, EnvGet(env, "AWS_BEDROCK_REGION"), EnvGet(env, "AWS_REGION"),
      EnvGet(env, "AWS_DEFAULT_REGION"), EnvGet(env, "AWS_REGION_NAME")]).GetOr(DefaultRegion)
  }

  /** The endpoint argument, else the first of the endpoint variables that
    * is set and non-empty, else none. */
  function Endpoint(endpoint: Option<string>, env: Env): (r: Option<string>)
  {
    FirstNonEmpty([endpoint, EnvGet(env, "AWS_BEDROCK_ENDPOINT"),
      EnvGet(env, "AWS_BEDROCK_RUNTIME_ENDPOINT")])
  }

  /** A `DirectBedrockClient`; its fields are set once, by the constructor.
    * `temperature` is a float in the source; the client only passes it
    * through to the request body without examining it, so it is any
    * `Value` here (`PyData.Value` has no float case). */
  datatype Client = Client(modelId: string, maxTokens: Option<int>,
    temperature: Option<Value>, region: string, endpoint: Option<string>)

  /** `DirectBedrockClient(...)` (and `create_direct_bedrock_client`). */
  function NewClient(modelId: string, region: Option<string>, endpoint: Option<string>,
                     maxTokens: Option<int>, temperature: Option<Value>, env: Env): (c: Client)
    ensures c.modelId == StripModelId(modelId)
    ensures c.maxTokens == maxTokens && c.temperature == temperature
    ensures c.region != ""
    ensures region.Some? && region.value != "" ==> c.region == region.value
    ensures c.endpoint.Some? ==> c.endpoint.value != ""
  {
    FirstNonEmptyIs([region, EnvGet(env, "AWS_BEDROCK_REGION"), EnvGet(env, "AWS_REGION"),
      EnvGet(env, "AWS_DEFAULT_REGION"), EnvGet(env, "AWS_REGION_NAME")]);
    FirstNonEmptyIs([endpoint, EnvGet(env, "AWS_BEDROCK_ENDPOINT"),
      EnvGet(env, "AWS_BEDROCK_RUNTIME_ENDPOINT")]);
    Client(StripModelId(modelId), maxTokens, temperature, Region(region, env), Endpoint(endpoint, env))
  }

  /** The default region is used exactly when neither the argument nor any
    * region variable gives one. */
  lemma DefaultRegionIff(region: Option<string>, env: Env)
    ensures var cs := [region, EnvGet(env, "AWS_BEDROCK_REGION"), EnvGet(env, "AWS_REGION"),
                       EnvGet(env, "AWS_DEFAULT_REGION"), EnvGet(env, "AWS_REGION_NAME")];
      FirstNonEmpty(cs).None? <==> forall k :: 0 <= k < |cs| ==> cs[k].None? || cs[k].value == ""
  {
    FirstNonEmptyIs([region, EnvGet(env, "AWS_BEDROCK_REGION"), EnvGet(env, "AWS_REGION"),
      EnvGet(env, "AWS_DEFAULT_REGION"), EnvGet(env, "AWS_REGION_NAME")]);
  }

  // ---------------------------------------------------------------------
  // Messages
  // ---------------------------------------------------------------------

  /** Python's `str()` of a value that is not a string. */
  type Show = Value -> string

  /** `str(v)`. */
  function Str(v: Value, show: Show): string
  {
    if v.PStr? then v.s else show(v)
  }

  /** A Bedrock message's content: a string, or a list of content blocks
    * passed through as they are (with any cache markers). */
  datatype Content = Text(text: string) | Blocks(blocks: seq<Value>)

  /** A message of the Bedrock request. */
  datatype Message = Message(role: string, content: Content)

  /** `msg.get("content", "")`. */
  function ContentOf(msg: Dict): Value
  {
    if "content" in msg then msg["content"] else PStr("")
  }

  predicate HasRole(msg: Dict, role: string)
  {
    Get(msg, "role") == Some(PStr(role))
  }

  /** A system message whose content is not a list: its text joins the
    * system prompt. */
  predicate IsSystemText(msg: Dict)
  {
    HasRole(msg, "system") && !ContentOf(msg).PList?
  }

  /** A system message whose content is a list of blocks. */
  predicate IsSystemList(msg: Dict)
  {
    HasRole(msg, "system") && ContentOf(msg).PList?
  }

  /** The messages that become Bedrock messages; every other role is
    * dropped. */
  predicate IsConversational(msg: Dict)
  {
    HasRole(msg, "user") || HasRole(msg, "assistant") || HasRole(msg, "tool")
  }

  /** A block of a tool result's content that contributes text. */
  predicate IsTextPart(block: Value)
  {
    IsBlockOfType(block, "text") || block.PStr?
  }

  /** The text a contributing block gives: `str(block.get("text", ""))`
    * for a text block, the string itself otherwise. */
  function PartText(block: Value, show: Show): string
  {
    if block.PDict? && IsBlockOfType(block, "text") then
      Str(if "text" in block.fields then block.fields["text"] else PStr(""), show)
    else if block.PStr? then block.s
    else ""
  }

  function PartTextFn(show: Show): Value -> string
  {
    b => PartText(b, show)
  }

  /** The texts of a tool result's list content, in order. */
  function TextParts(blocks: seq<Value>, show: Show): (r: seq<string>)
    ensures |r| <= |blocks|
  {
    MapSeq(FilterSeq(blocks, IsTextPart), PartTextFn(show))
  }

  lemma TextPartsSnoc(blocks: seq<Value>, b: Value, show: Show)
    ensures TextParts(blocks + [b], show)
         == TextParts(blocks, show) + (if IsTextPart(b) then [PartText(b, show)] else [])
  {
    FilterSeqSnoc(blocks, b, IsTextPart);
    var kept := FilterSeq(blocks, IsTextPart);
    if IsTextPart(b) {
      MapSeqSnoc(kept, b, PartTextFn(show));
    } else {
      assert kept + [] == kept;
    }
  }

  /** The loop that gathers a tool result's text parts. */
  method CollectTextParts(blocks: seq<Value>, show: Show) returns (parts: seq<string>)
    ensures parts == TextParts(blocks, show)
  {
    parts := [];
    for i := 0 to |blocks|
      invariant parts == TextParts(blocks[..i], show)
    {
      var block := blocks[i];
      TextPartsSnoc(blocks[..i], block, show);
      assert blocks[..i + 1] == blocks[..i] + [block];
      if block.PDict? && IsBlockOfType(block, "text") {
        var text := if "text" in block.fields then block.fields["text"] else PStr("");
        parts := parts + [Str(text, show)];
      } else if block.PStr? {
        parts := parts + [block.s];
      }
    }
    assert blocks[..|blocks|] == blocks;
  }

  const ToolResultHeader := "Tool result from "

  /** The text of the user message a tool result becomes: `Tool result
    * from {name}:\n{text}`, where a list content gives its text parts
    * joined by newlines. */
  function ToolResultText(msg: Dict, show: Show): string
  {
    var name := Str(if "name" in msg then msg["name"] else PStr("tool"), show);
    var content := ContentOf(msg);
    var text := if content.PList? then Join(TextParts(content.items, show), "\n") else Str(content, show);
    ToolResultHeader + name + ":\n" + text
  }

  /** The Bedrock message a user, assistant or tool message becomes. */
  function ConvertOne(msg: Dict, show: Show): Message
  {
    if HasRole(msg, "tool") then Message("user", Text(ToolResultText(msg, show)))
    else
      var content := ContentOf(msg);
      Message(if HasRole(msg, "user") then "user" else "assistant",
              if content.PList? then Blocks(content.items) else Text(Str(content, show)))
  }

  function ConvertOneFn(show: Show): Dict -> Message
  {
    m => ConvertOne(m, show)
  }

  /** Bedrock sees only user and assistant messages; a tool result becomes
    * a user message that names the tool, and the others keep their role
    * and content. */
  lemma ConvertOneRole(msg: Dict, show: Show)
    requires IsConversational(msg)
    ensures var m := ConvertOne(msg, show);
      (m.role == "user" || m.role == "assistant")
      && (HasRole(msg, "tool") ==> m.role == "user" && m.content.Text?
                                   && StartsWith(m.content.text, ToolResultHeader))
      && (HasRole(msg, "user") ==> m.role == "user")
      && (HasRole(msg, "assistant") ==> m.role == "assistant")
      && (!HasRole(msg, "tool") && ContentOf(msg).PList? ==> m.content == Blocks(ContentOf(msg).items))
  {
    if HasRole(msg, "tool") {
      var t := ToolResultText(msg, show);
      assert t[..|ToolResultHeader|] == ToolResultHeader;
    }
  }

  /** What the conversion loop carries: the string system prompt so far,
    * the system blocks so far, and the Bedrock messages so far. */
  datatype Converted = Converted(prompt: Option<string>, systemBlocks: seq<Value>, messages: seq<Message>)

  /** `system_prompt += f"\n\n{content}"`, or the first system text. */
  function AddSystemText(prompt: Option<string>, text: string): string
  {
    if prompt.None? then text else prompt.value + "\n\n" + text
  }

  /** One iteration of the conversion loop. */
  function Step(c: Converted, msg: Dict, show: Show): Converted
  {
    if HasRole(msg, "system") then
      var content := ContentOf(msg);
      if content.PList? then c.(systemBlocks := c.systemBlocks + content.items)
      else c.(prompt := Some(AddSystemText(c.prompt, Str(content, show))))
    else if IsConversational(msg) then c.(messages := c.messages + [ConvertOne(msg, show)])
    else c
  }

  /** The loop's state after the messages `msgs`. */
  function ConvertAll(msgs: seq<Dict>, show: Show): Converted
  {
    if msgs == [] then Converted(None, [], [])
    else Step(ConvertAll(msgs[..|msgs| - 1], show), msgs[|msgs| - 1], show)
  }

  lemma ConvertAllSnoc(msgs: seq<Dict>, msg: Dict, show: Show)
    ensures ConvertAll(msgs + [msg], show) == Step(ConvertAll(msgs, show), msg, show)
  {
    assert (msgs + [msg])[..|msgs|] == msgs;
  }

  /** The system part of the request: blocks win over the string prompt. */
  datatype System = NoSystem | SystemText(text: string) | SystemBlocks(blocks: seq<Value>)

  function SystemOf(c: Converted): System
  {
    if c.systemBlocks != [] then SystemBlocks(c.systemBlocks)
    else if c.prompt.Some? then SystemText(c.prompt.value)
    else NoSystem
  }

  /** `_convert_messages_to_bedrock_format`. */
  method ConvertMessages(msgs: seq<Dict>, show: Show) returns (system: System, out: seq<Message>)
    ensures system == SystemOf(ConvertAll(msgs, show))
    ensures out == ConvertAll(msgs, show).messages
  {
    var prompt: Option<string> := None;
    var blocks: seq<Value> := [];
    out := [];
    for i := 0 to |msgs|
      invariant Converted(prompt, blocks, out) == ConvertAll(msgs[..i], show)
    {
      var msg := msgs[i];
      ConvertAllSnoc(msgs[..i], msg, show);
      assert msgs[..i + 1] == msgs[..i] + [msg];
      var role := Get(msg, "role");
      var content := ContentOf(msg);
      if role == Some(PStr("system")) {
        if content.PList? {
          blocks := blocks + content.items;
        } else {
          var text := Str(content, show);
          if prompt.None? {
            prompt := Some(text);
          } else {
            prompt := Some(prompt.value + "\n\n" + text);
          }
        }
      } else if role == Some(PStr("user")) || role == Some(PStr("assistant")) {
        var c := if content.PList? then Blocks(content.items) else Text(Str(content, show));
        out := out + [Message(role.value.s, c)];
      } else if role == Some(PStr("tool")) {
        var name := Str(if "name" in msg then msg["name"] else PStr("tool"), show);
        var text;
        if content.PList? {
          var parts := CollectTextParts(content.items, show);
          text := Join(parts, "\n");
        } else {
          text := Str(content, show);
        }
        out := out + [Message("user", Text(ToolResultHeader + name + ":\n" + text))];
      }
    }
    assert msgs[..|msgs|] == msgs;
    if blocks != [] {
      system := SystemBlocks(blocks);
    } else if prompt.Some? {
      system := SystemText(prompt.value);
    } else {
      system := NoSystem;
    }
  }

  function SystemTextFn(show: Show): Dict -> string
  {
    m => Str(ContentOf(m), show)
  }

  /** The texts of the string-valued system messages, in order. */
  function SystemTexts(msgs: seq<Dict>, show: Show): seq<string>
  {
    MapSeq(FilterSeq(msgs, IsSystemText), SystemTextFn(show))
  }

  function ListItems(msg: Dict): seq<Value>
  {
    if ContentOf(msg).PList? then ContentOf(msg).items else []
  }

  lemma JoinSnoc(parts: seq<string>, t: string, sep: string)
    requires parts != []
    ensures Join(parts + [t], sep) == Join(parts, sep) + sep + t
  {
    JoinAppend(parts, [t], sep);
  }

  /** What one message does to each part of the loop's state. */
  lemma StepParts(c: Converted, msg: Dict, show: Show)
    ensures Step(c, msg, show).prompt
         == if IsSystemText(msg) then Some(AddSystemText(c.prompt, Str(ContentOf(msg), show))) else c.prompt
    ensures Step(c, msg, show).systemBlocks
         == c.systemBlocks + (if IsSystemList(msg) then ListItems(msg) else [])
    ensures Step(c, msg, show).messages
         == c.messages + (if IsConversational(msg) then [ConvertOne(msg, show)] else [])
  {
    if !IsSystemList(msg) {
      assert c.systemBlocks + [] == c.systemBlocks;
    }
    if !IsConversational(msg) {
      assert c.messages + [] == c.messages;
    }
  }

  /** The string system prompt is the texts of the system messages joined
    * by a blank line, and there is none when no system message has a
    * string content. */
  lemma {:induction false} ConvertAllPrompt(msgs: seq<Dict>, show: Show)
    ensures ConvertAll(msgs, show).prompt
         == if SystemTexts(msgs, show) == [] then None else Some(Join(SystemTexts(msgs, show), "\n\n"))
  {
    if msgs != [] {
      var init := msgs[..|msgs| - 1];
      var m := msgs[|msgs| - 1];
      assert msgs == init + [m];
      ConvertAllPrompt(init, show);
      ConvertAllSnoc(init, m, show);
      StepParts(ConvertAll(init, show), m, show);
      FilterSeqSnoc(init, m, IsSystemText);
      var texts := SystemTexts(init, show);
      if IsSystemText(m) {
        MapSeqSnoc(FilterSeq(init, IsSystemText), m, SystemTextFn(show));
        assert SystemTexts(msgs, show) == texts + [Str(ContentOf(m), show)];
        if texts != [] {
          JoinSnoc(texts, Str(ContentOf(m), show), "\n\n");
        }
      } else {
        assert FilterSeq(init, IsSystemText) + [] == FilterSeq(init, IsSystemText);
      }
    }
  }

  /** The system blocks are the list contents of the system messages,
    * concatenated in order. */
  lemma {:induction false} ConvertAllBlocks(msgs: seq<Dict>, show: Show)
    ensures ConvertAll(msgs, show).systemBlocks == Concat(MapSeq(FilterSeq(msgs, IsSystemList), ListItems))
  {
    if msgs != [] {
      var init := msgs[..|msgs| - 1];
      var m := msgs[|msgs| - 1];
      assert msgs == init + [m];
      ConvertAllBlocks(init, show);
      ConvertAllSnoc(init, m, show);
      StepParts(ConvertAll(init, show), m, show);
      FilterSeqSnoc(init, m, IsSystemList);
      var lists := MapSeq(FilterSeq(init, IsSystemList), ListItems);
      if IsSystemList(m) {
        MapSeqSnoc(FilterSeq(init, IsSystemList), m, ListItems);
        ConcatSnoc(lists, ListItems(m));
      } else {
        assert FilterSeq(init, IsSystemList) + [] == FilterSeq(init, IsSystemList);
        assert Concat(lists) + [] == Concat(lists);
      }
    }
  }

  /** The Bedrock messages are the user, assistant and tool messages, each
    * converted on its own, in their original order; system messages and
    * other roles contribute none. */
  lemma {:induction false} ConvertAllMessages(msgs: seq<Dict>, show: Show)
    ensures ConvertAll(msgs, show).messages == MapSeq(FilterSeq(msgs, IsConversational), ConvertOneFn(show))
  {
    if msgs != [] {
      var init := msgs[..|msgs| - 1];
      var m := msgs[|msgs| - 1];
      assert msgs == init + [m];
      ConvertAllMessages(init, show);
      ConvertAllSnoc(init, m, show);
      StepParts(ConvertAll(init, show), m, show);
      FilterSeqSnoc(init, m, IsConversational);
      if IsConversational(m) {
        MapSeqSnoc(FilterSeq(init, IsConversational), m, ConvertOneFn(show));
      } else {
        assert FilterSeq(init, IsConversational) + [] == FilterSeq(init, IsConversational);
      }
    }
  }

  // ---------------------------------------------------------------------
  // Tools
  // ---------------------------------------------------------------------

  /** A Bedrock tool definition. */
  datatype BedrockTool = BedrockTool(name: Value, description: Value, inputSchema: Value)

  predicate IsFunctionTool(tool: Dict)
  {
    Get(tool, "type") == Some(PStr("function"))
  }

  /** The source calls `.get` on a function tool's `function` entry, so
    * that entry, when present, must be a dictionary. */
  predicate WellFormedTools(tools: seq<Dict>)
  {
    forall k :: 0 <= k < |tools| && IsFunctionTool(tools[k]) ==>
      "function" !in tools[k] || tools[k]["function"].PDict?
  }

  /** `tool.get("function", {})`. */
  function FunctionOf(tool: Dict): Dict
  {
    if "function" in tool && tool["function"].PDict? then tool["function"].fields else map[]
  }

  function GetOr(d: Dict, key: string, default: Value): Value
  {
    if key in d then d[key] else default
  }

  /** The Bedrock form of one function tool. */
  function ToBedrockTool(tool: Dict): BedrockTool
  {
    var f := FunctionOf(tool);
    BedrockTool(GetOr(f, "name", PStr("")), GetOr(f, "description", PStr("")),
                GetOr(f, "parameters", PDict(map[])))
  }

  /** `_convert_tools_to_bedrock_format`: the function tools, converted and
    * in order, or none when there are none. */
  function ToolsSpec(tools: seq<Dict>): (r: Option<seq<BedrockTool>>)
    requires WellFormedTools(tools)
    ensures r.Some? ==> r.value != []
  {
    var converted := MapSeq(FilterSeq(tools, IsFunctionTool), ToBedrockTool);
    if tools == [] || converted == [] then None else Some(converted)
  }

  /** The request carries tools exactly when some tool is a function tool. */
  lemma ToolsNoneIff(tools: seq<Dict>)
    requires WellFormedTools(tools)
    ensures ToolsSpec(tools).None? <==> forall k :: 0 <= k < |tools| ==> !IsFunctionTool(tools[k])
  {
    FilterSeqEmpty(tools, IsFunctionTool);
  }

  /** A converted tool takes its name, description and parameter schema
    * from the tool's `function` entry. */
  lemma ToolsKeepFunctions(tools: seq<Dict>, k: nat)
    requires WellFormedTools(tools)
    requires ToolsSpec(tools).Some? && k < |ToolsSpec(tools).value|
    ensures var f := FunctionOf(FilterSeq(tools, IsFunctionTool)[k]);
      var t := ToolsSpec(tools).value[k];
      ("name" in f ==> t.name == f["name"]) && ("parameters" in f ==> t.inputSchema == f["parameters"])
      && ("description" in f ==> t.description == f["description"])
  {
  }

  /** The loop of `_convert_tools_to_bedrock_format`. */
  method ConvertTools(tools: seq<Dict>) returns (r: Option<seq<BedrockTool>>)
    requires WellFormedTools(tools)
    ensures r == ToolsSpec(tools)
  {
    if tools == [] {
      return None;
    }
    var out: seq<BedrockTool> := [];
    for i := 0 to |tools|
      invariant out == MapSeq(FilterSeq(tools[..i], IsFunctionTool), ToBedrockTool)
    {
      var tool := tools[i];
      FilterSeqSnoc(tools[..i], tool, IsFunctionTool);
      assert tools[..i + 1] == tools[..i] + [tool];
      if Get(tool, "type") == Some(PStr("function")) {
        MapSeqSnoc(FilterSeq(tools[..i], IsFunctionTool), tool, ToBedrockTool);
        var f := FunctionOf(tool);
        out := out + [BedrockTool(GetOr(f, "name", PStr("")), GetOr(f, "description", PStr("")),
                                  GetOr(f, "parameters", PDict(map[])))];
      } else {
        assert FilterSeq(tools[..i + 1], IsFunctionTool) == FilterSeq(tools[..i], IsFunctionTool) + [];
      }
    }
    assert tools[..|tools|] == tools;
    r := if out == [] then None else Some(out);
  }

  // ---------------------------------------------------------------------
  // The request body
  // ---------------------------------------------------------------------

  const AnthropicVersion := "bedrock-2023-05-31"
  const DefaultMaxTokens := 4096

  /** The JSON body of `invoke_model`; an absent optional key is `None`. */
  datatype Request = Request(version: string, messages: seq<Message>, maxTokens: Value,
    temperature: Option<Value>, system: Option<System>, tools: Option<seq<BedrockTool>>,
    toolChoice: Option<Value>)

  /** `kwargs.get("max_tokens", self.max_tokens)`, then 4096 for `None`. */
  function MaxTokens(client: Client, kwargs: Dict): (r: Value)
    ensures r != PNone
    ensures "max_tokens" in kwargs && kwargs["max_tokens"] != PNone ==> r == kwargs["max_tokens"]
    ensures "max_tokens" !in kwargs && client.maxTokens.Some? ==> r == PInt(client.maxTokens.value)
    ensures r == PInt(DefaultMaxTokens) <==>
      if "max_tokens" in kwargs then kwargs["max_tokens"] in {PNone, PInt(DefaultMaxTokens)}
      else client.maxTokens.None? || client.maxTokens == Some(DefaultMaxTokens)
  {
    var given := if "max_tokens" in kwargs then kwargs["max_tokens"]
                 else if client.maxTokens.Some? then PInt(client.maxTokens.value) else PNone;
    if given != PNone then given else PInt(DefaultMaxTokens)
  }

  /** `kwargs.get("temperature", self.temperature)`, left out when `None`. */
  function Temperature(client: Client, kwargs: Dict): (r: Option<Value>)
    ensures r.Some? ==> r.value != PNone
    ensures r.None? <==> if "temperature" in kwargs then kwargs["temperature"] == PNone
                         else client.temperature.None? || client.temperature == Some(PNone)
  {
    var given := if "temperature" in kwargs then kwargs["temperature"]
                 else client.temperature.GetOr(PNone);
    if given != PNone then Some(given) else None
  }

  predicate SystemTruthy(s: System)
  {
    match s
    case NoSystem => false
    case SystemText(t) => t != ""
    case SystemBlocks(b) => b != []
  }

  /** The tool choice is sent only beside tools, and only when it is
    * neither empty, `auto` nor `none`. */
  function ToolChoice(tools: Option<seq<BedrockTool>>, choice: Value): (r: Option<Value>)
    ensures r.Some? <==> tools.Some? && IsTruthy(choice) && choice != PStr("auto") && choice != PStr("none")
    ensures r.Some? ==> r.value == choice
  {
    if tools.Some? && IsTruthy(choice) && choice != PStr("auto") then
      if choice == PStr("none") then None else Some(choice)
    else None
  }

  /** The body `completion` sends. */
  function RequestBody(client: Client, msgs: seq<Dict>, tools: seq<Dict>, choice: Value,
                       kwargs: Dict, show: Show): (r: Request)
    requires WellFormedTools(tools)
    ensures r.version == AnthropicVersion
    ensures r.messages == ConvertAll(msgs, show).messages
    ensures r.system.Some? ==> SystemTruthy(r.system.value)
    ensures r.tools == ToolsSpec(tools)
    ensures r.toolChoice.Some? ==> r.tools.Some?
  {
    var c := ConvertAll(msgs, show);
    var system := SystemOf(c);
    var bedrockTools := ToolsSpec(tools);
    Request(AnthropicVersion, c.messages, MaxTokens(client, kwargs), Temperature(client, kwargs),
            if SystemTruthy(system) then Some(system) else None,
            bedrockTools, ToolChoice(bedrockTools, choice))
  }

  /** The request's system part is the system blocks when there are any,
    * else the joined system texts when they are not empty. */
  lemma RequestSystem(client: Client, msgs: seq<Dict>, tools: seq<Dict>, choice: Value,
                      kwargs: Dict, show: Show)
    requires WellFormedTools(tools)
    ensures var r := RequestBody(client, msgs, tools, choice, kwargs, show);
      var blocks := Concat(MapSeq(FilterSeq(msgs, IsSystemList), ListItems));
      var texts := SystemTexts(msgs, show);
      r.system == (if blocks != [] then Some(SystemBlocks(blocks))
                   else if texts != [] && Join(texts, "\n\n") != "" then Some(SystemText(Join(texts, "\n\n")))
                   else None)
  {
    ConvertAllBlocks(msgs, show);
    ConvertAllPrompt(msgs, show);
  }

  /** `completion` builds the body the same way as `RequestBody`. */
  method BuildRequest(client: Client, msgs: seq<Dict>, tools: seq<Dict>, choice: Value,
                      kwargs: Dict, show: Show) returns (r: Request)
    requires WellFormedTools(tools)
    ensures r == RequestBody(client, msgs, tools, choice, kwargs, show)
  {
    var system, out := ConvertMessages(msgs, show);
    var bedrockTools := ConvertTools(tools);
    var maxTokens := MaxTokens(client, kwargs);
    r := Request(AnthropicVersion, out, maxTokens, Temperature(client, kwargs),
                 if SystemTruthy(system) then Some(system) else None,
                 bedrockTools, ToolChoice(bedrockTools, choice));
  }

  // ---------------------------------------------------------------------
  // The response
  // ---------------------------------------------------------------------

  /** The parsed Bedrock answer. A usage count that is absent is `None`
    * and reads as 0. */
  datatype BedrockResponse = BedrockResponse(id: Option<Value>, stopReason: Option<Value>,
    content: seq<Dict>, inputTokens: Option<int>, cacheCreationTokens: Option<int>,
    cacheReadTokens: Option<int>, outputTokens: Option<int>)

  /** An OpenAI-style tool call; `arguments` is `json.dumps` of `input`,
    * which is not modelled. */
  datatype ToolCall = ToolCall(id: Value, name: Value, input: Value)

  datatype Usage = Usage(promptTokens: int, completionTokens: int, totalTokens: int,
    cacheCreationInputTokens: Option<int>, cacheReadInputTokens: Option<int>)

  /** The OpenAI-style response: one choice holding an assistant message. */
  datatype ChatResponse = ChatResponse(id: Value, model: string, content: Option<Value>,
    toolCalls: Option<seq<ToolCall>>, finishReason: Value, usage: Usage)

  const FinishReasons: map<string, string> := map[
    "end_turn" := "stop", "stop_sequence" := "stop", "max_tokens" := "length",
    "tool_use" := "tool_calls", "content_filtered" := "content_filter"]

  /** `finish_reason_map.get(stop_reason, stop_reason)`, with `stop` when
    * the answer has no stop reason. */
  function FinishReason(stopReason: Option<Value>): (r: Value)
    ensures stopReason.None? ==> r == PStr("stop")
    ensures stopReason.Some? && stopReason.value.PStr? && stopReason.value.s in FinishReasons
            ==> r == PStr(FinishReasons[stopReason.value.s])
    ensures stopReason.Some? && !(stopReason.value.PStr? && stopReason.value.s in FinishReasons)
            ==> r == stopReason.value
  {
    var stop := stopReason.GetOr(PStr("stop"));
    if stop.PStr? && stop.s in FinishReasons then PStr(FinishReasons[stop.s]) else stop
  }

  /** Every Bedrock stop reason maps to its OpenAI finish reason. */
  lemma FinishReasonTable()
    ensures FinishReason(Some(PStr("end_turn"))) == PStr("stop")
    ensures FinishReason(Some(PStr("stop_sequence"))) == PStr("stop")
    ensures FinishReason(Some(PStr("max_tokens"))) == PStr("length")
    ensures FinishReason(Some(PStr("tool_use"))) == PStr("tool_calls")
    ensures FinishReason(Some(PStr("content_filtered"))) == PStr("content_filter")
  {
  }

  /** A finish reason is one of OpenAI's, or the stop reason itself. */
  lemma FinishReasonRange(stopReason: Option<Value>)
    ensures var r := FinishReason(stopReason);
      r in {PStr("stop"), PStr("length"), PStr("tool_calls"), PStr("content_filter")}
      || (stopReason.Some? && r == stopReason.value)
  {
  }

  predicate IsBlock(block: Dict, kind: string)
  {
    Get(block, "type") == Some(PStr(kind))
  }

  predicate IsText(block: Dict)
  {
    IsBlock(block, "text")
  }

  predicate IsToolUse(block: Dict)
  {
    IsBlock(block, "tool_use") && !IsText(block)
  }

  /** The message text: that of the last text block, `""` when there is
    * none. */
  function LastText(blocks: seq<Dict>): Value
  {
    if blocks == [] then PStr("")
    else if IsText(blocks[|blocks| - 1]) then GetOr(blocks[|blocks| - 1], "text", PStr(""))
    else LastText(blocks[..|blocks| - 1])
  }

  /** The text comes from the last text block: no text block follows it. */
  lemma {:induction false} LastTextIsLast(blocks: seq<Dict>)
    ensures (forall k :: 0 <= k < |blocks| ==> !IsText(blocks[k])) ==> LastText(blocks) == PStr("")
    ensures (exists k :: 0 <= k < |blocks| && IsText(blocks[k])) ==>
      exists k :: 0 <= k < |blocks| && IsText(blocks[k]) && LastText(blocks) == GetOr(blocks[k], "text", PStr(""))
                  && forall j :: k < j < |blocks| ==> !IsText(blocks[j])
  {
    if blocks != [] && !IsText(blocks[|blocks| - 1]) {
      var init := blocks[..|blocks| - 1];
      LastTextIsLast(init);
      assert forall k :: 0 <= k < |init| ==> init[k] == blocks[k];
      if exists k :: 0 <= k < |blocks| && IsText(blocks[k]) {
        var k :| 0 <= k < |blocks| && IsText(blocks[k]);
        assert IsText(init[k]);
      }
    }
  }

  function ToToolCall(block: Dict): ToolCall
  {
    ToolCall(GetOr(block, "id", PStr("")), GetOr(block, "name", PStr("")), GetOr(block, "input", PDict(map[])))
  }

  /** The tool calls: the tool-use blocks, converted, in order. */
  function ToolCalls(blocks: seq<Dict>): (r: seq<ToolCall>)
    ensures |r| <= |blocks|
  {
    MapSeq(FilterSeq(blocks, IsToolUse), ToToolCall)
  }

  /** The usage: the prompt counts every kind of input token, the total
    * adds the output, and a cache count is given only when positive. */
  function UsageOf(resp: BedrockResponse): (u: Usage)
    ensures u.totalTokens == u.promptTokens + u.completionTokens
    ensures u.promptTokens == resp.inputTokens.GetOr(0) + resp.cacheCreationTokens.GetOr(0)
                              + resp.cacheReadTokens.GetOr(0)
    ensures u.completionTokens == resp.outputTokens.GetOr(0)
    ensures u.cacheCreationInputTokens.Some? <==> resp.cacheCreationTokens.GetOr(0) > 0
    ensures u.cacheReadInputTokens.Some? <==> resp.cacheReadTokens.GetOr(0) > 0
    ensures u.cacheCreationInputTokens.Some? ==> u.cacheCreationInputTokens.value == resp.cacheCreationTokens.value
    ensures u.cacheReadInputTokens.Some? ==> u.cacheReadInputTokens.value == resp.cacheReadTokens.value
  {
    var input := resp.inputTokens.GetOr(0);
    var creation := resp.cacheCreationTokens.GetOr(0);
    var read := resp.cacheReadTokens.GetOr(0);
    var prompt := input + creation + read;
    Usage(prompt, resp.outputTokens.GetOr(0), prompt + resp.outputTokens.GetOr(0),
          if creation > 0 then Some(creation) else None, if read > 0 then Some(read) else None)
  }

  /** `_convert_response_to_openai_format`. */
  function ResponseSpec(modelId: string, resp: BedrockResponse): (r: ChatResponse)
    ensures r.model == modelId
    ensures r.finishReason == FinishReason(resp.stopReason)
    ensures r.content.Some? ==> IsTruthy(r.content.value)
    ensures r.toolCalls.Some? ==> r.toolCalls.value != []
  {
    var text := LastText(resp.content);
    var calls := ToolCalls(resp.content);
    ChatResponse(resp.id.GetOr(PStr("")), modelId, if IsTruthy(text) then Some(text) else None,
                 if calls == [] then None else Some(calls), FinishReason(resp.stopReason), UsageOf(resp))
  }

  /** The response has tool calls exactly when Bedrock sent a tool-use
    * block, and they keep Bedrock's order. */
  lemma ResponseToolCalls(modelId: string, resp: BedrockResponse)
    ensures var r := ResponseSpec(modelId, resp);
      (r.toolCalls.None? <==> forall k :: 0 <= k < |resp.content| ==> !IsToolUse(resp.content[k]))
      && (r.toolCalls.Some? ==> r.toolCalls.value == MapSeq(FilterSeq(resp.content, IsToolUse), ToToolCall))
  {
    FilterSeqEmpty(resp.content, IsToolUse);
  }

  lemma BlocksSnoc(blocks: seq<Dict>, b: Dict)
    ensures LastText(blocks + [b]) == if IsText(b) then GetOr(b, "text", PStr("")) else LastText(blocks)
    ensures ToolCalls(blocks + [b]) == ToolCalls(blocks) + (if IsToolUse(b) then [ToToolCall(b)] else [])
  {
    assert (blocks + [b])[..|blocks|] == blocks;
    FilterSeqSnoc(blocks, b, IsToolUse);
    if IsToolUse(b) {
      MapSeqSnoc(FilterSeq(blocks, IsToolUse), b, ToToolCall);
    } else {
      assert FilterSeq(blocks, IsToolUse) + [] == FilterSeq(blocks, IsToolUse);
      assert ToolCalls(blocks) + [] == ToolCalls(blocks);
    }
  }

  lemma BlocksStep(blocks: seq<Dict>, i: nat)
    requires i < |blocks|
    ensures LastText(blocks[..i + 1])
         == if IsText(blocks[i]) then GetOr(blocks[i], "text", PStr("")) else LastText(blocks[..i])
    ensures ToolCalls(blocks[..i + 1])
         == ToolCalls(blocks[..i]) + (if IsToolUse(blocks[i]) then [ToToolCall(blocks[i])] else [])
  {
    BlocksSnoc(blocks[..i], blocks[i]);
    assert blocks[..i + 1] == blocks[..i] + [blocks[i]];
  }

  /** The loop over the content blocks. */
  method ConvertBlocks(blocks: seq<Dict>) returns (text: Value, calls: seq<ToolCall>)
    ensures text == LastText(blocks)
    ensures calls == ToolCalls(blocks)
  {
    text := PStr("");
    calls := [];
    for i := 0 to |blocks|
      invariant text == LastText(blocks[..i])
      invariant calls == ToolCalls(blocks[..i])
    {
      var block := blocks[i];
      BlocksStep(blocks, i);
      if IsText(block) {
        text := GetOr(block, "text", PStr(""));
      } else if IsBlock(block, "tool_use") {
        calls := calls + [ToToolCall(block)];
      }
    }
    assert blocks[..|blocks|] == blocks;
  }

  /** The conversion as the source writes it, with its loop. */
  method ConvertResponse(client: Client, resp: BedrockResponse) returns (r: ChatResponse)
    ensures r == ResponseSpec(client.modelId, resp)
  {
    var text, calls := ConvertBlocks(resp.content);
    r := ChatResponse(resp.id.GetOr(PStr("")), client.modelId, if IsTruthy(text) then Some(text) else None,
                      if calls == [] then None else Some(calls), FinishReason(resp.stopReason), UsageOf(resp));
  }

  // ---------------------------------------------------------------------
  // completion
  // ---------------------------------------------------------------------

  /** The call to Bedrock (`invoke_model` and the JSON round trip): given
    * the model id and the body, the parsed answer or the error's text. */
  type Invoke = (string, Request) -> Result<BedrockResponse, string>

  const FailurePrefix := "Direct Bedrock API call failed: "

  /** `completion`: the body is built, sent under the client's model id,
    * and the answer converted; a failed call raises with its text. */
  function Completion(client: Client, msgs: seq<Dict>, tools: seq<Dict>, choice: Value,
                      kwargs: Dict, show: Show, invoke: Invoke): (r: Result<ChatResponse, string>)
    requires WellFormedTools(tools)
    ensures var sent := invoke(client.modelId, RequestBody(client, msgs, tools, choice, kwargs, show));
      (r.Ok? <==> sent.Ok?)
      && (r.Ok? ==> r.value == ResponseSpec(client.modelId, sent.value) && r.value.model == client.modelId)
      && (r.Err? ==> r.error == FailurePrefix + sent.error)
  {
    match invoke(client.modelId, RequestBody(client, msgs, tools, choice, kwargs, show))
    case Ok(resp) => Ok(ResponseSpec(client.modelId, resp))
    case Err(e) => Err(FailurePrefix + e)
  }
}
