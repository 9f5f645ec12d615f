/**
 * Image handling for vision models (`patchpal/tools/image_handler.py`):
 * the `IMAGE_DATA:` codec, the bounded queue of images waiting to be sent
 * to OpenAI-style models as a user message, and the filter that replaces
 * images by a text placeholder when images are blocked.
 *
 * The caller's `messages` list, which the source appends to in place, is
 * passed in and handed back as a new sequence.
 */
module ImageHandler {
  import opened Wrappers
  import opened PyStr
  import opened PyData
  import FileOperations

  // ---------------------------------------------------------------------
  // Content blocks and messages
  // ---------------------------------------------------------------------

  /** `f"data:{mime};base64,{data}"`. */
  function DataUrl(mime: string, data: string): string
  {
    "data:" + mime + ";base64," + data
  }

  function TextBlock(text: string): Value
  {
    PDict(map["type" := PStr("text"), "text" := PStr(text)])
  }

  function ImageUrlBlock(mime: string, data: string): Value
  {
    PDict(map["type" := PStr("image_url"), "image_url" := PDict(map["url" := PStr(DataUrl(mime, data))])])
  }

  function ToolMessage(toolCallId: string, toolName: string, content: Value): Dict
  {
    map["role" := PStr("tool"), "tool_call_id" := PStr(toolCallId), "name" := PStr(toolName), "content" := content]
  }

  function UserMessage(content: Value): Dict
  {
    map["role" := PStr("user"), "content" := content]
  }

  // ---------------------------------------------------------------------
  // IMAGE_DATA codec
  // ---------------------------------------------------------------------

  /** `parse_image_data`: after the tag, `split(":", 2)` cuts at the first
    * colon only, so the MIME type runs to the first colon and the data is
    * the rest; both must be non-empty. */
  function ParseImageData(s: string): (r: Option<(string, string)>)
    ensures r.Some? ==> r.value.0 != "" && r.value.1 != "" && ':' !in r.value.0
  {
    var tag := FileOperations.ImageDataTag;
    if !StartsWith(s, tag) then None
    else
      var rest := s[|tag|..];
      match Find(rest, ":", 0)
      case None => None
      case Some(j) =>
        var mime := rest[..j];
        var data := rest[j + 1..];
        assert ':' !in mime by {
          forall i | 0 <= i < |mime| ensures mime[i] != ':' {
            OccursCharAt(rest, ':', i);
          }
        }
        if mime != "" && data != "" then Some((mime, data)) else None
  }

  /** Parsing inverts `read_file`'s `IMAGE_DATA:{mime}:{data}` exactly when
    * the MIME type is non-empty and colon-free and the data non-empty. */
  lemma ParseImageDataRoundTrip(mime: string, data: string)
    ensures ParseImageData(FileOperations.ImageData(mime, data)) == Some((mime, data))
            <==> mime != "" && ':' !in mime && data != ""
  {
    var s := FileOperations.ImageData(mime, data);
    var rest := s[|FileOperations.ImageDataTag|..];
    assert rest == mime + ":" + data;
    if ':' !in mime {
      forall i | 0 <= i < |mime| ensures !OccursAt(rest, ":", i) {
        OccursCharAt(rest, ':', i);
        assert rest[i] == mime[i];
      }
      OccursCharAt(rest, ':', |mime|);
      FindLeast(rest, ":", |mime|);
      assert rest[..|mime|] == mime;
      assert rest[|mime| + 1..] == data;
    }
  }

  /** Whatever parses came from that format: the text is the tag, the
    * MIME type, a colon and the data. */
  lemma ParseImageDataInverse(s: string)
    requires ParseImageData(s).Some?
    ensures var (mime, data) := ParseImageData(s).value;
      s == FileOperations.ImageData(mime, data)
  {
    var tag := FileOperations.ImageDataTag;
    var rest := s[|tag|..];
    var j := Find(rest, ":", 0).value;
    OccursCharAt(rest, ':', j);
    assert rest == rest[..j] + ":" + rest[j + 1..];
    assert s == s[..|tag|] + rest;
  }

  /** Every image `read_file` encodes with a MIME type of its own choosing
    * parses back. */
  lemma ReadFileImagesParse(ext: string, data: string)
    requires data != ""
    ensures var mime := FileOperations.ImageMime(None, ext);
      ParseImageData(FileOperations.ImageData(mime, data)) == Some((mime, data))
  {
    FileOperations.ImageMimeNoColon(ext);
    ParseImageDataRoundTrip(FileOperations.ImageMime(None, ext), data);
  }

  // ---------------------------------------------------------------------
  // Provider detection
  // ---------------------------------------------------------------------

  /** `is_openai_model` on a model id. */
  predicate IsOpenAiModelId(id: string)
  {
    Contains(Lower(id), "openai") || Contains(Lower(id), "gpt") || StartsWith(id, "openai/")
  }

  /** The `startswith("openai/")` test adds nothing: such an id already
    * contains `openai` once lower-cased. */
  lemma OpenAiPrefixRedundant(id: string)
    ensures IsOpenAiModelId(id) <==> Contains(Lower(id), "openai") || Contains(Lower(id), "gpt")
  {
    if StartsWith(id, "openai/") {
      var low := Lower(id);
      assert id[..7] == "openai/";
      forall i | 0 <= i < 6 ensures low[i] == "openai"[i] {
        assert id[i] == "openai/"[i];
      }
      assert low[0..0 + |"openai"|] == "openai";
      assert OccursAt(low, "openai", 0);
      ContainsIff(low, "openai");
    }
  }

  // ---------------------------------------------------------------------
  // The pending-image queue
  // ---------------------------------------------------------------------

  datatype PendingImage = PendingImage(mime: string, data: string)

  const MiB := 1024 * 1024

  /** `sum(len(img["data"]) for img in pending)`, in characters. */
  function TotalBytes(pending: seq<PendingImage>): nat
  {
    if pending == [] then 0 else TotalBytes(pending[..|pending| - 1]) + |pending[|pending| - 1].data|
  }

  lemma TotalBytesSnoc(pending: seq<PendingImage>, img: PendingImage)
    ensures TotalBytes(pending + [img]) == TotalBytes(pending) + |img.data|
  {
    assert (pending + [img])[..|pending|] == pending;
  }

  const LoadedText := "Image loaded successfully (see attached image below)"
  const InjectHeader := "Here are the image(s) from the tool result:"

  /** The warning that replaces the tool result when the queue is full. */
  function CountWarning(count: int): string
  {
    "Image loaded but not attached (already have " + IntToString(count)
    + " pending images in this turn). Consider processing images in smaller batches."
  }

  /** `f"{bytes / (1024 * 1024):.1f}"`, rounding half up. */
  function MbText(bytes: nat): string
  {
    var tenths := (bytes * 10 + MiB / 2) / MiB;
    IntToString(tenths / 10) + "." + IntToString(tenths % 10)
  }

  /** The warning that replaces the tool result when the image would take
    * the queue past its size limit. */
  function SizeWarning(limitMb: nat, pendingBytes: nat, imageBytes: nat): string
  {
    "Image loaded but not attached (would exceed " + IntToString(limitMb) + "MB memory limit). "
    + "Current pending: " + MbText(pendingBytes) + "MB, this image: " + MbText(imageBytes) + "MB."
  }

  /** The user message carrying the queued images: a header block, then
    * one image block per queued image, in queue order. */
  function ImageContent(pending: seq<PendingImage>): (blocks: seq<Value>)
    ensures |blocks| == 1 + |pending|
    ensures blocks[0] == TextBlock(InjectHeader)
    ensures forall k :: 0 <= k < |pending| ==> blocks[k + 1] == ImageUrlBlock(pending[k].mime, pending[k].data)
  {
    [TextBlock(InjectHeader)] + seq(|pending|, k requires 0 <= k < |pending| => ImageUrlBlock(pending[k].mime, pending[k].data))
  }

  lemma ImageContentSnoc(pending: seq<PendingImage>, img: PendingImage)
    ensures ImageContent(pending + [img]) == ImageContent(pending) + [ImageUrlBlock(img.mime, img.data)]
  {
    var a := ImageContent(pending + [img]);
    var b := ImageContent(pending) + [ImageUrlBlock(img.mime, img.data)];
    assert |a| == |b|;
    forall i | 0 <= i < |a| ensures a[i] == b[i] {
      if i > 0 && i < |a| - 1 {
        assert (pending + [img])[i - 1] == pending[i - 1];
      }
    }
  }

  class ImageHandler {
    var modelId: string
    var pending: seq<PendingImage>
    const maxPendingImages: nat
    const maxPendingSizeMb: nat

    /** The queue never holds more images, or more data, than its limits. */
    predicate Valid()
      reads this
    {
      |pending| <= maxPendingImages && TotalBytes(pending) <= maxPendingSizeMb * MiB
    }

    constructor(modelId: string)
      ensures Valid()
      ensures this.modelId == modelId && pending == []
      ensures maxPendingImages == 20 && maxPendingSizeMb == 50
    {
      this.modelId := modelId;
      pending := [];
      maxPendingImages := 20;
      maxPendingSizeMb := 50;
    }

    predicate IsOpenAiModel()
      reads this
    {
      IsOpenAiModelId(modelId)
    }

    /** Whether the next image fits in the queue. */
    predicate Admits(b64: string)
      reads this
    {
      |pending| < maxPendingImages && TotalBytes(pending) + |b64| <= maxPendingSizeMb * MiB
    }

    /** `_add_image_tool_result_openai`: exactly one tool message is
      * appended; the image joins the queue only if the queue has room for
      * it, and otherwise the message says why it was not attached. */
    method AddImageToolResultOpenai(messages: seq<Dict>, toolCallId: string, toolName: string,
                                    mime: string, b64: string) returns (out: seq<Dict>)
      requires Valid()
      modifies this
      ensures Valid()
      ensures modelId == old(modelId)
      ensures |out| == |messages| + 1 && out[..|messages|] == messages
      ensures old(Admits(b64)) ==>
        pending == old(pending) + [PendingImage(mime, b64)]
        && out[|messages|] == ToolMessage(toolCallId, toolName, PStr(LoadedText))
      ensures !old(Admits(b64)) ==> pending == old(pending)
      ensures old(|pending|) >= maxPendingImages ==>
        out[|messages|] == ToolMessage(toolCallId, toolName, PStr(CountWarning(old(|pending|))))
      ensures old(|pending|) < maxPendingImages && !old(Admits(b64)) ==>
        out[|messages|] == ToolMessage(toolCallId, toolName,
          PStr(SizeWarning(maxPendingSizeMb, old(TotalBytes(pending)), |b64|)))
    {
      out := messages + [ToolMessage(toolCallId, toolName, PStr(LoadedText))];
      var pendingCount := |pending|;
      var pendingBytes := TotalBytes(pending);
      if pendingCount >= maxPendingImages {
        out := out[|out| - 1 := out[|out| - 1]["content" := PStr(CountWarning(pendingCount))]];
        return;
      }
      if pendingBytes + |b64| > maxPendingSizeMb * MiB {
        out := out[|out| - 1 := out[|out| - 1]["content" := PStr(SizeWarning(maxPendingSizeMb, pendingBytes, |b64|))]];
        return;
      }
      TotalBytesSnoc(pending, PendingImage(mime, b64));
      pending := pending + [PendingImage(mime, b64)];
    }

    /** `_add_image_tool_result_anthropic`: the image goes straight into the
      * tool result as a second content block; the queue is untouched. */
    method AddImageToolResultAnthropic(messages: seq<Dict>, toolCallId: string, toolName: string,
                                       mime: string, b64: string) returns (out: seq<Dict>)
      ensures out == messages + [ToolMessage(toolCallId, toolName,
        PList([TextBlock("Image loaded successfully"), ImageUrlBlock(mime, b64)]))]
    {
      out := messages + [ToolMessage(toolCallId, toolName,
        PList([TextBlock("Image loaded successfully"), ImageUrlBlock(mime, b64)]))];
    }

    /** `add_image_tool_result`: OpenAI-style models queue the image, any
      * other model gets it in the tool result. */
    method AddImageToolResult(messages: seq<Dict>, toolCallId: string, toolName: string,
                              mime: string, b64: string) returns (out: seq<Dict>)
      requires Valid()
      modifies this
      ensures Valid()
      ensures modelId == old(modelId)
      ensures |out| == |messages| + 1 && out[..|messages|] == messages
      ensures !old(IsOpenAiModel()) ==>
        pending == old(pending)
        && out[|messages|] == ToolMessage(toolCallId, toolName,
          PList([TextBlock("Image loaded successfully"), ImageUrlBlock(mime, b64)]))
      ensures old(IsOpenAiModel()) && old(Admits(b64)) ==>
        pending == old(pending) + [PendingImage(mime, b64)]
        && out[|messages|] == ToolMessage(toolCallId, toolName, PStr(LoadedText))
      ensures old(IsOpenAiModel()) && !old(Admits(b64)) ==> pending == old(pending)
      ensures old(IsOpenAiModel()) && old(|pending|) >= maxPendingImages ==>
        out[|messages|] == ToolMessage(toolCallId, toolName, PStr(CountWarning(old(|pending|))))
      ensures old(IsOpenAiModel()) && old(|pending|) < maxPendingImages && !old(Admits(b64)) ==>
        out[|messages|] == ToolMessage(toolCallId, toolName,
          PStr(SizeWarning(maxPendingSizeMb, old(TotalBytes(pending)), |b64|)))
    {
      if IsOpenAiModel() {
        out := AddImageToolResultOpenai(messages, toolCallId, toolName, mime, b64);
      } else {
        out := AddImageToolResultAnthropic(messages, toolCallId, toolName, mime, b64);
      }
    }

    /** `inject_pending_images`: nothing happens on an empty queue;
      * otherwise one user message with the header and every queued image,
      * in order, is appended and the queue is emptied. */
    method InjectPendingImages(messages: seq<Dict>) returns (out: seq<Dict>)
      requires Valid()
      modifies this
      ensures Valid()
      ensures old(pending) == [] ==> out == messages && pending == []
      ensures old(pending) != [] ==> out == messages + [UserMessage(PList(ImageContent(old(pending))))] && pending == []
    {
      if pending == [] {
        return messages;
      }
      var imageContent := [TextBlock(InjectHeader)];
      assert imageContent == ImageContent(pending[..0]);
      var i := 0;
      while i < |pending|
        invariant 0 <= i <= |pending| && pending == old(pending)
        invariant imageContent == ImageContent(pending[..i])
      {
        ImageContentSnoc(pending[..i], pending[i]);
        assert pending[..i + 1] == pending[..i] + [pending[i]];
        imageContent := imageContent + [ImageUrlBlock(pending[i].mime, pending[i].data)];
        i := i + 1;
      }
      assert pending[..i] == pending;
      out := messages + [UserMessage(PList(imageContent))];
      pending := [];
    }

    method ClearPendingImages()
      modifies this
      ensures pending == [] && Valid()
    {
      pending := [];
    }

    function HasPendingImages(): (r: bool)
      reads this
      ensures r <==> pending != []
    {
      |pending| > 0
    }
  }

  /** Queueing an image and injecting puts it, last, into the user
    * message: the queue keeps the order images arrived in. */
  lemma QueuedImageLast(pending: seq<PendingImage>, img: PendingImage)
    ensures var blocks := ImageContent(pending + [img]);
      blocks[|blocks| - 1] == ImageUrlBlock(img.mime, img.data)
      && blocks[..|blocks| - 1] == ImageContent(pending)
  {
    ImageContentSnoc(pending, img);
  }

  // ---------------------------------------------------------------------
  // Blocking images
  // ---------------------------------------------------------------------

  const BlockedPrefix := "[Image blocked"
  const PlaceholderText := BlockedPrefix + " - PATCHPAL_BLOCK_IMAGES=true. Set to false to enable vision capabilities.]"

  function Placeholder(): Value
  {
    TextBlock(PlaceholderText)
  }

  predicate IsImageBlock(b: Value)
  {
    IsBlockOfType(b, "image_url")
  }

  /** `is_blocked`: a text block whose text starts with `[Image blocked`;
    * a missing text, and a text that is not a string, count as `""`. */
  predicate IsBlockedText(b: Value)
  {
    IsBlockOfType(b, "text") && StartsWith(GetStr(b.fields, "text").GetOr(""), BlockedPrefix)
  }

  lemma PlaceholderIsBlocked()
    ensures IsBlockedText(Placeholder()) && !IsImageBlock(Placeholder())
  {
    assert PlaceholderText[..|BlockedPrefix|] == BlockedPrefix;
  }

  /** A block that neither is an image nor looks like a placeholder. */
  predicate Ordinary(b: Value)
  {
    !IsImageBlock(b) && !IsBlockedText(b)
  }

  /** The first loop: every image block becomes the placeholder. */
  function ReplaceImages(blocks: seq<Value>): (r: seq<Value>)
    ensures |r| == |blocks|
    ensures forall k :: 0 <= k < |r| ==> r[k] == if IsImageBlock(blocks[k]) then Placeholder() else blocks[k]
  {
    seq(|blocks|, k requires 0 <= k < |blocks| => if IsImageBlock(blocks[k]) then Placeholder() else blocks[k])
  }

  /** The second loop: a blocked block right after a blocked block is
    * dropped; `lastWasBlocked` says whether the block before was one. */
  function Dedup(blocks: seq<Value>, lastWasBlocked: bool): seq<Value>
  {
    if blocks == [] then []
    else
      var blocked := IsBlockedText(blocks[0]);
      (if blocked && lastWasBlocked then [] else [blocks[0]]) + Dedup(blocks[1..], blocked)
  }

  /** The new content of one message. */
  function FilterBlocks(blocks: seq<Value>): seq<Value>
  {
    Dedup(ReplaceImages(blocks), false)
  }

  /** Only user and tool messages with list content are filtered. */
  predicate Filterable(msg: Dict)
  {
    (Get(msg, "role") == Some(PStr("user")) || Get(msg, "role") == Some(PStr("tool")))
    && "content" in msg && msg["content"].PList?
  }

  function FilterMessage(msg: Dict): Dict
  {
    if Filterable(msg) then msg["content" := PList(FilterBlocks(msg["content"].items))] else msg
  }

  /** `[FilterMessage(m) for m in messages]`. */
  function FilterAll(messages: seq<Dict>): (r: seq<Dict>)
    ensures |r| == |messages|
    ensures forall k :: 0 <= k < |r| ==> r[k] == FilterMessage(messages[k])
  {
    seq(|messages|, k requires 0 <= k < |messages| => FilterMessage(messages[k]))
  }

  /** `ReplaceImages`, as the source's first inner loop. */
  method ReplaceImagesLoop(blocks: seq<Value>) returns (filtered: seq<Value>)
    ensures filtered == ReplaceImages(blocks)
  {
    filtered := [];
    var i := 0;
    while i < |blocks|
      invariant 0 <= i <= |blocks|
      invariant filtered == ReplaceImages(blocks[..i])
    {
      assert ReplaceImages(blocks[..i + 1])
          == ReplaceImages(blocks[..i]) + [if IsImageBlock(blocks[i]) then Placeholder() else blocks[i]];
      if IsImageBlock(blocks[i]) {
        filtered := filtered + [Placeholder()];
      } else {
        filtered := filtered + [blocks[i]];
      }
      i := i + 1;
    }
    assert blocks[..i] == blocks;
  }

  lemma DedupStep(blocks: seq<Value>, i: int, last: bool)
    requires 0 <= i < |blocks|
    ensures Dedup(blocks[i..], last)
         == (if IsBlockedText(blocks[i]) && last then [] else [blocks[i]]) + Dedup(blocks[i + 1..], IsBlockedText(blocks[i]))
  {
    assert blocks[i..][1..] == blocks[i + 1..];
  }

  /** `Dedup`, as the source's second inner loop. */
  method DedupLoop(blocks: seq<Value>) returns (deduped: seq<Value>)
    ensures deduped == Dedup(blocks, false)
  {
    deduped := [];
    var lastWasBlocked := false;
    var i := 0;
    while i < |blocks|
      invariant 0 <= i <= |blocks|
      invariant Dedup(blocks, false) == deduped + Dedup(blocks[i..], lastWasBlocked)
    {
      DedupStep(blocks, i, lastWasBlocked);
      var isBlocked := IsBlockedText(blocks[i]);
      if !(isBlocked && lastWasBlocked) {
        deduped := deduped + [blocks[i]];
      }
      lastWasBlocked := isBlocked;
      i := i + 1;
    }
  }

  /** `filter_images_if_blocked`, with `config.BLOCK_IMAGES` as a
    * parameter: the messages are returned as they are when blocking is
    * off, and filtered one by one otherwise. */
  method FilterImagesIfBlocked(messages: seq<Dict>, blockImages: bool) returns (filtered: seq<Dict>)
    ensures !blockImages ==> filtered == messages
    ensures blockImages ==> filtered == FilterAll(messages)
  {
    if !blockImages {
      return messages;
    }
    filtered := [];
    var i := 0;
    while i < |messages|
      invariant 0 <= i <= |messages|
      invariant filtered == FilterAll(messages[..i])
    {
      var msg := messages[i];
      if Filterable(msg) {
        var replaced := ReplaceImagesLoop(msg["content"].items);
        var deduped := DedupLoop(replaced);
        filtered := filtered + [msg["content" := PList(deduped)]];
      } else {
        filtered := filtered + [msg];
      }
      assert FilterAll(messages[..i + 1]) == FilterAll(messages[..i]) + [FilterMessage(messages[i])];
      i := i + 1;
    }
    assert messages[..i] == messages;
  }

  // ---------------------------------------------------------------------
  // Properties of the filter
  // ---------------------------------------------------------------------

  /** Deduplication only drops blocks: it keeps a subsequence. */
  lemma {:induction false} DedupSubset(blocks: seq<Value>, last: bool)
    ensures |Dedup(blocks, last)| <= |blocks|
    ensures forall b :: b in Dedup(blocks, last) ==> b in blocks
  {
    if blocks != [] {
      DedupSubset(blocks[1..], IsBlockedText(blocks[0]));
    }
  }

  /** Blocks that are not placeholders all survive, in order. */
  lemma {:induction false} DedupKeepsOrdinary(blocks: seq<Value>, last: bool)
    ensures FilterSeq(Dedup(blocks, last), b => !IsBlockedText(b)) == FilterSeq(blocks, b => !IsBlockedText(b))
  {
    if blocks != [] {
      var blocked := IsBlockedText(blocks[0]);
      DedupKeepsOrdinary(blocks[1..], blocked);
      var head := if blocked && last then [] else [blocks[0]];
      FilterSeqAppend(head, Dedup(blocks[1..], blocked), b => !IsBlockedText(b));
    }
  }

  /** No two placeholders are adjacent after deduplication, and none
    * comes first when the block before was one. */
  lemma {:induction false} DedupNoAdjacent(blocks: seq<Value>, last: bool)
    ensures last && Dedup(blocks, last) != [] ==> !IsBlockedText(Dedup(blocks, last)[0])
    ensures forall k :: 0 <= k < |Dedup(blocks, last)| - 1 ==>
      !(IsBlockedText(Dedup(blocks, last)[k]) && IsBlockedText(Dedup(blocks, last)[k + 1]))
  {
    if blocks != [] {
      var blocked := IsBlockedText(blocks[0]);
      DedupNoAdjacent(blocks[1..], blocked);
      var rest := Dedup(blocks[1..], blocked);
      var d := Dedup(blocks, last);
      if !(blocked && last) {
        assert d == [blocks[0]] + rest;
        forall k | 0 <= k < |d| - 1 ensures !(IsBlockedText(d[k]) && IsBlockedText(d[k + 1])) {
          assert d[k + 1] == rest[k];
          if k > 0 {
            assert d[k] == rest[k - 1];
          }
        }
      } else {
        assert d == rest;
      }
    }
  }

  /** Block `k` survives deduplication: it is not a placeholder that
    * follows a placeholder (`last` says whether one came before block 0). */
  predicate Kept(blocks: seq<Value>, last: bool, k: int)
    requires 0 <= k < |blocks|
  {
    !(IsBlockedText(blocks[k]) && (if k == 0 then last else IsBlockedText(blocks[k - 1])))
  }

  /** The blocks from index `k` on that survive, in order. */
  function Survivors(blocks: seq<Value>, last: bool, k: nat): seq<Value>
    decreases |blocks| - k
  {
    if k >= |blocks| then []
    else (if Kept(blocks, last, k) then [blocks[k]] else []) + Survivors(blocks, last, k + 1)
  }

  /** Deduplication keeps exactly the blocks that are not a placeholder
    * right after a placeholder, in order: of a run of placeholders the
    * first one stays. */
  lemma DedupIsSurvivors(blocks: seq<Value>, last: bool)
    ensures Dedup(blocks, last) == Survivors(blocks, last, 0)
  {
    DedupFrom(blocks, last, 0);
  }

  lemma {:induction false} DedupFrom(blocks: seq<Value>, last: bool, k: nat)
    requires k <= |blocks|
    decreases |blocks| - k
    ensures Dedup(blocks[k..], if k == 0 then last else IsBlockedText(blocks[k - 1])) == Survivors(blocks, last, k)
  {
    if k < |blocks| {
      var before := if k == 0 then last else IsBlockedText(blocks[k - 1]);
      DedupStep(blocks, k, before);
      DedupFrom(blocks, last, k + 1);
    }
  }

  /** An image block, or a text block that reads as a placeholder. */
  predicate Masked(b: Value)
  {
    IsImageBlock(b) || IsBlockedText(b)
  }

  /** Block `k` is an image or a placeholder right after another one. */
  predicate ContinuesRun(blocks: seq<Value>, k: int)
    requires 0 <= k < |blocks|
  {
    k > 0 && Masked(blocks[k - 1]) && Masked(blocks[k])
  }

  /** After the images are replaced, block `k` survives exactly when it does
    * not continue a run of images and placeholders. */
  lemma ReplacedKept(blocks: seq<Value>, k: int)
    requires 0 <= k < |blocks|
    ensures Kept(ReplaceImages(blocks), false, k) <==> !ContinuesRun(blocks, k)
    ensures Masked(blocks[k]) ==> IsBlockedText(ReplaceImages(blocks)[k])
  {
    PlaceholderIsBlocked();
  }

  /** After filtering a message's blocks, no image is left, no two
    * placeholders are adjacent, and every ordinary block is kept in
    * order. The result is exactly the replaced blocks that do not continue
    * a run of images and placeholders: each run leaves its first block,
    * as a placeholder, at its place, and nothing else of it. */
  lemma FilterBlocksSpec(blocks: seq<Value>)
    ensures FilterBlocks(blocks) == Survivors(ReplaceImages(blocks), false, 0)
    ensures forall k :: 0 <= k < |blocks| ==>
      (Kept(ReplaceImages(blocks), false, k) <==> !ContinuesRun(blocks, k))
    ensures forall k :: 0 <= k < |blocks| && Masked(blocks[k]) ==> IsBlockedText(ReplaceImages(blocks)[k])
    ensures forall b :: b in FilterBlocks(blocks) ==> !IsImageBlock(b)
    ensures forall k :: 0 <= k < |FilterBlocks(blocks)| - 1 ==>
      !(IsBlockedText(FilterBlocks(blocks)[k]) && IsBlockedText(FilterBlocks(blocks)[k + 1]))
    ensures FilterSeq(FilterBlocks(blocks), Ordinary) == FilterSeq(blocks, Ordinary)
    ensures |FilterBlocks(blocks)| <= |blocks|
  {
    FilterBlocksRuns(blocks);
    FilterBlocksKeeps(blocks);
  }

  /** Each run of images and placeholders leaves its first block. */
  lemma FilterBlocksRuns(blocks: seq<Value>)
    ensures FilterBlocks(blocks) == Survivors(ReplaceImages(blocks), false, 0)
    ensures forall k :: 0 <= k < |blocks| ==>
      (Kept(ReplaceImages(blocks), false, k) <==> !ContinuesRun(blocks, k))
    ensures forall k :: 0 <= k < |blocks| && Masked(blocks[k]) ==> IsBlockedText(ReplaceImages(blocks)[k])
  {
    DedupIsSurvivors(ReplaceImages(blocks), false);
    forall k | 0 <= k < |blocks|
      ensures Kept(ReplaceImages(blocks), false, k) <==> !ContinuesRun(blocks, k)
    {
      ReplacedKept(blocks, k);
    }
    forall k | 0 <= k < |blocks| && Masked(blocks[k])
      ensures IsBlockedText(ReplaceImages(blocks)[k])
    {
      ReplacedKept(blocks, k);
    }
  }

  /** No image and no adjacent placeholders are left, ordinary blocks are
    * kept in order, and the content does not grow. */
  lemma FilterBlocksKeeps(blocks: seq<Value>)
    ensures forall b :: b in FilterBlocks(blocks) ==> !IsImageBlock(b)
    ensures forall k :: 0 <= k < |FilterBlocks(blocks)| - 1 ==>
      !(IsBlockedText(FilterBlocks(blocks)[k]) && IsBlockedText(FilterBlocks(blocks)[k + 1]))
    ensures FilterSeq(FilterBlocks(blocks), Ordinary) == FilterSeq(blocks, Ordinary)
    ensures |FilterBlocks(blocks)| <= |blocks|
  {
    var replaced := ReplaceImages(blocks);
    PlaceholderIsBlocked();
    DedupSubset(replaced, false);
    DedupNoAdjacent(replaced, false);
    DedupKeepsOrdinary(replaced, false);
    OrdinaryOfUnblocked(Dedup(replaced, false));
    OrdinaryOfUnblocked(replaced);
    ReplaceKeepsOrdinary(blocks);
  }

  /** Among blocks with no image, the ordinary ones are the unblocked ones. */
  lemma {:induction false} OrdinaryOfUnblocked(blocks: seq<Value>)
    requires forall b :: b in blocks ==> !IsImageBlock(b)
    ensures FilterSeq(blocks, Ordinary) == FilterSeq(blocks, b => !IsBlockedText(b))
  {
    if blocks != [] {
      OrdinaryOfUnblocked(blocks[1..]);
    }
  }

  lemma {:induction false} ReplaceKeepsOrdinary(blocks: seq<Value>)
    ensures FilterSeq(ReplaceImages(blocks), Ordinary) == FilterSeq(blocks, Ordinary)
    ensures forall b :: b in ReplaceImages(blocks) ==> !IsImageBlock(b)
  {
    PlaceholderIsBlocked();
    if blocks != [] {
      ReplaceKeepsOrdinary(blocks[1..]);
      assert ReplaceImages(blocks) == ReplaceImages(blocks[..1]) + ReplaceImages(blocks[1..]);
    }
  }

  /** Filtering keeps the number of messages, leaves every message that
    * is not a user or tool message with list content exactly as it was,
    * and changes only the content of the others. */
  lemma FilterAllShape(messages: seq<Dict>)
    ensures |FilterAll(messages)| == |messages|
    ensures forall k :: 0 <= k < |messages| && !Filterable(messages[k]) ==> FilterAll(messages)[k] == messages[k]
    ensures forall k :: 0 <= k < |messages| && Filterable(messages[k]) ==>
      FilterAll(messages)[k].Keys == messages[k].Keys
      && forall key :: key in messages[k] && key != "content" ==> FilterAll(messages)[k][key] == messages[k][key]
  {
  }

  /** `should_skip_pruning`: list content with an image block in it. */
  function ShouldSkipPruning(content: Value): (r: bool)
    ensures r <==> content.PList? && exists k :: 0 <= k < |content.items| && IsImageBlock(content.items[k])
  {
    content.PList? && AnyImage(content.items)
  }

  function AnyImage(blocks: seq<Value>): (r: bool)
    ensures r <==> exists k :: 0 <= k < |blocks| && IsImageBlock(blocks[k])
  {
    if blocks == [] then false
    else if IsImageBlock(blocks[0]) then true
    else
      var r := AnyImage(blocks[1..]);
      assert r <==> exists k :: 0 <= k < |blocks| && IsImageBlock(blocks[k]) by {
        if r {
          var k :| 0 <= k < |blocks[1..]| && IsImageBlock(blocks[1..][k]);
          assert blocks[k + 1] == blocks[1..][k];
        }
        forall k | 0 < k < |blocks| ensures blocks[k] == blocks[1..][k - 1] { }
      }
      r
  }

  /** Once images are blocked, no filtered message needs to be kept from
    * pruning because of an image. */
  lemma FilteredNeedsNoSkip(messages: seq<Dict>, k: int)
    requires 0 <= k < |messages| && Filterable(messages[k])
    ensures !ShouldSkipPruning(FilterAll(messages)[k]["content"])
  {
    FilterBlocksSpec(messages[k]["content"].items);
  }
}
