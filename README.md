# patchpal's pure core, in Dafny

This project models the parts of patchpal, a coding agent, that decide
what happens to a file, a command or a message, and proves properties of
the model. The centre is the hashline edit engine
(`patchpal/tools/hashline.py`). In the hashline format every line of a
file is addressed as `LINE#HH`: its 1-based number and a two-letter code
drawn from the line's content hash. An agent names the lines it wants
changed by those tags. The tags double as a staleness check: if the file
changed since the agent read it, the codes no longer match, and the batch
is refused before anything is modified.

Around it the project models the other decisions the agent takes without
I/O:

- how `edit_file` finds the text to replace and adjusts the new text;
- how `edit_file_hashline` decodes the JSON edits an LLM sends;
- how permission grants are stored and looked up;
- which command a shell line really runs;
- the line protocol and TODO lists of the small-model front end;
- the queue and the filter for images;
- the translation to and from AWS Bedrock;
- the JSON schema of a custom tool;
- Bedrock model ids;
- the retry loop around LLM calls;
- the range logic of `read_lines`.

Modules, one per source file, plus three shared ones:

- `Wrappers`: `Option` and `Result`.
- `PyStr`: the Python string operations the code relies on (`split`,
  `"\n".join`, `strip`, `str.isspace`, `find`, `count`, `replace`, `int`
  to `str`), with their laws. For example, `"\n".join` undoes
  `split("\n")`, a split has one more piece than the text has separators,
  and whitespace normalisation is idempotent.
- `PyData`: Python and JSON values (`None`, booleans, integers, strings,
  lists, dictionaries) as chat messages and parsed tool calls carry them.
- `Hashline`: the 16-letter nibble alphabet and the 256 two-letter codes,
  `compute_line_hash`, `format_hash_lines`, and `parse_tag`.
- `HashlineExamples`: `parse_tag` on the concrete references the tests
  use.
- `HashlineEdits`: the five edit kinds, validation of every reference in
  a batch, and `HashlineMismatchError`. The error is modelled through its
  `remaps` table and its message text.
- `HashlineApply`: the bottom-up sort of the batch, one splice per edit,
  and `apply_hashline_edits` as a whole. Of two edits on separate parts
  of the file each acts at its original line numbers, except for an
  Append after the last line of a Set or Replace: `get_sort_key` applies
  that Append second, so it lands among the new lines. For comparison,
  `ApplySpecAppendFirst` sorts such an Append first, and then every pair
  of separate edits acts at its original line numbers.
- `FileEditing` (`patchpal/tools/file_editing.py`): the exact, line-trimmed
  and whitespace-normalised matching strategies and their order.
- `EditFile` (the same file): `edit_file` between reading and writing.
  That covers the uniqueness check with the line of every occurrence, the
  re-indentation of the new text, the kept trailing newlines, and the
  replacement.
- `EditHashline` (the same file): `edit_file_hashline` between reading
  and writing. The dictionaries are decoded into edits, the batch is
  applied, and an edit that changes nothing is reported as such.
- `Permissions` (`patchpal/permissions.py`): `PermissionManager` as a
  class over its session and persistent grant tables. This covers the
  harmless commands granted at construction, the grant lookup, the grant
  insertion, and the outcomes of a request once the user's answer is
  known.
- `ShellTools` (`patchpal/tools/shell_tools.py`):
  `_extract_shell_command_info`, the permission pattern `cmd@dir`, and the
  dangerous-command gate of `run_shell`.
- `Simple` (`patchpal/simple.py`):
  - the one-JSON-object-per-line tool protocol;
  - the unknown-tool scan and the no-op `echo` test;
  - `parse_todo_list` and `format_todo_list`, with their round trip;
  - the clarifying-question test;
  - the output caps of `run_command`.
- `ImageHandler` (`patchpal/tools/image_handler.py`):
  - the `IMAGE_DATA:` codec;
  - `ImageHandler` as a class over its queue of pending images;
  - the filter that replaces images by a placeholder when images are
    blocked, and the pruning exemption.
- `BedrockDirect` (`patchpal/bedrock_direct.py`): the client's model id,
  region and endpoint. It also covers the conversion of OpenAI-style
  messages and tools into a Bedrock request body, and of Bedrock's answer
  back into an OpenAI-style response.
- `ToolSchema` (`patchpal/tool_schema.py`):
  - the JSON-schema type of a type hint and the docstring parameter
    parser;
  - the tool schema of a function and the validity test;
  - the override policy of `discover_tools`.
- `Agent` (`patchpal/agent.py`): the normalisation of Bedrock model ids.
- `LlmResilience` (`patchpal/llm_resilience.py`): the retryable-error
  test and the retry loop, over an abstract sequence of call outcomes.
- `FileOperations` (`patchpal/tools/file_operations.py`): the range
  checks and numbered output of `read_lines`, and the `IMAGE_DATA:` text
  of `read_file`.

The xxHash32 digest of the UTF-8 encoding is a parameter
`digest: string -> nat`, and nothing is proved about its values. Every
property holds for every digest function. The hash code is
`HASH_DICT[digest(normalised line) % 256]`, which matches the source's
`& 0xFF` for the non-negative digest.

Other things the code gets from outside are parameters too:
- `json.loads`;
- Python's `str()` of a non-string value;
- the call to Bedrock;
- the outcome of each LLM call;
- the user's answer to a permission prompt;
- the lists of dangerous tokens and patterns;
- the environment variables;
- the functions a tool file defines.

The methods mirror the source's loops, and the classes mirror its
objects that change state. Each method is proved equal to a specification
function, or states the new state of its object. The properties are
lemmas about those functions.

## Model

| member | source | states |
|---|---|---|
| Hashline.NibbleIndexInverse | patchpal/tools/hashline.py:26 | the nibble alphabet has 16 distinct symbols, and its index function inverts lookup |
| Hashline.HashName | patchpal/tools/hashline.py:29 | every entry of the code table is two nibble symbols |
| Hashline.HashDictBijection | patchpal/tools/hashline.py:26-29 | `HASH_DICT` has 256 entries; entry `b` decodes back to `b`; its entries are exactly the two-symbol strings over the alphabet, so all 256 are distinct |
| Hashline.HashNameValue | patchpal/tools/hashline.py:29 | decoding the code of byte `b` gives `b` |
| Hashline.HashValueName | patchpal/tools/hashline.py:29 | encoding the decoded byte of a two-symbol code gives the code back |
| Hashline.ComputeLineHash | patchpal/tools/hashline.py:105-130 | the result is always one of the 256 codes |
| Hashline.HashInputIsRemoveSpace | patchpal/tools/hashline.py:119-124 | dropping one trailing `\r` and then all whitespace is the same as dropping all whitespace |
| Hashline.HashIgnoresWhitespace | patchpal/tools/hashline.py:105-130 | two lines equal once whitespace is removed get the same code, whatever their line numbers (`idx` is ignored) |
| Hashline.HashIgnoresInsertedWhitespace | patchpal/tools/hashline.py:119-127 | inserting whitespace anywhere in a line does not change its code |
| Hashline.TagTextInjective | patchpal/tools/hashline.py:155 | the rendering `N#HH` determines the tag |
| Hashline.HashLines | patchpal/tools/hashline.py:150-156 | one rendered line per input line |
| Hashline.HashLinesAt | patchpal/tools/hashline.py:152-155 | rendered line `i` is `{start+i}#{hash}:{line i}` |
| Hashline.FormatHashLines | patchpal/tools/hashline.py:133-156 | the loop joins, with `\n`, the rendering of each `\n`-separated line numbered from `start_line` |
| Hashline.FormatHashLinesShape | patchpal/tools/hashline.py:150-156 | splitting the output on `\n` gives back exactly one rendered line per input line, in order |
| Hashline.HashLineHasNoNewline | patchpal/tools/hashline.py:155 | a rendered line without `\n` in its text contains no `\n` |
| Hashline.ParseTag | patchpal/tools/hashline.py:159-191 | an accepted reference has line `>= 1` and a hash from the table; line 0 is the `Line number must be >= 1` error |
| Hashline.ParseTagComplete | patchpal/tools/hashline.py:178-191 | every string the pattern describes (spaces, `>+-` markers, spaces, digits, spaces, `#`, spaces, two codes, any suffix) parses to its digits and code, or to the line error for 0 |
| Hashline.ParseTagAccepts | patchpal/tools/hashline.py:178-191 | a matching string with digits `n >= 1` parses to `LineTag(n, hash)` |
| Hashline.ParseTagSound | patchpal/tools/hashline.py:178-191 | every string the pattern does not reject splits into the pattern's parts, and its result is the one those parts give |
| Hashline.ParseTagText | patchpal/tools/hashline.py:155-191 | round trip: `parse_tag(f"{n}#{h}" + suffix)` is `LineTag(n, h)` for `n >= 1` and `h` in the table |
| Hashline.ParseHashLine | patchpal/tools/hashline.py:155-191 | a line rendered by `format_hash_lines` parses back to its number and current code |
| HashlineExamples.ParseTagPlain | patchpal/tools/hashline.py:178-191 | `"5#ZP"` is line 5, code `ZP` |
| HashlineExamples.ParseTagPadded | patchpal/tools/hashline.py:178-191 | surrounding spaces are allowed |
| HashlineExamples.ParseTagWithContent | patchpal/tools/hashline.py:177-191 | any display suffix after the code is ignored |
| HashlineExamples.ParseTagQuoted | patchpal/tools/hashline.py:173-191 | `>>>` markers and spaces around `#` are allowed |
| HashlineExamples.ParseTagNotATag | patchpal/tools/hashline.py:181-184 | `"not-a-tag"` is rejected |
| HashlineExamples.ParseTagMissingHash | patchpal/tools/hashline.py:181-184 | `"5#"` is rejected |
| HashlineExamples.ParseTagLowerCase | patchpal/tools/hashline.py:178-184 | lower-case codes are rejected; the match is case-sensitive |
| HashlineExamples.ParseTagSplitMarkers | patchpal/tools/hashline.py:178-184 | markers must be contiguous; `"> > 5#ZP"` is rejected |
| HashlineExamples.ParseTagLineZero | patchpal/tools/hashline.py:186-188 | `"0#ZP"` raises the line-number error |
| HashlineExamples.NoDigitsAfterLead | patchpal/tools/hashline.py:178-184 | a reference whose leading spaces and markers are not followed by a digit is rejected |
| HashlineExamples.ParseTagPrefix | patchpal/tools/hashline.py:178-191 | for `digits#rest`: accepted exactly when `rest` starts with two code symbols, with the line error for 0 |
| HashlineEdits.ValidateLineRef | patchpal/tools/hashline.py:194-213 | no error exactly when the line exists and its code matches; a mismatch error is raised only for an existing line |
| HashlineEdits.CheckRef | patchpal/tools/hashline.py:305-315 | the closure raises exactly for an out-of-range line, and records nothing exactly when the reference is current |
| HashlineEdits.CheckEditCurrent | patchpal/tools/hashline.py:318-340 | an edit passes its checks with no mismatch exactly when its ranges are well ordered and all its anchors are current |
| HashlineEdits.ValidateCurrent | patchpal/tools/hashline.py:317-343 | a batch validates with no mismatch exactly when every edit in it is current |
| HashlineEdits.ValidateOk | patchpal/tools/hashline.py:317-341 | no `ValueError` is raised exactly when no edit's own checks raise one |
| HashlineEdits.ValidateFirstError | patchpal/tools/hashline.py:317-341 | a `ValueError` is the error of the first edit in list order whose checks raise |
| HashlineEdits.ValidateErrNotStale | patchpal/tools/hashline.py:305-343 | validation raises only `ValueError`s; stale hashes are collected, never raised one at a time |
| HashlineEdits.ValidateMismatches | patchpal/tools/hashline.py:310-314 | each collected mismatch names an existing line, holds its current code as `actual`, and has an `expected` code that differs |
| HashlineEdits.ShownTagIsCurrent | patchpal/tools/hashline.py:94-213 | the tag shown for a line parses back to a reference that validates |
| HashlineEdits.ValidateEdits | patchpal/tools/hashline.py:303-341 | the validation loop computes the specification's result: the first error, or all mismatches in order |
| HashlineEdits.PrefixErrorStays | patchpal/tools/hashline.py:317-341 | once an edit has raised, later edits do not change the outcome |
| HashlineEdits.MapOfPairsLookup | patchpal/tools/hashline.py:55-58 | a dictionary filled by a loop of consistent assignments maps each key to its value |
| HashlineEdits.RemapsKeys | patchpal/tools/hashline.py:55-58 | `remaps` has exactly one key `L#expected` per mismatch |
| HashlineEdits.RemapsConsistent | patchpal/tools/hashline.py:55-58 | two mismatches with the same key assign the same value, so the loop's order does not matter |
| HashlineEdits.SameKeySameLine | patchpal/tools/hashline.py:58 | the key `L#expected` determines the line `L` |
| HashlineEdits.RemapsValues | patchpal/tools/hashline.py:55-58 | each key `L#expected` maps to `L#actual` on the same line, with the line's current code |
| HashlineEdits.BuildRemaps | patchpal/tools/hashline.py:55-58 | the loop builds exactly that table |
| HashlineEdits.DisplayLinesIff | patchpal/tools/hashline.py:70-76 | a line is displayed exactly when it is within the file and within 2 lines of a mismatch |
| HashlineEdits.SortedWithinSpec | patchpal/tools/hashline.py:78 | `sorted(display_lines)` is strictly ascending and holds exactly the displayed lines |
| HashlineEdits.SortedDisplay | patchpal/tools/hashline.py:70-78 | the displayed lines, sorted, are strictly ascending and exactly the displayed set |
| HashlineEdits.CollectDisplayLines | patchpal/tools/hashline.py:70-76 | the nested loop collects exactly the displayed lines |
| HashlineEdits.MarkedLinesIff | patchpal/tools/hashline.py:68-97 | a line is marked exactly when some mismatch names it |
| HashlineEdits.LayoutShowsAll | patchpal/tools/hashline.py:86-100 | leaving out the separators, the message rows are the sorted lines, in order |
| HashlineEdits.LayoutGapIff | patchpal/tools/hashline.py:86-90 | a `...` row appears exactly when two consecutive displayed lines are not adjacent |
| HashlineEdits.LayoutWithin | patchpal/tools/hashline.py:93 | every displayed line indexes the file |
| HashlineEdits.Texts | patchpal/tools/hashline.py:86-100 | one message line per row, each the row's rendering |
| HashlineEdits.DisplayWithinFile | patchpal/tools/hashline.py:73-93 | the displayed lines are clamped to `[1, len(file_lines)]`, so `file_lines[line_num - 1]` is in range |
| HashlineEdits.MismatchInMessage | patchpal/tools/hashline.py:72-100 | every mismatched line appears in the message |
| HashlineEdits.MismatchEntry | patchpal/tools/hashline.py:93-98 | a mismatched line appears as `>>> ` followed by its current tag and its text |
| HashlineEdits.UnmarkedEntry | patchpal/tools/hashline.py:93-100 | a context line appears as four spaces followed by its current tag and its text |
| HashlineEdits.MessageGapIff | patchpal/tools/hashline.py:80-102 | the message holds a `    ...` line exactly when the displayed lines are not contiguous |
| HashlineEdits.RenderEntry | patchpal/tools/hashline.py:93-100 | the loop body renders one line of the message |
| HashlineEdits.RenderEntries | patchpal/tools/hashline.py:86-100 | the rendering loop produces the rows' texts in order |
| HashlineEdits.FormatMessage | patchpal/tools/hashline.py:63-102 | `_format_message` is the header, a blank line, and the rendered rows, joined with `\n` |
| HashlineApply.InsertByPerm | patchpal/tools/hashline.py:361 | insertion adds exactly one element |
| HashlineApply.SortBySpec | patchpal/tools/hashline.py:361 | the sort gives a sorted permutation of its input |
| HashlineApply.InsertByStable | patchpal/tools/hashline.py:361 | insertion places an element after the others of its key |
| HashlineApply.SortByStable | patchpal/tools/hashline.py:361 | the sort is stable: the elements of each key keep their order |
| HashlineApply.SortEditsSpec | patchpal/tools/hashline.py:346-361 | edits are applied by descending anchor line and then ascending precedence (Set and Replace 0, Append 1, Prepend 2, Insert 3; an unanchored Append sorts as line `n + 1`, an unanchored Prepend as line 0); the order is a permutation of the batch |
| HashlineApply.SortEditsStable | patchpal/tools/hashline.py:346-361 | edits with equal keys are applied in list order |
| HashlineApply.SortPairOrderFree | patchpal/tools/hashline.py:346-361 | two edits with different keys are applied in the same order, whichever order the batch lists them in |
| HashlineApply.SpliceWithin | patchpal/tools/hashline.py:367-410 | an in-range slice assignment `l[a:b] = c` replaces exactly `l[a:b]` by `c` |
| HashlineApply.Lower | patchpal/tools/hashline.py:368-369 | `first_changed_line` becomes the minimum of its value and the edit's line |
| HashlineApply.ApplyOne | patchpal/tools/hashline.py:364-412 | one pass of the loop updates the lines and `first_changed_line` as the specification says |
| HashlineApply.ApplyHashlineEdits | patchpal/tools/hashline.py:275-414 | the procedure computes the specification's result (validation, then the splices in `get_sort_key`'s order); an empty batch returns the content unchanged, with no changed line |
| HashlineApply.ApplyOkIff | patchpal/tools/hashline.py:296-343 | the batch goes ahead exactly when it is empty or every edit in it is current |
| HashlineApply.ApplyStaleReport | patchpal/tools/hashline.py:342-343 | the mismatch error carries the file's lines and a non-empty list of genuine mismatches |
| HashlineApply.ApplyValueError | patchpal/tools/hashline.py:317-341 | a `ValueError` is the one raised by the first failing edit in list order |
| HashlineApply.ApplyAllBound | patchpal/tools/hashline.py:364-412 | before the first edit the lines are unchanged; after any edit `first_changed_line` is set and within `[1, len + 1]` |
| HashlineApply.FirstChangedInRange | patchpal/tools/hashline.py:299-414 | a non-empty batch that goes ahead reports a first changed line in `[1, len(lines) + 1]` |
| HashlineApply.ApplySet | patchpal/tools/hashline.py:365-369 | Set replaces its one line by the new lines, and that line is the first changed |
| HashlineApply.ApplyReplace | patchpal/tools/hashline.py:371-376 | Replace replaces lines `first..last` by the new lines |
| HashlineApply.ApplyAppendAfter | patchpal/tools/hashline.py:380-383 | Append after a line inserts right after it and removes nothing |
| HashlineApply.ApplyAppendEnd | patchpal/tools/hashline.py:384-392 | Append at the end adds the lines at the end, except that a file holding one empty line is replaced |
| HashlineApply.ApplyPrependBefore | patchpal/tools/hashline.py:396-399 | Prepend before a line inserts right before it and removes nothing |
| HashlineApply.ApplyPrependStart | patchpal/tools/hashline.py:400-406 | Prepend at the start adds the lines at line 1, except that a file holding one empty line is replaced |
| HashlineApply.ApplyInsert | patchpal/tools/hashline.py:408-412 | Insert puts the lines right before `before` and removes nothing |
| HashlineApply.ApplyAnchored | patchpal/tools/hashline.py:364-412 | an edit with its anchors given assigns one slice of the lines (a Set or Replace its lines, an insertion an empty slice at its place) and lowers `first_changed_line` to the slice's first line |
| HashlineApply.SliceInFile | patchpal/tools/hashline.py:304-341 | the slice of a validated edit lies within the file |
| HashlineApply.DisjointKeys | patchpal/tools/hashline.py:346-361 | of two disjoint edits, the sort applies the upper one first |
| HashlineApply.SplicesAtOriginal | patchpal/tools/hashline.py:364-412 | two slice assignments, the upper one first, act at their original indices |
| HashlineApply.DisjointSplices | patchpal/tools/hashline.py:364-412 | the loop over two disjoint edits, the upper first, leaves each one's new lines at its original place and reports the lower one's first line |
| HashlineApply.DisjointPair | patchpal/tools/hashline.py:281-414 | any two current edits of any kinds with anchors, on disjoint parts of the file, act at their original line numbers, and the result is the same in either list order |
| HashlineApply.AppendAfterEdit | patchpal/tools/hashline.py:346-383 | an Append after the last line of a Set or Replace is applied second, in either list order, at its line number in the already edited lines |
| HashlineApply.SetThenAppend | patchpal/tools/hashline.py:346-383 | a Set of line 2 to two lines with an Append after line 2 puts the appended line between the Set's two lines |
| HashlineApply.ApartKeysAppendFirst | patchpal/tools/hashline.py:346-361 | with the Append-first key, of two edits that are apart (touching included) the upper one is sorted first |
| HashlineApply.ApartPairAppendFirst | patchpal/tools/hashline.py:281-414 | with the Append-first key, any two current anchored edits that are apart, touching ones included, act at their original line numbers in either list order |
| HashlineApply.SetThenAppendAppendFirst | patchpal/tools/hashline.py:346-383 | with the Append-first key the appended line follows both of the Set's lines |

| Agent.NormalizeBedrockModelId | patchpal/agent.py:15-37 | the result is always either the id itself or `bedrock/` followed by the id |
| Agent.NormalizeAddsPrefixIff | patchpal/agent.py:6-37 | the prefix is added exactly when the id is not already prefixed and is either an ARN (starts with `arn:aws`, contains `:bedrock:` and `:inference-profile/`) or holds a `.` and one of the five provider names; every other id is returned unchanged |
| Agent.NormalizedHasPrefix | patchpal/agent.py:24-35 | an id that is already prefixed, or that names a Bedrock model, carries the prefix after normalisation |
| Agent.NormalizeIdempotent | patchpal/agent.py:24-37 | normalising twice gives the same id as normalising once |
| Agent.NormalizeProviderId | patchpal/agent.py:32-35 | a dotted id that starts with a provider name, such as `anthropic.claude-v2`, gets the prefix |
| Agent.NormalizeOtherId | patchpal/agent.py:28-37 | every id with no dot and not in ARN form is returned unchanged |
| Agent.NormalizeGpt4o | patchpal/agent.py:28-37 | `gpt-4o` is returned unchanged |
| LlmResilience.AnyInIff | patchpal/llm_resilience.py:108-129 | the `any(...)` scan holds exactly when one of the patterns occurs in the text |
| LlmResilience.PatternsLowerCase | patchpal/llm_resilience.py:108-127 | every pattern is its own lower-case form, so each can match the lower-cased message |
| LlmResilience.PatternAnywhere | patchpal/llm_resilience.py:108-129 | a message holding one of the patterns anywhere is retryable |
| LlmResilience.Backoff | patchpal/llm_resilience.py:188 | the delay before jitter never exceeds `max_delay` |
| LlmResilience.BackoffMonotone | patchpal/llm_resilience.py:188 | for a non-negative base, the delay before jitter never decreases from one attempt to the next and stays within `max_delay` |
| LlmResilience.BackoffDoubles | patchpal/llm_resilience.py:188 | below the cap, the delay doubles from one attempt to the next |
| LlmResilience.CompletionLoop | patchpal/llm_resilience.py:154-210 | the `while` loop computes the specified run: its outcome, the number of calls made and the delays slept, in order |
| LlmResilience.LoopStep | patchpal/llm_resilience.py:157-206 | one turn of the loop: a response is returned, an interrupt or a non-retryable error is raised again, a retryable error on the last attempt ends the loop, and any other retryable error sleeps the backoff for the next attempt and retries |
| LlmResilience.FirstCallReturns | patchpal/llm_resilience.py:157-168 | a first call that succeeds is the only call, with no delay |
| LlmResilience.FirstCallFails | patchpal/llm_resilience.py:170-181 | an interrupt or a non-retryable error on the first call is raised again after exactly one call, with no delay |
| LlmResilience.LoopCalls | patchpal/llm_resilience.py:157-206 | from any attempt on, at most one call is made per remaining attempt, and a delay follows every failed call but the last |
| LlmResilience.LoopDelays | patchpal/llm_resilience.py:176-203 | the delays follow the backoff schedule of the attempt they follow |
| LlmResilience.LoopExhausted | patchpal/llm_resilience.py:183-210 | the run ends with retries exhausted only once every attempt up to `max_retries` has been used |
| LlmResilience.CompletionShape | patchpal/llm_resilience.py:154-210 | at least one and at most `max_retries + 1` calls, one delay fewer than the calls, delay `k` is `min(base * 2**(k-1), max)`, exhaustion happens after exactly `max_retries + 1` calls, and a negative `max_retries` makes no call at all |
| LlmResilience.AlwaysFailing | patchpal/llm_resilience.py:157-210 | from any attempt, calls that keep failing with retryable errors run to `max_retries + 1` calls and end with the last error |
| LlmResilience.PersistentFailure | patchpal/llm_resilience.py:157-210 | persistent retryable failures make exactly `max_retries + 1` calls and `max_retries` delays, then raise "failed after N retries" with the last error |
| LlmResilience.RetryThenReturn | patchpal/llm_resilience.py:157-203 | one retryable failure and then a response: two calls and one delay of `min(base_delay, max_delay)` |
| FileOperations.CheckRange | patchpal/tools/file_operations.py:196-224 | no range error exactly when `1 <= start_line <= len(lines)` and any given `end_line` is at least `start_line` |
| FileOperations.Rows | patchpal/tools/file_operations.py:227-236 | one row per requested line, row `k` being line `start + k` rendered with its number |
| FileOperations.ReadLines | patchpal/tools/file_operations.py:196-244 | a start below 1, an end before the start and a start past the end are errors, checked in that order; otherwise the output is the numbered rows `start..min(end, total)` joined by `\n`, with `end` defaulting to `start`, and the note is appended exactly when `end` lay past the end of the file |
| FileOperations.NumberRows | patchpal/tools/file_operations.py:233-236 | the loop collects exactly the numbered rows `start..stop` |
| FileOperations.StrippedHasNoNewline | patchpal/tools/file_operations.py:216-236 | a line from `readlines()` holds no `\n` once right-stripped |
| FileOperations.NumberedLineNoNewline | patchpal/tools/file_operations.py:236 | a numbered row holds no `\n` |
| FileOperations.RowsSplit | patchpal/tools/file_operations.py:233-238 | splitting the output on `\n` gives back the rows, one per requested line |
| FileOperations.NumberedLineLayout | patchpal/tools/file_operations.py:236 | below line 10000 a row is the number right-aligned in four columns, two spaces, and the line without trailing whitespace |
| FileOperations.ImageMime | patchpal/tools/file_operations.py:86-102 | the guessed MIME type wins when there is one; otherwise the type follows the extension, falling back to `image/png` |
| FileOperations.ImageData | patchpal/tools/file_operations.py:108 | the output is `IMAGE_DATA:` followed by the MIME type, a colon, and the base64 data |
| FileOperations.ImageMimeNoColon | patchpal/tools/file_operations.py:89-102 | a MIME type chosen from the extension holds no colon |
| ImageHandler.ParseImageData | patchpal/tools/image_handler.py:46-66 | an accepted string yields a non-empty MIME type with no colon and non-empty data |
| ImageHandler.ParseImageDataRoundTrip | patchpal/tools/image_handler.py:55-66 | parsing `IMAGE_DATA:{mime}:{data}` gives back `(mime, data)` exactly when the MIME type is non-empty and colon-free and the data is non-empty |
| ImageHandler.ParseImageDataInverse | patchpal/tools/image_handler.py:55-66 | whatever parses is the tag, the MIME type, a colon and the data |
| ImageHandler.ReadFileImagesParse | patchpal/tools/file_operations.py:86-108 | every image that `read_file` encodes with a MIME type chosen from its extension parses back to that type and data |
| ImageHandler.OpenAiPrefixRedundant | patchpal/tools/image_handler.py:35-44 | an id is an OpenAI model exactly when, lower-cased, it contains `openai` or `gpt`; the `startswith("openai/")` test adds nothing |
| ImageHandler.TotalBytesSnoc | patchpal/tools/image_handler.py:122 | queueing an image adds its base64 length to the pending total |
| ImageHandler.ImageContent | patchpal/tools/image_handler.py:210-223 | the injected content is the header block followed by one image block per queued image, in queue order |
| ImageHandler.ImageContentSnoc | patchpal/tools/image_handler.py:217-223 | one more queued image appends one more image block |
| ImageHandler.ImageHandler.constructor | patchpal/tools/image_handler.py:22-33 | the queue starts empty, with limits of 20 images and 50 MB |
| ImageHandler.ImageHandler.AddImageToolResultOpenai | patchpal/tools/image_handler.py:90-159 | exactly one tool message is appended; the image joins the queue only when fewer than 20 are pending and the total stays within 50 MB, and otherwise the message is the count or the size warning; the queue stays within its limits |
| ImageHandler.ImageHandler.AddImageToolResultAnthropic | patchpal/tools/image_handler.py:161-196 | one tool message is appended holding a text block and the image block; the queue is untouched |
| ImageHandler.ImageHandler.AddImageToolResult | patchpal/tools/image_handler.py:68-88 | the model id is kept and one message is appended; other models get the tool message with the image block and an unchanged queue; OpenAI-style models queue the image with the loaded text when there is room, and otherwise keep the queue and get the count or the size warning |
| ImageHandler.ImageHandler.InjectPendingImages | patchpal/tools/image_handler.py:198-237 | an empty queue changes nothing; otherwise one user message holding the header and every queued image, in order, is appended and the queue is emptied |
| ImageHandler.ImageHandler.ClearPendingImages | patchpal/tools/image_handler.py:239-241 | the queue is emptied |
| ImageHandler.ImageHandler.HasPendingImages | patchpal/tools/image_handler.py:243-249 | true exactly when images are queued |
| ImageHandler.QueuedImageLast | patchpal/tools/image_handler.py:150-223 | an image queued last is injected last, after the images queued before it |
| ImageHandler.PlaceholderIsBlocked | patchpal/tools/image_handler.py:275-292 | the placeholder counts as blocked and is not an image block |
| ImageHandler.ReplaceImages | patchpal/tools/image_handler.py:271-282 | one block per input block: image blocks become the placeholder, every other block is kept |
| ImageHandler.ReplaceImagesLoop | patchpal/tools/image_handler.py:271-282 | the first inner loop computes that replacement |
| ImageHandler.DedupStep | patchpal/tools/image_handler.py:287-295 | one turn of the second inner loop: a blocked block after a blocked block is dropped, any other is kept |
| ImageHandler.DedupLoop | patchpal/tools/image_handler.py:285-295 | the second inner loop computes that deduplication |
| ImageHandler.FilterAll | patchpal/tools/image_handler.py:267-299 | one output message per input message, each filtered on its own |
| ImageHandler.FilterImagesIfBlocked | patchpal/tools/image_handler.py:252-301 | the messages are returned unchanged when blocking is off, and filtered message by message otherwise |
| ImageHandler.DedupSubset | patchpal/tools/image_handler.py:285-295 | deduplication only drops blocks |
| ImageHandler.DedupKeepsOrdinary | patchpal/tools/image_handler.py:285-295 | every block that is not a placeholder survives deduplication, in order |
| ImageHandler.DedupNoAdjacent | patchpal/tools/image_handler.py:285-295 | after deduplication no two placeholders are adjacent |
| ImageHandler.DedupIsSurvivors | patchpal/tools/image_handler.py:285-295 | deduplication keeps exactly the blocks that are not a placeholder right after a placeholder, in their order, so each run of placeholders leaves its first one |
| ImageHandler.ReplacedKept | patchpal/tools/image_handler.py:272-295 | once images are replaced, a block survives exactly when it is not an image or placeholder right after another one, and every image or placeholder has become a placeholder |
| ImageHandler.FilterBlocksSpec | patchpal/tools/image_handler.py:270-297 | the filtered blocks are exactly, in order, the replaced blocks that do not continue a run of images and placeholders, so each such run collapses to one placeholder at its start; no image block and no two adjacent placeholders remain, every other block is kept in order, and there are no more blocks than before |
| ImageHandler.OrdinaryOfUnblocked | patchpal/tools/image_handler.py:271-295 | among blocks without images, the ordinary ones are the ones that are not placeholders |
| ImageHandler.ReplaceKeepsOrdinary | patchpal/tools/image_handler.py:271-282 | replacement leaves no image and keeps every ordinary block in order |
| ImageHandler.FilterAllShape | patchpal/tools/image_handler.py:267-301 | filtering keeps the message count, leaves every message that is not a user or tool message with list content exactly as it was, and changes only the content of the others |
| ImageHandler.ShouldSkipPruning | patchpal/tools/image_handler.py:303-320 | true exactly when the content is a list holding an `image_url` block |
| ImageHandler.AnyImage | patchpal/tools/image_handler.py:317-319 | true exactly when some block is an `image_url` block |
| ImageHandler.FilteredNeedsNoSkip | patchpal/tools/image_handler.py:264-320 | once images are blocked, no filtered message needs to be spared from pruning because of an image |
| Permissions.PermissionManager.constructor | patchpal/permissions.py:14-32 | the persistent table is the loaded one, `enabled` is the configuration flag, and the session table holds only `run_shell`, listing each harmless pattern once, in order, with `curl` and `wget` only when web tools are enabled |
| Permissions.AnyPatternMatches | patchpal/permissions.py:303-314 | the pattern loop finds a match exactly when some granted entry equals the pattern up to case, or is a single word that the pattern starts with, followed by a space |
| Permissions.AnyCommandMatches | patchpal/permissions.py:318-323 | the command loop finds a match exactly when some multi-word granted entry starts the stripped, lower-cased full command |
| Permissions.CheckGrantList | patchpal/permissions.py:277-325 | `_check_grant_list` grants exactly when the tool has an entry and it is `True`, or it is a list matched by the pattern or by the full command |
| Permissions.PermissionManager.CheckExistingGrant | patchpal/permissions.py:327-348 | the result is the session lookup or the persistent lookup |
| Permissions.GrantIn | patchpal/permissions.py:360-381 | granting touches only the tool's entry and adds that tool if it had none |
| Permissions.PermissionManager.GrantPermission | patchpal/permissions.py:350-381 | exactly one of the two tables gets the grant; the other is unchanged |
| Permissions.PermissionManager.RequestPermission | patchpal/permissions.py:383-485 | with permissions off, or a grant already in place, the request is granted and nothing changes; otherwise answer 1 grants, answer 2 grants and records a session grant, and answer 3 or end of input refuses; the persistent table is never changed |
| Permissions.GrantedBasics | patchpal/permissions.py:295-325 | a tool with no entry is never granted, `True` grants every request, and an entry that is neither `True` nor a list grants nothing |
| Permissions.PatternMatchesItself | patchpal/permissions.py:304-309 | a pattern matches a grant equal to it up to case |
| Permissions.SingleWordCoversFlags | patchpal/permissions.py:310-314 | a single-word grant such as `grep` covers `grep -l` |
| Permissions.GrantWithPattern | patchpal/permissions.py:360-379 | with a pattern, a tool with no entry gets a one-pattern list, a list gains the pattern at its end unless it already holds it, and a `True` entry, or any other value, is left as it is |
| Permissions.GrantWithoutPattern | patchpal/permissions.py:380-381 | without a pattern, the tool is granted for every use |
| Permissions.GrantMonotone | patchpal/permissions.py:360-381 | granting never takes a grant away |
| Permissions.GrantThenGranted | patchpal/permissions.py:295-381 | after a grant, the same request is granted, unless the old entry was a value that grants nothing |
| Permissions.GrantKeepsNoDuplicates | patchpal/permissions.py:365-379 | a pattern is appended at most once, so a list without duplicates keeps none |
| Permissions.AddMissingSpec | patchpal/permissions.py:273-275 | the loop keeps the old list as a prefix, adds every pattern, adds nothing else, and adds no duplicate |
| Permissions.HarmlessGrantedOnce | patchpal/permissions.py:263-275 | after construction, each harmless pattern is in the session list exactly once, and nothing else is |
| Permissions.WhereListedTwice | patchpal/permissions.py:117-200 | `where` occurs at two positions of the harmless patterns, so the session list the constructor builds is strictly shorter than that list |
| Permissions.AddMissingLength | patchpal/permissions.py:117-200 | adding patterns adds at most one entry each, and one fewer when a pattern is listed twice |
| Permissions.WebToolsOnlyWhenEnabled | patchpal/permissions.py:263-265 | `curl` and `wget` are harmless exactly when web tools are enabled |
| ShellTools.Basename | patchpal/tools/shell_tools.py:66-89 | the command's name after its last `/` holds no `/` |
| ShellTools.WithFlag | patchpal/tools/shell_tools.py:71-125 | a following token that starts with `-` is appended after a space; otherwise the name is kept alone |
| ShellTools.FirstLowerIndex | patchpal/tools/shell_tools.py:61 | the index of the first token whose lower-cased form is the flag, or none when no token is |
| ShellTools.FirstNonOption | patchpal/tools/shell_tools.py:85-86 | the index of the first token after `xargs` that does not start with `-`, or none when all of them do |
| ShellTools.SplitEach | patchpal/tools/shell_tools.py:135-140 | splitting every command at an operator gives at least as many pieces as commands |
| ShellTools.SplitOperators | patchpal/tools/shell_tools.py:130-140 | splitting at the operators in turn always leaves at least one command |
| ShellTools.PipeHeads | patchpal/tools/shell_tools.py:144-150 | one command per input command: the part before its first pipe bar |
| ShellTools.Segments | patchpal/tools/shell_tools.py:130-150 | the classifier always has at least one segment to look at |
| ShellTools.KindOf | patchpal/tools/shell_tools.py:152-183 | a segment is blank exactly when it has no token, a `cd DIR` exactly when its first token is `cd` and a second token follows, and an operation only when its first token is neither a context nor a setup command |
| ShellTools.ExtractShellCommandInfo | patchpal/tools/shell_tools.py:18-195 | the method computes the classifier with the corrected wrapper offsets: nothing for a blank command, then the wrapper's command with no directory, then the compound-command analysis |
| ShellTools.SplitCompound | patchpal/tools/shell_tools.py:130-140 | the splitting loops split every command at `&&`, then the double bar, then `;` |
| ShellTools.FirstOfPipes | patchpal/tools/shell_tools.py:144-150 | the pipe loop keeps the part of each command before its first pipe bar |
| ShellTools.ScanSegments | patchpal/tools/shell_tools.py:156-195 | the scan loop and its fallback compute the classification of the segments |
| ShellTools.ScanStep | patchpal/tools/shell_tools.py:160-187 | one turn of the scan: an operation ends it with its command, any other segment updates the directory and the scan goes on |
| ShellTools.ScanSpec | patchpal/tools/shell_tools.py:156-187 | the command is that of the first operation and the directory that of the last `cd DIR` before it; with no operation there is no command and the directory is that of the last `cd DIR` of all |
| ShellTools.LastCdCons | patchpal/tools/shell_tools.py:171-175 | tracking the directory forwards and looking back for the last `cd DIR` agree |
| ShellTools.FirstOperation | patchpal/tools/shell_tools.py:160-187 | the index of the first operation among the segments, or none when no segment is one |
| ShellTools.OnlyContextSegments | patchpal/tools/shell_tools.py:189-195 | with only directory changes and setup, the command is the first token of the first segment and the directory that of the last `cd DIR` |
| ShellTools.CdThenOperation | patchpal/tools/shell_tools.py:156-195 | `cd DIR && CMD ...` gives the second segment's command in `DIR` |
| ShellTools.BlankCommand | patchpal/tools/shell_tools.py:46-47 | an empty or all-whitespace command gives neither a command nor a directory |
| ShellTools.DelegatedHasNoDirectory | patchpal/tools/shell_tools.py:49-126 | a wrapper's command never comes with a directory |
| ShellTools.XargsDefaultsToEcho | patchpal/tools/shell_tools.py:96-97 | `xargs` with nothing but options runs `echo` |
| ShellTools.XargsNamesFirstArgument | patchpal/tools/shell_tools.py:80-95 | `xargs` names its first non-option argument by base name, with a following flag, so `xargs rm -rf` gives `rm -rf` |
| ShellTools.FindExecNamesCommand | patchpal/tools/shell_tools.py:54-75 | `find ... -exec cmd` names the command after the first `-exec` token by base name, with a following flag |
| ShellTools.SegmentsAreSimple | patchpal/tools/shell_tools.py:130-150 | no segment still holds `&&`, the double bar, `;` or a pipe bar |
| ShellTools.SplitEachFree | patchpal/tools/shell_tools.py:135-140 | after splitting at an operator no piece holds it, and a string absent from every command is absent from every piece |
| ShellTools.ShellPattern | patchpal/tools/shell_tools.py:217-222 | the permission pattern is `cmd@dir` when both parts are non-empty, and the bare command otherwise |
| ShellTools.ShellGate | patchpal/tools/shell_tools.py:225-245 | a refused permission cancels; otherwise the command is blocked exactly when one of its whitespace tokens is dangerous, or else by the first dangerous pattern contained in it, and it runs exactly when none of these applies |
| ShellTools.LeadingSpaceShiftsEval | patchpal/tools/shell_tools.py:51-126 | as written, `  eval ls` is classified as the command `l`, while the intended reading gives `ls` |
| ShellTools.DelegationIgnoresLeadingSpace | patchpal/tools/shell_tools.py:49-126 | read as intended, the wrapper's command does not depend on whitespace in front of the command line |
| ShellTools.EvalOnly | patchpal/tools/shell_tools.py:99-126 | a line that starts with `eval ` and holds no `c`, so no shell wrapper, reads its command from offset 5 |
| ShellTools.NoShellWithoutC | patchpal/tools/shell_tools.py:100-101 | no `sh -c` form occurs in a text without a `c` |
| Simple.Lines | patchpal/simple.py:454 | splitting at newlines always gives at least one piece |
| Simple.ParseToolJsonLine | patchpal/simple.py:413-437 | a line is returned as a call exactly when, once stripped, it starts with `{` and ends with `}`, parses, and is a `run` call with a string `cmd` or a `write` call with string `path` and `content`; otherwise the result is `None` |
| Simple.Scrub | patchpal/simple.py:450-451 | removing the matches of a pattern never lengthens the text |
| Simple.ScrubQuiet | patchpal/simple.py:450-451 | a pattern that matches nowhere leaves the text unchanged |
| Simple.OpenFenceLen | patchpal/simple.py:450 | the opening-fence pattern only matches where three backquotes start |
| Simple.CloseFenceLen | patchpal/simple.py:451 | the closing-fence pattern only matches at three backquotes, or at the newline just before them |
| Simple.TodoOpenFenceLen | patchpal/simple.py:582 | the fence-and-language pattern of the TODO parser only matches where three backquotes start |
| Simple.TodoCloseFenceLen | patchpal/simple.py:583 | the closing fence of the TODO parser only matches at three backquotes |
| Simple.FencesQuiet | patchpal/simple.py:450-583 | none of the four fence patterns matches a text without a backquote |
| Simple.CleanedPlainText | patchpal/simple.py:450-452 | a response without backquotes only loses its outer whitespace before it is split into lines |
| Simple.CombineStops | patchpal/simple.py:467-471 | the continuation loop stops at the first line after which the text ends with `}`, or at the last line, and the text is the start followed by each stripped line preceded by the two characters backslash and `n` |
| Simple.LineTool | patchpal/simple.py:457-476 | whatever a line contributes, alone or rebuilt from the lines after it, is an accepted call |
| Simple.ToolsOfStep | patchpal/simple.py:457-476 | each line appends its call, when it yields one, to the calls of the lines before it |
| Simple.AllAcceptedEach | patchpal/simple.py:458-476 | every call of a list built from accepted calls is accepted |
| Simple.ExtractToolCalls | patchpal/simple.py:440-478 | the result is the calls of the cleaned response, line by line in order, and every one of them satisfies the acceptance condition of `parse_tool_json_line` |
| Simple.CollectTools | patchpal/simple.py:455-478 | the loop over the lines collects exactly one entry per line that yields a call, in line order |
| Simple.CleanLines | patchpal/simple.py:450-454 | the lines are those of the response with its fences removed and its ends stripped |
| Simple.ToolAt | patchpal/simple.py:458-476 | a line that parses is taken as it is; a line that starts a `write` call is joined with the lines after it and parsed again |
| Simple.CombineWrite | patchpal/simple.py:467-471 | the loop computes the joined continuation text |
| Simple.UnsupportedName | patchpal/simple.py:515-524 | a line names an unknown tool only when, stripped, it is braced, mentions `"tool"`, and the name is neither `run` nor `write` |
| Simple.FirstNamed | patchpal/simple.py:515-527 | the scan returns `None` exactly when no line yields a name, and otherwise the name of the first line that yields one |
| Simple.FindUnsupportedToolLine | patchpal/simple.py:504-527 | the result is never `run` or `write`; it is `None` exactly when no line names an unknown tool, and otherwise the name on the first line that does |
| Simple.NoopEchoIff | patchpal/simple.py:542-556 | a command is a no-op echo exactly when, stripped, it starts with `echo ` and contains neither `>` nor the pipe character |
| Simple.ItemOf | patchpal/simple.py:590-591 | a line yields an item exactly when it starts with the unchecked box and has something after it |
| Simple.TodoItems | patchpal/simple.py:590-591 | there are never more items than lines |
| Simple.ParseTodoList | patchpal/simple.py:572-593 | the result is the items of the cleaned text exactly when it has a `TODO:` header line and at least one unchecked item, else `None` |
| Simple.CollectItems | patchpal/simple.py:589-591 | the loop collects the item of each line, in order |
| Simple.TodoItemsStep | patchpal/simple.py:590-591 | each line adds its item, when it has one, to those of the lines before it |
| Simple.TodoLines | patchpal/simple.py:628-630 | one line per item, in order, checked exactly when its index is at most `done_index` |
| Simple.Unchecked | patchpal/simple.py:628-630 | the unchecked items are those past `done_index`, all taken from the list |
| Simple.FormattedListHasHeader | patchpal/simple.py:586-627 | a formatted list always has the header line the parser looks for |
| Simple.ItemOfTodoLine | patchpal/simple.py:590-630 | a formatted line reads back as its own item when unchecked and as nothing when checked |
| Simple.TodoItemsAppend | patchpal/simple.py:590-591 | the items of two blocks of lines are the items of the first followed by those of the second |
| Simple.TodoItemsMarked | patchpal/simple.py:590-630 | lines checked up to `done_index` and unchecked after it read back as the items after `done_index` |
| Simple.FormattedParts | patchpal/simple.py:627-631 | a character that neither the items nor the markup hold is in no formatted line |
| Simple.TodoTextPlain | patchpal/simple.py:582-584 | the fence-and-strip pass leaves a text without backquotes and edge spaces unchanged |
| Simple.FormattedEdges | patchpal/simple.py:627-631 | a formatted list starts with the header and ends where its last item ends |
| Simple.FormattedTodoText | patchpal/simple.py:582-631 | a formatted list of items without backquotes survives the parser's fence-and-strip pass unchanged |
| Simple.FormattedLines | patchpal/simple.py:590-631 | a formatted list of one-line items splits back into its header and item lines |
| Simple.TodoLinesItems | patchpal/simple.py:590-630 | the item lines read back as the items after `done_index` |
| Simple.FormattedItems | patchpal/simple.py:590-631 | parsing a formatted list finds exactly its unchecked items |
| Simple.UncheckedClamp | patchpal/simple.py:629 | the unchecked items are the suffix after `done_index`, clamped to the list |
| Simple.TodoRoundTrip | patchpal/simple.py:572-631 | for one-line items without backquotes or edge spaces, the parser reads back from `format_todo_list` exactly the items left unchecked |
| Simple.LooksLikeClarifyingQuestion | patchpal/simple.py:596-614 | the method's three gates decide exactly the clarifying-question predicate |
| Simple.ClarifyingQuestionIff | patchpal/simple.py:596-614 | because `?` is itself an indicator, a text looks like a question exactly when it holds `?` and has no `TODO:` header line |
| Simple.TodoListIsNoQuestion | patchpal/simple.py:608-627 | a formatted TODO list never looks like a clarifying question |
| Simple.CapOutput | patchpal/simple.py:677-685 | the output is marked truncated exactly when it is over 10,000 characters or over 500 lines; untruncated output is unchanged and truncated output ends with the marker |
| Simple.MarkerNewlines | patchpal/simple.py:679 | the truncation marker holds two newlines |
| Simple.JoinedPrefixCount | patchpal/simple.py:684 | joining the first n pieces of a split keeps n - 1 newlines |
| Simple.CapLineBound | patchpal/simple.py:677-685 | the capped output has at most 502 lines |
| Simple.CapWithinLimits | patchpal/simple.py:677-685 | output within both limits comes back unchanged and not truncated |
| Simple.CapKeepsFirstLines | patchpal/simple.py:682-685 | short output with too many lines keeps exactly its first 500 lines, a prefix of the original, followed by the marker |
| Simple.CapCharsOnly | patchpal/simple.py:677-685 | long output with few newlines in its first 10,000 characters is cut at that length only and gets the marker |
| FileEditing.Lines | patchpal/tools/file_editing.py:77 | splitting at newlines always gives at least one line |
| FileEditing.WindowOccurs | patchpal/tools/file_editing.py:94-102 | the text a window of lines covers occurs in the file, and so does that text followed by the newline when another line follows the window |
| FileEditing.LineOccurs | patchpal/tools/file_editing.py:121-123 | every line of the file occurs in the file |
| FileEditing.FirstWindow | patchpal/tools/file_editing.py:85-92 | the window found agrees line by line under the comparison, no earlier window does, and `None` means no window agrees |
| FileEditing.CompareWindow | patchpal/tools/file_editing.py:86-90 | the inner loop decides exactly whether the window agrees with the search lines |
| FileEditing.FindWindow | patchpal/tools/file_editing.py:85-92 | the outer loop returns the first agreeing window |
| FileEditing.SimpleMatch | patchpal/tools/file_editing.py:68-72 | `old_string` is returned exactly when it occurs in the content, else `None` |
| FileEditing.SearchLines | patchpal/tools/file_editing.py:78-82 | the search lines are the lines of `old_string`, less one trailing empty line when there is one |
| FileEditing.WindowMatch | patchpal/tools/file_editing.py:85-109 | an answer is given exactly when some window agrees |
| FileEditing.TrimmedMatch | patchpal/tools/file_editing.py:75-109 | as written: an answer is given exactly when some window of the file agrees with the search lines once both are stripped |
| FileEditing.TrimmedMatchInventsText | patchpal/tools/file_editing.py:99-105 | for content `a` newline and an `old_string` of `a`, newline, space, the text returned ends with two newlines and does not occur in the file |
| FileEditing.TrimmedTextFixed | patchpal/tools/file_editing.py:94-102 | the text returned for a window always occurs in the file |
| FileEditing.WindowMatchFixed | patchpal/tools/file_editing.py:85-109 | corrected: whatever is returned occurs in the file, and an answer is given exactly when some window agrees |
| FileEditing.TrimmedMatchFixed | patchpal/tools/file_editing.py:75-109 | corrected: whatever is returned occurs in the file, and an answer is given exactly when some window agrees with the search lines once stripped |
| FileEditing.TrimmedMatchEmptySearch | patchpal/tools/file_editing.py:75-105 | for an empty `old_string` the strategy as written answers a newline, which a file without one does not hold; the corrected strategy answers the empty text |
| FileEditing.SearchLinesOf | patchpal/tools/file_editing.py:78-82 | the method computes the search lines |
| FileEditing.MatchWindow | patchpal/tools/file_editing.py:84-109 | the loops and the newline rule compute the strategy as written |
| FileEditing.MatchWindowFixed | patchpal/tools/file_editing.py:84-102 | the loops compute the corrected strategy |
| FileEditing.TryLineTrimmedMatch | patchpal/tools/file_editing.py:75-109 | the method as written computes the trimmed strategy as written |
| FileEditing.TryLineTrimmedMatchFixed | patchpal/tools/file_editing.py:75-109 | the corrected method computes the corrected trimmed strategy |
| FileEditing.FirstLine | patchpal/tools/file_editing.py:121-123 | the line found has the search text's normal form, no earlier line does, and `None` means no line does |
| FileEditing.FirstBlock | patchpal/tools/file_editing.py:129-132 | the block found has the search text's normal form, no earlier block does, and `None` means no block does |
| FileEditing.BlockMatch | patchpal/tools/file_editing.py:126-132 | the first block of as many lines as the search text whose joined text has its normal form is returned, joined; it occurs in the file; `None` exactly when no block has that form |
| FileEditing.NormalMatch | patchpal/tools/file_editing.py:118-134 | the first line with the search text's normal form is returned, before any block is tried; when no line has it and the search text has several lines, the first block of as many lines with that form is returned, joined; whatever is returned occurs in the file and has the normal form; `None` comes back exactly when no line and, for a search text of several lines, no block has it |
| FileEditing.NormalizedMatch | patchpal/tools/file_editing.py:112-134 | the same for the collapse of whitespace runs: the first agreeing line wins, then the first agreeing block; whatever is returned occurs in the file and collapses to the same words as `old_string`; `None` exactly when nothing agrees |
| FileEditing.FindLine | patchpal/tools/file_editing.py:121-123 | the single-line loop returns the first line with the normal form |
| FileEditing.FindBlock | patchpal/tools/file_editing.py:129-132 | the multi-line loop returns the first block with the normal form |
| FileEditing.MatchNormal | patchpal/tools/file_editing.py:118-134 | the two loops compute the normalised strategy |
| FileEditing.TryWhitespaceNormalizedMatch | patchpal/tools/file_editing.py:112-134 | the method computes the whitespace-normalised strategy |
| FileEditing.StrategiesFindText | patchpal/tools/file_editing.py:137-185 | what the strategy chain finds is a non-empty piece of the file |
| FileEditing.StrategiesFailIff | patchpal/tools/file_editing.py:170-185 | the chain finds nothing exactly when the exact, trimmed and normalised strategies all give nothing or an empty string |
| FileEditing.StrategiesCodeFirst | patchpal/tools/file_editing.py:145-168 | code-like text without leading indentation that occurs as given still takes the trimmed match first when there is one |
| FileEditing.StrategiesExactFirst | patchpal/tools/file_editing.py:145-173 | any other non-empty text that occurs as given is matched exactly |
| FileEditing.FindMatchWithStrategies | patchpal/tools/file_editing.py:137-185 | the method computes the strategy chain |
| EditFile.PositionsOccur | patchpal/tools/file_editing.py:351-359 | every position the `find` loop visits is an occurrence of the matched text at or after the start |
| EditFile.PositionsIncrease | patchpal/tools/file_editing.py:351-359 | the positions visited strictly increase |
| EditFile.PositionsHead | patchpal/tools/file_editing.py:354 | the first position is the first occurrence `find` reports |
| EditFile.PositionsComplete | patchpal/tools/file_editing.py:351-359 | no occurrence at or after the start is missed, overlapping ones included, since the search resumes one past each hit |
| EditFile.LinesAt | patchpal/tools/file_editing.py:357 | one line number per position, each one more than the newlines before the position |
| EditFile.OccurrenceLinesOfPositions | patchpal/tools/file_editing.py:351-359 | the reported line numbers are those of the occurrences, in order |
| EditFile.ListOccurrenceLines | patchpal/tools/file_editing.py:351-359 | the loop computes the line of every occurrence of the matched text |
| EditFile.ReplaceNone | patchpal/tools/file_editing.py:435 | `replace` leaves a text without an occurrence alone |
| EditFile.ReplaceOnce | patchpal/tools/file_editing.py:348-435 | with exactly one occurrence, `replace` swaps that occurrence and keeps everything around it |
| EditFile.CountPositive | patchpal/tools/file_editing.py:348 | a text that occurs is counted at least once |
| EditFile.ShiftLines | patchpal/tools/file_editing.py:386-402 | every line of the new text is moved by the same difference, one output line per input line |
| EditFile.ShiftAll | patchpal/tools/file_editing.py:386-402 | the loop moves every line |
| EditFile.AdjustIndentation | patchpal/tools/file_editing.py:369-404 | the method computes step 1, the re-indented text |
| EditFile.ReindentedLines | patchpal/tools/file_editing.py:404 | the re-indented text splits back into the moved lines |
| EditFile.ReindentKeepsLineCount | patchpal/tools/file_editing.py:373-404 | re-indenting keeps the number of lines |
| EditFile.ShiftLineIndent | patchpal/tools/file_editing.py:388-399 | a non-blank line moved by the difference gains exactly that much indentation, provided no more than its indentation is taken away |
| EditFile.ReindentFirstLine | patchpal/tools/file_editing.py:376-404 | after re-indenting, a non-blank first line of the new text has the indentation of the matched text's first line |
| EditFile.TrailingNewlines | patchpal/tools/file_editing.py:410 | the count of trailing newlines is at most the length |
| EditFile.KeepTrailingNewlinesCount | patchpal/tools/file_editing.py:406-411 | when step 2 acts the new text keeps its start and ends with exactly as many newlines as the matched text; otherwise it is unchanged |
| EditFile.EditContent | patchpal/tools/file_editing.py:336-435 | the method computes the new content or the error: not found, or ambiguous with the count and the line of every occurrence |
| EditFile.EditNotFoundIff | patchpal/tools/file_editing.py:337-345 | the edit reports "not found" exactly when every strategy gives nothing |
| EditFile.EditAmbiguousLines | patchpal/tools/file_editing.py:347-365 | an ambiguous match is reported with its count, above one, and the line of every occurrence in order |
| EditFile.EditReplacesTheMatch | patchpal/tools/file_editing.py:347-435 | a successful edit replaces the one occurrence of the match with the adjusted new text and keeps the rest of the file |
| EditHashline.TagField | patchpal/tools/file_editing.py:539-569 | a required tag decodes exactly when its key is present, holds text, and `parse_tag` accepts it, and then it is `parse_tag`'s tag |
| EditHashline.OptionalTagField | patchpal/tools/file_editing.py:554-561 | an absent optional anchor is `None`; a present one decodes exactly as a required tag would |
| EditHashline.Texts | patchpal/tools/file_editing.py:540 | a list is taken as content exactly when its every element is text, and then element by element |
| EditHashline.ContentField | patchpal/tools/file_editing.py:540-542 | absent content is the empty list and a single text stands for a one-line list |
| EditHashline.DecodeEditKinds | patchpal/tools/file_editing.py:536-576 | a dictionary that decodes names one of the five operations in `op`, yields an edit of that kind, and has the keys that kind requires; an `append` or `prepend` anchor is present exactly when its key is |
| EditHashline.TextList | patchpal/tools/file_editing.py:540 | the list form of a content holds its lines as texts, one for one |
| EditHashline.TagFieldOfText | patchpal/tools/file_editing.py:539 | the tag text of a valid tag decodes back to that tag |
| EditHashline.TextsOfTextList | patchpal/tools/file_editing.py:540 | the list form of a content decodes back to the content |
| EditHashline.DecodeEncode | patchpal/tools/file_editing.py:536-573 | for every valid edit of the five kinds, decoding its dictionary form gives the edit back |
| EditHashline.DecodeAllOk | patchpal/tools/file_editing.py:534-580 | a batch that converts has one edit per input, each the conversion of its input, in order |
| EditHashline.DecodeAllErr | patchpal/tools/file_editing.py:534-576 | a batch that fails fails with the error of one of its inputs |
| EditHashline.DecodeAllGiven | patchpal/tools/file_editing.py:578-580 | edit objects given directly pass through unchanged |
| EditHashline.DecodeAllStep | patchpal/tools/file_editing.py:534-580 | each input extends the converted prefix by its edit, or ends the batch with its error |
| EditHashline.DecodeAllPrefixErr | patchpal/tools/file_editing.py:534-576 | once a prefix fails the whole batch fails the same way: later inputs are never looked at |
| EditHashline.DecodeEdits | patchpal/tools/file_editing.py:532-580 | the loop computes the batch conversion |
| EditHashline.EditFileHashline | patchpal/tools/file_editing.py:531-594 | the method computes the outcome: a conversion error, "no edits provided", a hash mismatch from applying, no change, or the new content |
| EditHashline.NoEditsIff | patchpal/tools/file_editing.py:582-583 | "no edits provided" is raised exactly for an empty list |
| EditHashline.ChangedIff | patchpal/tools/file_editing.py:586-594 | "no changes" is reported exactly when applying the batch gives the original back, and a reported change is the applied result and differs from the original |
| BedrockDirect.StripModelId | patchpal/bedrock_direct.py:39-43 | an id that starts with `bedrock/` loses exactly that prefix; any other id is kept |
| BedrockDirect.StripUndoesNormalize | patchpal/bedrock_direct.py:39-43 | stripping undoes the `bedrock/` prefix the agent's id normalisation adds, so the client uses the id the user gave |
| BedrockDirect.StripOnce | patchpal/bedrock_direct.py:40-41 | only one prefix is removed |
| BedrockDirect.FirstNonEmptyIs | patchpal/bedrock_direct.py:48-62 | an `or` chain gives a value exactly when some candidate is set and non-empty, and then the first such candidate |
| BedrockDirect.NewClient | patchpal/bedrock_direct.py:22-62 | the client keeps the stripped id, the token limit and the temperature as given; its region is never empty and is the argument when one is given; an endpoint, when there is one, is non-empty |
| BedrockDirect.DefaultRegionIff | patchpal/bedrock_direct.py:48-55 | `us-east-1` is used exactly when neither the argument nor any of the four region variables is set and non-empty |
| BedrockDirect.TextParts | patchpal/bedrock_direct.py:149-156 | a tool result has at most one text part per block |
| BedrockDirect.TextPartsSnoc | patchpal/bedrock_direct.py:151-155 | each block adds its text, when it contributes one, after those of the blocks before it |
| BedrockDirect.CollectTextParts | patchpal/bedrock_direct.py:150-155 | the loop collects the tool result's text parts |
| BedrockDirect.ConvertOneRole | patchpal/bedrock_direct.py:133-162 | every converted message is a user or an assistant message; a tool result becomes a user message starting `Tool result from`; user and assistant messages keep their role, and a list content is passed through as it is |
| BedrockDirect.ConvertAllSnoc | patchpal/bedrock_direct.py:110-162 | the conversion of a longer list is one more step of the loop |
| BedrockDirect.ConvertMessages | patchpal/bedrock_direct.py:95-168 | the method returns the system part (blocks in preference to the text prompt) and the converted messages |
| BedrockDirect.StepParts | patchpal/bedrock_direct.py:114-162 | a message adds to the text prompt only when it is a system text, to the system blocks only when it is a system list, and to the messages only when it is a user, assistant or tool message |
| BedrockDirect.ConvertAllPrompt | patchpal/bedrock_direct.py:119-131 | the text prompt is the system texts joined by a blank line, and there is none when no system message has a text content |
| BedrockDirect.ConvertAllBlocks | patchpal/bedrock_direct.py:116-118 | the system blocks are the list contents of the system messages, in order |
| BedrockDirect.ConvertAllMessages | patchpal/bedrock_direct.py:133-162 | the Bedrock messages are exactly the user, assistant and tool messages, each converted, in their original order |
| BedrockDirect.ToolsSpec | patchpal/bedrock_direct.py:170-195 | tools, when returned, are never an empty list |
| BedrockDirect.ToolsNoneIff | patchpal/bedrock_direct.py:181-195 | no tools are sent exactly when no tool is a function tool |
| BedrockDirect.ToolsKeepFunctions | patchpal/bedrock_direct.py:186-193 | each converted tool takes its name, description and parameter schema from the tool's `function` entry |
| BedrockDirect.ConvertTools | patchpal/bedrock_direct.py:184-195 | the loop converts the function tools in order |
| BedrockDirect.MaxTokens | patchpal/bedrock_direct.py:224-230 | the body always has a token limit: the keyword argument, else the client's, and 4096 exactly when neither gives another value |
| BedrockDirect.Temperature | patchpal/bedrock_direct.py:232-235 | the temperature is left out exactly when the keyword argument, or else the client's value, is `None` |
| BedrockDirect.ToolChoice | patchpal/bedrock_direct.py:250-266 | a tool choice is sent exactly when tools are sent and the choice is truthy, not `auto` and not `none`, and then as given |
| BedrockDirect.RequestBody | patchpal/bedrock_direct.py:216-266 | the body carries the version `bedrock-2023-05-31`, the converted messages, a system part only when it is not empty, the converted tools, and a tool choice only beside tools |
| BedrockDirect.RequestSystem | patchpal/bedrock_direct.py:164-248 | the request's system part is the system blocks when there are any, else the joined system texts when they are not empty, else absent |
| BedrockDirect.BuildRequest | patchpal/bedrock_direct.py:216-266 | the method builds the body |
| BedrockDirect.FinishReason | patchpal/bedrock_direct.py:298-306 | a missing stop reason gives `stop`, a known one its OpenAI name, any other value is passed through |
| BedrockDirect.FinishReasonTable | patchpal/bedrock_direct.py:299-305 | the five known stop reasons map to `stop`, `stop`, `length`, `tool_calls` and `content_filter` |
| BedrockDirect.FinishReasonRange | patchpal/bedrock_direct.py:298-306 | a finish reason is one of OpenAI's four or the stop reason itself |
| BedrockDirect.LastTextIsLast | patchpal/bedrock_direct.py:312-317 | the message text is that of the last text block, and `""` when there is none |
| BedrockDirect.ToolCalls | patchpal/bedrock_direct.py:318-327 | there are never more tool calls than blocks |
| BedrockDirect.UsageOf | patchpal/bedrock_direct.py:343-369 | the prompt count adds all three input counts, the total adds the output count, absent counts read as 0, and a cache count is reported only when positive |
| BedrockDirect.ResponseSpec | patchpal/bedrock_direct.py:286-381 | the response names the client's model, carries the mapped finish reason, and has content and tool calls only when they are not empty |
| BedrockDirect.ResponseToolCalls | patchpal/bedrock_direct.py:315-333 | the response has tool calls exactly when Bedrock sent a tool-use block, and they are those blocks converted, in order |
| BedrockDirect.BlocksStep | patchpal/bedrock_direct.py:315-327 | each block sets the text when it is a text block and adds a tool call when it is a tool-use block |
| BedrockDirect.ConvertBlocks | patchpal/bedrock_direct.py:315-327 | the loop computes the last text and the tool calls |
| BedrockDirect.ConvertResponse | patchpal/bedrock_direct.py:286-381 | the method computes the response conversion |
| BedrockDirect.Completion | patchpal/bedrock_direct.py:197-284 | `completion` succeeds exactly when the call does and returns its converted answer under the client's model id; a failure is raised with the prefix `Direct Bedrock API call failed: ` before the error's text |
| ToolSchema.TypeSchema | patchpal/tool_schema.py:14-56 | every schema names one of the JSON types, only arrays carry `items`, and `null` comes only from `None` or a union of nothing but `None` |
| ToolSchema.OptionalSchema | patchpal/tool_schema.py:29-33 | `Optional[T]` has the schema of `T`, whichever side `None` is on |
| ToolSchema.UnionSchema | patchpal/tool_schema.py:29-33 | a union takes the schema of its first member that is not `None` |
| ToolSchema.ListSchema | patchpal/tool_schema.py:36-40 | `List[T]` is an array whose items have the schema of `T` |
| ToolSchema.IndexOf | patchpal/tool_schema.py:89 | the index found is that of the first colon, and the length exactly when there is none |
| ToolSchema.CollectDescription | patchpal/tool_schema.py:93-98 | the inner loop appends the continuation lines: each following line, stripped and after a space, up to a blank line or a line with a colon |
| ToolSchema.ScanLine | patchpal/tool_schema.py:75-100 | one iteration of the outer loop does what the scan step says, with the section's end as its break |
| ToolSchema.ParseDocstringParams | patchpal/tool_schema.py:59-102 | the method computes the parameter descriptions of the docstring |
| ToolSchema.ParamsFromStep | patchpal/tool_schema.py:75-100 | a line that ends the section ends the scan; any other line hands its state to the next line |
| ToolSchema.NoHeaderNoParams | patchpal/tool_schema.py:68-80 | a docstring without an `Args:`, `Arguments:` or `Parameters:` line documents no parameter |
| ToolSchema.LineStepWellFormed | patchpal/tool_schema.py:82-100 | every step records only names without a colon and one-line descriptions |
| ToolSchema.EntryWellFormed | patchpal/tool_schema.py:88-98 | a `name: text` line records a name without a colon and a description on one line |
| ToolSchema.DocParamsWellFormed | patchpal/tool_schema.py:59-102 | every documented name holds no colon and every description is one line, continuation lines being joined by spaces |
| ToolSchema.ParamLine | patchpal/tool_schema.py:82-100 | in the section, an indented `name: text` line records the text and its continuation under the name, a later line with the same name overriding it; an unindented line with a colon ends the section and nothing after it is read |
| ToolSchema.BuildParameters | patchpal/tool_schema.py:134-148 | the loop builds the properties and the required names |
| ToolSchema.AddParameter | patchpal/tool_schema.py:137-148 | one pass: `*args`/`**kwargs` add nothing; any other parameter adds its property, and its name to `required` when it has no default |
| ToolSchema.ParametersStep | patchpal/tool_schema.py:137-148 | each parameter other than `*args`/`**kwargs` adds its property, and its name to `required` when it has no default |
| ToolSchema.RequiredIff | patchpal/tool_schema.py:138-148 | a name is required exactly when some parameter of that name has no default and is not `*args` or `**kwargs` |
| ToolSchema.PropertiesCover | patchpal/tool_schema.py:137-145 | every parameter other than `*args`/`**kwargs` has its property |
| ToolSchema.UndocumentedParameter | patchpal/tool_schema.py:143 | an undocumented parameter is described as `Parameter` followed by its name |
| ToolSchema.Description | patchpal/tool_schema.py:117-122 | the description is one non-empty line: `Execute` and the name when the first paragraph is blank, else that paragraph without edge spaces |
| ToolSchema.FunctionToToolSchema | patchpal/tool_schema.py:105-161 | the method builds the tool schema of the function |
| ToolSchema.ToolSchemaOf | patchpal/tool_schema.py:150-161 | the schema carries the function's name, a non-empty description, and no more required names than properties and no more properties than parameters |
| ToolSchema.IsValidToolFunction | patchpal/tool_schema.py:164-190 | the method decides validity: a docstring, and an annotation on every parameter other than `*args` and `**kwargs` |
| ToolSchema.RegisterAllSnoc | patchpal/tool_schema.py:247-259 | registering one more function is one more step of the registry |
| ToolSchema.RegisterAllAppend | patchpal/tool_schema.py:229-279 | registering two lists of functions in turn is registering their concatenation |
| ToolSchema.LoadFromDirectory | patchpal/tool_schema.py:224-266 | every function of every file that loads is registered, file after file in sorted order; a missing directory or a failing file adds nothing |
| ToolSchema.DirFunctionsStep | patchpal/tool_schema.py:229-266 | each file adds its functions after those of the files before it |
| ToolSchema.DiscoverTools | patchpal/tool_schema.py:193-281 | the method collects exactly what the search order registers, by name |
| ToolSchema.RegisterAllKeys | patchpal/tool_schema.py:247-259 | a name is registered exactly when it was already or some public, own-module, valid function has it, and it always maps to a function of that name |
| ToolSchema.LaterDefinitionWins | patchpal/tool_schema.py:258-259 | the last accepted definition of a name is the one registered |
| ToolSchema.RepoOverridesGlobal | patchpal/tool_schema.py:271-279 | a repository tool replaces a global tool of the same name |
| ToolSchema.ExplicitOnly | patchpal/tool_schema.py:268-270 | with an explicit directory nothing else is searched |
| PyStr.NormalizeSpaceIdempotent | patchpal/tools/file_editing.py:115-116 | the normaliser `" ".join(text.split())` is idempotent |

## Left out

- The xxHash32 digest and the UTF-8 encoding are a parameter. No concrete
  hash value is computed, so the test expectations that name one are not
  modelled.
- `\d` and `int()` recognise the digits `0`-`9` only; Python also accepts
  other Unicode decimal digits. `.lower()` folds ASCII letters only.
  Whitespace (`\s`, `.strip()`, `.split()`, `.isspace()`) is Python's full
  set of whitespace characters.
- The empty-file branches set `file_lines = edit.content`, so the edit's own
  list is spliced afterwards. The model works on values, so it does not
  capture this aliasing or its effect on the caller's edit object.
- `HashlineMismatchError` is an exception class whose fields are never
  updated. It is modelled as the `Stale` error value, holding its two
  constructor arguments, together with the functions that compute its
  `remaps` and its message.
- HashlineEdits.BuildRemaps: requires every mismatch line to lie in the
  file, as every mismatch the validator records does (ApplyStaleReport).
  The model does not cover a constructor call with an out-of-range line,
  which Python would answer with an `IndexError` or negative indexing.
- The unused `warnings` and `noop_edits` fields of `EditResult`, and the
  `(0, 99)` fallback of `get_sort_key`, are left out: the model's edit type
  has exactly the five kinds, so the fallback is unreachable.
- Messages of `ValueError`s are modelled for validation (`ValueErrorText`)
  but not for `parse_tag`; its two error values carry the reference and
  the parsed line instead.
- File I/O is not part of this model: reading and writing files,
  backups, diffs, the permission prompts of `edit_file` and
  `edit_file_hashline`, the operation limiter, read-only mode and
  `_check_path`. Each modelled operation starts from the file's text and
  ends with the new text or the error.
- `\w` and `.lower()` are ASCII-only in the shell, permission and TODO
  models as well.
- `PyData.Value` has no floats. The one float the source handles, the
  temperature, is passed through to the request body unexamined, so the
  model carries it as whatever `Value` the caller gave.
- EditFile: the texts of the `ValueError` messages are not modelled. The
  two errors carry the searched text, and the count with the occurrence
  lines.
- EditHashline.ContentField: a `content` value that is neither a string
  nor a list of strings is rejected as `BadContent` when it is decoded.
  The source would build the edit with that value and fail, or behave
  differently, later in `apply_hashline_edits`.
- Permissions: `permissions.json` is not read or written. The persistent
  grants are the table it held. List items that are not strings are not
  modelled, and grant values other than `True` and lists are `OtherValue`.
- Permissions.PermissionManager.RequestPermission: the interactive
  `input()` loop and its printing are replaced by the user's first valid
  answer, or a cancellation, given as a parameter.
- ShellTools: `DANGEROUS_TOKENS` and `DANGEROUS_PATTERNS` come from
  `patchpal/tools/common.py`, which is not part of this model. They are
  parameters. Running the command with `subprocess` is not modelled.
- Simple: the regular-expression denylist, `subprocess`, `stream_chat`,
  `list_models` and the `main()` loop are not modelled. `json.loads` is
  a parameter, so the model assumes nothing about which braced texts
  parse.
- ImageHandler: the source appends to the caller's `messages` list in
  place. The model returns the new sequence, so it does not capture that
  aliasing.
- ImageHandler: the megabyte limits are compared in whole bytes against
  `50 * 1024 * 1024`. The source compares floats. The one-decimal `.1f`
  rendering in the warning is modelled as rounding half up. Python's
  banker's rounding of exact halves is not modelled.
- ImageHandler: the `print` output is not modelled.
- ImageHandler.DedupStep: a `"text"` block whose `text` is present but is
  not a string is read as `""`, so it is not a placeholder and is kept.
  The source's `.startswith` raises `AttributeError` on such a value
  (image_handler.py:291); that exception is not modelled, in DedupStep,
  DedupLoop or FilterImagesIfBlocked.
- BedrockDirect: these are not modelled:
  - the boto3 client and its initialisation output;
  - `json.dumps` of the body and of tool-call arguments;
  - the constant fields of the response (`object`, `created`, `index`,
    `role`).
- BedrockDirect.ToolsSpec: requires that a function tool's `function`
  entry, when present, is a dictionary. For any other value the source
  raises an `AttributeError` on `.get`, and the model does not cover
  that input.
- BedrockDirect.Endpoint: the source's `or` chain gives `""` when
  `AWS_BEDROCK_RUNTIME_ENDPOINT` is set to the empty string and the
  argument and `AWS_BEDROCK_ENDPOINT` are unset or empty. The model gives
  `None` there. Only the endpoint's truthiness is used afterwards, so
  the client behaves the same.
- BedrockDirect.Completion: the exception text of a failed call is a
  parameter (the `invoke` result), as is the parsed answer.
- ToolSchema: these are not modelled:
  - PEP 604 unions (`int | None`);
  - a failure of `get_type_hints`;
  - the cleaning `inspect.getdoc` applies. One `doc` field stands for
    both the raw `__doc__` that decides whether a function is a tool
    (tool_schema.py:174) and the cleaned text of the description
    (tool_schema.py:117). So a docstring made only of whitespace makes
    a valid tool in the source but not in the model;
  - module loading.
  A tool file whose loading raises is a file with no functions.
  `list_custom_tools` is not modelled.
- ToolSchema.DiscoverTools: the result is the map from names to
  functions. The order of `list(tools_by_name.values())` is not modelled.
- ToolSchema.FunctionToToolSchema: requires a function name without a
  newline, as every Python identifier is.
- LlmResilience: `time.sleep`, the random jitter and the printing are
  not modelled. The delays are those before jitter is added.
- LlmResilience: the classification of litellm's exception types is not
  modelled. The test works on the error's text.
- FileOperations: `readlines()` is a parameter, the list of lines it
  returned.
- FileEditing.Strategies: the chain, and `edit_file` after it, use the
  corrected trimmed match (see the findings below). The trimmed match as
  written is modelled beside it as `TrimmedMatch`.
- FileEditing.FindMatchWithStrategies: for an empty `old_string` the
  corrected trimmed match answers `""`, which the chain treats as no
  match, so it goes on to the normalised match. The source's chain
  answers `"\n"` there (TrimmedMatchEmptySearch).
- EditFile.EditContent: for an empty `old_string` it follows the
  corrected chain. The source would replace the file's one newline,
  report an ambiguity when there are several, or leave a file without a
  newline unchanged.
- ShellTools.ExtractShellCommandInfo: uses the corrected wrapper offsets
  (`Delegated`, see the findings below). Where the command line starts
  with whitespace, the source's `cmd[idx:]` and `cmd[5:]` slice the
  unstripped text, so `"  eval ls"` gives `l` there and `ls` here. The
  reading as written is `DelegatedAsWritten`, used by
  LeadingSpaceShiftsEval.
- HashlineApply.DisjointPair: covers pairs of edits whose anchors are all
  given, and leaves out an Append after the last line of a Set or
  Replace, which AppendAfterEdit covers. An Append or Prepend without an anchor is covered on its own by
  ApplyAppendEnd and ApplyPrependStart. Batches of more than two edits are
  covered only by the sort lemmas.

## Findings

| source | as written | input that shows it | evidently intended | confidence | as-written member | corrected member |
|---|---|---|---|---|---|---|
| patchpal/tools/shell_tools.py:51-126 | the offsets of `sh -c` and `eval` are found in the stripped, lower-cased command and then applied to the unstripped `cmd` | `"  eval ls"` is classified as the command `l` | offsets applied to the stripped command, giving `ls` | not executed | ShellTools.LeadingSpaceShiftsEval | ShellTools.DelegationIgnoresLeadingSpace |
| patchpal/tools/file_editing.py:99-105 | at the end of the file, a newline is added whenever the file ends with one, though the window already ends with that newline when its last line is the empty one after it | content `"a\n"`, `old_string` `"a\n "` returns `"a\n\n"`, which does not occur in the file | a result that occurs in the file: the newline added only when a line follows a non-empty window | not executed | FileEditing.TrimmedMatchInventsText | FileEditing.TrimmedMatchFixed |
| patchpal/tools/file_editing.py:80-105 | an empty `old_string` has no search lines, the empty window at line 1 agrees, and a newline is added because a line follows it | content `"abc"`, `old_string` `""` returns `"\n"`, which does not occur in the file | the empty window's text `""`, which occurs in every file | not executed | FileEditing.TrimmedMatchEmptySearch | FileEditing.TrimmedMatchFixed |
