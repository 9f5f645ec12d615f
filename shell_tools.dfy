/**
 * The shell-command classifier of `patchpal/tools/shell_tools.py`: which
 * command a shell line really runs (looking through `find -exec`, `xargs`,
 * `sh -c` and `eval`, compound operators, pipes and `cd`), the permission
 * pattern built from it, and the dangerous-command gate of `run_shell`.
 *
 * The lists of dangerous tokens and patterns live in a module that is not
 * part of this model; they are parameters.  Running the command is left
 * out.
 */
module ShellTools {
  import opened Wrappers
  import opened PyStr
  import opened Permissions

  /** `(command_pattern, working_directory)`. */
  datatype CommandInfo = CommandInfo(command: Option<string>, workingDir: Option<string>)

  // ---------------------------------------------------------------------
  // Helpers over tokens
  // ---------------------------------------------------------------------

  /** `s.split("/")[-1]` when `s` holds a `/`: the command's base name. */
  function Basename(s: string): (r: string)
    ensures '/' !in r
  {
    var parts := Split(s, "/");
    SplitPiecesFree(s, "/");
    assert parts[|parts| - 1] in parts;
    NoCharFree(parts[|parts| - 1], '/');
    if '/' in s then parts[|parts| - 1] else s
  }

  /** The name followed by `tokens[k]` when that token is a flag, as in
    * `sed -n`. */
  function WithFlag(name: string, tokens: seq<string>, k: nat): (r: string)
    ensures k < |tokens| && StartsWith(tokens[k], "-") ==> r == name + " " + tokens[k]
    ensures !(k < |tokens| && StartsWith(tokens[k], "-")) ==> r == name
  {
    if k < |tokens| && StartsWith(tokens[k], "-") then name + " " + tokens[k] else name
  }

  /** `next(i for i, p in enumerate(parts) if p.lower() == flag)`. */
  function FirstLowerIndex(parts: seq<string>, flag: string, from: nat): (r: Option<nat>)
    decreases |parts| - from
    ensures r.Some? ==> from <= r.value < |parts| && Lower(parts[r.value]) == flag
    ensures r.Some? ==> forall j :: from <= j < r.value ==> Lower(parts[j]) != flag
    ensures r.None? ==> forall j :: from <= j < |parts| ==> Lower(parts[j]) != flag
  {
    if from >= |parts| then None
    else if Lower(parts[from]) == flag then Some(from)
    else FirstLowerIndex(parts, flag, from + 1)
  }

  /** The first index at or after `from` whose token is not an option. */
  function FirstNonOption(parts: seq<string>, from: nat): (r: Option<nat>)
    decreases |parts| - from
    ensures r.Some? ==> from <= r.value < |parts| && !StartsWith(parts[r.value], "-")
    ensures r.Some? ==> forall j :: from <= j < r.value ==> StartsWith(parts[j], "-")
    ensures r.None? ==> forall j :: from <= j < |parts| ==> StartsWith(parts[j], "-")
  {
    if from >= |parts| then None
    else if !StartsWith(parts[from], "-") then Some(from)
    else FirstNonOption(parts, from + 1)
  }

  // ---------------------------------------------------------------------
  // Delegating wrappers
  // ---------------------------------------------------------------------

  /** The command `find ... <flag> cmd` runs, if `flag` is a token. */
  function FindExec(parts: seq<string>, flag: string): Option<string>
  {
    match FirstLowerIndex(parts, flag, 0)
    case None => None
    case Some(i) =>
      if i + 1 < |parts| then Some(WithFlag(Basename(parts[i + 1]), parts, i + 2)) else None
  }

  /** The `find` branch with `-exec` tried before `-execdir`. */
  function FindTarget(parts: seq<string>, lower: string): Option<string>
  {
    if !StartsWith(lower, "find ") then None
    else if Contains(lower, "-exec") && FindExec(parts, "-exec").Some? then FindExec(parts, "-exec")
    else if Contains(lower, "-execdir") && FindExec(parts, "-execdir").Some? then FindExec(parts, "-execdir")
    else None
  }

  /** The command `xargs` runs: the first non-option argument, else `echo`. */
  function XargsTarget(parts: seq<string>): string
  {
    match FirstNonOption(parts, 1)
    case None => "echo"
    case Some(i) => WithFlag(Basename(parts[i]), parts, i + 1)
  }

  const QuoteChars: set<char> := {'"', '\''}

  /** The first token of a quoted command string, with its flag. */
  function LeadingCommand(remainder: string): Option<string>
  {
    var tokens := SplitWs(LStripChars(Strip(remainder), QuoteChars));
    if tokens == [] then None else Some(WithFlag(tokens[0], tokens, 1))
  }

  /** `s[i:]` with Python's clamping. */
  function Drop(s: string, i: nat): string
  {
    if i <= |s| then s[i..] else ""
  }

  const Shells := ["sh -c", "bash -c", "zsh -c", "ksh -c", "dash -c"]

  /** The `sh -c` loop from shell `k` on: the text after the first
    * occurrence of the shell's `-c` in `lower`, read from `source`. */
  function ShellTarget(lower: string, source: string, k: nat): Option<string>
    decreases |Shells| - k
  {
    if k >= |Shells| then None
    else if Contains(lower, Shells[k]) then
      var idx := Find(lower, Shells[k], 0).value + |Shells[k]|;
      match LeadingCommand(Drop(source, idx))
      case Some(t) => Some(t)
      case None => ShellTarget(lower, source, k + 1)
    else ShellTarget(lower, source, k + 1)
  }

  /** The `eval` branch. */
  function EvalTarget(lower: string, source: string): Option<string>
  {
    if StartsWith(lower, "eval ") then LeadingCommand(Drop(source, 5)) else None
  }

  /** The command a wrapper delegates to, trying `find`, `xargs`, the
    * shells and `eval` in that order.  Offsets found in the stripped,
    * lower-cased command are applied to `source`. */
  function DelegatedFrom(lower: string, parts: seq<string>, source: string): Option<string>
  {
    if FindTarget(parts, lower).Some? then FindTarget(parts, lower)
    else if StartsWith(lower, "xargs ") then Some(XargsTarget(parts))
    else if ShellTarget(lower, source, 0).Some? then ShellTarget(lower, source, 0)
    else EvalTarget(lower, source)
  }

  /** As the source is written: offsets into the stripped command are
    * applied to the unstripped one. */
  function DelegatedAsWritten(cmd: string): Option<string>
  {
    DelegatedFrom(Lower(Strip(cmd)), SplitWs(cmd), cmd)
  }

  /** As intended: offsets are applied to the string they were found in
    * (up to case). */
  function Delegated(cmd: string): Option<string>
  {
    DelegatedFrom(Lower(Strip(cmd)), SplitWs(cmd), Strip(cmd))
  }

  // ---------------------------------------------------------------------
  // Compound commands
  // ---------------------------------------------------------------------

  const CompoundOperators := ["&&", "||", ";"]

  /** Every command of `cs` split at `op`, the pieces in order. */
  function SplitEach(cs: seq<string>, op: string): (r: seq<string>)
    requires |op| > 0
    ensures |r| >= |cs|
  {
    if cs == [] then [] else SplitEach(cs[..|cs| - 1], op) + Split(cs[|cs| - 1], op)
  }

  /** The commands after splitting at the first `k` operators. */
  function SplitOperators(cmd: string, k: nat): (r: seq<string>)
    requires k <= |CompoundOperators|
    ensures |r| >= 1
  {
    if k == 0 then [cmd] else SplitEach(SplitOperators(cmd, k - 1), CompoundOperators[k - 1])
  }

  /** The part of each command before its first `|`. */
  function PipeHeads(cs: seq<string>): (r: seq<string>)
    ensures |r| == |cs|
    ensures forall i :: 0 <= i < |cs| ==> r[i] == Split(cs[i], "|")[0]
  {
    seq(|cs|, i requires 0 <= i < |cs| => Split(cs[i], "|")[0])
  }

  /** The simple commands the classifier looks at. */
  function Segments(cmd: string): (r: seq<string>)
    ensures |r| >= 1
  {
    PipeHeads(SplitOperators(cmd, |CompoundOperators|))
  }

  const ContextCommands: set<string> := {"cd", "pushd", "popd"}
  const SetupCommands: set<string> := {"export", "set", "unset", "source", "."}

  /** What a simple command does, by its first token. */
  datatype SegmentKind =
    | Blank
    | Context(dir: Option<string>)
    | Setup
    | Operation(command: string)

  function Tokens(c: string): seq<string>
  {
    SplitWs(Strip(c))
  }

  /** The kind of a segment: `cd DIR` changes to `DIR`; any other `cd`,
    * `pushd` or `popd` changes nothing the classifier tracks. */
  function KindOf(c: string): (k: SegmentKind)
    ensures k.Operation? ==>
      (Tokens(c) != [] && k.command == Tokens(c)[0] && k.command !in ContextCommands && k.command !in SetupCommands)
    ensures k == Blank <==> Tokens(c) == []
    ensures k.Context? && k.dir.Some? <==> |Tokens(c)| > 1 && Tokens(c)[0] == "cd"
  {
    var tokens := Tokens(c);
    if tokens == [] then Blank
    else if tokens[0] in ContextCommands then
      Context(if tokens[0] == "cd" && |tokens| > 1 then Some(tokens[1]) else None)
    else if tokens[0] in SetupCommands then Setup
    else Operation(tokens[0])
  }

  /** The directory after a segment of kind `k`. */
  function After(k: SegmentKind, dir: Option<string>): Option<string>
  {
    if k.Context? && k.dir.Some? then k.dir else dir
  }

  /** The scan loop: the command of the first operation, with the
    * directory the segments before it left. */
  function Scan(cs: seq<string>, dir: Option<string>, kind: string -> SegmentKind): (r: CommandInfo)
  {
    if cs == [] then CommandInfo(None, dir)
    else if kind(cs[0]).Operation? then CommandInfo(Some(kind(cs[0]).command), dir)
    else Scan(cs[1..], After(kind(cs[0]), dir), kind)
  }

  /** The target of the last `cd DIR`, looked up from the end, else
    * `dir`. */
  function LastCd(cs: seq<string>, dir: Option<string>, kind: string -> SegmentKind): Option<string>
  {
    if cs == [] then dir
    else
      var k := kind(cs[|cs| - 1]);
      if k.Context? && k.dir.Some? then k.dir else LastCd(cs[..|cs| - 1], dir, kind)
  }

  /** The compound-command analysis, with the fallback to the first token
    * of the first segment. */
  function Classify(cs: seq<string>): CommandInfo
    requires |cs| >= 1
  {
    var r := Scan(cs, None, KindOf);
    if r.command.Some? then r
    else CommandInfo(if Tokens(cs[0]) != [] then Some(Tokens(cs[0])[0]) else None, r.workingDir)
  }

  /** `_extract_shell_command_info`, with the wrapper offsets taken from
    * the stripped command. */
  function CommandInfoOf(cmd: string): CommandInfo
  {
    if Strip(cmd) == "" then CommandInfo(None, None)
    else if Delegated(cmd).Some? then CommandInfo(Delegated(cmd), None)
    else Classify(Segments(cmd))
  }

  /** `_extract_shell_command_info`: the wrappers first, then the
    * compound-command loops. */
  method ExtractShellCommandInfo(cmd: string) returns (info: CommandInfo)
    ensures info == CommandInfoOf(cmd)
  {
    if Strip(cmd) == "" {
      return CommandInfo(None, None);
    }
    var delegated := Delegated(cmd);
    if delegated.Some? {
      return CommandInfo(delegated, None);
    }
    var commands := SplitCompound(cmd);
    commands := FirstOfPipes(commands);
    info := ScanSegments(commands);
  }

  /** The splitting loops: each operator in turn splits every command. */
  method SplitCompound(cmd: string) returns (commands: seq<string>)
    ensures commands == SplitOperators(cmd, |CompoundOperators|)
  {
    commands := [cmd];
    var k := 0;
    while k < |CompoundOperators|
      invariant 0 <= k <= |CompoundOperators|
      invariant commands == SplitOperators(cmd, k)
    {
      var op := CompoundOperators[k];
      var newCommands: seq<string> := [];
      var j := 0;
      while j < |commands|
        invariant 0 <= j <= |commands|
        invariant newCommands == SplitEach(commands[..j], op)
      {
        assert commands[..j + 1][..j] == commands[..j];
        newCommands := newCommands + Split(commands[j], op);
        j := j + 1;
      }
      assert commands[..j] == commands;
      commands := newCommands;
      k := k + 1;
    }
  }

  /** The pipe loop: only the part before the first `|` of each command. */
  method FirstOfPipes(commands: seq<string>) returns (heads: seq<string>)
    ensures heads == PipeHeads(commands)
  {
    heads := [];
    var j := 0;
    while j < |commands|
      invariant 0 <= j <= |commands|
      invariant |heads| == j
      invariant forall i :: 0 <= i < j ==> heads[i] == Split(commands[i], "|")[0]
    {
      heads := heads + [Split(commands[j], "|")[0]];
      j := j + 1;
    }
  }

  /** The scan loop over the segments, stopping at the first operation,
    * then the fallback. */
  method ScanSegments(commands: seq<string>) returns (info: CommandInfo)
    requires |commands| >= 1
    ensures info == Classify(commands)
  {
    var workingDir: Option<string> := None;
    var primary: Option<string> := None;
    var i := 0;
    while i < |commands|
      invariant 0 <= i <= |commands|
      invariant primary.None? ==> Scan(commands, None, KindOf) == Scan(commands[i..], workingDir, KindOf)
      invariant primary.Some? ==> Scan(commands, None, KindOf) == CommandInfo(primary, workingDir)
    {
      ScanStep(commands[i..], workingDir, KindOf);
      assert commands[i..][0] == commands[i];
      assert commands[i..][1..] == commands[i + 1..];
      var kind := KindOf(commands[i]);
      if kind.Operation? {
        primary := Some(kind.command);
        break;
      }
      if kind.Context? && kind.dir.Some? {
        workingDir := kind.dir;
      }
      i := i + 1;
    }
    if primary.None? {
      assert commands[|commands|..] == [];
      var first := Tokens(commands[0]);
      primary := if first != [] then Some(first[0]) else None;
    }
    return CommandInfo(primary, workingDir);
  }

  lemma ScanStep(cs: seq<string>, dir: Option<string>, kind: string -> SegmentKind)
    requires cs != []
    ensures kind(cs[0]).Operation? ==> Scan(cs, dir, kind) == CommandInfo(Some(kind(cs[0]).command), dir)
    ensures !kind(cs[0]).Operation? ==> Scan(cs, dir, kind) == Scan(cs[1..], After(kind(cs[0]), dir), kind)
  {
  }

  // ---------------------------------------------------------------------
  // run_shell
  // ---------------------------------------------------------------------

  /** The permission pattern: `cmd@dir` when both are non-empty, else the
    * bare command. */
  function ShellPattern(info: CommandInfo): (p: Option<string>)
    ensures Truthy(info.command) && Truthy(info.workingDir) ==>
      p == Some(info.command.value + "@" + info.workingDir.value)
    ensures !(Truthy(info.command) && Truthy(info.workingDir)) ==> p == info.command
  {
    if Truthy(info.workingDir) && Truthy(info.command) then Some(info.command.value + "@" + info.workingDir.value)
    else info.command
  }

  /** What `run_shell` does once the permission request was answered. */
  datatype ShellDecision =
    | UserCancelled
    | BlockedToken
    | BlockedPattern(pattern: string)
    | Execute

  /** The gate of `run_shell`: refused permission, then any whitespace
    * token among the dangerous tokens, then the first dangerous pattern
    * occurring in the command. */
  method ShellGate(cmd: string, granted: bool, dangerousTokens: set<string>, dangerousPatterns: seq<string>)
    returns (d: ShellDecision)
    ensures d == UserCancelled <==> !granted
    ensures d == BlockedToken <==> granted && exists t :: t in SplitWs(cmd) && t in dangerousTokens
    ensures d.BlockedPattern? ==>
      (granted && (forall t :: t in SplitWs(cmd) ==> t !in dangerousTokens)
       && d.pattern in dangerousPatterns && Contains(cmd, d.pattern))
    ensures d.BlockedPattern? ==>
      (exists k :: 0 <= k < |dangerousPatterns| && dangerousPatterns[k] == d.pattern
         && forall j :: 0 <= j < k ==> !Contains(cmd, dangerousPatterns[j]))
    ensures d == Execute <==>
      (granted && (forall t :: t in SplitWs(cmd) ==> t !in dangerousTokens)
       && forall p :: p in dangerousPatterns ==> !Contains(cmd, p))
  {
    if !granted {
      return UserCancelled;
    }
    if exists t :: t in SplitWs(cmd) && t in dangerousTokens {
      return BlockedToken;
    }
    var k := 0;
    while k < |dangerousPatterns|
      invariant 0 <= k <= |dangerousPatterns|
      invariant forall j :: 0 <= j < k ==> !Contains(cmd, dangerousPatterns[j])
    {
      if Contains(cmd, dangerousPatterns[k]) {
        return BlockedPattern(dangerousPatterns[k]);
      }
      k := k + 1;
    }
    return Execute;
  }

  // ---------------------------------------------------------------------
  // Properties
  // ---------------------------------------------------------------------

  /** A blank command has neither a command nor a directory. */
  lemma BlankCommand(cmd: string)
    requires AllSpace(cmd)
    ensures CommandInfoOf(cmd) == CommandInfo(None, None)
  {
    StripEmptyIffAllSpace(cmd);
  }

  /** A wrapper's command never comes with a directory. */
  lemma DelegatedHasNoDirectory(cmd: string)
    requires Delegated(cmd).Some? && Strip(cmd) != ""
    ensures CommandInfoOf(cmd) == CommandInfo(Delegated(cmd), None)
  {
  }

  /** `xargs` with nothing but options runs `echo`. */
  lemma XargsDefaultsToEcho(parts: seq<string>)
    requires forall j :: 1 <= j < |parts| ==> StartsWith(parts[j], "-")
    ensures XargsTarget(parts) == "echo"
  {
  }

  /** `xargs` names its first non-option argument, by base name, followed
    * by the next token when that is a flag: `xargs rm -rf` gives
    * `rm -rf`. */
  lemma XargsNamesFirstArgument(parts: seq<string>, i: nat)
    requires 1 <= i < |parts| && !StartsWith(parts[i], "-")
    requires forall j :: 1 <= j < i ==> StartsWith(parts[j], "-")
    ensures XargsTarget(parts) == WithFlag(Basename(parts[i]), parts, i + 1)
  {
  }

  /** `find ... -exec cmd` names the command after the first `-exec`
    * token (any case), by base name, with a following flag. */
  lemma FindExecNamesCommand(parts: seq<string>, i: nat)
    requires i + 1 < |parts| && Lower(parts[i]) == "-exec"
    requires forall j :: 0 <= j < i ==> Lower(parts[j]) != "-exec"
    ensures FindExec(parts, "-exec") == Some(WithFlag(Basename(parts[i + 1]), parts, i + 2))
  {
    var k := FirstLowerIndex(parts, "-exec", 0);
    assert k.Some? && k.value == i;
  }

  /** No segment still holds a compound operator or a pipe. */
  lemma SegmentsAreSimple(cmd: string)
    ensures forall c :: c in Segments(cmd) ==> Free(c, "&&") && Free(c, "||") && Free(c, ";") && Free(c, "|")
  {
    var s3 := SplitOperators(cmd, 3);
    OperatorsFree(cmd);
    forall c | c in Segments(cmd)
      ensures Free(c, "&&") && Free(c, "||") && Free(c, ";") && Free(c, "|")
    {
      var i :| 0 <= i < |s3| && Segments(cmd)[i] == c;
      assert s3[i] in s3;
      PipeHeadFree(s3[i]);
    }
  }

  /** After the three compound operators, no command holds any of them. */
  lemma OperatorsFree(cmd: string)
    ensures forall c :: c in SplitOperators(cmd, 3) ==> Free(c, "&&") && Free(c, "||") && Free(c, ";")
  {
    assert SplitOperators(cmd, 0) == [cmd];
    var s1 := SplitOperators(cmd, 1);
    var s2 := SplitOperators(cmd, 2);
    assert s1 == SplitEach([cmd], "&&");
    assert s2 == SplitEach(s1, "||");
    assert SplitOperators(cmd, 3) == SplitEach(s2, ";");
    SplitEachFree([cmd], "&&", "&&");
    SplitEachFree(s1, "||", "&&");
    SplitEachFree(s1, "||", "||");
    SplitEachFree(s2, ";", "&&");
    SplitEachFree(s2, ";", "||");
    SplitEachFree(s2, ";", ";");
  }

  /** The head of a command before its first `|` holds no pipe, and no
    * compound operator the command does not hold. */
  lemma PipeHeadFree(p: string)
    requires Free(p, "&&") && Free(p, "||") && Free(p, ";")
    ensures var h := Split(p, "|")[0]; Free(h, "&&") && Free(h, "||") && Free(h, ";") && Free(h, "|")
  {
    SplitPiecesFree(p, "|");
    SplitPiecesKeepFree(p, "|", "&&");
    SplitPiecesKeepFree(p, "|", "||");
    SplitPiecesKeepFree(p, "|", ";");
    assert Split(p, "|")[0] in Split(p, "|");
  }

  /** After splitting at `op`, no piece holds `op`, and a string `x` absent
    * from every command is absent from every piece. */
  lemma {:induction false} SplitEachFree(cs: seq<string>, op: string, x: string)
    requires |op| > 0
    requires x == op || forall c :: c in cs ==> Free(c, x)
    ensures forall p :: p in SplitEach(cs, op) ==> Free(p, x)
  {
    if cs != [] {
      var init := cs[..|cs| - 1];
      var last := cs[|cs| - 1];
      assert forall c :: c in init ==> c in cs;
      SplitEachFree(init, op, x);
      assert last in cs;
      if x == op {
        SplitPiecesFree(last, op);
      } else {
        SplitPiecesKeepFree(last, op, x);
      }
    }
  }

  /** The index of the first operation among the segments. */
  function FirstOperation(cs: seq<string>, kind: string -> SegmentKind): (r: Option<nat>)
    ensures r.Some? ==> r.value < |cs| && kind(cs[r.value]).Operation?
    ensures r.Some? ==> forall j :: 0 <= j < r.value ==> !kind(cs[j]).Operation?
    ensures r.None? ==> forall j :: 0 <= j < |cs| ==> !kind(cs[j]).Operation?
  {
    if cs == [] then None
    else if kind(cs[0]).Operation? then Some(0)
    else match FirstOperation(cs[1..], kind)
      case None => None
      case Some(k) => Some(k + 1)
  }

  /** The scan, stated without the loop: the command is that of the first
    * operation, and the directory is that of the last `cd DIR` before it;
    * with no operation there is no command and the directory is that of
    * the last `cd DIR` of all. */
  lemma {:induction false} ScanSpec(cs: seq<string>, dir: Option<string>, kind: string -> SegmentKind)
    ensures Scan(cs, dir, kind) ==
      match FirstOperation(cs, kind)
      case Some(k) => CommandInfo(Some(kind(cs[k]).command), LastCd(cs[..k], dir, kind))
      case None => CommandInfo(None, LastCd(cs, dir, kind))
  {
    if cs != [] {
      var c := cs[0];
      var rest := cs[1..];
      if kind(c).Operation? {
        assert cs[..0] == [];
      } else {
        ScanSpec(rest, After(kind(c), dir), kind);
        match FirstOperation(rest, kind)
        case None =>
          LastCdCons(c, rest, dir, kind);
          assert [c] + rest == cs;
        case Some(k) =>
          assert rest[k] == cs[k + 1];
          LastCdCons(c, rest[..k], dir, kind);
          assert [c] + rest[..k] == cs[..k + 1];
      }
    }
  }

  /** Scanning forwards and looking back for the last `cd` agree. */
  lemma {:induction false} LastCdCons(c: string, cs: seq<string>, dir: Option<string>, kind: string -> SegmentKind)
    ensures LastCd([c] + cs, dir, kind) == LastCd(cs, After(kind(c), dir), kind)
    decreases |cs|
  {
    if cs == [] {
      assert ([c] + cs)[..0] == [];
      assert ([c] + cs)[0] == c;
    } else {
      var init := cs[..|cs| - 1];
      assert ([c] + cs)[..|[c] + cs| - 1] == [c] + init;
      assert ([c] + cs)[|[c] + cs| - 1] == cs[|cs| - 1];
      LastCdCons(c, init, dir, kind);
    }
  }

  /** With only directory changes and setup, the command is the first
    * token of the first segment and the directory that of the last
    * `cd DIR`. */
  lemma OnlyContextSegments(cmd: string)
    requires Strip(cmd) != "" && Delegated(cmd).None?
    requires forall k :: 0 <= k < |Segments(cmd)| ==> !KindOf(Segments(cmd)[k]).Operation?
    ensures CommandInfoOf(cmd).command ==
      (if Tokens(Segments(cmd)[0]) != [] then Some(Tokens(Segments(cmd)[0])[0]) else None)
    ensures CommandInfoOf(cmd).workingDir == LastCd(Segments(cmd), None, KindOf)
  {
    ScanSpec(Segments(cmd), None, KindOf);
    assert FirstOperation(Segments(cmd), KindOf).None?;
  }

  /** `cd DIR && CMD ...`: the command of the second segment, in `DIR`. */
  lemma CdThenOperation(cd: string, op: string, dir: string, command: string)
    requires KindOf(cd) == Context(Some(dir)) && KindOf(op) == Operation(command)
    ensures Classify([cd, op]) == CommandInfo(Some(command), Some(dir))
  {
    var cs := [cd, op];
    assert cs[0] == cd && cs[1..] == [op];
    ScanStep(cs, None, KindOf);
    assert After(Context(Some(dir)), None) == Some(dir);
    ScanStep([op], Some(dir), KindOf);
    assert Scan(cs, None, KindOf) == CommandInfo(Some(command), Some(dir));
  }

  // ---------------------------------------------------------------------
  // The wrapper offsets
  // ---------------------------------------------------------------------

  lemma {:induction false} LStripLeadingSpace(ws: string, c: string)
    requires AllSpace(ws)
    ensures LStrip(ws + c) == LStrip(c)
    decreases |ws|
  {
    if ws != [] {
      assert (ws + c)[0] == ws[0];
      assert (ws + c)[1..] == ws[1..] + c;
      LStripLeadingSpace(ws[1..], c);
    } else {
      assert ws + c == c;
    }
  }

  /** Read as intended, a wrapper's command does not depend on whitespace
    * in front of the command line. */
  lemma DelegationIgnoresLeadingSpace(ws: string, c: string)
    requires AllSpace(ws)
    ensures Delegated(ws + c) == Delegated(c)
  {
    LStripLeadingSpace(ws, c);
    assert Strip(ws + c) == Strip(c);
    assert SplitWs(ws + c) == SplitWs(c);
  }

  /** A line that starts with `eval ` and holds no `c` (so no shell
    * wrapper) reads its command from offset 5 of `source`. */
  lemma EvalOnly(lower: string, parts: seq<string>, source: string)
    requires StartsWith(lower, "eval ") && 'c' !in lower
    ensures DelegatedFrom(lower, parts, source) == LeadingCommand(Drop(source, 5))
  {
    assert lower[0] == 'e';
    assert !StartsWith(lower, "find ") by { assert "find "[0] == 'f'; }
    assert !StartsWith(lower, "xargs ") by { assert "xargs "[0] == 'x'; }
    assert FindTarget(parts, lower).None?;
    NoShellWithoutC(lower, source, 0);
  }

  /** As written, two leading spaces shift the `eval` offset into the
    * keyword: `  eval ls` is classified as the command `l`, where the
    * intended reading gives `ls`; the same holds for any lower-case word
    * without a `c` in place of `ls`. */
  lemma LeadingSpaceShiftsEval(word: string)
    requires word != "" && NoSpace(word) && Lower(word) == word && 'c' !in word
    requires word[0] !in QuoteChars && word[0] != '-'
    ensures DelegatedAsWritten("  eval " + word) == Some("l")
    ensures Delegated("  eval " + word) == Some(word)
  {
    var line := "eval " + word;
    var cmd := "  eval " + word;
    EvalLine(word);
    EvalOnly(line, SplitWs(cmd), cmd);
    EvalOnly(line, SplitWs(cmd), line);
    EvalOffsets(word);
  }

  lemma EvalLine(word: string)
    requires word != "" && NoSpace(word) && Lower(word) == word && 'c' !in word
    ensures Strip("  eval " + word) == "eval " + word
    ensures Lower("eval " + word) == "eval " + word
    ensures StartsWith("eval " + word, "eval ") && 'c' !in "eval " + word
  {
    EvalLineStrip(word);
    EvalLineLower(word);
    assert ("eval " + word)[..5] == "eval ";
  }

  lemma EvalLineStrip(word: string)
    requires word != "" && NoSpace(word)
    ensures Strip("  eval " + word) == "eval " + word
  {
    assert "  eval " + word == "  " + ("eval " + word);
    LStripTwoSpaces("eval " + word);
    EvalWordStrip(word);
  }

  lemma EvalLineLower(word: string)
    requires Lower(word) == word
    ensures Lower("eval " + word) == "eval " + word
  {
    LowerAppend("eval ", word);
    assert Lower("eval ") == "eval ";
  }

  lemma LStripTwoSpaces(line: string)
    requires line != [] && !IsSpace(line[0])
    ensures LStrip("  " + line) == line
  {
    LStripLeadingSpace("  ", line);
  }

  lemma EvalWordStrip(word: string)
    requires word != "" && NoSpace(word)
    ensures Strip("eval " + word) == "eval " + word
  {
    var line := "eval " + word;
    assert line[0] == 'e' && line[|line| - 1] == word[|word| - 1];
    NoEdgeSpaceStrip(line);
  }

  lemma EvalOffsets(word: string)
    requires word != "" && NoSpace(word) && word[0] !in QuoteChars && word[0] != '-'
    ensures LeadingCommand(Drop("  eval " + word, 5)) == Some("l")
    ensures LeadingCommand(Drop("eval " + word, 5)) == Some(word)
  {
    assert Drop("  eval " + word, 5) == "l" + " " + word;
    assert Drop("eval " + word, 5) == word;
    LeadingCommandTwoWords("l", word);
    LeadingCommandOneWord(word);
  }

  lemma LeadingCommandTwoWords(a: string, b: string)
    requires a != "" && NoSpace(a) && b != "" && NoSpace(b)
    requires a[0] !in QuoteChars && b[0] != '-'
    ensures LeadingCommand(a + " " + b) == Some(a)
  {
    var s := a + " " + b;
    assert Strip(s) == s by {
      assert s[0] == a[0];
      assert s[|s| - 1] == b[|b| - 1];
      NoEdgeSpaceStrip(s);
    }
    assert LStripChars(s, QuoteChars) == s by { assert s[0] == a[0]; }
    assert SplitWs(s) == [a, b] by { SplitWsTwo(a, b); }
    assert WithFlag(a, [a, b], 1) == a;
  }

  lemma SplitWsTwo(a: string, b: string)
    requires a != "" && NoSpace(a) && b != "" && NoSpace(b)
    ensures SplitWs(a + " " + b) == [a, b]
  {
    SplitWsJoin([a, b]);
    assert Join([a, b], " ") == a + " " + Join([b], " ");
  }

  lemma LeadingCommandOneWord(a: string)
    requires a != "" && NoSpace(a) && a[0] !in QuoteChars
    ensures LeadingCommand(a) == Some(a)
  {
    NoEdgeSpaceStrip(a);
    assert LStripChars(a, QuoteChars) == a;
    SplitWsJoin([a]);
  }

  /** No shell wrapper occurs in a text without a `c`. */
  lemma {:induction false} NoShellWithoutC(lower: string, source: string, k: nat)
    requires 'c' !in lower
    ensures ShellTarget(lower, source, k).None?
    decreases |Shells| - k
  {
    if k < |Shells| {
      EndingInCAbsent(lower, Shells[k]);
      NoShellWithoutC(lower, source, k + 1);
    }
  }

  lemma EndingInCAbsent(lower: string, sh: string)
    requires 'c' !in lower && sh != [] && sh[|sh| - 1] == 'c'
    ensures !Contains(lower, sh)
  {
  }
}
