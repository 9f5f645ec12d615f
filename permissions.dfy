/**
 * The permission grant table (`patchpal/permissions.py`): session and
 * persistent grants per tool, the lookup that decides whether a request
 * was granted before, the insertion of new grants, and the non-interactive
 * outcomes of a permission request.
 *
 * The persistent grants are what `permissions.json` held; loading and
 * saving that file is not part of this model.  The user's answer to the
 * prompt is a parameter.
 */
module Permissions {
  import opened Wrappers
  import opened PyStr

  /** One tool's entry in a grant dictionary: `True` (every use granted),
    * a list of granted patterns, or any other JSON value a hand-edited
    * `permissions.json` may hold, which grants nothing. */
  datatype Grant =
    | GrantedAll
    | PatternList(patterns: seq<string>)
    | OtherValue

  type Grants = map<string, Grant>

  /** Python truthiness of an optional string. */
  predicate Truthy(s: Option<string>)
  {
    s.Some? && s.value != ""
  }

  /** A granted pattern covers a requested pattern when they are equal up
    * to case, or when a single-word grant is followed by a space in it. */
  predicate PatternMatches(granted: string, pattern: string)
  {
    Lower(granted) == Lower(pattern)
    || (' ' !in Lower(granted) && StartsWith(Lower(pattern), Lower(granted) + " "))
  }

  /** A multi-word grant covers a full command that starts with it once
    * stripped and lower-cased. */
  predicate CommandMatches(granted: string, command: string)
  {
    ' ' in granted && StartsWith(Lower(Strip(command)), Lower(granted))
  }

  /** `_check_grant_list`, as a statement of what it decides. */
  predicate Granted(grants: Grants, tool: string, pattern: Option<string>, fullCommand: Option<string>)
  {
    tool in grants
    && (grants[tool].GrantedAll?
        || (grants[tool].PatternList?
            && ((Truthy(pattern) && exists g :: g in grants[tool].patterns && PatternMatches(g, pattern.value))
                || (Truthy(fullCommand) && exists g :: g in grants[tool].patterns && CommandMatches(g, fullCommand.value)))))
  }

  /** The pattern loop of `_check_grant_list`: does some granted pattern
    * cover `pattern`? */
  method AnyPatternMatches(list: seq<string>, pattern: string) returns (found: bool)
    ensures found <==> exists g :: g in list && PatternMatches(g, pattern)
  {
    var patternLower := Lower(pattern);
    var i := 0;
    while i < |list|
      invariant 0 <= i <= |list|
      invariant forall j :: 0 <= j < i ==> !PatternMatches(list[j], pattern)
    {
      var grantedLower := Lower(list[i]);
      if grantedLower == patternLower || (' ' !in grantedLower && StartsWith(patternLower, grantedLower + " ")) {
        assert list[i] in list && PatternMatches(list[i], pattern);
        return true;
      }
      i := i + 1;
    }
    return false;
  }

  /** The full-command loop of `_check_grant_list`: does some multi-word
    * grant start the command? */
  method AnyCommandMatches(list: seq<string>, command: string) returns (found: bool)
    ensures found <==> exists g :: g in list && CommandMatches(g, command)
  {
    var commandLower := Lower(Strip(command));
    var i := 0;
    while i < |list|
      invariant 0 <= i <= |list|
      invariant forall j :: 0 <= j < i ==> !CommandMatches(list[j], command)
    {
      if ' ' in list[i] && StartsWith(commandLower, Lower(list[i])) {
        assert list[i] in list && CommandMatches(list[i], command);
        return true;
      }
      i := i + 1;
    }
    return false;
  }

  /** `_check_grant_list`: `True` grants everything, a list is searched by
    * pattern first and by full command second. */
  method CheckGrantList(grants: Grants, tool: string, pattern: Option<string>, fullCommand: Option<string>)
    returns (granted: bool)
    ensures granted == Granted(grants, tool, pattern, fullCommand)
  {
    if tool !in grants {
      return false;
    }
    match grants[tool]
    case GrantedAll =>
      return true;
    case OtherValue =>
      return false;
    case PatternList(list) =>
      if Truthy(pattern) {
        granted := AnyPatternMatches(list, pattern.value);
        if granted {
          return;
        }
      }
      if Truthy(fullCommand) {
        granted := AnyCommandMatches(list, fullCommand.value);
        return;
      }
      return false;
  }

  /** The entry `_grant_permission` leaves for `tool`: with a pattern, the
    * pattern is added to a list once (a tool with no entry gets a new
    * list, and an entry that is not a list is kept); without one, `True`. */
  function GrantIn(grants: Grants, tool: string, pattern: Option<string>): (r: Grants)
    ensures r.Keys == grants.Keys + {tool}
    ensures forall t :: t in grants && t != tool ==> r[t] == grants[t]
  {
    if Truthy(pattern) then
      var p := pattern.value;
      if tool !in grants then grants[tool := PatternList([p])]
      else match grants[tool]
        case PatternList(ps) => if p in ps then grants else grants[tool := PatternList(ps + [p])]
        case _ => grants
    else grants[tool := GrantedAll]
  }

  /** Linux, macOS and Unix commands. */
  const UnixCommands: seq<string> :=
    ["grep", "egrep", "fgrep", "find", "ls", "head", "tail", "sed -n", "less", "wc", "file",
     "stat", "awk", "which", "whereis", "pwd", "env", "printenv", "ifconfig", "df", "du", "ps",
     "top", "uname"]

  /** Windows Command Prompt commands. */
  const CmdCommands: seq<string> :=
    ["findstr", "where", "dir", "more", "cd", "chdir", "help", "title", "assoc", "ftype",
     "doskey /history", "set", "tracert", "nslookup", "ipconfig", "vol", "tasklist", "ver",
     "systeminfo"]

  /** PowerShell invoked on a command string. */
  const PowerShellWrappers: seq<string> :=
    ["powershell -command", "powershell -c", "pwsh -command", "pwsh -c"]

  /** Read-only PowerShell cmdlets. */
  const PowerShellCmdlets: seq<string> :=
    ["get-childitem", "get-item", "get-location", "get-date", "get-process", "get-service",
     "get-host", "get-command", "get-alias", "get-variable", "get-member", "get-help",
     "select-string", "select-object", "where-object", "format-table", "format-list",
     "format-wide", "measure-object", "compare-object", "group-object", "sort-object",
     "test-path", "resolve-path", "split-path", "join-path"]

  /** PowerShell aliases of those cmdlets. */
  const PowerShellAliases: seq<string> :=
    ["gci", "gi", "gl", "gps", "gsv", "gcm", "gal", "gm", "sls", "select", "where", "ft", "fl",
     "fw", "measure", "sort", "group"]

  /** Commands that work on every platform. */
  const CrossPlatformCommands: seq<string> :=
    ["tree", "ping", "whoami", "hostname", "date", "time"]

  /** Read-only git commands. */
  const GitCommands: seq<string> :=
    ["git status", "git diff", "git log", "git show"]

  /** Test runners. */
  const TestRunners: seq<string> :=
    ["pytest", "python -m pytest", "python3 -m pytest", "unittest", "python -m unittest",
     "python3 -m unittest", "npm test", "npm run test", "yarn test", "jest", "mocha", "vitest",
     "go test", "cargo test", "rspec", "rake test", "ruby -I test", "mvn test", "gradle test",
     "./gradlew test", "phpunit", "composer test", "dotnet test"]

  /** The harmless read-only commands granted for `run_shell` in every
    * session, group by group (`where` is in two groups). */
  const HarmlessPatterns: seq<string> :=
    UnixCommands + CmdCommands + PowerShellWrappers + PowerShellCmdlets + PowerShellAliases
    + CrossPlatformCommands + GitCommands + TestRunners

  /** With web tools enabled, `curl` and `wget` are harmless too. */
  function Harmless(webToolsEnabled: bool): seq<string>
  {
    if webToolsEnabled then HarmlessPatterns + ["curl", "wget"] else HarmlessPatterns
  }

  /** The list after appending each of `ps` that is not yet in it. */
  function AddMissing(xs: seq<string>, ps: seq<string>): seq<string>
  {
    if ps == [] then xs
    else
      var ys := AddMissing(xs, ps[..|ps| - 1]);
      var p := ps[|ps| - 1];
      if p in ys then ys else ys + [p]
  }

  predicate NoDuplicates(xs: seq<string>)
  {
    forall i, j :: 0 <= i < j < |xs| ==> xs[i] != xs[j]
  }

  /** The user's first valid answer at the prompt, or end of input. */
  datatype Answer = Yes | YesThisSession | No | Cancelled

  class PermissionManager {
    var sessionGrants: Grants
    var persistentGrants: Grants
    var enabled: bool

    /** Session grants are only ever `True` or lists. */
    predicate Valid()
      reads this
    {
      forall t :: t in sessionGrants ==> !sessionGrants[t].OtherValue?
    }

    /** `__init__` with the loaded persistent grants, followed by
      * `_grant_harmless_commands`. */
    constructor(loaded: Grants, requirePermission: bool, webToolsEnabled: bool)
      ensures Valid()
      ensures persistentGrants == loaded && enabled == requirePermission
      ensures sessionGrants == map["run_shell" := PatternList(AddMissing([], Harmless(webToolsEnabled)))]
    {
      persistentGrants := loaded;
      enabled := requirePermission;
      var patterns := Harmless(webToolsEnabled);
      var list: seq<string> := [];
      var i := 0;
      while i < |patterns|
        invariant 0 <= i <= |patterns|
        invariant list == AddMissing([], patterns[..i])
      {
        assert patterns[..i + 1][..i] == patterns[..i];
        if patterns[i] !in list {
          list := list + [patterns[i]];
        }
        i := i + 1;
      }
      assert patterns[..i] == patterns;
      sessionGrants := map["run_shell" := PatternList(list)];
    }

    /** `_check_existing_grant`: the session lookup, then the persistent
      * one. */
    method CheckExistingGrant(tool: string, pattern: Option<string>, fullCommand: Option<string>)
      returns (granted: bool)
      ensures granted == (Granted(sessionGrants, tool, pattern, fullCommand)
                          || Granted(persistentGrants, tool, pattern, fullCommand))
    {
      granted := CheckGrantList(sessionGrants, tool, pattern, fullCommand);
      if granted {
        return;
      }
      granted := CheckGrantList(persistentGrants, tool, pattern, fullCommand);
    }

    /** `_grant_permission`: the persistent or the session table gets the
      * grant, and the other table is untouched. */
    method GrantPermission(tool: string, persistent: bool, pattern: Option<string>)
      modifies this
      requires Valid()
      ensures Valid() && enabled == old(enabled)
      ensures persistent ==> persistentGrants == GrantIn(old(persistentGrants), tool, pattern)
                             && sessionGrants == old(sessionGrants)
      ensures !persistent ==> sessionGrants == GrantIn(old(sessionGrants), tool, pattern)
                              && persistentGrants == old(persistentGrants)
    {
      if persistent {
        persistentGrants := GrantIn(persistentGrants, tool, pattern);
      } else {
        sessionGrants := GrantIn(sessionGrants, tool, pattern);
      }
    }

    /** `request_permission` with the prompt's answer as a parameter: it
      * grants without asking when permissions are off or the request was
      * granted before; otherwise "2" also records a session grant for the
      * pattern, and only "3" or end of input refuses. */
    method RequestPermission(tool: string, pattern: Option<string>, fullCommand: Option<string>, answer: Answer)
      returns (granted: bool)
      modifies this
      requires Valid()
      ensures Valid() && persistentGrants == old(persistentGrants) && enabled == old(enabled)
      ensures !enabled ==> granted && sessionGrants == old(sessionGrants)
      ensures old(Granted(sessionGrants, tool, pattern, fullCommand) || Granted(persistentGrants, tool, pattern, fullCommand))
              ==> granted && sessionGrants == old(sessionGrants)
      ensures enabled && !old(Granted(sessionGrants, tool, pattern, fullCommand) || Granted(persistentGrants, tool, pattern, fullCommand))
              ==> granted == (answer == Yes || answer == YesThisSession)
                  && sessionGrants == if answer == YesThisSession then GrantIn(old(sessionGrants), tool, pattern)
                                      else old(sessionGrants)
    {
      if !enabled {
        return true;
      }
      granted := CheckExistingGrant(tool, pattern, fullCommand);
      if granted {
        return;
      }
      match answer
      case Yes =>
        granted := true;
      case YesThisSession =>
        GrantPermission(tool, false, pattern);
        granted := true;
      case _ =>
        granted := false;
    }
  }

  // ---------------------------------------------------------------------
  // Properties
  // ---------------------------------------------------------------------

  /** A tool without an entry is never granted; `True` grants every
    * request for the tool. */
  lemma GrantedBasics(grants: Grants, tool: string, pattern: Option<string>, fullCommand: Option<string>)
    ensures tool !in grants ==> !Granted(grants, tool, pattern, fullCommand)
    ensures tool in grants && grants[tool] == GrantedAll ==> Granted(grants, tool, pattern, fullCommand)
    ensures tool in grants && grants[tool] == OtherValue ==> !Granted(grants, tool, pattern, fullCommand)
  {
  }

  /** A pattern matches its own grant, whatever its case. */
  lemma PatternMatchesItself(p: string, q: string)
    requires Lower(p) == Lower(q)
    ensures PatternMatches(p, q)
  {
  }

  /** A single-word grant such as `grep` covers `grep -l`. */
  lemma SingleWordCoversFlags(word: string, rest: string)
    requires ' ' !in word
    ensures PatternMatches(word, word + " " + rest)
  {
    LowerAppend(word + " ", rest);
    LowerAppend(word, " ");
    assert Lower(" ") == " ";
    var low := Lower(word + " " + rest);
    assert low == Lower(word) + " " + Lower(rest);
    assert low[..|Lower(word) + " "|] == Lower(word) + " ";
    NoSpaceLower(word);
  }

  lemma {:induction false} NoSpaceLower(s: string)
    requires ' ' !in s
    ensures ' ' !in Lower(s)
  {
    forall i | 0 <= i < |s| ensures Lower(s)[i] != ' ' {
      assert s[i] != ' ';
    }
  }

  /** With a pattern, granting adds that pattern and nothing else: the
    * entry is then `True` or a list with the pattern in it exactly when
    * the old entry was not some other value. */
  lemma GrantWithPattern(grants: Grants, tool: string, p: string)
    requires p != ""
    ensures var r := GrantIn(grants, tool, Some(p));
      (tool !in grants ==> r[tool] == PatternList([p]))
      && (tool in grants && grants[tool].PatternList? ==>
            r[tool].PatternList? && p in r[tool].patterns
            && (p in grants[tool].patterns ==> r[tool] == grants[tool])
            && (p !in grants[tool].patterns ==> r[tool].patterns == grants[tool].patterns + [p]))
      && (tool in grants && !grants[tool].PatternList? ==> r == grants)
  {
  }

  /** Without a pattern the tool is granted for every use. */
  lemma GrantWithoutPattern(grants: Grants, tool: string, pattern: Option<string>)
    requires !Truthy(pattern)
    ensures GrantIn(grants, tool, pattern) == grants[tool := GrantedAll]
  {
  }

  /** Granting never takes a grant away: whatever was granted before is
    * granted after. */
  lemma GrantMonotone(grants: Grants, tool: string, pattern: Option<string>,
                      t: string, q: Option<string>, c: Option<string>)
    requires Granted(grants, t, q, c)
    ensures Granted(GrantIn(grants, tool, pattern), t, q, c)
  {
    var r := GrantIn(grants, tool, pattern);
    if t == tool && Truthy(pattern) && grants[t].PatternList? && pattern.value !in grants[t].patterns {
      var ps := grants[t].patterns;
      assert r[t] == PatternList(ps + [pattern.value]);
      if Truthy(q) && exists g :: g in ps && PatternMatches(g, q.value) {
        var g :| g in ps && PatternMatches(g, q.value);
        assert g in ps + [pattern.value];
      } else {
        var g :| g in ps && CommandMatches(g, c.value);
        assert g in ps + [pattern.value];
      }
    }
  }

  /** After a grant the same request is granted, unless the old entry was
    * a value that grants nothing. */
  lemma GrantThenGranted(grants: Grants, tool: string, pattern: Option<string>, c: Option<string>)
    requires tool in grants ==> !grants[tool].OtherValue?
    ensures Granted(GrantIn(grants, tool, pattern), tool, pattern, c)
  {
    if Truthy(pattern) {
      var r := GrantIn(grants, tool, pattern);
      PatternMatchesItself(pattern.value, pattern.value);
      if r[tool].PatternList? {
        assert pattern.value in r[tool].patterns;
      }
    }
  }

  /** A pattern is appended at most once: a list without duplicates keeps
    * none. */
  lemma GrantKeepsNoDuplicates(grants: Grants, tool: string, pattern: Option<string>)
    requires tool in grants && grants[tool].PatternList? && NoDuplicates(grants[tool].patterns)
    ensures GrantIn(grants, tool, pattern)[tool].PatternList? ==> NoDuplicates(GrantIn(grants, tool, pattern)[tool].patterns)
  {
  }

  /** `AddMissing` keeps the old list as a prefix, adds every pattern, adds
    * nothing else, and adds no duplicate. */
  lemma {:induction false} AddMissingSpec(xs: seq<string>, ps: seq<string>)
    ensures |AddMissing(xs, ps)| >= |xs| && AddMissing(xs, ps)[..|xs|] == xs
    ensures forall p :: p in ps ==> p in AddMissing(xs, ps)
    ensures forall x :: x in AddMissing(xs, ps) ==> x in xs || x in ps
    ensures NoDuplicates(xs) ==> NoDuplicates(AddMissing(xs, ps))
  {
    if ps != [] {
      var init := ps[..|ps| - 1];
      AddMissingSpec(xs, init);
      var ys := AddMissing(xs, init);
      var p := ps[|ps| - 1];
      assert ps == init + [p];
      if p !in ys {
        assert (ys + [p])[..|xs|] == ys[..|xs|];
      }
    }
  }

  /** After construction the session grants hold every harmless pattern
    * exactly once, and nothing else. */
  lemma HarmlessGrantedOnce(webToolsEnabled: bool)
    ensures var list := AddMissing([], Harmless(webToolsEnabled));
      NoDuplicates(list) && forall p :: p in list <==> p in Harmless(webToolsEnabled)
  {
    AddMissingSpec([], Harmless(webToolsEnabled));
  }

  /** Each pattern adds at most one entry, and a pattern listed twice adds
    * one entry fewer. */
  lemma {:induction false} AddMissingLength(xs: seq<string>, ps: seq<string>)
    ensures |AddMissing(xs, ps)| <= |xs| + |ps|
    ensures (exists i, j :: 0 <= i < j < |ps| && ps[i] == ps[j]) ==> |AddMissing(xs, ps)| < |xs| + |ps|
  {
    if ps != [] {
      var init := ps[..|ps| - 1];
      var p := ps[|ps| - 1];
      AddMissingLength(xs, init);
      AddMissingSpec(xs, init);
      if exists i, j :: 0 <= i < j < |ps| && ps[i] == ps[j] {
        var i, j :| 0 <= i < j < |ps| && ps[i] == ps[j];
        if j < |ps| - 1 {
          assert init[i] == init[j];
        } else {
          assert init[i] == p;
        }
      }
    }
  }

  /** `where` is listed twice, once among the Windows commands and once
    * among the PowerShell aliases, so the session list the constructor
    * builds is shorter than the list of harmless patterns. */
  lemma WhereListedTwice(webToolsEnabled: bool)
    ensures var h := Harmless(webToolsEnabled);
      var i := |UnixCommands| + 1;
      var j := |UnixCommands| + |CmdCommands| + |PowerShellWrappers| + |PowerShellCmdlets| + 10;
      i < j < |h| && h[i] == "where" && h[j] == "where"
    ensures |AddMissing([], Harmless(webToolsEnabled))| < |Harmless(webToolsEnabled)|
  {
    var h := Harmless(webToolsEnabled);
    var i := |UnixCommands| + 1;
    var j := |UnixCommands| + |CmdCommands| + |PowerShellWrappers| + |PowerShellCmdlets| + 10;
    assert h[i] == CmdCommands[1] == "where";
    assert h[j] == PowerShellAliases[10] == "where";
    AddMissingLength([], h);
  }

  /** `curl` and `wget` are in none of the groups. */
  predicate OmitsWebTools(group: seq<string>)
  {
    "curl" !in group && "wget" !in group
  }

  lemma UnixCommandsOmitWebTools()
    ensures OmitsWebTools(UnixCommands)
  {
  }

  lemma CmdCommandsOmitWebTools()
    ensures OmitsWebTools(CmdCommands)
  {
  }

  lemma PowerShellWrappersOmitWebTools()
    ensures OmitsWebTools(PowerShellWrappers)
  {
  }

  lemma PowerShellCmdletsOmitWebTools()
    ensures OmitsWebTools(PowerShellCmdlets)
  {
  }

  lemma PowerShellAliasesOmitWebTools()
    ensures OmitsWebTools(PowerShellAliases)
  {
  }

  lemma CrossPlatformCommandsOmitWebTools()
    ensures OmitsWebTools(CrossPlatformCommands)
  {
  }

  lemma GitCommandsOmitWebTools()
    ensures OmitsWebTools(GitCommands)
  {
  }

  lemma TestRunnersOmitWebTools()
    ensures OmitsWebTools(TestRunners)
  {
  }

  /** `curl` and `wget` are harmless exactly when web tools are enabled. */
  lemma WebToolsOnlyWhenEnabled(webToolsEnabled: bool)
    ensures "curl" in Harmless(webToolsEnabled) <==> webToolsEnabled
    ensures "wget" in Harmless(webToolsEnabled) <==> webToolsEnabled
  {
    UnixCommandsOmitWebTools();
    CmdCommandsOmitWebTools();
    PowerShellWrappersOmitWebTools();
    PowerShellCmdletsOmitWebTools();
    PowerShellAliasesOmitWebTools();
    CrossPlatformCommandsOmitWebTools();
    GitCommandsOmitWebTools();
    TestRunnersOmitWebTools();
    if webToolsEnabled {
      assert Harmless(true)[|HarmlessPatterns|] == "curl";
      assert Harmless(true)[|HarmlessPatterns| + 1] == "wget";
    }
  }
}
