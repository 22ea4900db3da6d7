/** `ExecutionContext` and its subclasses in insights/core/context.py: the
    timeout fallback, the shaping of `shell_out`'s result and `locate_path`,
    which `JDRContext` overrides to rewrite every `$JBOSS_HOME` to
    `JBOSS_HOME` before the environment variables are expanded. */
module Execution {
  import opened Py
  import opened PyStrings

  /** The execution-context classes of the module. */
  datatype ContextClass =
    | ExecutionContextClass
    | HostContext
    | HostArchiveContext
    | SosArchiveContext
    | ClusterArchiveContext
    | DockerImageContext
    | JBossContext
    | JDRContext
    | OpenStackContext
    | OpenShiftContext
  {
    /** OpenStackContext and OpenShiftContext take only a hostname. */
    predicate TakesHostname()
    {
      OpenStackContext? || OpenShiftContext?
    }
  }

  /** What the command run by `check_output` yields: its exit status and its
      output (standard error folded into standard output). */
  datatype CommandResult = CommandResult(rc: int, output: string)

  /** The output `shell_out` hands back: the raw text, or its lines. */
  datatype Output = Text(text: string) | Lines(lines: seq<string>)

  /** `shell_out`'s result: the output alone, or the pair `(rc, output)`. */
  datatype ShellResult = Bare(out: Output) | WithRc(rc: int, out: Output)

  /** `$JBOSS_HOME` and what `JDRContext` rewrites it to. */
  const JbossVar := "$JBOSS_HOME"
  const JbossName := "JBOSS_HOME"

  class ExecutionContext {
    const kind: ContextClass
    var root: string
    var timeout: Value
    var allFiles: seq<string>
    /** Set by OpenStackContext and OpenShiftContext only. */
    var hostname: Option<Value>

    /** `ExecutionContext.__init__(root="/", timeout=None, all_files=None)`:
        `all_files or []`, so None and an empty list both become `[]`. */
    constructor(kind: ContextClass, root: string, timeout: Value, allFiles: Option<seq<string>>)
      requires !kind.TakesHostname()
      ensures this.kind == kind && this.root == root && this.timeout == timeout
      ensures this.allFiles == (if allFiles.Some? then allFiles.value else [])
      ensures hostname.None?
    {
      this.kind := kind;
      this.root := root;
      this.timeout := timeout;
      this.allFiles := if allFiles.Some? && allFiles.value != [] then allFiles.value else [];
      this.hostname := None;
    }

    /** `ExecutionContext()` with its defaults: `root="/"`, `timeout=None`
        and `all_files=None`, which becomes `[]`. */
    constructor Default(kind: ContextClass)
      requires !kind.TakesHostname()
      ensures this.kind == kind && root == "/" && timeout == PyNone && allFiles == []
      ensures hostname.None?
    {
      this.kind := kind;
      root := "/";
      timeout := PyNone;
      allFiles := [];
      hostname := None;
    }

    /** `OpenStackContext(hostname)` and `OpenShiftContext(hostname)`: the
        base defaults, then the hostname. */
    constructor ForHost(kind: ContextClass, hostname: Value)
      requires kind.TakesHostname()
      ensures this.kind == kind && root == "/" && timeout == PyNone && allFiles == []
      ensures this.hostname == Some(hostname)
    {
      this.kind := kind;
      root := "/";
      timeout := PyNone;
      allFiles := [];
      this.hostname := Some(hostname);
    }

    /** `timeout or self.timeout` in `check_output`: the call's timeout when it
        is truthy, the context's otherwise (so 0 falls back too). A timeout is
        in force iff either of the two is set. */
    function EffectiveTimeout(callTimeout: Value): (t: Value)
      reads this
      ensures Truthy(callTimeout) ==> t == callTimeout
      ensures !Truthy(callTimeout) ==> t == timeout
      ensures Truthy(t) <==> Truthy(callTimeout) || Truthy(timeout)
    {
      if Truthy(callTimeout) then callTimeout else timeout
    }

    /** `locate_path(path)`: `os.path.expandvars(path)`, given here as the
        `expandvars` parameter; `JDRContext` first rewrites every `$JBOSS_HOME`
        to `JBOSS_HOME`. That keeps a plain `$JBOSS_HOME` from being expanded,
        but not `${JBOSS_HOME}` nor the `$JBOSS_HOME` the rewrite itself
        leaves behind in `$$JBOSS_HOME` (see RewriteFormsReference and RewriteKeepsBraced). */
    function LocatePath(path: string, expandvars: string -> string): (r: string)
      reads this
      ensures kind != JDRContext ==> r == expandvars(path)
      ensures kind == JDRContext ==> r == expandvars(RewriteJbossHome(path))
    {
      if kind == JDRContext then expandvars(RewriteJbossHome(path)) else expandvars(path)
    }
  }

  /** `path.replace("$JBOSS_HOME", "JBOSS_HOME")`. It removes only `$` signs:
      every other character is kept, in order; the path is unchanged iff it
      has no `$JBOSS_HOME`, and is shorter otherwise. */
  function RewriteJbossHome(path: string): (r: string)
    ensures Drop(r, '$') == Drop(path, '$')
    ensures |r| <= |path|
    ensures r == path <==> !Occurs(path, JbossVar)
  {
    assert Drop(JbossVar, '$') == Drop(JbossName, '$') by {
      assert JbossVar == ['$'] + JbossName;
      assert JbossVar[1..] == JbossName;
    }
    ReplaceOnlyTouches(path, JbossVar, JbossName, '$');
    ReplaceShrinks(path, JbossVar, JbossName);
    if Occurs(path, JbossVar) then
      Replace(path, JbossVar, JbossName)
    else
      ReplaceAbsent(path, JbossVar, JbossName);
      Replace(path, JbossVar, JbossName)
  }

  /** The rewrite replaces every `$JBOSS_HOME`, left to right: the text
      before the first one is kept, that one becomes `JBOSS_HOME`, and the
      rest is rewritten in turn. */
  lemma RewriteJbossHomeSplit(a: string, b: string)
    requires !Occurs(a, JbossVar)
    ensures RewriteJbossHome(a + JbossVar + b) == a + JbossName + RewriteJbossHome(b)
  {
    var s := a + (JbossVar + b);
    assert a + JbossVar + b == s;
    assert forall k :: 1 <= k < |JbossVar| ==> JbossVar[k] != '$';
    forall i | 0 <= i < |a| ensures !OccursAt(s, JbossVar, i) {
      if i + |JbossVar| <= |s| {
        if i + |JbossVar| <= |a| {
          assert s[i..i + |JbossVar|] == a[i..i + |JbossVar|];
          assert !OccursAt(a, JbossVar, i);
        } else {
          assert s[i..i + |JbossVar|][|a| - i] == '$';
        }
      }
    }
    ReplacePrefix(a, JbossVar + b, JbossVar, JbossName);
    ReplaceAtStart(JbossVar, b, JbossName);
  }

  /** `$$JBOSS_HOME` becomes `$JBOSS_HOME`, which `os.path.expandvars`
      still expands: the rewrite does not neutralise a reference it forms
      itself. */
  lemma RewriteFormsReference()
    ensures RewriteJbossHome("$" + JbossVar) == JbossVar
  {
    assert !Occurs("$", JbossVar);
    RewriteJbossHomeSplit("$", []);
    assert "$" + JbossVar + [] == "$" + JbossVar;
  }

  /** The braced `${JBOSS_HOME}` holds no `$JBOSS_HOME` and is left as it
      is, so `os.path.expandvars` still expands it. */
  lemma RewriteKeepsBraced()
    ensures RewriteJbossHome("${JBOSS_HOME}") == "${JBOSS_HOME}"
  {
    var tail := "{JBOSS_HOME}";
    assert "${JBOSS_HOME}" == "$" + tail;
    assert ("$" + tail)[0..0 + |JbossVar|][1] == '{';
    ReplacePrefix("$", tail, JbossVar, JbossName);
    ReplaceWithoutLead(tail, JbossVar, JbossName);
  }

  /** `shell_out(cmd, split, timeout, keep_rc)` once `check_output` has run the
      command: `(rc, output)` iff `keep_rc`, `output` alone otherwise; the
      output is split into lines iff `split`, and the lines then hold every
      character of the output except the line boundaries, in order. */
  function ShellOut(result: CommandResult, split: bool, keepRc: bool): (r: ShellResult)
    ensures r.WithRc? <==> keepRc
    ensures keepRc ==> r.rc == result.rc
    ensures r.out.Lines? <==> split
    ensures !split ==> r.out.text == result.output
    ensures split ==> r.out.lines == SplitLines(result.output)
    ensures split ==> Flatten(r.out.lines) == StripBreaks(result.output)
  {
    var out := if split then Lines(SplitLines(result.output)) else Text(result.output);
    SplitLinesKeepsText(result.output);
    if keepRc then WithRc(result.rc, out) else Bare(out)
  }

  /** A command whose output is lines, each terminated by `\n`, hands those
      lines back unchanged from `shell_out(..., split=True)`. */
  lemma ShellOutLinesRoundTrip(rc: int, lines: seq<string>, keepRc: bool)
    requires forall i :: 0 <= i < |lines| ==> NoBreaks(lines[i])
    ensures ShellOut(CommandResult(rc, JoinLines(lines)), true, keepRc).out == Lines(lines)
  {
    SplitJoinRoundTrip(lines);
  }
}
