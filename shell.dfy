/**
 * main: the read-split-dispatch-wait loop. Built-ins change the shell's own
 * state (search path, working directory); every other sub-command forks a
 * child that gets a copy of that state at fork time. After the last
 * sub-command of a line the shell waits once per child it forked.
 *
 * fork becomes an appended Spawn record, wait a counter, access an oracle
 * from the working directory to the candidates that pass there, and chdir an
 * oracle. Where the C program writes past one
 * of its fixed buffers, or hands a NULL program name to strcmp, the model
 * stops the line with a Fault instead.
 */
module Shell {
  import opened Wrappers
  import opened Strings
  import opened Tokenizer
  import opened Splitter
  import opened Resolver
  import opened Builtins

  /** One forked child: its argv, its copies of path and working directory, what it runs. */
  datatype Spawn = Spawn(argv: seq<string>, path: seq<string>, cwd: string, outcome: Resolution)

  /** Where the C program has undefined behaviour, and the model stops. */
  datatype Fault =
    | TooManyCommands   // more than MaxCommands pieces for command_list
    | TooManyArgs       // more than MaxArgs arguments for arg_list
    | EmptyCommand      // arg_list[0] == NULL handed to strcmp in is_inbuilt
    | PathOverflow      // modify_path writing past path[9]

  /** The state built-ins change. */
  datatype Config = Config(path: seq<string>, cwd: string)

  /** What dispatching (part of) a line did. */
  datatype LineResult = LineResult(config: Config, spawns: seq<Spawn>, fault: Option<Fault>)

  /** The argument vector of every sub-command of a line, in order. */
  function ArgVectors(commands: seq<string>): (argvs: seq<seq<string>>)
    ensures |argvs| == |commands|
  {
    seq(|commands|, i requires 0 <= i < |commands| => Tokens(commands[i]))
  }

  /** A sub-command that is forked rather than run as a built-in. */
  predicate IsExternal(argv: seq<string>) {
    argv != [] && argv[0] !in InbuiltNames
  }

  /** Number of sub-commands that are forked. */
  function ExternalCount(argvs: seq<seq<string>>): nat {
    if argvs == [] then 0 else (if IsExternal(argvs[0]) then 1 else 0) + ExternalCount(argvs[1..])
  }

  /** The effect of one built-in on the shell's state. */
  function ApplyBuiltin(config: Config, argv: seq<string>, chdir: ChdirOracle): Config
    requires argv != []
  {
    var cwd := if argv[0] == "cd" then ChangeDirectory(config.cwd, argv, chdir) else config.cwd;
    var path := if argv[0] == "path" then argv[1..] else config.path;
    Config(path, cwd)
  }

  /**
   * One sub-command, by its argument vector: is_inbuilt's strcmp needs a
   * first argument; a built-in changes the state; anything else forks a
   * child with the state as it is.
   */
  function Step(argv: seq<string>, config: Config, access: AccessOracle, chdir: ChdirOracle): LineResult {
    if |argv| > MaxArgs then LineResult(config, [], Some(TooManyArgs))
    else if argv == [] then LineResult(config, [], Some(EmptyCommand))
    else if argv[0] in InbuiltNames then
      if argv[0] == "path" && |argv| > PathSlots then LineResult(config, [], Some(PathOverflow))
      else LineResult(ApplyBuiltin(config, argv, chdir), [], None)
    else
      LineResult(config, [Spawn(argv, config.path, config.cwd, Resolve(argv[0], config.path, access(config.cwd)))], None)
  }

  /**
   * The dispatch loop of main over a line's sub-commands, in order, until a
   * Fault: each forked child records the state current at its turn.
   */
  function Dispatch(argvs: seq<seq<string>>, config: Config, access: AccessOracle, chdir: ChdirOracle): LineResult
    decreases |argvs|
  {
    if argvs == [] then LineResult(config, [], None)
    else
      var r := Step(argvs[0], config, access, chdir);
      if r.fault.Some? then r
      else After(r.spawns, Dispatch(argvs[1..], r.config, access, chdir))
  }

  /** A result preceded by children forked earlier. */
  function After(earlier: seq<Spawn>, r: LineResult): LineResult {
    r.(spawns := earlier + r.spawns)
  }

  /** One line: multi_command, then the dispatch loop. */
  function LineEffect(line: string, config: Config, access: AccessOracle, chdir: ChdirOracle): LineResult {
    if |Chunks(line, '&')| > MaxCommands then LineResult(config, [], Some(TooManyCommands))
    else Dispatch(ArgVectors(SplitCommands(line)), config, access, chdir)
  }

  /**
   * main's outer loop: every line up to the first one that is exactly
   * "exit", each run in turn, until a Fault. Running out of lines ends it too.
   */
  function SessionEffect(lines: seq<string>, config: Config, access: AccessOracle, chdir: ChdirOracle): LineResult
    decreases |lines|
  {
    if lines == [] || lines[0] == "exit" then LineResult(config, [], None)
    else
      var r := LineEffect(lines[0], config, access, chdir);
      if r.fault.Some? then r
      else After(r.spawns, SessionEffect(lines[1..], r.config, access, chdir))
  }

  class Shell {
    /** char *path[10], NULL-terminated. */
    var path: array<Option<string>>
    var cwd: string
    /** Children forked for the current line and not yet waited for. */
    var children: nat
    /** Every child forked so far, in order. */
    var spawned: seq<Spawn>
    /** Number of wait calls made so far. */
    var waited: nat

    ghost predicate Valid()
      reads this, path
    {
      path.Length == PathSlots && None in path[..]
    }

    /** The search path as the shell currently sees it. */
    function Entries(): seq<string>
      reads this, path
    {
      Terminated(path[..])
    }

    function Current(): Config
      reads this, path
    {
      Config(Entries(), cwd)
    }

    /** Start-up: path = {"/bin", NULL}, nothing forked yet. */
    constructor (startDir: string)
      ensures Valid() && fresh(path)
      ensures Entries() == ["/bin"] && cwd == startDir
      ensures children == 0 && spawned == [] && waited == 0
    {
      path := new Option<string>[PathSlots](k => if k == 0 then Some("/bin") else None);
      cwd := startDir;
      children := 0;
      spawned := [];
      waited := 0;
      new;
      TerminatedAt(path[..], ["/bin"]);
    }

    /**
     * main's outer loop over the lines read, in order. The line is compared
     * with "exit" whole, before any splitting or trimming. A Fault ends the
     * run, since the C program's behaviour past it is undefined.
     */
    method Session(lines: seq<string>, access: AccessOracle, chdir: ChdirOracle) returns (fault: Option<Fault>)
      requires Valid()
      modifies this, path
      ensures Valid() && path == old(path)
      ensures var r := SessionEffect(lines, old(Current()), access, chdir);
        Current() == r.config && spawned == old(spawned) + r.spawns && fault == r.fault
      ensures fault.None? ==> waited == old(waited) + (|spawned| - |old(spawned)|)
    {
      ghost var target := SessionEffect(lines, Current(), access, chdir);
      ghost var forked: seq<Spawn> := [];
      var k := 0;
      fault := None;
      while k < |lines| && lines[k] != "exit" && fault.None?
        invariant k <= |lines| && Valid() && path == old(path)
        invariant spawned == old(spawned) + forked
        invariant fault.None? ==> waited == old(waited) + |forked|
        invariant fault.None? ==> target == After(forked, SessionEffect(lines[k..], Current(), access, chdir))
        invariant fault.Some? ==> target == LineResult(Current(), forked, fault)
      {
        ghost var r := LineEffect(lines[k], Current(), access, chdir);
        SessionLoopStep(lines, k, Current(), forked, target, access, chdir);
        ghost var before := spawned;
        fault := RunLine(lines[k], access, chdir);
        assert spawned == before + r.spawns;
        AppendAssoc(old(spawned), forked, r.spawns);
        forked := forked + r.spawns;
        k := k + 1;
      }
      if fault.None? {
        assert k == |lines| || lines[k..][0] == "exit";
      }
    }

    /**
     * One pass of main's outer loop body: split the line, dispatch every
     * sub-command in order, then wait once per forked child. A Fault ends
     * the pass where it happens, with no wait.
     */
    method RunLine(line: string, access: AccessOracle, chdir: ChdirOracle) returns (fault: Option<Fault>)
      requires Valid()
      modifies this, path
      ensures Valid() && path == old(path)
      ensures var r := LineEffect(line, old(Current()), access, chdir);
        Current() == r.config && spawned == old(spawned) + r.spawns && fault == r.fault
      ensures fault.None? ==> children == 0 && waited == old(waited) + (|spawned| - |old(spawned)|)
      ensures fault.Some? ==> children == |spawned| - |old(spawned)| && waited == old(waited)
    {
      children := 0;
      if |Chunks(line, '&')| > MaxCommands {
        return Some(TooManyCommands);
      }
      var commandList := MultiCommand(line);
      fault := DispatchAll(commandList, access, chdir);
      if fault.None? {
        WaitForChildren();
      }
    }

    /** The dispatch loop of main: every sub-command in order, until a Fault. */
    method DispatchAll(commandList: seq<string>, access: AccessOracle, chdir: ChdirOracle) returns (fault: Option<Fault>)
      requires Valid()
      modifies this`cwd, this`children, this`spawned, path
      ensures Valid()
      ensures var r := Dispatch(ArgVectors(commandList), old(Current()), access, chdir);
        Current() == r.config && spawned == old(spawned) + r.spawns && fault == r.fault
      ensures children == old(children) + (|spawned| - |old(spawned)|)
    {
      ghost var argvs := ArgVectors(commandList);
      ghost var target := Dispatch(argvs, Current(), access, chdir);
      ghost var forked: seq<Spawn> := [];
      var i := 0;
      fault := None;
      while i < |commandList| && fault.None?
        invariant i <= |commandList| && Valid()
        invariant spawned == old(spawned) + forked && children == old(children) + |forked|
        invariant fault.None? ==> target == After(forked, Dispatch(argvs[i..], Current(), access, chdir))
        invariant fault.Some? ==> target == LineResult(Current(), forked, fault)
      {
        ghost var r := Step(argvs[i], Current(), access, chdir);
        DispatchLoopStep(argvs, i, Current(), forked, target, access, chdir);
        assert argvs[i] == Tokens(commandList[i]);
        ghost var before := spawned;
        fault := DispatchOne(commandList[i], access, chdir);
        assert spawned == before + r.spawns;
        AppendAssoc(old(spawned), forked, r.spawns);
        forked := forked + r.spawns;
        i := i + 1;
      }
      if fault.None? {
        assert argvs[i..] == [];
      }
    }

    /**
     * The body of main's dispatch loop for one sub-command: a built-in
     * changes the shell's state, anything else is forked and counted.
     */
    method DispatchOne(input: string, access: AccessOracle, chdir: ChdirOracle) returns (fault: Option<Fault>)
      requires Valid()
      modifies this`cwd, this`children, this`spawned, path
      ensures Valid()
      ensures var r := Step(Tokens(input), old(Current()), access, chdir);
        Current() == r.config && spawned == old(spawned) + r.spawns && fault == r.fault
      ensures children == old(children) + (|spawned| - |old(spawned)|)
    {
      if |Tokens(input)| > MaxArgs {
        return Some(TooManyArgs);
      }
      if Tokens(input) == [] {
        return Some(EmptyCommand);
      }
      var inbuilt := IsInbuilt(input);
      if inbuilt {
        var argList := SliceCommand(input);
        if argList[0] == "cd" {
          cwd := ChangeDirectory(cwd, argList, chdir);
        }
        if argList[0] == "path" {
          if |argList| > PathSlots {
            return Some(PathOverflow);
          }
          ModifyPath(argList, path);
        }
      } else {
        children := children + 1;
        var snapshot := Entries();
        var outcome := ParseCommand(input, snapshot, access(cwd));
        spawned := spawned + [Spawn(Tokens(input), snapshot, cwd, outcome)];
      }
      return None;
    }

    /** The wait loop of main: one wait per child, down to zero. */
    method WaitForChildren()
      modifies this`children, this`waited
      ensures children == 0 && waited == old(waited) + old(children)
    {
      while children > 0
        invariant waited + children == old(waited) + old(children)
      {
        waited := waited + 1;
        children := children - 1;
      }
    }
  }

  lemma AppendAssoc<T>(a: seq<T>, b: seq<T>, c: seq<T>)
    ensures (a + b) + c == a + (b + c)
  {
  }

  lemma AfterAfter(a: seq<Spawn>, b: seq<Spawn>, r: LineResult)
    ensures After(a, After(b, r)) == After(a + b, r)
  {
    assert a + (b + r.spawns) == (a + b) + r.spawns;
  }

  /** One round of main's dispatch loop, as seen from the whole line's result. */
  lemma DispatchLoopStep(commands: seq<seq<string>>, i: nat, here: Config, forked: seq<Spawn>, target: LineResult,
                         access: AccessOracle, chdir: ChdirOracle)
    requires i < |commands|
    requires target == After(forked, Dispatch(commands[i..], here, access, chdir))
    ensures var r := Step(commands[i], here, access, chdir);
      (r.fault.Some? ==> target == LineResult(r.config, forked + r.spawns, r.fault))
      && (r.fault.None? ==> target == After(forked + r.spawns, Dispatch(commands[i + 1..], r.config, access, chdir)))
  {
    assert commands[i..][0] == commands[i] && commands[i..][1..] == commands[i + 1..];
    var r := Step(commands[i], here, access, chdir);
    if r.fault.None? {
      AfterAfter(forked, r.spawns, Dispatch(commands[i + 1..], r.config, access, chdir));
    }
  }

  /** A line result followed by the dispatch of more sub-commands, unless it faulted. */
  function Continue(r: LineResult, more: seq<seq<string>>, access: AccessOracle, chdir: ChdirOracle): LineResult {
    if r.fault.Some? then r else After(r.spawns, Dispatch(more, r.config, access, chdir))
  }

  /**
   * Dispatching a + b is dispatching a, then -- unless a faulted -- b from the
   * state a left behind, its children after a's.
   */
  lemma {:induction false} DispatchAppend(a: seq<seq<string>>, b: seq<seq<string>>, config: Config, access: AccessOracle, chdir: ChdirOracle)
    ensures Dispatch(a + b, config, access, chdir) == Continue(Dispatch(a, config, access, chdir), b, access, chdir)
    decreases |a|
  {
    if a == [] {
      assert a + b == b;
      assert [] + Dispatch(b, config, access, chdir).spawns == Dispatch(b, config, access, chdir).spawns;
    } else {
      assert (a + b)[0] == a[0] && (a + b)[1..] == a[1..] + b;
      var r := Step(a[0], config, access, chdir);
      if r.fault.None? {
        DispatchAppend(a[1..], b, r.config, access, chdir);
        var tail := Dispatch(a[1..], r.config, access, chdir);
        if tail.fault.None? {
          AfterAfter(r.spawns, tail.spawns, Dispatch(b, tail.config, access, chdir));
        }
      }
    }
  }

  /** One round of main's outer loop, as seen from the whole run's result. */
  lemma SessionLoopStep(lines: seq<string>, k: nat, here: Config, forked: seq<Spawn>, target: LineResult,
                        access: AccessOracle, chdir: ChdirOracle)
    requires k < |lines| && lines[k] != "exit"
    requires target == After(forked, SessionEffect(lines[k..], here, access, chdir))
    ensures var r := LineEffect(lines[k], here, access, chdir);
      (r.fault.Some? ==> target == LineResult(r.config, forked + r.spawns, r.fault))
      && (r.fault.None? ==> target == After(forked + r.spawns, SessionEffect(lines[k + 1..], r.config, access, chdir)))
  {
    assert lines[k..][0] == lines[k] && lines[k..][1..] == lines[k + 1..];
    var r := LineEffect(lines[k], here, access, chdir);
    if r.fault.None? {
      AfterAfter(forked, r.spawns, SessionEffect(lines[k + 1..], r.config, access, chdir));
    }
  }

  /** Nothing after a line that is exactly "exit" is ever run. */
  lemma {:induction false} ExitEndsSession(before: seq<string>, after: seq<string>, config: Config,
                                           access: AccessOracle, chdir: ChdirOracle)
    requires "exit" !in before
    ensures SessionEffect(before + ["exit"] + after, config, access, chdir)
         == SessionEffect(before, config, access, chdir)
    decreases |before|
  {
    var lines := before + ["exit"] + after;
    if before == [] {
      assert lines[0] == "exit";
    } else {
      assert lines[0] == before[0] && lines[1..] == before[1..] + ["exit"] + after;
      var r := LineEffect(before[0], config, access, chdir);
      if r.fault.None? {
        ExitEndsSession(before[1..], after, r.config, access, chdir);
      }
    }
  }

  /**
   * children counts exactly the forked sub-commands: a line dispatched
   * without a Fault forks one child per external sub-command, and a Fault
   * only cuts that short.
   */
  lemma {:induction false} DispatchSpawnCount(argvs: seq<seq<string>>, config: Config, access: AccessOracle, chdir: ChdirOracle)
    ensures |Dispatch(argvs, config, access, chdir).spawns| <= ExternalCount(argvs)
    ensures Dispatch(argvs, config, access, chdir).fault.None?
      ==> |Dispatch(argvs, config, access, chdir).spawns| == ExternalCount(argvs)
    decreases |argvs|
  {
    if argvs != [] {
      var r := Step(argvs[0], config, access, chdir);
      DispatchSpawnCount(argvs[1..], r.config, access, chdir);
    }
  }

  /**
   * The child forked for sub-command j carries the path and working
   * directory left by the sub-commands before it, and comes right after
   * their children: a later built-in on the same line does not reach it.
   */
  lemma SpawnSeesPrefix(argvs: seq<seq<string>>, j: nat, config: Config, access: AccessOracle, chdir: ChdirOracle)
    requires j < |argvs| && IsExternal(argvs[j]) && |argvs[j]| <= MaxArgs
    requires Dispatch(argvs[..j], config, access, chdir).fault.None?
    ensures var before := Dispatch(argvs[..j], config, access, chdir);
      var r := Dispatch(argvs, config, access, chdir);
      |before.spawns| < |r.spawns| && r.spawns[..|before.spawns|] == before.spawns
      && r.spawns[|before.spawns|]
         == Spawn(argvs[j], before.config.path, before.config.cwd, Resolve(argvs[j][0], before.config.path, access(before.config.cwd)))
  {
    assert argvs == argvs[..j] + argvs[j..];
    DispatchAppend(argvs[..j], argvs[j..], config, access, chdir);
    assert argvs[j..][0] == argvs[j];
  }

  /** A one-word sub-command is a one-argument vector. */
  lemma TokensOfWord(w: string)
    requires w != [] && ' ' !in w
    ensures Tokens(w) == [w]
  {
    TokensOfWords([w]);
  }

  /**
   * "ls & & pwd": the empty middle sub-command reaches strcmp with a NULL
   * program name; "ls" has been forked by then, "pwd" never is.
   */
  lemma EmptySubCommandFaults(config: Config, access: AccessOracle, chdir: ChdirOracle)
    ensures LineEffect("ls & & pwd", config, access, chdir)
         == LineResult(config, [Spawn(["ls"], config.path, config.cwd, Resolve("ls", config.path, access(config.cwd)))], Some(EmptyCommand))
  {
    DoubledAmpersand();
    SplitCount("ls & & pwd");
    ChunksCount("ls & & pwd", '&');
    DoubledAmpersandArgs();
    DoubledAmpersandDispatch(config, access, chdir);
  }

  lemma DoubledAmpersandDispatch(config: Config, access: AccessOracle, chdir: ChdirOracle)
    ensures Dispatch([["ls"], [], ["pwd"]], config, access, chdir)
         == LineResult(config, [Spawn(["ls"], config.path, config.cwd, Resolve("ls", config.path, access(config.cwd)))], Some(EmptyCommand))
  {
    var argvs: seq<seq<string>> := [["ls"], [], ["pwd"]];
    LsIsExternal();
    assert argvs[1..] == [[], ["pwd"]];
    assert Dispatch(argvs[1..], config, access, chdir) == LineResult(config, [], Some(EmptyCommand));
  }

  lemma LsIsExternal()
    ensures IsExternal(["ls"])
  {
    assert "ls"[0] != "cd"[0] && "ls"[0] != "path"[0];
  }

  lemma DoubledAmpersandArgs()
    ensures ArgVectors(["ls", "", "pwd"]) == [["ls"], [], ["pwd"]]
  {
    TokensOfWord("ls");
    TokensOfWord("pwd");
    assert Chunks("", ' ') == [""];
  }

  /** A line without '&' whose trimmed text is one word runs that word alone. */
  lemma LineOfOneWord(line: string, w: string, config: Config, access: AccessOracle, chdir: ChdirOracle)
    requires '&' !in line && Trim(line) == w && w != [] && ' ' !in w
    ensures LineEffect(line, config, access, chdir) == Dispatch([[w]], config, access, chdir)
  {
    SplitWithoutAmpersand(line);
    ChunksCount(line, '&');
    TokensOfWord(w);
    assert ArgVectors([w]) == [[w]];
  }

  /** A line that is only "path" empties the search path and forks nothing. */
  lemma PathAloneEmptiesPath(config: Config, access: AccessOracle, chdir: ChdirOracle)
    ensures LineEffect("path", config, access, chdir) == LineResult(Config([], config.cwd), [], None)
  {
    assert Trim("path") == "path";
    LineOfOneWord("path", "path", config, access, chdir);
    var r := Step(["path"], config, access, chdir);
    assert r == LineResult(Config([], config.cwd), [], None);
    assert [["path"]][1..] == [];
  }

  /**
   * The exit test is on the raw line: "exit " is not exit, and its trimmed
   * sub-command "exit" is forked like any other program.
   */
  lemma ExitMustBeExact(rest: seq<string>, config: Config, access: AccessOracle, chdir: ChdirOracle)
    ensures var child := Spawn(["exit"], config.path, config.cwd, Resolve("exit", config.path, access(config.cwd)));
      LineEffect("exit ", config, access, chdir) == LineResult(config, [child], None)
      && SessionEffect(["exit "] + rest, config, access, chdir)
         == After([child], SessionEffect(rest, config, access, chdir))
  {
    assert TrimRight("exit ") == TrimRight("exit");
    assert Trim("exit ") == "exit";
    LineOfOneWord("exit ", "exit", config, access, chdir);
    assert [["exit"]][1..] == [];
    assert (["exit "] + rest)[1..] == rest;
  }

  /**
   * "ls & path /usr/bin & ls" from the start-up path: the first child
   * searches /bin, the second /usr/bin, and the shell keeps /usr/bin.
   */
  lemma PathChangeReachesLaterChildren(cwd: string, access: AccessOracle, chdir: ChdirOracle)
    ensures LineEffect("ls & path /usr/bin & ls", Config(["/bin"], cwd), access, chdir)
         == LineResult(Config(["/usr/bin"], cwd),
                       [Spawn(["ls"], ["/bin"], cwd, Resolve("ls", ["/bin"], access(cwd))),
                        Spawn(["ls"], ["/usr/bin"], cwd, Resolve("ls", ["/usr/bin"], access(cwd)))],
                       None)
  {
    PathChangeCommands();
    SplitCount("ls & path /usr/bin & ls");
    ChunksCount("ls & path /usr/bin & ls", '&');
    PathChangeArgs();
    PathChangeDispatch(cwd, access, chdir);
  }

  lemma PathChangeCommands()
    ensures SplitCommands("ls & path /usr/bin & ls") == ["ls", "path /usr/bin", "ls"]
  {
    PathChangePieces();
    TrimAllOfThree("ls ", " path /usr/bin ", " ls");
    PathChangeTrims();
  }

  lemma PathChangePieces()
    ensures Chunks("ls & path /usr/bin & ls", '&') == ["ls ", " path /usr/bin ", " ls"]
  {
    var parts := ["ls ", " path /usr/bin ", " ls"];
    JoinOfThree(parts[0], parts[1], parts[2], '&');
    assert parts[0] + "&" + parts[1] + "&" + parts[2] == "ls & path /usr/bin & ls";
    ChunksOfJoin(parts, '&');
  }

  lemma PathChangeTrims()
    ensures Trim("ls ") == "ls" && Trim(" path /usr/bin ") == "path /usr/bin" && Trim(" ls") == "ls"
  {
    assert TrimRight("ls ") == TrimRight("ls");
    assert TrimLeft(" path /usr/bin ") == TrimLeft("path /usr/bin ");
    assert TrimRight("path /usr/bin ") == TrimRight("path /usr/bin");
    assert TrimLeft(" ls") == TrimLeft("ls");
  }

  lemma PathChangeArgs()
    ensures ArgVectors(["ls", "path /usr/bin", "ls"]) == [["ls"], ["path", "/usr/bin"], ["ls"]]
  {
    ArgVectorsOfThree("ls", "path /usr/bin", "ls");
    TokensOfWord("ls");
    PathCommandTokens();
  }

  lemma ArgVectorsOfThree(a: string, b: string, c: string)
    ensures ArgVectors([a, b, c]) == [Tokens(a), Tokens(b), Tokens(c)]
  {
  }

  lemma PathCommandTokens()
    ensures Tokens("path /usr/bin") == ["path", "/usr/bin"]
  {
    assert Join(["path", "/usr/bin"], ' ') == "path /usr/bin";
    TokensOfWords(["path", "/usr/bin"]);
  }

  lemma PathChangeDispatch(cwd: string, access: AccessOracle, chdir: ChdirOracle)
    ensures Dispatch([["ls"], ["path", "/usr/bin"], ["ls"]], Config(["/bin"], cwd), access, chdir)
         == LineResult(Config(["/usr/bin"], cwd),
                       [Spawn(["ls"], ["/bin"], cwd, Resolve("ls", ["/bin"], access(cwd))),
                        Spawn(["ls"], ["/usr/bin"], cwd, Resolve("ls", ["/usr/bin"], access(cwd)))],
                       None)
  {
    var argvs: seq<seq<string>> := [["ls"], ["path", "/usr/bin"], ["ls"]];
    LsIsExternal();
    assert "path" != "cd";
    assert argvs[1..] == [["path", "/usr/bin"], ["ls"]] && argvs[1..][1..] == [["ls"]];
    var late := Dispatch([["ls"]], Config(["/usr/bin"], cwd), access, chdir);
    assert late.spawns == [Spawn(["ls"], ["/usr/bin"], cwd, Resolve("ls", ["/usr/bin"], access(cwd)))];
    assert Dispatch(argvs[1..], Config(["/bin"], cwd), access, chdir) == late;
  }

  /**
   * A child searches from the working directory it was forked in: with the
   * relative entry "." on the path, "x" is found in a directory holding an
   * executable x and not in one without.
   */
  lemma WorkingDirectoryMatters(access: AccessOracle, chdir: ChdirOracle)
    requires "./x" in access("/a") && "./x" !in access("/b")
    ensures Step(["x"], Config(["."], "/a"), access, chdir).spawns[0].outcome == Found("./x")
    ensures Step(["x"], Config(["."], "/b"), access, chdir).spawns[0].outcome == NotFound
  {
    XIsExternal();
    assert Candidate(".", "x") == "./x" && Fits("./x");
    assert Resolve("x", ["."][1..], access("/b")) == NotFound;
  }

  lemma XIsExternal()
    ensures IsExternal(["x"])
  {
    assert "x"[0] != "cd"[0] && "x"[0] != "path"[0];
  }
}
