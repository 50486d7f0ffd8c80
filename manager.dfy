// `LitManager` (src/manager.rs): a write-once cache of the binary's path, a
// get-or-create table of process pools keyed by model, the argument vectors
// of the `lit` subcommands it runs, and the rule that turns a finished `lit`
// command into a result.
//
// What the binary locator answers, what the OS does for each spawn and what
// a `lit` command leaves are parameters.

module Manager {
  import opened Base
  import opened Supervisor
  import opened Pool

  /** `LitManager::new()` uses pools of two processes. */
  const DefaultPoolSize: nat := 2

  // ------------------------------------------------------------------
  // Argument vectors and results of `lit` commands
  // ------------------------------------------------------------------

  /** `list`: `lit list`, with `--show_all` when asked. */
  function ListArgs(showAll: bool): (args: seq<string>)
    ensures 1 <= |args| <= 2 && args[0] == "list" && (showAll <==> "--show_all" in args)
  {
    if showAll then ["list", "--show_all"] else ["list"]
  }

  /** `remove`: `lit rm <model>`. */
  function RemoveArgs(model: string): seq<string> {
    ["rm", model]
  }

  /** `pull`: `lit pull <model>`, then `--alias <a>` and `--hf_token <t>` when given. */
  function PullArgs(model: string, alias: Option<string>, token: Option<string>): seq<string> {
    ["pull", model]
    + (if alias.Some? then ["--alias", alias.value] else [])
    + (if token.Some? then ["--hf_token", token.value] else [])
  }

  /** What a `pull` command line asks for. */
  datatype PullRequest = PullRequest(model: string, alias: Option<string>, token: Option<string>)

  /** Reads a `pull` command line back: the model, then the optional flag pairs in their order. */
  function ParsePull(args: seq<string>): Option<PullRequest> {
    if |args| < 2 || args[0] != "pull" then None
    else
      var rest := args[2..];
      var alias := if |rest| >= 2 && rest[0] == "--alias" then Some(rest[1]) else None;
      var rest2 := if alias.Some? then rest[2..] else rest;
      var token := if |rest2| >= 2 && rest2[0] == "--hf_token" then Some(rest2[1]) else None;
      var rest3 := if token.Some? then rest2[2..] else rest2;
      if rest3 == [] then Some(PullRequest(args[1], alias, token)) else None
  }

  /**
   * The `pull` command line holds everything asked and nothing else, in a
   * fixed order: it reads back as the same model, alias and token, whatever
   * their text.
   */
  lemma PullArgsRoundTrip(model: string, alias: Option<string>, token: Option<string>)
    ensures ParsePull(PullArgs(model, alias, token)) == Some(PullRequest(model, alias, token))
  {
    var args := PullArgs(model, alias, token);
    var tail := if token.Some? then ["--hf_token", token.value] else [];
    if alias.Some? {
      assert args[2..] == ["--alias", alias.value] + tail;
      assert args[2..][2..] == tail;
    } else {
      assert args[2..] == tail;
    }
  }

  /** Reads a `list` command line back: whether `--show_all` was asked. */
  function ParseList(args: seq<string>): Option<bool> {
    if args == ["list"] then Some(false)
    else if args == ["list", "--show_all"] then Some(true)
    else None
  }

  /** Reads an `rm` command line back: the model to remove. */
  function ParseRemove(args: seq<string>): Option<string> {
    if |args| == 2 && args[0] == "rm" then Some(args[1]) else None
  }

  /**
   * The `list` and `rm` command lines read back as what was asked, and no
   * subcommand's line reads as another's.
   */
  lemma ListRemoveRoundTrip(model: string, showAll: bool, alias: Option<string>, token: Option<string>)
    ensures ParseList(ListArgs(showAll)) == Some(showAll)
    ensures ParseRemove(RemoveArgs(model)) == Some(model)
    ensures ParsePull(ListArgs(showAll)).None? && ParseRemove(ListArgs(showAll)).None?
    ensures ParsePull(RemoveArgs(model)).None? && ParseList(RemoveArgs(model)).None?
    ensures ParseList(PullArgs(model, alias, token)).None? && ParseRemove(PullArgs(model, alias, token)).None?
  {
  }

  /** What a finished `lit` command left. */
  datatype CommandOutput = CommandOutput(success: bool, stdout: string, stderr: string)

  /**
   * `run_lit_command`: a command that could not be started fails with the
   * context message, one that exited with failure fails with its stderr, and
   * otherwise the answer is its stdout.
   */
  function RunLitCommand(output: Result<CommandOutput, string>): (r: Result<string, string>)
    ensures output.Err? ==> r == Err("Failed to execute lit command")
    ensures output.Ok? && !output.value.success ==> r == Err("Command failed: " + output.value.stderr)
    ensures output.Ok? && output.value.success ==> r == Ok(output.value.stdout)
  {
    match output
    case Err(_) => Err("Failed to execute lit command")
    case Ok(out) =>
      if !out.success then Err("Command failed: " + out.stderr) else Ok(out.stdout)
  }

  /**
   * `pull`: the command runs with inherited output; that it could not be
   * started and that it exited with failure are the same error.
   */
  function PullResult(status: Result<bool, string>): (r: Result<(), string>)
    ensures r.Ok? <==> status == Ok(true)
    ensures r.Err? ==> r.error == "Failed to pull model"
  {
    if status == Ok(true) then Ok(()) else Err("Failed to pull model")
  }

  // ------------------------------------------------------------------
  // The manager
  // ------------------------------------------------------------------

  class LitManager {
    const poolSize: nat
    /** The binary's path, once a lookup has succeeded. */
    var binaryPath: Option<string>
    /** The initialised pools, by model. */
    var pools: map<string, ProcessPool>

    /** `new`: no binary found yet, no pools, and pools of the default size. */
    constructor Default()
      ensures poolSize == DefaultPoolSize && binaryPath.None? && pools == map[]
    {
      poolSize := DefaultPoolSize;
      binaryPath := None;
      pools := map[];
    }

    /** `new_with_pool_size` */
    constructor (poolSize: nat)
      ensures this.poolSize == poolSize && binaryPath.None? && pools == map[]
    {
      this.poolSize := poolSize;
      binaryPath := None;
      pools := map[];
    }

    /**
     * `ensure_binary`: once a path is cached it is the answer and `lookup`
     * (what the binary locator would answer) is not consulted; otherwise the
     * lookup's answer is returned and, when it is a path, cached.
     */
    method EnsureBinary(lookup: Result<string, string>) returns (r: Result<string, string>)
      modifies this`binaryPath
      ensures old(binaryPath).Some? ==> r == Ok(old(binaryPath).value) && binaryPath == old(binaryPath)
      ensures old(binaryPath).None? ==> r == lookup && binaryPath == (if lookup.Ok? then Some(lookup.value) else None)
    {
      if binaryPath.Some? {
        return Ok(binaryPath.value);
      }
      r := lookup;
      if r.Ok? {
        binaryPath := Some(r.value);
      }
    }

    /**
     * `get_pool`: an existing pool is returned as it is; otherwise a new pool
     * of `poolSize` processes is made and initialised, and only a pool whose
     * initialisation succeeded is recorded.  Both the binary lookup and the
     * initialisation can fail; the table is then left as it was.
     */
    method GetPool(model: string, lookup: Result<string, string>, launches: nat -> (seq<string> -> bool))
      returns (r: Result<ProcessPool, string>)
      modifies this`binaryPath, this`pools
      ensures model in old(pools) ==>
        r == Ok(old(pools)[model]) && pools == old(pools) && binaryPath == old(binaryPath)
      ensures model !in old(pools) ==>
        var binary := if old(binaryPath).Some? then Ok(old(binaryPath).value) else lookup;
        var started := StartFrom(model, launches, 0, poolSize);
        && binaryPath == (if binary.Ok? then Some(binary.value) else None)
        && (binary.Err? ==> r == Err(binary.error))
        && (binary.Ok? && started.failure.Some? ==> r == Err(started.failure.value))
        && (r.Ok? <==> binary.Ok? && started.failure.None?)
        && (r.Err? ==> pools == old(pools))
        && (r.Ok? ==>
              && fresh(r.value)
              && pools == old(pools)[model := r.value]
              && r.value.model == model && r.value.capacity == poolSize
              && r.value.processes == started.backends && |r.value.processes| == poolSize)
    {
      if model in pools {
        return Ok(pools[model]);
      }
      var path := EnsureBinary(lookup);
      if path.Err? {
        return Err(path.error);
      }
      var pool := new ProcessPool(model, poolSize);
      var init := pool.Initialize(launches);
      if init.Err? {
        return Err(init.error);
      }
      pools := pools[model := pool];
      r := Ok(pool);
    }
  }
}
