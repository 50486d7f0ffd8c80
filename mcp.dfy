// The MCP service of src/mcp.rs: the download-progress table built from the
// model registry and updated by `pull_model`, the `litert://downloads/{model}`
// resources that expose it, and the table of peers subscribed to those
// resources, with its three clean-up paths (closed peers dropped while
// notifying, one peer dropped when it disconnects, a whole entry dropped on
// unsubscribe).
//
// The `lit list` runs are their outputs, given as parameters; a peer is an
// abstract handle and whether its transport is closed is a parameter of the
// operations that ask; the UUID of a subscription is a number handed out by
// the service, one higher each time.

module Mcp {
  import opened Base
  import opened Text

  /** Rust's `u8`. */
  type U8 = n: nat | n < 256

  datatype Status = Pending | Downloading | Complete | Failed(reason: string)

  /** `DownloadProgress` */
  datatype Progress = Progress(model: string, percent: U8, status: Status)

  /** What a finished `lit` command left: whether it exited with success,
      and its standard output. */
  datatype Output = Output(success: bool, stdout: string)

  /** `ErrorData`: a JSON-RPC error code and message. */
  datatype ErrorData = ErrorData(code: int, message: string)

  /** "Invalid params" and "internal error" of section 5.1 of the JSON-RPC 2.0
      specification, and rmcp's `ErrorCode::RESOURCE_NOT_FOUND`. */
  const InvalidParams: int := -32602
  const InternalError: int := -32603
  const ResourceNotFound: int := -32002

  const DownloadsPrefix: string := "litert://downloads/"
  const ListFailed: string := "Failed to list models from registry"
  const BadUri: string := "Invalid resource URI. Must start with 'litert://downloads/'"
  const NotInRegistry: string := "Model not found in registry"

  function ResourceUri(model: string): (uri: string)
    ensures StripPrefix(uri, DownloadsPrefix) == Some(model)
  {
    assert (DownloadsPrefix + model)[..|DownloadsPrefix|] == DownloadsPrefix;
    DownloadsPrefix + model
  }

  // ------------------------------------------------------------------
  // The model registry (`initialize_model_registry`, `check_if_downloaded`)
  // ------------------------------------------------------------------

  /** A trimmed line of the registry listing that names a model. */
  predicate Listed(model: string) {
    model != [] && !StartsWith(model, "Available") && !StartsWith(model, "Downloaded")
  }

  /** `lines.any(|line| line.trim() == model)` */
  function AnyLineIs(lines: seq<string>, model: string): (r: bool)
    ensures r <==> exists i :: 0 <= i < |lines| && Trim(lines[i]) == model
    decreases |lines|
  {
    if lines == [] then false
    else if Trim(lines[0]) == model then true
    else
      var rest := AnyLineIs(lines[1..], model);
      assert forall i :: 1 <= i < |lines| ==> lines[i] == lines[1..][i - 1];
      rest
  }

  /** `check_if_downloaded`: a failing `lit list` means "not downloaded", a
      `lit list` that could not run at all is an error. */
  function CheckIfDownloaded(local: Result<Output, string>, model: string): (r: Result<bool, string>)
    ensures r.Err? <==> local.Err?
    ensures r.Err? ==> r.error == local.error
    ensures r.Ok? ==>
      (r.value <==> local.value.success && exists line :: line in Lines(local.value.stdout) && Trim(line) == model)
  {
    match local
    case Err(e) => Err(e)
    case Ok(out) => Ok(out.success && AnyLineIs(Lines(out.stdout), model))
  }

  /** The entry of a registry model: downloaded ones are complete. */
  function Entry(model: string, downloaded: bool): Progress {
    if downloaded then Progress(model, 100, Complete) else Progress(model, 0, Pending)
  }

  /** The trimmed lines of a listing. */
  function Names(lines: seq<string>): (r: seq<string>)
    ensures |r| == |lines| && forall i :: 0 <= i < |lines| ==> r[i] == Trim(lines[i])
  {
    seq(|lines|, i requires 0 <= i < |lines| => Trim(lines[i]))
  }

  /**
   * The progress table after the loop has gone over the trimmed lines
   * `names`, where `check(model)` is what `check_if_downloaded` answers.
   */
  function Registry(names: seq<string>, check: string -> Result<bool, string>): Result<map<string, Progress>, string>
    decreases |names|
  {
    if names == [] then Ok(map[])
    else RegistryLine(Registry(names[..|names| - 1], check), names[|names| - 1], check)
  }

  /** One pass of the loop: the table so far and the next trimmed line. */
  function RegistryLine(prev: Result<map<string, Progress>, string>, model: string, check: string -> Result<bool, string>)
    : Result<map<string, Progress>, string>
  {
    match prev
    case Err(e) => Err(e)
    case Ok(m) =>
      if !Listed(model) then Ok(m)
      else
        match check(model)
        case Err(e) => Err(e)
        case Ok(d) => Ok(m[model := Entry(model, d)])
  }

  /** One more line of the listing, told case by case. */
  lemma RegistryNext(names: seq<string>, i: nat, check: string -> Result<bool, string>, table: map<string, Progress>)
    requires i < |names| && Registry(names[..i], check) == Ok(table) && Keyed(table)
    ensures var next := Registry(names[..i + 1], check);
      && (!Listed(names[i]) ==> next == Ok(table))
      && (Listed(names[i]) && check(names[i]).Err? ==> next == Err(check(names[i]).error))
      && (Listed(names[i]) && check(names[i]).Ok? ==>
            next == Ok(table[names[i] := Entry(names[i], check(names[i]).value)]) && Keyed(next.value))
  {
    assert names[..i + 1][..i] == names[..i];
  }

  /** Every key of the table is the model of its entry. */
  ghost predicate Keyed(m: map<string, Progress>) {
    forall k | k in m :: m[k].model == k
  }

  /** What `RegistryEntries` states about the table built from `names`. */
  ghost predicate RegistryFacts(names: seq<string>, check: string -> Result<bool, string>, r: Result<map<string, Progress>, string>) {
    && (r.Err? <==> exists i :: 0 <= i < |names| && Listed(names[i]) && check(names[i]).Err?)
    && (r.Err? ==> exists i :: 0 <= i < |names| && Listed(names[i]) && check(names[i]) == Err(r.error))
    && (r.Ok? ==> forall k :: k in r.value <==> exists i :: 0 <= i < |names| && names[i] == k && Listed(k))
    && (r.Ok? ==> forall k | k in r.value :: r.value[k] == Entry(k, check(k).value))
  }

  /**
   * The table has one entry per trimmed line that names a model, and nothing
   * else; each entry is what `check_if_downloaded` says about its model.  The
   * table fails exactly when that check fails for some named model.
   */
  lemma {:induction false} RegistryEntries(names: seq<string>, check: string -> Result<bool, string>)
    ensures RegistryFacts(names, check, Registry(names, check))
    decreases |names|
  {
    if names != [] {
      var init := names[..|names| - 1];
      RegistryEntries(init, check);
      RegistryStep(names, check, Registry(init, check));
    }
  }

  /** One step of `RegistryEntries`: the last line. */
  lemma RegistryStep(names: seq<string>, check: string -> Result<bool, string>, prev: Result<map<string, Progress>, string>)
    requires names != [] && prev == Registry(names[..|names| - 1], check)
    requires RegistryFacts(names[..|names| - 1], check, prev)
    ensures RegistryFacts(names, check, Registry(names, check))
  {
    var n := |names| - 1;
    var model := names[n];
    if prev.Err? || !Listed(model) || check(model).Err? {
      StepKeeps(names, check, prev, Registry(names, check));
    } else {
      StepInserts(names, check, prev, Registry(names, check));
    }
  }

  /** The last line leaves the table as it was, or fails on it. */
  lemma StepKeeps(names: seq<string>, check: string -> Result<bool, string>, prev: Result<map<string, Progress>, string>,
                  r: Result<map<string, Progress>, string>)
    requires names != [] && RegistryFacts(names[..|names| - 1], check, prev)
    requires var model := names[|names| - 1];
      || (prev.Err? && r == prev)
      || (prev.Ok? && !Listed(model) && r == prev)
      || (prev.Ok? && Listed(model) && check(model).Err? && r == Err(check(model).error))
    ensures RegistryFacts(names, check, r)
  {
    var n := |names| - 1;
    var init := names[..n];
    assert forall i :: 0 <= i < n ==> init[i] == names[i];
  }

  /** The last line names a model whose check succeeded: it is inserted. */
  lemma StepInserts(names: seq<string>, check: string -> Result<bool, string>, prev: Result<map<string, Progress>, string>,
                    r: Result<map<string, Progress>, string>)
    requires names != [] && RegistryFacts(names[..|names| - 1], check, prev)
    requires var model := names[|names| - 1];
      && prev.Ok? && Listed(model) && check(model).Ok?
      && r == Ok(prev.value[model := Entry(model, check(model).value)])
    ensures RegistryFacts(names, check, r)
  {
    var n := |names| - 1;
    var init := names[..n];
    assert forall i :: 0 <= i < n ==> init[i] == names[i];
    var model := names[n];
    forall k
      ensures k in r.value <==> exists i :: 0 <= i < |names| && names[i] == k && Listed(k)
    {
      if k == model {
        assert names[n] == k;
      }
    }
  }

  /** The answer of `check_if_downloaded` for a given `lit list` run. */
  function Checker(local: Result<Output, string>): string -> Result<bool, string> {
    model => CheckIfDownloaded(local, model)
  }

  /**
   * With the real check: a model is (100, Complete) exactly when some trimmed
   * line of `lit list` equals it, otherwise (0, Pending); the table fails
   * exactly when `lit list` could not run and some line names a model.
   */
  lemma RegistryFromListing(lines: seq<string>, local: Result<Output, string>)
    ensures var r := Registry(Names(lines), Checker(local));
      && (r.Err? <==> local.Err? && exists i :: 0 <= i < |lines| && Listed(Trim(lines[i])))
      && (r.Err? ==> r.error == local.error)
      && (r.Ok? ==> forall k :: k in r.value <==> exists i :: 0 <= i < |lines| && Trim(lines[i]) == k && Listed(k))
      && (r.Ok? ==> forall k | k in r.value ::
            r.value[k] == Entry(k, local.value.success && exists line :: line in Lines(local.value.stdout) && Trim(line) == k))
  {
    var names := Names(lines);
    RegistryEntries(names, Checker(local));
    var r := Registry(names, Checker(local));
    if r.Ok? {
      forall k | k in r.value
        ensures r.value[k] == Entry(k, local.value.success && exists line :: line in Lines(local.value.stdout) && Trim(line) == k)
      {
        assert Checker(local)(k) == CheckIfDownloaded(local, k);
      }
    }
  }

  /**
   * `initialize_model_registry`: `lit list --show_all` must run and succeed;
   * then every trimmed line that names a model gets its entry, asking
   * `check_if_downloaded` (here: the output of `lit list`) about it.
   */
  method LoadRegistry(registry: Result<Output, string>, local: Result<Output, string>)
    returns (r: Result<map<string, Progress>, string>)
    ensures registry.Err? ==> r == Err(registry.error)
    ensures registry.Ok? && !registry.value.success ==> r == Err(ListFailed)
    ensures registry.Ok? && registry.value.success ==> r == Registry(Names(Lines(registry.value.stdout)), Checker(local))
    ensures r.Ok? ==> Keyed(r.value)
  {
    if registry.Err? {
      return Err(registry.error);
    }
    if !registry.value.success {
      return Err(ListFailed);
    }
    r := LoadNames(Names(Lines(registry.value.stdout)), local);
  }

  /** The loop of `initialize_model_registry` over the trimmed lines. */
  method LoadNames(names: seq<string>, local: Result<Output, string>) returns (r: Result<map<string, Progress>, string>)
    ensures r == Registry(names, Checker(local))
    ensures r.Ok? ==> Keyed(r.value)
  {
    ghost var check := Checker(local);
    var table: map<string, Progress> := map[];
    var i := 0;
    while i < |names|
      invariant i <= |names|
      invariant Registry(names[..i], check) == Ok(table) && Keyed(table)
    {
      RegistryNext(names, i, check, table);
      var model := names[i];
      if Listed(model) {
        var downloaded := CheckIfDownloaded(local, model);
        assert check(model) == downloaded;
        if downloaded.Err? {
          RegistryPrefix(names, i + 1, check);
          return Err(downloaded.error);
        }
        table := table[model := Entry(model, downloaded.value)];
      }
      i := i + 1;
    }
    assert names[..i] == names;
    r := Ok(table);
  }

  /** Once the loop has failed, the rest of the listing does not matter. */
  lemma {:induction false} RegistryPrefix(names: seq<string>, i: nat, check: string -> Result<bool, string>)
    requires i <= |names| && Registry(names[..i], check).Err?
    ensures Registry(names, check) == Registry(names[..i], check)
    decreases |names| - i
  {
    if i < |names| {
      assert names[..i + 1][..i] == names[..i];
      RegistryPrefix(names, i + 1, check);
    } else {
      assert names[..i] == names;
    }
  }

  // ------------------------------------------------------------------
  // Reading the table (`query_download_progress`, `read_resource`,
  // `list_resources`)
  // ------------------------------------------------------------------

  /** `query_download_progress` */
  function Query(table: map<string, Progress>, model: string): (r: Option<Progress>)
    ensures r.Some? <==> model in table
    ensures r.Some? ==> r.value == table[model]
  {
    if model in table then Some(table[model]) else None
  }

  /**
   * `read_resource`: the URI must start with `litert://downloads/` and the
   * rest must be a model of the table; both failures are "resource not
   * found".  The entry is returned as a value (its JSON text is not modelled).
   */
  function ReadResource(table: map<string, Progress>, uri: string): (r: Result<Progress, ErrorData>)
    ensures r.Ok? <==> StartsWith(uri, DownloadsPrefix) && uri[|DownloadsPrefix|..] in table
    ensures r.Ok? ==> r.value == table[uri[|DownloadsPrefix|..]]
    ensures !StartsWith(uri, DownloadsPrefix) ==> r == Err(ErrorData(ResourceNotFound, "Invalid resource URI"))
    ensures StartsWith(uri, DownloadsPrefix) && uri[|DownloadsPrefix|..] !in table ==>
              r == Err(ErrorData(ResourceNotFound, "Download progress not found"))
  {
    match StripPrefix(uri, DownloadsPrefix)
    case None => Err(ErrorData(ResourceNotFound, "Invalid resource URI"))
    case Some(model) =>
      if model in table then Ok(table[model])
      else Err(ErrorData(ResourceNotFound, "Download progress not found"))
  }

  /** A listed resource (`RawResource` without icons and size). */
  datatype Resource = Resource(uri: string, name: string, description: string, mimeType: string, title: string)

  function Describe(p: Progress): Resource {
    Resource(ResourceUri(p.model), p.model,
             "Download progress for " + p.model + " (" + Decimal(p.percent) + "%)",
             "application/json", p.model + " Download")
  }

  /**
   * `list_resources`: one resource per entry of the table (the order of a
   * `HashMap` is unspecified, so the result is a set).
   */
  function ListResources(table: map<string, Progress>): (r: set<Resource>)
    ensures forall k | k in table :: Describe(table[k]) in r
    ensures forall res | res in r :: exists k :: k in table && res == Describe(table[k])
  {
    set k | k in table :: Describe(table[k])
  }

  /** Every listed resource reads back as the entry it describes. */
  lemma ListedResourcesRead(table: map<string, Progress>, res: Resource)
    requires Keyed(table) && res in ListResources(table)
    ensures res.name in table && ReadResource(table, res.uri) == Ok(table[res.name])
  {
    var k :| k in table && res == Describe(table[k]);
    assert StripPrefix(res.uri, DownloadsPrefix) == Some(k);
  }

  /** After `update_progress`, both `query_download_progress` and
      `read_resource` give the new entry, and no other model changes. */
  lemma UpdateThenRead(table: map<string, Progress>, model: string, percent: U8, status: Status)
    ensures var t := table[model := Progress(model, percent, status)];
      && Query(t, model) == Some(Progress(model, percent, status))
      && ReadResource(t, ResourceUri(model)) == Ok(Progress(model, percent, status))
      && (forall m | m != model :: Query(t, m) == Query(table, m))
  {
    var t := table[model := Progress(model, percent, status)];
    assert StripPrefix(ResourceUri(model), DownloadsPrefix) == Some(model);
  }

  // ------------------------------------------------------------------
  // The `pull_model` progress schedule
  // ------------------------------------------------------------------

  /** The background task: `0, 10, .., 100`, `Downloading` below 100. */
  function Schedule(model: string): (s: seq<Progress>)
    ensures |s| == 11
    ensures s[0] == Progress(model, 0, Downloading) && s[10] == Progress(model, 100, Complete)
    ensures forall k :: 0 <= k < 10 ==>
      s[k].status == Downloading && s[k + 1].percent == s[k].percent + 10 && s[k].model == model
  {
    seq(11, k requires 0 <= k < 11 => Progress(model, 10 * k, if 10 * k < 100 then Downloading else Complete))
  }

  /** The last update of a pull: complete on success, failed at 0 otherwise. */
  function Final(model: string, outcome: Result<(), string>): (p: Progress)
    ensures outcome.Ok? <==> p.status == Complete
    ensures p.model == model && p.percent == (if outcome.Ok? then 100 else 0)
    ensures outcome.Err? ==> p.status == Failed(outcome.error)
  {
    match outcome
    case Ok(_) => Progress(model, 100, Complete)
    case Err(e) => Progress(model, 0, Failed(e))
  }

  /**
   * The entry a pull leaves when it ends before its last update: (0, Pending)
   * when the background task has not reported yet, otherwise the task's
   * latest step, complete only once it has reported all eleven.
   */
  function Progressed(model: string, ticks: nat): (p: Progress)
    ensures p.model == model
    ensures p.percent == (if ticks == 0 then 0 else if ticks < 11 then 10 * (ticks - 1) else 100)
    ensures ticks == 0 <==> p.status == Pending
    ensures ticks >= 11 <==> p.status == Complete
    ensures 0 < ticks < 11 <==> p.status == Downloading
  {
    if ticks == 0 then Progress(model, 0, Pending)
    else Schedule(model)[(if ticks < 11 then ticks else 11) - 1]
  }

  /** What `pull_model` answers when the blocking task that ran the pull could not be joined. */
  function JoinFailure(joinError: string): ErrorData {
    ErrorData(InternalError, "Task failed: " + joinError)
  }

  /** What `pull_model` answers. */
  function PullAnswer(model: string, outcome: Result<(), string>): Result<string, ErrorData> {
    match outcome
    case Ok(_) => Ok("Successfully pulled model: " + model + ". Check litert://downloads/" + model + " for progress.")
    case Err(e) => Err(ErrorData(InternalError, "Failed to pull model: " + e))
  }

  // ------------------------------------------------------------------
  // Subscriber lists
  // ------------------------------------------------------------------

  /** `SubscribedPeer`: the subscription's id and the peer's handle. */
  datatype SubscribedPeer = SubscribedPeer(id: nat, peer: nat)

  /** The peers whose transport is still open, in order. */
  function Open(s: seq<SubscribedPeer>, closed: nat -> bool): (r: seq<SubscribedPeer>)
    ensures forall p :: p in r <==> p in s && !closed(p.peer)
    decreases |s|
  {
    if s == [] then []
    else
      var init := Open(s[..|s| - 1], closed);
      assert forall p :: p in s <==> p in s[..|s| - 1] || p == s[|s| - 1];
      if closed(s[|s| - 1].peer) then init else init + [s[|s| - 1]]
  }

  /** `failed_indices`: the positions of the closed peers. */
  function ClosedIndices(s: seq<SubscribedPeer>, closed: nat -> bool): (r: seq<nat>)
    ensures Ascending(r, |s|)
    ensures forall k :: 0 <= k < |r| ==> closed(s[r[k]].peer)
    ensures forall i :: 0 <= i < |s| && closed(s[i].peer) ==> i in r
    decreases |s|
  {
    if s == [] then []
    else
      var init := ClosedIndices(s[..|s| - 1], closed);
      if closed(s[|s| - 1].peer) then init + [|s| - 1] else init
  }

  /** Indices below `n`, strictly increasing. */
  predicate Ascending(idx: seq<nat>, n: nat) {
    && (forall k :: 0 <= k < |idx| ==> idx[k] < n)
    && (forall k, l :: 0 <= k < l < |idx| ==> idx[k] < idx[l])
  }

  /** `Vec::swap_remove(i)`: the last element takes the place of the i-th. */
  function SwapRemove(s: seq<SubscribedPeer>, i: nat): (r: seq<SubscribedPeer>)
    requires i < |s|
    ensures |r| == |s| - 1 && r[..i] == s[..i]
    ensures multiset(r) == multiset(s) - multiset{s[i]}
  {
    var last := |s| - 1;
    if i == last then
      SplitLast(s);
      s[..i]
    else
      SplitAt(s, i);
      s[..i] + [s[last]] + s[i + 1..last]
  }

  lemma SplitLast(s: seq<SubscribedPeer>)
    requires s != []
    ensures multiset(s) == multiset(s[..|s| - 1]) + multiset{s[|s| - 1]}
  {
    assert s == s[..|s| - 1] + [s[|s| - 1]];
  }

  lemma SplitAt(s: seq<SubscribedPeer>, i: nat)
    requires i < |s| - 1
    ensures var last := |s| - 1;
      && (s[..i] + [s[last]] + s[i + 1..last])[..i] == s[..i]
      && multiset(s) == multiset(s[..i] + [s[last]] + s[i + 1..last]) + multiset{s[i]}
  {
    var last := |s| - 1;
    assert s == s[..i] + [s[i]] + s[i + 1..last] + [s[last]];
  }

  /** The reverse loop over `failed_indices`: the largest index first. */
  function SwapRemoveAll(s: seq<SubscribedPeer>, idx: seq<nat>): seq<SubscribedPeer>
    requires Ascending(idx, |s|)
    decreases |idx|
  {
    if idx == [] then s
    else SwapRemoveAll(SwapRemove(s, idx[|idx| - 1]), idx[..|idx| - 1])
  }

  lemma SwapRemoveAllStep(s: seq<SubscribedPeer>, idx: seq<nat>)
    requires Ascending(idx, |s|) && idx != []
    ensures |s| > 0 && Ascending(idx[..|idx| - 1], |s| - 1)
    ensures SwapRemoveAll(s, idx) == SwapRemoveAll(SwapRemove(s, idx[|idx| - 1]), idx[..|idx| - 1])
  {
    AscendingInit(idx, |s|);
  }

  /** The elements of `s` at the positions `idx`. */
  function Picked(s: seq<SubscribedPeer>, idx: seq<nat>): (r: seq<SubscribedPeer>)
    requires forall k :: 0 <= k < |idx| ==> idx[k] < |s|
    ensures |r| == |idx| && forall k :: 0 <= k < |idx| ==> r[k] == s[idx[k]]
  {
    seq(|idx|, k requires 0 <= k < |idx| => s[idx[k]])
  }

  /** Removing the given positions, largest first, removes exactly the
      elements at those positions. */
  lemma {:induction false} SwapRemoveAllMultiset(s: seq<SubscribedPeer>, idx: seq<nat>)
    requires Ascending(idx, |s|)
    ensures multiset(SwapRemoveAll(s, idx)) == multiset(s) - multiset(Picked(s, idx))
    decreases |idx|
  {
    if idx != [] {
      var i := idx[|idx| - 1];
      var init := idx[..|idx| - 1];
      AscendingInit(idx, |s|);
      var t := SwapRemove(s, i);
      SwapRemoveAllMultiset(t, init);
      PickedBelow(s, t, i, init);
      PickedSnoc(s, idx);
    }
  }

  /** Without its last index, an ascending sequence stays below that index. */
  lemma AscendingInit(idx: seq<nat>, n: nat)
    requires Ascending(idx, n) && idx != []
    ensures Ascending(idx[..|idx| - 1], idx[|idx| - 1])
    ensures n > 0 && Ascending(idx[..|idx| - 1], n - 1)
  {
  }

  /** Positions below `i` pick the same elements from two sequences that
      agree below `i`. */
  lemma PickedBelow(s: seq<SubscribedPeer>, t: seq<SubscribedPeer>, i: nat, idx: seq<nat>)
    requires i <= |s| && i <= |t| && t[..i] == s[..i]
    requires Ascending(idx, i)
    ensures Picked(t, idx) == Picked(s, idx)
  {
    forall k | 0 <= k < |idx|
      ensures t[idx[k]] == s[idx[k]]
    {
      assert t[..i][idx[k]] == s[..i][idx[k]];
    }
  }

  lemma PickedSnoc(s: seq<SubscribedPeer>, idx: seq<nat>)
    requires idx != [] && forall k :: 0 <= k < |idx| ==> idx[k] < |s|
    ensures Picked(s, idx) == Picked(s, idx[..|idx| - 1]) + [s[idx[|idx| - 1]]]
  {
  }

  /** Every peer is either open or at one of the closed positions. */
  lemma {:induction false} ClosedPartition(s: seq<SubscribedPeer>, closed: nat -> bool)
    ensures multiset(s) == multiset(Open(s, closed)) + multiset(Picked(s, ClosedIndices(s, closed)))
    decreases |s|
  {
    if s != [] {
      ClosedPartition(s[..|s| - 1], closed);
      PartitionStep(s, closed);
    }
  }

  /** One step of `ClosedPartition`: the last peer. */
  lemma PartitionStep(s: seq<SubscribedPeer>, closed: nat -> bool)
    requires s != []
    requires var init := s[..|s| - 1];
      multiset(init) == multiset(Open(init, closed)) + multiset(Picked(init, ClosedIndices(init, closed)))
    ensures multiset(s) == multiset(Open(s, closed)) + multiset(Picked(s, ClosedIndices(s, closed)))
  {
    var n := |s| - 1;
    var init := s[..n];
    var x := s[n];
    var ci := ClosedIndices(init, closed);
    var open := Open(init, closed);
    var picked := Picked(init, ci);
    SplitLast(s);
    PickedBelow(init, s, n, ci);
    if closed(x.peer) {
      assert Open(s, closed) == open;
      var ci' := ci + [n];
      assert ClosedIndices(s, closed) == ci';
      assert ci'[..|ci|] == ci;
      PickedSnoc(s, ci');
      assert Picked(s, ci') == picked + [x];
      assert multiset(picked + [x]) == multiset(picked) + multiset{x};
    } else {
      assert Open(s, closed) == open + [x];
      assert ClosedIndices(s, closed) == ci;
      assert multiset(open + [x]) == multiset(open) + multiset{x};
    }
  }

  /** The list `notify_subscribers` leaves behind. */
  function Survivors(s: seq<SubscribedPeer>, closed: nat -> bool): seq<SubscribedPeer> {
    SwapRemoveAll(s, ClosedIndices(s, closed))
  }

  /**
   * The clean-up of `notify_subscribers` removes exactly the closed peers:
   * what is left is the open peers, possibly in another order.
   */
  lemma SurvivorsAreOpen(s: seq<SubscribedPeer>, closed: nat -> bool)
    ensures multiset(Survivors(s, closed)) == multiset(Open(s, closed))
    ensures Survivors(s, closed) == [] <==> Open(s, closed) == []
  {
    SwapRemoveAllMultiset(s, ClosedIndices(s, closed));
    ClosedPartition(s, closed);
    var left := Survivors(s, closed);
    assert |multiset(left)| == |left|;
    assert |multiset(Open(s, closed))| == |Open(s, closed)|;
  }

  /** What `notify_subscribers(uri)` does to the subscription table. */
  function AfterNotify(subs: map<string, seq<SubscribedPeer>>, uri: string, closed: nat -> bool): map<string, seq<SubscribedPeer>> {
    if uri !in subs then subs
    else
      var left := Survivors(subs[uri], closed);
      if left == [] then subs - {uri} else subs[uri := left]
  }

  /**
   * After `notify_subscribers(uri)` the URI's list holds exactly its open
   * peers and is removed when there are none; other URIs, and the whole table
   * when the URI has no entry, are unchanged.
   */
  lemma NotifyRemovesClosedPeers(subs: map<string, seq<SubscribedPeer>>, uri: string, closed: nat -> bool)
    ensures var n := AfterNotify(subs, uri, closed);
      && (uri !in subs ==> n == subs)
      && (uri in subs ==> (uri in n <==> Open(subs[uri], closed) != []))
      && (uri in n ==> multiset(n[uri]) == multiset(Open(subs[uri], closed)))
      && (forall u | u != uri :: (u in n <==> u in subs) && (u in n ==> n[u] == subs[u]))
  {
    if uri in subs {
      SurvivorsAreOpen(subs[uri], closed);
    }
  }

  /** `retain(|p| p.id != id)`: the peers of another subscription, in order. */
  function Without(s: seq<SubscribedPeer>, id: nat): (r: seq<SubscribedPeer>)
    ensures forall p :: p in r <==> p in s && p.id != id
    ensures (forall p | p in s :: p.id != id) ==> r == s
    decreases |s|
  {
    if s == [] then []
    else
      var init := Without(s[..|s| - 1], id);
      assert forall p :: p in s <==> p in s[..|s| - 1] || p == s[|s| - 1];
      assert s == s[..|s| - 1] + [s[|s| - 1]];
      if s[|s| - 1].id == id then init else init + [s[|s| - 1]]
  }

  /** Disconnecting a subscription whose id is fresh undoes its `subscribe`. */
  lemma DisconnectUndoesSubscribe(s: seq<SubscribedPeer>, p: SubscribedPeer)
    requires forall q | q in s :: q.id != p.id
    ensures Without(s + [p], p.id) == s
  {
    assert (s + [p])[..|s|] == s;
  }

  /** The list of a URI, empty when it has no entry. */
  function Subscribers(subs: map<string, seq<SubscribedPeer>>, uri: string): seq<SubscribedPeer> {
    if uri in subs then subs[uri] else []
  }

  /** What the disconnect clean-up of subscription `id` does to the table. */
  function AfterDisconnect(subs: map<string, seq<SubscribedPeer>>, uri: string, id: nat): map<string, seq<SubscribedPeer>> {
    if uri !in subs then subs
    else
      var left := Without(subs[uri], id);
      if left == [] then subs - {uri} else subs[uri := left]
  }

  /** The first loop of `notify_subscribers`: the positions of the closed
      peers, and the open peers, which get notified. */
  method ScanPeers(peers: seq<SubscribedPeer>, closed: nat -> bool)
    returns (failed: seq<nat>, notified: seq<SubscribedPeer>)
    ensures failed == ClosedIndices(peers, closed)
    ensures notified == Open(peers, closed)
  {
    failed, notified := [], [];
    var i := 0;
    while i < |peers|
      invariant i <= |peers|
      invariant failed == ClosedIndices(peers[..i], closed)
      invariant notified == Open(peers[..i], closed)
    {
      assert peers[..i + 1][..i] == peers[..i];
      if closed(peers[i].peer) {
        failed := failed + [i];
      } else {
        notified := notified + [peers[i]];
      }
      i := i + 1;
    }
    assert peers[..i] == peers;
  }

  /** The second loop of `notify_subscribers`: `swap_remove` at each failed
      position, the largest first. */
  method RemoveClosed(peers: seq<SubscribedPeer>, failed: seq<nat>) returns (left: seq<SubscribedPeer>)
    requires Ascending(failed, |peers|)
    ensures left == SwapRemoveAll(peers, failed)
  {
    left := peers;
    var j := |failed|;
    assert failed[..j] == failed;
    while j > 0
      invariant j <= |failed|
      invariant Ascending(failed[..j], |left|)
      invariant SwapRemoveAll(left, failed[..j]) == SwapRemoveAll(peers, failed)
    {
      RemoveStep(left, failed, j, SwapRemoveAll(peers, failed));
      left := SwapRemove(left, failed[j - 1]);
      j := j - 1;
    }
  }

  /** One pass of `RemoveClosed`'s loop. */
  lemma RemoveStep(left: seq<SubscribedPeer>, failed: seq<nat>, j: nat, goal: seq<SubscribedPeer>)
    requires 0 < j <= |failed| && Ascending(failed[..j], |left|)
    requires SwapRemoveAll(left, failed[..j]) == goal
    ensures failed[j - 1] < |left|
    ensures Ascending(failed[..j - 1], |left| - 1)
    ensures SwapRemoveAll(SwapRemove(left, failed[j - 1]), failed[..j - 1]) == goal
  {
    SwapRemoveAllStep(left, failed[..j]);
    TakeTake(failed, j - 1, j);
  }

  /** The survivors are peers of the original list. */
  lemma SurvivorsWithin(s: seq<SubscribedPeer>, closed: nat -> bool)
    ensures forall p | p in Survivors(s, closed) :: p in s
  {
    SurvivorsAreOpen(s, closed);
    forall p | p in Survivors(s, closed)
      ensures p in s
    {
      assert p in multiset(Survivors(s, closed));
    }
  }

  /** The two tables agree on every URI but `uri`. */
  ghost predicate OthersUnchanged(a: map<string, seq<SubscribedPeer>>, b: map<string, seq<SubscribedPeer>>, uri: string) {
    forall u | u != uri :: (u in b <==> u in a) && (u in b ==> b[u] == a[u])
  }

  /** Writing a key three times leaves only the last value. */
  lemma Overwrite<V>(m: map<string, V>, k: string, a: V, b: V, c: V)
    ensures m[k := a][k := b][k := c] == m[k := c]
  {
  }

  lemma NotifyKeepsOthers(subs: map<string, seq<SubscribedPeer>>, uri: string, closed: nat -> bool)
    ensures OthersUnchanged(subs, AfterNotify(subs, uri, closed), uri)
  {
  }

  lemma OthersUnchangedTrans(a: map<string, seq<SubscribedPeer>>, b: map<string, seq<SubscribedPeer>>,
                             c: map<string, seq<SubscribedPeer>>, uri: string)
    requires OthersUnchanged(a, b, uri) && OthersUnchanged(b, c, uri)
    ensures OthersUnchanged(a, c, uri)
  {
  }

  // ------------------------------------------------------------------
  // The service
  // ------------------------------------------------------------------

  /** `LiteRtMcpService`: the progress table, the subscription table, and the
      next subscription id to hand out. */
  class McpService {
    var downloads: map<string, Progress>
    var subscriptions: map<string, seq<SubscribedPeer>>
    var nextId: nat

    /**
     * Every progress entry sits under its own model; no subscription entry
     * is an empty list; every id in use is below `nextId`, so the next one is
     * fresh.
     */
    ghost predicate Valid()
      reads this
    {
      && Keyed(downloads)
      && (forall u | u in subscriptions :: subscriptions[u] != [])
      && (forall u, p | u in subscriptions && p in subscriptions[u] :: p.id < nextId)
    }

    /** `new`: the table `initialize_model_registry` built, no subscriptions. */
    constructor (registry: map<string, Progress>)
      requires Keyed(registry)
      ensures Valid()
      ensures downloads == registry && subscriptions == map[] && nextId == 0
    {
      downloads := registry;
      subscriptions := map[];
      nextId := 0;
    }

    /**
     * `notify_subscribers(uri)`: the open peers of the URI are notified, in
     * order; the closed ones are gathered and `swap_remove`d, largest index
     * first; an emptied list loses its entry.
     */
    method NotifySubscribers(uri: string, closed: nat -> bool) returns (notified: seq<SubscribedPeer>)
      requires Valid()
      modifies this`subscriptions
      ensures Valid()
      ensures subscriptions == AfterNotify(old(subscriptions), uri, closed)
      ensures notified == Open(Subscribers(old(subscriptions), uri), closed)
    {
      if uri !in subscriptions {
        return [];
      }
      var peers := subscriptions[uri];
      var failed;
      failed, notified := ScanPeers(peers, closed);
      var left := RemoveClosed(peers, failed);
      SurvivorsWithin(peers, closed);
      if left == [] {
        subscriptions := subscriptions - {uri};
      } else {
        subscriptions := subscriptions[uri := left];
      }
    }

    /** `update_progress`: the model's entry is overwritten, then its
        resource's subscribers are notified. */
    method UpdateProgress(model: string, percent: U8, status: Status, closed: nat -> bool)
      returns (notified: seq<SubscribedPeer>)
      requires Valid()
      modifies this`downloads, this`subscriptions
      ensures Valid()
      ensures downloads == old(downloads)[model := Progress(model, percent, status)]
      ensures subscriptions == AfterNotify(old(subscriptions), ResourceUri(model), closed)
      ensures notified == Open(Subscribers(old(subscriptions), ResourceUri(model)), closed)
    {
      downloads := downloads[model := Progress(model, percent, status)];
      notified := NotifySubscribers(ResourceUri(model), closed);
    }

    /**
     * The background task of `pull_model`: the first `steps` entries of the
     * schedule, each written with `update_progress`.
     */
    method ReportSchedule(model: string, steps: nat, closed: nat -> bool) returns (ghost reported: seq<Progress>)
      requires Valid() && steps <= 11 && model in downloads
      modifies this`downloads, this`subscriptions
      ensures Valid()
      ensures model in downloads && downloads == old(downloads)[model := downloads[model]]
      ensures reported == Schedule(model)[..steps]
      ensures steps == 0 ==> downloads == old(downloads)
      ensures steps > 0 ==> downloads[model] == Schedule(model)[steps - 1]
      ensures OthersUnchanged(old(subscriptions), subscriptions, ResourceUri(model))
    {
      var uri := ResourceUri(model);
      var schedule := Schedule(model);
      var k := 0;
      reported := [];
      while k < steps
        invariant k <= steps
        invariant Valid()
        invariant model in downloads && downloads == old(downloads)[model := downloads[model]]
        invariant OthersUnchanged(old(subscriptions), subscriptions, uri)
        invariant reported == schedule[..k]
        invariant k == 0 ==> downloads == old(downloads)
        invariant k > 0 ==> downloads[model] == schedule[k - 1]
      {
        TakeOneMore(schedule, k);
        reported := reported + [schedule[k]];
        ghost var before := subscriptions;
        var notified := UpdateProgress(model, schedule[k].percent, schedule[k].status, closed);
        NotifyKeepsOthers(before, uri, closed);
        OthersUnchangedTrans(old(subscriptions), before, subscriptions, uri);
        k := k + 1;
      }
    }

    /**
     * `pull_model`: the entry starts at (0, Pending); the background task
     * then reports the first `ticks` steps of the schedule. When the blocking
     * task that ran the pull cannot be joined (`joinError`), the answer is an
     * internal error at once: the background task is left running and no
     * last entry is written. Otherwise the background task is aborted, the
     * pull's outcome writes the last entry, and the answer follows it.
     */
    method PullModel(model: string, ticks: nat, joinError: Option<string>, outcome: Result<(), string>,
                     closed: nat -> bool)
      returns (r: Result<string, ErrorData>)
      requires Valid()
      modifies this`downloads, this`subscriptions
      ensures Valid()
      ensures joinError.Some? ==> r == Err(JoinFailure(joinError.value))
      ensures joinError.Some? ==> downloads == old(downloads)[model := Progressed(model, ticks)]
      ensures joinError.None? ==> r == PullAnswer(model, outcome)
      ensures joinError.None? ==> downloads == old(downloads)[model := Final(model, outcome)]
      ensures OthersUnchanged(old(subscriptions), subscriptions, ResourceUri(model))
    {
      var uri := ResourceUri(model);
      var notified := UpdateProgress(model, 0, Pending, closed);
      NotifyKeepsOthers(old(subscriptions), uri, closed);
      ghost var first := subscriptions;
      ghost var d1 := downloads;
      ghost var reported := ReportSchedule(model, if ticks < 11 then ticks else 11, closed);
      OthersUnchangedTrans(old(subscriptions), first, subscriptions, uri);
      ghost var d2 := downloads;
      if joinError.Some? {
        assert d2[model] == Progressed(model, ticks);
        Overwrite(old(downloads), model, Progress(model, 0, Pending), d1[model], d2[model]);
        return Err(JoinFailure(joinError.value));
      }
      ghost var before := subscriptions;
      var last := Final(model, outcome);
      notified := UpdateProgress(model, last.percent, last.status, closed);
      NotifyKeepsOthers(before, uri, closed);
      OthersUnchangedTrans(old(subscriptions), before, subscriptions, uri);
      Overwrite(old(downloads), model, d1[model], d2[model], last);
      r := PullAnswer(model, outcome);
    }

    /**
     * `subscribe`: the URI must start with `litert://downloads/` (invalid
     * params otherwise) and name a model of the table (resource not found
     * otherwise); then one peer with a fresh id is appended to the URI's list.
     * The id is returned: it is what the disconnect clean-up of this
     * subscription removes.
     */
    method Subscribe(uri: string, peer: nat) returns (r: Result<nat, ErrorData>)
      requires Valid()
      modifies this`subscriptions, this`nextId
      ensures Valid()
      ensures !StartsWith(uri, DownloadsPrefix) ==> r == Err(ErrorData(InvalidParams, BadUri))
      ensures StartsWith(uri, DownloadsPrefix) && uri[|DownloadsPrefix|..] !in downloads ==>
        r == Err(ErrorData(ResourceNotFound, NotInRegistry))
      ensures r.Err? ==> subscriptions == old(subscriptions) && nextId == old(nextId)
      ensures r.Ok? <==> StartsWith(uri, DownloadsPrefix) && uri[|DownloadsPrefix|..] in downloads
      ensures r.Ok? ==>
        && (forall u, p | u in old(subscriptions) && p in old(subscriptions)[u] :: p.id != r.value)
        && subscriptions == old(subscriptions)[uri := Subscribers(old(subscriptions), uri) + [SubscribedPeer(r.value, peer)]]
    {
      if !StartsWith(uri, DownloadsPrefix) {
        return Err(ErrorData(InvalidParams, BadUri));
      }
      var model := uri[|DownloadsPrefix|..];
      if model !in downloads {
        return Err(ErrorData(ResourceNotFound, NotInRegistry));
      }
      var id := nextId;
      nextId := nextId + 1;
      subscriptions := subscriptions[uri := Subscribers(subscriptions, uri) + [SubscribedPeer(id, peer)]];
      r := Ok(id);
    }

    /** The clean-up task of subscription `id` on `uri`, once its peer has
        disconnected: that subscription's peers go, an emptied list too. */
    method Disconnect(uri: string, id: nat)
      requires Valid()
      modifies this`subscriptions
      ensures Valid()
      ensures subscriptions == AfterDisconnect(old(subscriptions), uri, id)
    {
      if uri in subscriptions {
        var left := Without(subscriptions[uri], id);
        if left == [] {
          subscriptions := subscriptions - {uri};
        } else {
          subscriptions := subscriptions[uri := left];
        }
      }
    }

    /** `unsubscribe`: the URI's list is cleared and its entry removed; an
        unknown URI changes nothing. */
    method Unsubscribe(uri: string)
      requires Valid()
      modifies this`subscriptions
      ensures Valid()
      ensures subscriptions == old(subscriptions) - {uri}
    {
      if uri in subscriptions {
        subscriptions := subscriptions - {uri};
      }
    }
  }

  /**
   * Subscribing and then disconnecting the same subscription leaves the
   * subscription table as it was, whether or not the URI had an entry.
   */
  lemma SubscribeThenDisconnect(subs: map<string, seq<SubscribedPeer>>, uri: string, p: SubscribedPeer)
    requires forall u | u in subs :: subs[u] != []
    requires forall u, q | u in subs && q in subs[u] :: q.id != p.id
    ensures AfterDisconnect(subs[uri := Subscribers(subs, uri) + [p]], uri, p.id) == subs
  {
    var s := Subscribers(subs, uri);
    DisconnectUndoesSubscribe(s, p);
  }
}
