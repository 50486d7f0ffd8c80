# rlitert-lm, modelled in Dafny

rlitert-lm is a Rust front end to the `lit` command-line runner of LiteRT-LM. It
starts long-lived `lit run <model>` child processes, talks to them over their
standard streams, and exposes them through an OpenAI-style HTTP endpoint and an
MCP (Model Context Protocol) service. This project models the logic of that
front end and proves what it promises. The parts are:

- **Supervisor** (`supervisor.dfy`): the child task that owns one child process. It
  tries the gpu backend, then the cpu backend once. It runs the start-up
  handshake, buffering commands that arrive meanwhile. It then serves commands:
  write the prompt and a line feed, then read the answer.
- **Demultiplexer** (`demux.dfy`): the per-command read loop. It turns stdout
  reads into token fragments, stops at the `>>>` prompt marker, and handles EOF,
  read errors and a receiver that went away.
- **Process pool** (`pool.dfy`): a fixed number of processes, spawned in order,
  and chosen round-robin through one counter that every pool shares.
- **MCP service** (`mcp.dfy`): the download-progress table, built from the
  `lit list` output and updated by pulls. Also the subscription table, kept
  tidy by subscribe, notify, disconnect and unsubscribe, and the
  `litert://downloads/<model>` resources.
- **HTTP front end** (`server.dfy`): the prompt built from chat messages, the
  buffered JSON answer, and the server-sent event stream.
- **Manager** (`manager.dfy`): the write-once cache of the binary's path, the
  get-or-create table of pools, and the argument vectors and result rules of the
  `lit` subcommands.
- **Binary locator** (`binary.dfy`): the platform-to-file table, the cache
  path, the download URL, and when a download happens.
- `common.dfy`: Option and Result, and models of the Rust string functions the
  code relies on (`trim_end_matches`, `trim`, `lines`, `join`, `strip_prefix`).

The environment is passed in as parameters. These are:

- what each stdout read returns, as a script of read results;
- how each stdin write ends;
- whether the OS starts a process with given arguments;
- when the receiver of a response channel goes away;
- which peers' transports are closed;
- what a `lit` command leaves behind;
- the HTTP answer of a download;
- the UUID and the clock.

The model takes the source's own form. The child task, the pool, the MCP
service and the manager are classes whose methods update fields in place, and
their loops are `while` loops with invariants. Each such method is proved
against a function that serves as its reference definition. The lemmas state
the source's promises about that function.

Some behaviours of the code that are easy to misread:

- **The cpu fallback covers only a failed launch.** `spawn` tries the cpu
  backend only when starting the gpu process fails (src/process.rs:38-47,
  src/process.rs:52-61). The handshake runs later, in the background task,
  and its failure never leads to a cpu retry (src/process.rs:91-166).
- **The error words are case-sensitive.** The handshake looks for `Error`,
  `error` and `failed` exactly as written (src/process.rs:116).
- **Every trailing marker and line feed is cut.** `trim_end_matches` removes
  every trailing `>>>` and then every trailing line feed, not just one of
  each (src/process.rs:231).
- **Sent bytes are never taken back.** Each read's new text is sent at once
  (src/process.rs:244-253), and the final text only adds what lies beyond it
  (src/process.rs:232-239). So chunks `"4\n>"` then `">>"` deliver the single
  fragment `"4\n>"`: the partial marker had already been sent.
- **A failed pool keeps its started processes.** `initialize` returns at the
  first failed spawn and keeps the processes already pushed
  (src/process.rs:335-337). The manager then drops the whole pool
  (src/manager.rs:78).
- **One counter for every pool.** The round-robin counter is a `static`
  inside `get_process`, so all pools share it (src/process.rs:346).

## Model

| member | source | states |
|---|---|---|
| Text.TrimEndSpec | src/process.rs:231 | `trim_end_matches(p)` leaves text that no longer ends with `p`, and what it cut off is made only of copies of `p` |
| Demux.Collect | src/process.rs:213-260 | the read loop only moves forward through the reads and never past the last one |
| Demux.ReadResponse | src/process.rs:213-260 | the imperative read loop (buffer, `last_chunk`, sends) ends where the reference loop `Collect` ends, with the same buffer, items sent and outcome |
| Demux.FragmentsFollowText | src/process.rs:232-253 | every fragment sent is non-empty; until the marker, the fragments sent concatenate to exactly the text read; a refused send is the last thing attempted; a finished command delivered the final text, or the longer text already sent; the buffer is cleared |
| Demux.StopsAtFirstMarker | src/process.rs:229 | a finished command stops at the first read after which the text ends with `>>>` or contains a line feed followed by `>>>`, and no earlier read made it terminal |
| Demux.FinishedIffMarker | src/process.rs:229 | with a listening receiver and live reads, the command finishes if and only if some prefix of the output is terminal |
| Demux.DeathEndsCommand | src/process.rs:218-258 | an EOF or read error ends the command; before it every read was live; a listening receiver gets exactly one error, last, after tokens only |
| Demux.AbandonStopsSending | src/process.rs:235-251 | a receiver that goes away after `limit` items gets at most `limit` items, and the loop gives up at the first failed send; a listening receiver is never given up on |
| Demux.CompletionStripsMarker | src/process.rs:231 | the final text does not end with a line feed, and what was cut from the read text is line feeds after copies of the marker |
| Demux.InnerMarkerKept | src/process.rs:229-231 | `"a\n>>>b"` ends the command but nothing is cut from it |
| Demux.SplitMarkerKeepsPartialMarker | src/process.rs:232-252 | reads `"4\n>"` then `">>"` deliver the single fragment `"4\n>"` and finish the command |
| Supervisor.Spawn | src/process.rs:38-61 | gpu is launched first with `run <model> --backend gpu`; cpu is launched exactly once, only when the gpu launch failed; the result is the gpu result, else the cpu result, else the cpu context error |
| Supervisor.ServeOne | src/process.rs:199-214 | a failed prompt, line-feed or flush write sends exactly one error (if the receiver takes it) and does not read stdout or touch the buffer |
| Supervisor.ServeAllInOrder | src/process.rs:168-171 | buffered commands are answered in order: the k-th reply is the k-th command's, every command is answered unless a read loop hangs, and only the last reply can be open |
| Supervisor.ServeAllWrites | src/process.rs:199-211 | with clean pipes, a batch that does not hang writes each prompt followed by a line feed, in order, and nothing else |
| Supervisor.DeathPropagates | src/process.rs:217-223 | once a stdout read has returned 0 bytes, every later command is answered at once with exactly one error (the closed-stdout error when its write went through), and none hangs |
| Supervisor.InitRead | src/process.rs:105-137 | one handshake read: EOF fails with `Process died during initialization` and a read error with its own message, the buffer unchanged; a text with an error word fails with its trimmed text even when `>>>` is present; otherwise `>>>` makes the process ready and clears the buffer; otherwise the handshake keeps waiting with the buffer grown by the read |
| Supervisor.BootBuffersInOrder | src/process.rs:96-103 | commands that arrive during the handshake are buffered after earlier ones, in arrival order; only a timeout uses up every event |
| Supervisor.BootReads | src/process.rs:105-131 | a ready process saw the marker and no error word in everything it read, and its buffer is empty; a timed-out handshake keeps everything read; a failure after a live read saw an error word and names the trimmed text; any other failure names the reason the read died |
| Supervisor.Refusals | src/process.rs:150-162 | after a failed or timed-out handshake, each buffered command gets exactly one error, in order, and its channel is closed |
| Supervisor.ProcessTask.constructor | src/process.rs:86-89 | the child task starts in the handshake with an empty buffer, no pending command and nothing written |
| Supervisor.ProcessTask.Handshake | src/process.rs:94-141 | the `select!` loop leaves the cursor, buffer and pending commands that the reference `BootFrom` gives, and returns its result |
| Supervisor.ProcessTask.Settle | src/process.rs:143-166 | a ready task goes on serving with its buffered commands; otherwise each buffered command gets one error, none is written, the queue is emptied and the child is killed |
| Supervisor.ProcessTask.HandleCommand | src/process.rs:188-264 | one command: the bytes accepted by stdin are appended to what was written, its reply is appended, and the stdout position and buffer are those of `ServeOne` |
| Supervisor.ProcessTask.DrainPending | src/process.rs:168-171 | the buffered commands are served in order, exactly as `ServeAll` says, and the queue is emptied; `Submit` accepts nothing before this, so no later command overtakes them |
| Supervisor.ProcessTask.Submit | src/process.rs:280-284 | only once the buffered commands are drained: sending to a task that has stopped fails with the channel-closed error and changes nothing; a serving task handles the command after everything before it |
| Supervisor.SendPrompt | src/process.rs:291-304 | the collecting loop of `send_prompt` returns what `Assembled` defines |
| Supervisor.AssembledOkIffTokens | src/process.rs:297-301 | `send_prompt` succeeds if and only if every item of the reply is a token |
| Supervisor.AssembledText | src/process.rs:297-303 | on success the answer is every token followed by a line feed, in order |
| Supervisor.AssembledFirstError | src/process.rs:298 | on failure the error is that of the first error item, and every earlier item is a token |
| Pool.Counter.FetchAdd | src/process.rs:352 | `fetch_add(1)` returns the old value and adds one, wrapping at 2^64 |
| Pool.StartFrom | src/process.rs:333-340 | initialisation starts at most the remaining slots, and all of them when no spawn fails |
| Pool.StartFromInOrder | src/process.rs:335-338 | the started processes are those of slots 0, 1, … in order, and a failure is the spawn of the slot right after the last started one |
| Pool.ProcessPool.constructor | src/process.rs:325-331 | a new pool has its model, capacity `pool_size` and no processes |
| Pool.ProcessPool.Initialize | src/process.rs:333-340 | the started processes are appended in slot order; the result is Ok if and only if no spawn failed, and otherwise is the first failure; processes already started stay |
| Pool.ProcessPool.GetProcess | src/process.rs:342-354 | an empty pool is an error and leaves the counter alone; otherwise the index is the old counter modulo the pool size, below that size, and the counter moves on by one |
| Pool.ProcessPool.SendPrompt | src/process.rs:356-359 | the answer is that of the process `get_process` picked, or the empty-pool error |
| Pool.RoundRobin | src/process.rs:342-354 | `n` consecutive picks from a pool of `n` processes are all valid and pairwise distinct: every process is used once |
| Pool.ProcessPool.GetProcesses | src/process.rs:342-354 | `k` selections in a row pick the counter's successive values modulo the pool size, wrapping at 2^64; without a wrap-around they are `Picks`, and `n` selections from `n` processes pick each process once |
| Mcp.ResourceUri | src/mcp.rs:191 | stripping `litert://downloads/` from a model's resource URI gives back the model |
| Mcp.AnyLineIs | src/mcp.rs:171 | true if and only if some trimmed line equals the model |
| Mcp.CheckIfDownloaded | src/mcp.rs:161-172 | `lit list` failing to run is the error; a failed `lit list` means not downloaded; otherwise downloaded if and only if some trimmed output line equals the model |
| Mcp.Names | src/mcp.rs:137-138 | one trimmed name per line of the listing, in order |
| Mcp.RegistryNext | src/mcp.rs:137-155 | one more line: a line that names no model leaves the table alone, a failed check is the error, otherwise the model's entry is set |
| Mcp.RegistryEntries | src/mcp.rs:137-155 | the table has an entry for exactly the listed models, each as its check says; it fails if and only if the check of some listed model fails, and then with that error |
| Mcp.RegistryFromListing | src/mcp.rs:137-172 | with the real check, a listed model is (100, Complete) if and only if some trimmed line of `lit list` equals it, else (0, Pending); the table fails if and only if `lit list` could not run and some line names a model |
| Mcp.LoadRegistry | src/mcp.rs:119-158 | a `lit list --show_all` that cannot run, or that fails, is an error; otherwise the table is the one `Registry` builds from its trimmed lines, and every entry sits under its own model |
| Mcp.LoadNames | src/mcp.rs:137-157 | the insertion loop builds the table `Registry` defines, and every entry sits under its own model |
| Mcp.RegistryPrefix | src/mcp.rs:141 | once a check has failed, later lines do not change the error |
| Mcp.Query | src/mcp.rs:175-177 | the entry of a model in the table, and nothing for an unknown model |
| Mcp.ReadResource | src/mcp.rs:489-522 | a URI succeeds if and only if it starts with `litert://downloads/` and the rest is a model of the table, giving that entry; a wrong prefix is resource-not-found "Invalid resource URI", and an unknown model after the prefix is resource-not-found "Download progress not found" |
| Mcp.ListResources | src/mcp.rs:458-487 | one resource for each entry of the table, and no other |
| Mcp.ListedResourcesRead | src/mcp.rs:458-522 | every listed resource reads back as the entry it describes |
| Mcp.UpdateThenRead | src/mcp.rs:175-193 | after an update, the query and the resource give the new entry, and every other model's entry is unchanged |
| Mcp.Schedule | src/mcp.rs:302-311 | the progress task reports 0, 10, …, 100: `Downloading` below 100, `Complete` at 100 |
| Mcp.Final | src/mcp.rs:326-348 | the last entry of a pull is (100, Complete) on success and (0, Failed(message)) on failure |
| Mcp.Open | src/mcp.rs:199-222 | the notified peers are exactly the peers whose transport is open |
| Mcp.ClosedIndices | src/mcp.rs:199-222 | the failed indices ascend, are in range, and are exactly the positions of the closed peers |
| Mcp.SwapRemove | src/mcp.rs:226 | `swap_remove(i)` drops exactly the element at `i`, keeps everything before it, and shortens the list by one |
| Mcp.SwapRemoveAllMultiset | src/mcp.rs:224-227 | removing ascending positions, largest first, removes exactly the elements at those positions |
| Mcp.ClosedPartition | src/mcp.rs:199-222 | every peer is either open or at one of the failed indices |
| Mcp.SurvivorsAreOpen | src/mcp.rs:224-227 | the clean-up leaves exactly the open peers, as a multiset, and leaves an empty list exactly when no peer is open |
| Mcp.SurvivorsWithin | src/mcp.rs:224-227 | the clean-up keeps no peer that was not in the list |
| Mcp.NotifyRemovesClosedPeers | src/mcp.rs:196-237 | after a notify, the URI's list holds exactly its open peers and is removed when none is left; other URIs are unchanged, and an absent URI changes nothing |
| Mcp.NotifyKeepsOthers | src/mcp.rs:196-237 | a notify changes the subscription table at its own URI only |
| Mcp.ScanPeers | src/mcp.rs:199-222 | the first loop of the notify gathers exactly the failed indices and notifies exactly the open peers, in order |
| Mcp.RemoveClosed | src/mcp.rs:224-227 | the reverse `swap_remove` loop computes `SwapRemoveAll` |
| Mcp.Without | src/mcp.rs:610 | `retain` by id keeps exactly the peers of other subscriptions, and keeps a list without that id as it is |
| Mcp.DisconnectUndoesSubscribe | src/mcp.rs:576-610 | removing a fresh id right after appending its peer gives back the list |
| Mcp.SubscribeThenDisconnect | src/mcp.rs:576-625 | subscribing and then cleaning up the same subscription leaves the subscription table as it was, whether or not the URI had an entry |
| Mcp.McpService.constructor | src/mcp.rs:102-116 | the service starts with the registry table and no subscriptions |
| Mcp.McpService.NotifySubscribers | src/mcp.rs:196-237 | notifies the open peers of the URI in order and leaves the table `AfterNotify` describes |
| Mcp.McpService.UpdateProgress | src/mcp.rs:180-193 | overwrites only the model's entry with (model, percent, status), then notifies that model's resource URI |
| Mcp.McpService.ReportSchedule | src/mcp.rs:302-311 | the progress task writes the first steps of the schedule; the entry is the last one written and no other model changes |
| Mcp.McpService.PullModel | src/mcp.rs:285-349 | when the blocking task cannot be joined, the answer is the internal `Task failed` error and the entry is left where the progress reports got it (`Progressed`); otherwise the answer follows the pull's outcome and the entry ends as `Final` says; nothing else in the table changes, and only its URI's subscriptions can change |
| Mcp.Progressed | src/mcp.rs:298-312 | the entry a pull leaves before its last update: (0, Pending) before any report, then the latest step, `Downloading` until all eleven steps made it `Complete` at 100 |
| Mcp.McpService.Subscribe | src/mcp.rs:535-628 | a URI without the prefix is invalid params (−32602); an unknown model is resource not found; both change nothing; otherwise one peer with an id unused anywhere is appended to the URI's list, creating it if needed, and other URIs are unchanged |
| Mcp.McpService.Disconnect | src/mcp.rs:595-625 | the clean-up removes that subscription's peers only, and removes the entry once it is empty |
| Mcp.McpService.Unsubscribe | src/mcp.rs:630-657 | the URI's entry is removed; an unknown URI changes nothing |
| Server.Render | src/server.rs:106 | a message renders as exactly its role, then `: `, then its content, and nothing more |
| Server.Rendered | src/server.rs:103-107 | one rendering per message, in order |
| Server.PromptLines | src/server.rs:103-108 | when no message spans lines, the prompt's lines are exactly the rendered messages, in order, with no trailing line |
| Server.PromptSnoc | src/server.rs:103-108 | one more message adds one line feed and its rendering to the prompt |
| Server.Respond | src/server.rs:123-144 | the buffered answer has one choice (index 0, role assistant, the whole text, finish reason `stop`), the request's model and zero usage |
| Server.StreamEvents | src/server.rs:175-217 | one event per item, in order |
| Server.MapStream | src/server.rs:175-217 | the mapping closure with its `first_chunk` flag produces the events `StreamEvents` defines |
| Server.StreamShape | src/server.rs:177-217 | tokens become data events whose only choice has index 0, the token as content and no finish reason; errors become `error` events; exactly the first token carries the role |
| Server.BufferedMatchesStream | src/server.rs:111-121 | for a reply without errors, the buffered answer is the streamed contents, each followed by a line feed |
| Server.ChatCompletions | src/server.rs:98-147 | a pool or process error is a 500 with its text; `stream` gives the event stream; otherwise the buffered answer, or a 500 with its first error |
| Manager.ListArgs | src/manager.rs:124-128 | `list`, then `--show_all` exactly when asked |
| Manager.PullArgsRoundTrip | src/manager.rs:138-147 | the `pull` command line reads back as the same model, alias and token, in that order |
| Manager.ListRemoveRoundTrip | src/manager.rs:122-167 | the `list` command line reads back as whether `--show_all` was asked, the `rm` command line as the model, and no subcommand's line reads as another's |
| Manager.RunLitCommand | src/manager.rs:106-120 | a command that cannot start is the context error; a failed exit is the error with its stderr; otherwise the answer is its stdout |
| Manager.PullResult | src/manager.rs:149-157 | a pull succeeds if and only if its command ran and exited with success |
| Manager.LitManager.constructor | src/manager.rs:28-37 | a new manager has the given pool size, no cached binary and no pools |
| Manager.LitManager.Default | src/manager.rs:24-26 | `new` makes a manager with pools of two processes, no cached binary and no pools |
| Manager.LitManager.EnsureBinary | src/manager.rs:39-54 | a cached path is returned without a lookup; otherwise the lookup's answer, cached when it is a path |
| Manager.LitManager.GetPool | src/manager.rs:61-83 | an existing pool is returned unchanged; otherwise a binary error or a start failure is returned and the table is left as it was; a pool is recorded only when all `pool_size` processes started |
| Binary.BinaryFilename | src/binary.rs:52-60 | an unsupported platform is the error naming its os and arch |
| Binary.FilenameTable | src/binary.rs:52-60 | a platform has a file if and only if it is one of the four supported pairs; each gets its own file, which names its platform back |
| Binary.PlatformOfFile | src/binary.rs:53-57 | exactly the four release files come from a platform, and each is that platform's file |
| Binary.JoinedLast | src/binary.rs:47-50 | joining a name without separators makes it the path's last component |
| Binary.BinaryPath | src/binary.rs:47-50 | the path exists for supported platforms only; it is the cache directory, then (when needed) one `/`, then the release file, which is its last component |
| Binary.DownloadUrl | src/binary.rs:62-64 | the URL exists for supported platforms only |
| Binary.UrlNamesRelease | src/binary.rs:62-64 | the URL is the release directory of this version, then `/`, then the release file |
| Binary.EnsureBinary | src/binary.rs:26-45 | a success is always the binary's path |
| Binary.ExistingSkipsDownload | src/binary.rs:29-31 | when the file exists, the answer is its path, whatever the network and the disk would do |
| Binary.MissingFileDownloads | src/binary.rs:33-44 | when the file is missing, a failed request is the error `Failed to download binary`, a failed write or permission change is passed on, and only a stored download gives the path |
| Binary.FailedStatusIsError | src/binary.rs:72-74 | a non-success HTTP status is the error `Failed to download binary: HTTP ` followed by the status code and its canonical reason |

## Left out

- Tokio tasks, channels and `select!` are left out. A response channel is a sequence of items and a receiver that may go away. The order of handshake events is a schedule.
- The 120-second handshake timeout is the schedule running out before a decision.
- A read loop that would block forever on a silent child is the `Blocked` outcome or a `Hung` task.
- Atomic memory ordering of the shared counter is left out: selection is sequential.
- `String::from_utf8_lossy` is not modelled: one byte is one character, so slicing never falls inside a character.
- Process spawning, `kill`, the pipes and the stderr logging task are parameters or flags.
- Tracing output is not modelled.
- The timestamp and the UUID of a completion are parameters.
- The subscription id is a counter owned by the service rather than a UUID, so that its freshness can be stated.
- JSON serialisation is not modelled: responses, chunks and resources are values. The `"{}"` fallback of a failed serialisation is left out.
- The `temperature` and `max_tokens` request fields are left out: they are floats and unused by the handler.
- The rmcp and axum transports and the notification messages are not modelled. A peer is a handle, and whether its transport is closed is a parameter.
- The 5-second disconnect polling and the sleeps of the progress task are left out. The clean-up runs once the peer is gone, and the pull reports a given number of schedule steps.
- `run_completion`, `run_completion_stream`, `run_interactive`, `serve`, `generate_completion` and `shutdown` are left out. So are the MCP tools `list_models`, `remove_model`, `run_completion` and `check_download_progress`. They only compose the modelled operations with I/O.
- `BinaryManager::new`, the cache-directory creation, the file permissions and the download body are left out. Their failures are one `stored` parameter.
- Paths use `/` as their only separator.
- The panic of `get_binary_filename` on an unsupported platform is an error value.
- `src/main.rs` (command-line dispatch) and `src/lib.rs` (re-exports) are not part of this model.
- Mcp.McpService.NotifySubscribers: the survivors are stated up to order, as a multiset. `swap_remove` reorders the list, and the exact order is `SwapRemoveAll`.
- Mcp.McpService.PullModel: does not state the subscription lists at the pulled model's URI, only that other URIs are unchanged. Which peers close during a pull is a parameter.
- Mcp.McpService.PullModel: after a join failure the progress task is never aborted, so it goes on reporting after the answer; the model states the entry when the answer is given, not those later reports.
- Mcp.CheckIfDownloaded: every check of one registry load sees the same `lit list` output. The source runs the command once per model.
- Pool.Counter.FetchAdd: wraps at 2^64, the `usize` of a 64-bit target.
- Pool.RoundRobin: assumes no wrap-around happens within the `n` picks.
- Pool.ProcessPool.GetProcesses: no other pool takes a ticket from the shared counter between the `k` selections.
- Supervisor.DeathPropagates: the stdout script must hold a read for each later command, and a 0-byte read must be followed only by 0-byte reads, as a real pipe at EOF does.
- Pool.ProcessPool.constructor: the capacity is exactly `pool_size`; Rust only promises at least that much.
- Manager.LitManager.EnsureBinary: the read lock, then the write lock, collapse into one check in the sequential model.
- Manager.LitManager.GetPool: the pool-map lock is not modelled, as the model is sequential.
- Binary.EnsureBinary: its own contract states only that a success is the binary's path. The individual cases are stated by the lemmas `ExistingSkipsDownload` (file present), `MissingFileDownloads` (request failure, storage failure, success) and `FailedStatusIsError` (non-success status).
