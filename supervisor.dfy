// The child task that owns one `lit run` child process (`LitProcess`,
// src/process.rs): the gpu-then-cpu launch, the start-up handshake that
// buffers early commands, the settling of those commands once the handshake
// is decided, serving commands one at a time, and the caller's side that
// turns a response stream into one string.
//
// The child is abstract: its stdout is a fixed script of read results, each
// command meets a given outcome when its prompt is written to stdin, and
// the 120-second deadline of the handshake is the end of a schedule of
// events (command arrivals and stdout reads) seen before it.

module Supervisor {
  import opened Base
  import opened Text
  import opened Demux

  // ---------------------------------------------------------------------
  // Launch: `LitProcess::spawn` and `spawn_with_backend` up to the OS spawn.

  datatype Backend = Gpu | Cpu

  function BackendName(b: Backend): string {
    if b == Gpu then "gpu" else "cpu"
  }

  /** The argument vector of the child: `run <model> --backend <b>`. */
  function LaunchArgs(model: string, b: Backend): seq<string> {
    ["run", model, "--backend", BackendName(b)]
  }

  /** The context attached to a failed OS spawn. */
  function SpawnError(b: Backend): string {
    "Failed to spawn lit process with backend=" + BackendName(b)
  }

  /** The argument vectors that were launched, in order, and what `spawn` returned. */
  datatype SpawnOutcome = SpawnOutcome(tried: seq<seq<string>>, result: Result<Backend, string>)

  /**
   * `LitProcess::spawn`: `launches(args)` says whether the OS starts the
   * binary with those arguments.  The gpu backend is tried first and the
   * cpu backend exactly once, only when the gpu launch itself failed.
   */
  function Spawn(model: string, launches: seq<string> -> bool): (r: SpawnOutcome)
    ensures 1 <= |r.tried| <= 2 && r.tried[0] == LaunchArgs(model, Gpu)
    ensures r.result == Ok(Gpu) <==> launches(LaunchArgs(model, Gpu))
    ensures |r.tried| == 2 <==> !launches(LaunchArgs(model, Gpu))
    ensures |r.tried| == 2 ==> r.tried[1] == LaunchArgs(model, Cpu)
    ensures r.result == Ok(Cpu) <==> |r.tried| == 2 && launches(LaunchArgs(model, Cpu))
    ensures r.result.Err? ==> |r.tried| == 2 && r.result.error == SpawnError(Cpu)
  {
    var gpu := LaunchArgs(model, Gpu);
    if launches(gpu) then SpawnOutcome([gpu], Ok(Gpu))
    else
      var cpu := LaunchArgs(model, Cpu);
      SpawnOutcome([gpu, cpu], if launches(cpu) then Ok(Cpu) else Err(SpawnError(Cpu)))
  }

  // ---------------------------------------------------------------------
  // Commands and the write to the child's stdin.

  /** What goes wrong while a prompt is written: nothing, or the prompt
      write, the line-feed write or the flush fails with `msg`. */
  datatype WriteFault = Clean | PromptFails(msg: string) | NewlineFails(msg: string) | FlushFails(msg: string)

  /**
   * `ProcessCommand::Run`: the prompt, the behaviour of its response
   * channel's receiver, and the outcome its write to stdin will meet.
   */
  datatype Command = Command(prompt: string, rx: Receiver, pipe: WriteFault)

  /** The bytes stdin took for a command before its write stopped. */
  function Accepted(prompt: string, fault: WriteFault): string {
    match fault
    case PromptFails(_) => []
    case NewlineFails(_) => prompt
    case _ => prompt + "\n"
  }

  /** What one command's caller got: the items on its channel, and whether
      the channel was closed (the command ended). */
  datatype Reply = Reply(prompt: string, items: seq<Item>, closed: bool)

  /** The child task's stdout position, buffer and reply after one command, and
      whether its read loop is stuck waiting for output. */
  datatype Served = Served(cursor: nat, buffer: string, reply: Reply, hung: bool)

  /**
   * `handle_command`: a failed write answers with its one error and leaves
   * stdout alone; otherwise the read loop runs from a cleared buffer.
   */
  function ServeOne(stdout: seq<ReadResult>, cursor: nat, buffer: string, cmd: Command): (s: Served)
    requires cursor <= |stdout|
    ensures cursor <= s.cursor <= |stdout|
    ensures s.reply.prompt == cmd.prompt
    ensures !cmd.pipe.Clean? ==>
      && s.cursor == cursor && s.buffer == buffer && !s.hung && s.reply.closed
      && s.reply.items == (if cmd.rx.Listening? || cmd.rx.limit > 0 then [Failure(cmd.pipe.msg)] else [])
  {
    if !cmd.pipe.Clean? then
      Served(cursor, buffer, Reply(cmd.prompt, Send(cmd.rx, [], Failure(cmd.pipe.msg)), true), false)
    else
      var r := Collect(stdout, cursor, [], [], [], cmd.rx);
      Served(r.next, r.buffer, Reply(cmd.prompt, r.sent, r.outcome != Blocked), r.outcome == Blocked)
  }

  /** The outcome of serving several commands in order; serving stops at a
      command whose read loop hangs. */
  datatype Batch = Batch(cursor: nat, buffer: string, written: string, replies: seq<Reply>, hung: bool)

  function ServeAll(stdout: seq<ReadResult>, cursor: nat, buffer: string, cmds: seq<Command>): (b: Batch)
    requires cursor <= |stdout|
    ensures cursor <= b.cursor <= |stdout|
    decreases |cmds|
  {
    if cmds == [] then Batch(cursor, buffer, [], [], false)
    else
      var s := ServeOne(stdout, cursor, buffer, cmds[0]);
      var w := Accepted(cmds[0].prompt, cmds[0].pipe);
      if s.hung then Batch(s.cursor, s.buffer, w, [s.reply], true)
      else
        var rest := ServeAll(stdout, s.cursor, s.buffer, cmds[1..]);
        Batch(rest.cursor, rest.buffer, w + rest.written, [s.reply] + rest.replies, rest.hung)
  }

  /**
   * Commands are answered in the order they were taken: the k-th reply
   * belongs to the k-th command, every command gets a reply unless the
   * loop hung, and a hang happens only at the last reply.
   */
  lemma {:induction false} ServeAllInOrder(stdout: seq<ReadResult>, cursor: nat, buffer: string,
                                           cmds: seq<Command>)
    requires cursor <= |stdout|
    ensures var b := ServeAll(stdout, cursor, buffer, cmds);
      && |b.replies| <= |cmds|
      && (!b.hung ==> |b.replies| == |cmds|)
      && (b.hung ==> b.replies != [])
      && (forall k :: 0 <= k < |b.replies| ==> b.replies[k].prompt == cmds[k].prompt)
      && (forall k :: 0 <= k < |b.replies| - 1 ==> b.replies[k].closed)
    decreases |cmds|
  {
    if cmds != [] {
      var s := ServeOne(stdout, cursor, buffer, cmds[0]);
      if !s.hung {
        ServeAllInOrder(stdout, s.cursor, s.buffer, cmds[1..]);
      }
    }
  }

  /** Writing a batch that did not hang sends every prompt followed by a line
      feed, in order, when no write failed. */
  lemma {:induction false} ServeAllWrites(stdout: seq<ReadResult>, cursor: nat, buffer: string,
                                          cmds: seq<Command>)
    requires cursor <= |stdout|
    requires forall k :: 0 <= k < |cmds| ==> cmds[k].pipe.Clean?
    ensures var b := ServeAll(stdout, cursor, buffer, cmds);
      !b.hung ==> b.written == Concat(Lined(Prompts(cmds)))
    decreases |cmds|
  {
    if cmds != [] {
      var s := ServeOne(stdout, cursor, buffer, cmds[0]);
      if !s.hung {
        ServeAllWrites(stdout, s.cursor, s.buffer, cmds[1..]);
        ConcatCons(Lined(Prompts(cmds)));
        assert Lined(Prompts(cmds))[1..] == Lined(Prompts(cmds[1..]));
      }
    }
  }

  function Prompts(cmds: seq<Command>): (r: seq<string>)
    ensures |r| == |cmds| && forall k :: 0 <= k < |cmds| ==> r[k] == cmds[k].prompt
  {
    seq(|cmds|, k requires 0 <= k < |cmds| => cmds[k].prompt)
  }

  /** Each string followed by a line feed. */
  function Lined(lines: seq<string>): (r: seq<string>)
    ensures |r| == |lines| && forall k :: 0 <= k < |lines| ==> r[k] == lines[k] + "\n"
  {
    seq(|lines|, k requires 0 <= k < |lines| => lines[k] + "\n")
  }

  lemma {:induction false} ConcatCons(parts: seq<string>)
    requires parts != []
    ensures Concat(parts) == parts[0] + Concat(parts[1..])
    decreases |parts|
  {
    if |parts| > 1 {
      var init := parts[..|parts| - 1];
      ConcatCons(init);
      assert init[1..] == parts[1..][..|parts[1..]| - 1];
    }
  }

  /** A batch with `w` written and `rs` answered in front of it. */
  function Prepend(w: string, rs: seq<Reply>, b: Batch): Batch {
    Batch(b.cursor, b.buffer, w + b.written, rs + b.replies, b.hung)
  }

  lemma PrependPrepend(w1: string, rs1: seq<Reply>, w2: string, rs2: seq<Reply>, b: Batch)
    ensures Prepend(w1, rs1, Prepend(w2, rs2, b)) == Prepend(w1 + w2, rs1 + rs2, b)
  {
    assert w1 + (w2 + b.written) == (w1 + w2) + b.written;
    assert rs1 + (rs2 + b.replies) == (rs1 + rs2) + b.replies;
  }

  /** `ServeAll` is one `ServeOne` followed by the rest, unless that one hung. */
  lemma ServeAllCons(stdout: seq<ReadResult>, cursor: nat, buffer: string, cmds: seq<Command>)
    requires cursor <= |stdout| && cmds != []
    ensures var s := ServeOne(stdout, cursor, buffer, cmds[0]);
      var w := Accepted(cmds[0].prompt, cmds[0].pipe);
      ServeAll(stdout, cursor, buffer, cmds)
        == if s.hung then Batch(s.cursor, s.buffer, w, [s.reply], true)
           else Prepend(w, [s.reply], ServeAll(stdout, s.cursor, s.buffer, cmds[1..]))
  {
  }

  /** One pass of `DrainPending`'s loop: the `i`-th command is served next. */
  lemma DrainStep(stdout: seq<ReadResult>, cursor: nat, buffer: string, cmds: seq<Command>, i: nat,
                  doneW: string, doneR: seq<Reply>, all: Batch)
    requires cursor <= |stdout| && i < |cmds|
    requires all == Prepend(doneW, doneR, ServeAll(stdout, cursor, buffer, cmds[i..]))
    ensures var s := ServeOne(stdout, cursor, buffer, cmds[i]);
      var w := doneW + Accepted(cmds[i].prompt, cmds[i].pipe);
      && (!s.hung ==> all == Prepend(w, doneR + [s.reply], ServeAll(stdout, s.cursor, s.buffer, cmds[i + 1..])))
      && (s.hung ==> all == Batch(s.cursor, s.buffer, w, doneR + [s.reply], true))
  {
    var s := ServeOne(stdout, cursor, buffer, cmds[i]);
    ServeAllCons(stdout, cursor, buffer, cmds[i..]);
    assert cmds[i..][1..] == cmds[i + 1..];
    PrependPrepend(doneW, doneR, Accepted(cmds[i].prompt, cmds[i].pipe), [s.reply],
                   ServeAll(stdout, s.cursor, s.buffer, cmds[i + 1..]));
  }

  /** A pipe at EOF stays there: after a 0-byte read every read is a 0-byte read. */
  predicate EofSticks(stdout: seq<ReadResult>) {
    forall i, j :: 0 <= i < j < |stdout| && stdout[i] == Chunk([]) ==> stdout[j] == Chunk([])
  }

  /** The reply of a command served once stdout is closed: its write error,
      or else the closed-stdout error, as the one item. */
  function DeadReply(cmd: Command): Reply {
    var msg := if cmd.pipe.Clean? then ClosedMessage else cmd.pipe.msg;
    Reply(cmd.prompt, Send(cmd.rx, [], Failure(msg)), true)
  }

  /**
   * Death propagates: once a read at `eof` has returned 0 bytes, every later
   * command fails at once with exactly one error (the closed-stdout error
   * when its write went through), none hangs, and all are answered in order.
   * `stdout` is assumed to hold a read for each of them.
   */
  lemma {:induction false} DeathPropagates(stdout: seq<ReadResult>, eof: nat, cursor: nat, buffer: string,
                                           cmds: seq<Command>)
    requires EofSticks(stdout)
    requires eof < cursor && cursor + |cmds| <= |stdout| && stdout[eof] == Chunk([])
    ensures var b := ServeAll(stdout, cursor, buffer, cmds);
      && !b.hung && |b.replies| == |cmds|
      && forall k :: 0 <= k < |cmds| ==> b.replies[k] == DeadReply(cmds[k])
    decreases |cmds|
  {
    if cmds != [] {
      var cmd := cmds[0];
      var s := ServeOne(stdout, cursor, buffer, cmd);
      if cmd.pipe.Clean? {
        assert stdout[cursor] == Chunk([]);
        assert Collect(stdout, cursor, [], [], [], cmd.rx)
            == Run(cursor + 1, [], Send(cmd.rx, [], Failure(ClosedMessage)), Failed);
      }
      assert s.reply == DeadReply(cmd) && !s.hung && s.cursor <= cursor + 1;
      DeathPropagates(stdout, eof, s.cursor, s.buffer, cmds[1..]);
    }
  }

  // ---------------------------------------------------------------------
  // The start-up handshake.

  /** What the child task sees before the deadline: a command arrives, or a read
      of stdout completes. */
  datatype InitEvent = Arrival(cmd: Command) | Readable

  /** How the handshake was decided. */
  datatype Startup = Ready | InitFailed(error: string) | TimedOut

  const DiedMessage: string := "Process died during initialization"
  const FailedPrefix: string := "Process initialization failed: "
  const TimeoutMessage: string := "Process initialization timed out"

  /** The case-sensitive error test of the handshake. */
  predicate HasErrorWord(text: string) {
    Contains(text, "Error") || Contains(text, "error") || Contains(text, "failed")
  }

  /** The outcome of one stdout read during the handshake. */
  datatype InitStep = Waiting(text: string) | Decided(result: Startup, buffer: string)

  /**
   * One read on the handshake buffer: EOF and read errors fail; then the
   * error words are checked before the marker, and the marker makes the
   * process ready with a cleared buffer.
   */
  function InitRead(buffer: string, read: ReadResult): (s: InitStep)
    ensures !IsLive(read) ==> s == Decided(InitFailed(DeathReasonAtStart(read)), buffer)
    ensures IsLive(read) && HasErrorWord(buffer + read.bytes) ==>
              s == Decided(InitFailed(FailedPrefix + Trim(buffer + read.bytes)), buffer + read.bytes)
    ensures s.Decided? && s.result == Ready <==>
              IsLive(read) && !HasErrorWord(buffer + read.bytes) && Contains(buffer + read.bytes, Marker)
    ensures s.Decided? && s.result == Ready ==> s.buffer == []
    ensures s.Waiting? ==> IsLive(read) && s.text == buffer + read.bytes
    ensures IsLive(read) && !HasErrorWord(buffer + read.bytes) && !Contains(buffer + read.bytes, Marker) ==>
              s == Waiting(buffer + read.bytes)
  {
    match read
    case ReadError(msg) => Decided(InitFailed(msg), buffer)
    case Chunk(bytes) =>
      if bytes == [] then Decided(InitFailed(DiedMessage), buffer)
      else
        var text := buffer + bytes;
        if HasErrorWord(text) then Decided(InitFailed(FailedPrefix + Trim(text)), text)
        else if Contains(text, Marker) then Decided(Ready, [])
        else Waiting(text)
  }

  /** Where the handshake ended: its result, how many events it used, the
      stdout position and buffer, and the commands it buffered. */
  datatype Boot = Boot(result: Startup, used: nat, cursor: nat, buffer: string, pending: seq<Command>)

  /**
   * The handshake loop from event `i`: arrivals are buffered, completed
   * reads go through `InitRead`, and running out of events before a
   * decision is the timeout.  A read event with no output left does not
   * complete.
   */
  function BootFrom(stdout: seq<ReadResult>, schedule: seq<InitEvent>, i: nat, cursor: nat,
                    buffer: string, pending: seq<Command>): (b: Boot)
    requires i <= |schedule| && cursor <= |stdout|
    ensures i <= b.used <= |schedule| && cursor <= b.cursor <= |stdout|
    decreases |schedule| - i
  {
    if i == |schedule| then Boot(TimedOut, i, cursor, buffer, pending)
    else match schedule[i]
      case Arrival(cmd) => BootFrom(stdout, schedule, i + 1, cursor, buffer, pending + [cmd])
      case Readable =>
        if cursor == |stdout| then BootFrom(stdout, schedule, i + 1, cursor, buffer, pending)
        else match InitRead(buffer, stdout[cursor])
          case Waiting(text) => BootFrom(stdout, schedule, i + 1, cursor + 1, text, pending)
          case Decided(result, rest) => Boot(result, i + 1, cursor + 1, rest, pending)
  }

  /** The commands that arrived among events `i` .. `j` - 1, in order. */
  function Arrivals(schedule: seq<InitEvent>, i: nat, j: nat): seq<Command>
    requires i <= j <= |schedule|
    decreases j
  {
    if i == j then []
    else Arrivals(schedule, i, j - 1) + (if schedule[j - 1].Arrival? then [schedule[j - 1].cmd] else [])
  }

  /** Commands received during the handshake are buffered in arrival order,
      after those already buffered; only a timeout uses every event. */
  lemma {:induction false} BootBuffersInOrder(stdout: seq<ReadResult>, schedule: seq<InitEvent>, i: nat,
                                              cursor: nat, buffer: string, pending: seq<Command>)
    requires i <= |schedule| && cursor <= |stdout|
    ensures var b := BootFrom(stdout, schedule, i, cursor, buffer, pending);
      && b.pending == pending + Arrivals(schedule, i, b.used)
      && (b.result == TimedOut ==> b.used == |schedule|)
    decreases |schedule| - i
  {
    var b := BootFrom(stdout, schedule, i, cursor, buffer, pending);
    if i < |schedule| {
      match schedule[i]
      case Arrival(cmd) =>
        BootBuffersInOrder(stdout, schedule, i + 1, cursor, buffer, pending + [cmd]);
        ArrivalsCons(schedule, i, b.used);
      case Readable =>
        if cursor == |stdout| {
          BootBuffersInOrder(stdout, schedule, i + 1, cursor, buffer, pending);
          ArrivalsCons(schedule, i, b.used);
        } else {
          match InitRead(buffer, stdout[cursor])
          case Waiting(text) =>
            BootBuffersInOrder(stdout, schedule, i + 1, cursor + 1, text, pending);
            ArrivalsCons(schedule, i, b.used);
          case Decided(result, rest) =>
            assert Arrivals(schedule, i, i + 1) == [];
        }
    }
  }

  lemma {:induction false} ArrivalsCons(schedule: seq<InitEvent>, i: nat, j: nat)
    requires i < j <= |schedule|
    ensures Arrivals(schedule, i, j)
         == (if schedule[i].Arrival? then [schedule[i].cmd] else []) + Arrivals(schedule, i + 1, j)
    decreases j
  {
    if j > i + 1 {
      ArrivalsCons(schedule, i, j - 1);
    }
  }

  /**
   * The handshake reads: the buffer is the text read since `start` while
   * waiting; a ready process saw the marker and no error word in that
   * text, after no earlier read decided anything.
   */
  lemma {:induction false} BootReads(stdout: seq<ReadResult>, schedule: seq<InitEvent>, i: nat,
                                     start: nat, cursor: nat, pending: seq<Command>)
    requires i <= |schedule| && start <= cursor <= |stdout|
    ensures ReadsFrom(stdout, start, cursor, BootFrom(stdout, schedule, i, cursor, Bytes(stdout, start, cursor), pending))
    decreases |schedule| - i
  {
    var buffer := Bytes(stdout, start, cursor);
    if i < |schedule| {
      match schedule[i]
      case Arrival(cmd) =>
        BootReads(stdout, schedule, i + 1, start, cursor, pending + [cmd]);
      case Readable =>
        if cursor == |stdout| {
          BootReads(stdout, schedule, i + 1, start, cursor, pending);
        } else {
          match InitRead(buffer, stdout[cursor])
          case Waiting(text) =>
            BootReads(stdout, schedule, i + 1, start, cursor + 1, pending);
            ReadsWaiting(stdout, schedule, i, start, cursor, pending);
          case Decided(result, rest) =>
            ReadsDecided(stdout, schedule, i, start, cursor, pending);
        }
    }
  }

  /** What `BootReads` states about the end `b` of a handshake whose buffer
      started at `start` and whose reads started at `cursor`. */
  ghost predicate ReadsFrom(stdout: seq<ReadResult>, start: nat, cursor: nat, b: Boot)
    requires start <= cursor <= b.cursor <= |stdout|
  {
    && (b.result == Ready ==>
          && b.cursor > start && b.buffer == []
          && Contains(Bytes(stdout, start, b.cursor), Marker)
          && !HasErrorWord(Bytes(stdout, start, b.cursor)))
    && (b.result == TimedOut ==> b.buffer == Bytes(stdout, start, b.cursor))
    && (b.result.InitFailed? ==> b.cursor > cursor)
    && (b.result.InitFailed? && b.cursor > cursor && IsLive(stdout[b.cursor - 1]) ==>
          && HasErrorWord(Bytes(stdout, start, b.cursor))
          && b.result.error == FailedPrefix + Trim(Bytes(stdout, start, b.cursor)))
    && (b.result.InitFailed? && b.cursor > cursor && !IsLive(stdout[b.cursor - 1]) ==>
          b.result.error == DeathReasonAtStart(stdout[b.cursor - 1]))
  }

  /** The read at `cursor` decides the handshake. */
  lemma ReadsDecided(stdout: seq<ReadResult>, schedule: seq<InitEvent>, i: nat,
                     start: nat, cursor: nat, pending: seq<Command>)
    requires i < |schedule| && start <= cursor < |stdout| && schedule[i].Readable?
    requires InitRead(Bytes(stdout, start, cursor), stdout[cursor]).Decided?
    ensures ReadsFrom(stdout, start, cursor, BootFrom(stdout, schedule, i, cursor, Bytes(stdout, start, cursor), pending))
  {
    var buffer := Bytes(stdout, start, cursor);
    var read := stdout[cursor];
    var s := InitRead(buffer, read);
    var b := BootFrom(stdout, schedule, i, cursor, buffer, pending);
    assert b.result == s.result && b.cursor == cursor + 1 && b.buffer == s.buffer;
    assert stdout[b.cursor - 1] == read;
    if IsLive(read) {
      assert Bytes(stdout, start, b.cursor) == buffer + read.bytes;
    }
  }

  /** The read at `cursor` leaves the handshake waiting: what the rest
      decides holds from here as well. */
  lemma ReadsWaiting(stdout: seq<ReadResult>, schedule: seq<InitEvent>, i: nat,
                     start: nat, cursor: nat, pending: seq<Command>)
    requires i < |schedule| && start <= cursor < |stdout| && schedule[i].Readable?
    requires InitRead(Bytes(stdout, start, cursor), stdout[cursor]).Waiting?
    requires ReadsFrom(stdout, start, cursor + 1,
               BootFrom(stdout, schedule, i + 1, cursor + 1, Bytes(stdout, start, cursor + 1), pending))
    ensures ReadsFrom(stdout, start, cursor, BootFrom(stdout, schedule, i, cursor, Bytes(stdout, start, cursor), pending))
  {
    var buffer := Bytes(stdout, start, cursor);
    var text := Bytes(stdout, start, cursor + 1);
    assert text == buffer + ChunkBytes(stdout[cursor]);
    assert InitRead(buffer, stdout[cursor]).text == text;
    var b := BootFrom(stdout, schedule, i + 1, cursor + 1, text, pending);
    assert BootFrom(stdout, schedule, i, cursor, buffer, pending) == b;
    ReadsLater(stdout, start, cursor, b);
  }

  /** What holds of reads from `cursor` + 1 holds of reads from `cursor`. */
  lemma ReadsLater(stdout: seq<ReadResult>, start: nat, cursor: nat, b: Boot)
    requires start <= cursor < b.cursor <= |stdout|
    requires ReadsFrom(stdout, start, cursor + 1, b)
    ensures ReadsFrom(stdout, start, cursor, b)
  {
  }

  /** The error a dead read gives during the handshake. */
  function DeathReasonAtStart(read: ReadResult): string {
    if read.ReadError? then read.msg else DiedMessage
  }

  /** The error each buffered command gets when the handshake did not succeed. */
  function RefusalMessage(result: Startup): string {
    match result
    case InitFailed(e) => FailedPrefix + e
    case _ => TimeoutMessage
  }

  /** Each command answered with the one error `msg`, in order. */
  function Refusals(cmds: seq<Command>, msg: string): (r: seq<Reply>)
    ensures |r| == |cmds|
    ensures forall k :: 0 <= k < |cmds| ==>
              r[k] == Reply(cmds[k].prompt, Send(cmds[k].rx, [], Failure(msg)), true)
  {
    seq(|cmds|, k requires 0 <= k < |cmds| => Reply(cmds[k].prompt, Send(cmds[k].rx, [], Failure(msg)), true))
  }

  // ---------------------------------------------------------------------
  // The child task.

  /** Starting: the handshake runs; Serving: commands are handled; Hung: a
      read loop waits for output that never comes; Stopped: the child task ended
      and dropped its command channel. */
  datatype Phase = Starting | Serving | Hung | Stopped

  /** The message of a send to the command channel of a task that has ended. */
  const ChannelClosed: string := "Failed to send command to process: channel closed"

  /** The child task spawned by `spawn_with_backend`, with the child it owns. */
  class ProcessTask {
    /** Everything the child prints on stdout, read by read. */
    const stdout: seq<ReadResult>
    var phase: Phase
    /** `pending_commands` */
    var pending: seq<Command>
    /** How many reads of `stdout` the child task has done. */
    var cursor: nat
    /** The shared `buffer` of the child task. */
    var buffer: string
    /** The bytes written to the child's stdin. */
    var written: string
    /** The replies given, in the order the commands were answered. */
    var replies: seq<Reply>
    var killed: bool

    ghost predicate Valid()
      reads this
    {
      cursor <= |stdout|
    }

    constructor (stdout: seq<ReadResult>)
      ensures Valid() && this.stdout == stdout
      ensures phase == Starting && pending == [] && cursor == 0 && buffer == []
      ensures written == [] && replies == [] && !killed
    {
      this.stdout := stdout;
      phase := Starting;
      pending := [];
      cursor := 0;
      buffer := [];
      written := [];
      replies := [];
      killed := false;
    }

    /** The `select!` loop inside the 120-second timeout. */
    method Handshake(schedule: seq<InitEvent>) returns (result: Startup)
      requires Valid() && phase == Starting
      modifies this`cursor, this`buffer, this`pending
      ensures Valid()
      ensures BootFrom(stdout, schedule, 0, old(cursor), old(buffer), old(pending))
           == Boot(result, BootFrom(stdout, schedule, 0, old(cursor), old(buffer), old(pending)).used,
                   cursor, buffer, pending)
    {
      var i := 0;
      while i < |schedule|
        invariant i <= |schedule| && Valid()
        invariant BootFrom(stdout, schedule, i, cursor, buffer, pending)
               == BootFrom(stdout, schedule, 0, old(cursor), old(buffer), old(pending))
        decreases |schedule| - i
      {
        match schedule[i] {
          case Arrival(cmd) =>
            pending := pending + [cmd];
          case Readable =>
            if cursor < |stdout| {
              var read := stdout[cursor];
              cursor := cursor + 1;
              match InitRead(buffer, read) {
                case Waiting(text) =>
                  buffer := text;
                case Decided(res, rest) =>
                  buffer := rest;
                  result := res;
                  return;
              }
            }
        }
        i := i + 1;
      }
      result := TimedOut;
    }

    /**
     * The `match init_result`: a ready task goes on serving; otherwise each
     * buffered command gets one error, none is written, and the child is
     * killed.
     */
    method Settle(result: Startup)
      requires phase == Starting
      modifies this`phase, this`pending, this`replies, this`killed
      ensures result == Ready ==> phase == Serving && pending == old(pending)
                                   && replies == old(replies) && killed == old(killed)
      ensures result != Ready ==>
        && phase == Stopped && killed && pending == []
        && replies == old(replies) + Refusals(old(pending), RefusalMessage(result))
    {
      if result == Ready {
        phase := Serving;
        return;
      }
      var msg := RefusalMessage(result);
      var i := 0;
      while i < |pending|
        invariant i <= |pending| && pending == old(pending)
        invariant replies == old(replies) + Refusals(pending[..i], msg)
        decreases |pending| - i
      {
        var cmd := pending[i];
        replies := replies + [Reply(cmd.prompt, Send(cmd.rx, [], Failure(msg)), true)];
        i := i + 1;
        assert pending[..i] == pending[..i - 1] + [cmd];
      }
      pending := [];
      killed := true;
      phase := Stopped;
    }

    /** `handle_command`: write the prompt, a line feed and a flush, then read the response. */
    method HandleCommand(cmd: Command)
      requires Valid() && phase == Serving
      modifies this`cursor, this`buffer, this`written, this`replies, this`phase
      ensures Valid()
      ensures var s := ServeOne(stdout, old(cursor), old(buffer), cmd);
        && cursor == s.cursor && buffer == s.buffer && replies == old(replies) + [s.reply]
        && written == old(written) + Accepted(cmd.prompt, cmd.pipe)
        && phase == (if s.hung then Hung else Serving)
    {
      if cmd.pipe.PromptFails? {
        replies := replies + [Reply(cmd.prompt, Send(cmd.rx, [], Failure(cmd.pipe.msg)), true)];
        return;
      }
      written := written + cmd.prompt;
      if cmd.pipe.NewlineFails? {
        replies := replies + [Reply(cmd.prompt, Send(cmd.rx, [], Failure(cmd.pipe.msg)), true)];
        return;
      }
      written := written + "\n";
      if cmd.pipe.FlushFails? {
        replies := replies + [Reply(cmd.prompt, Send(cmd.rx, [], Failure(cmd.pipe.msg)), true)];
        return;
      }
      var next, rest, sent, outcome := ReadResponse(stdout, cursor, cmd.rx);
      cursor, buffer := next, rest;
      replies := replies + [Reply(cmd.prompt, sent, outcome != Blocked)];
      if outcome == Blocked {
        phase := Hung;
      }
    }

    /** `for cmd in pending_commands`: the buffered commands, in order. */
    method DrainPending()
      requires Valid() && phase == Serving
      modifies this`cursor, this`buffer, this`written, this`replies, this`phase, this`pending
      ensures Valid() && pending == []
      ensures var b := ServeAll(stdout, old(cursor), old(buffer), old(pending));
        && cursor == b.cursor && buffer == b.buffer
        && written == old(written) + b.written && replies == old(replies) + b.replies
        && phase == (if b.hung then Hung else Serving)
    {
      var cmds := pending;
      ghost var all := ServeAll(stdout, cursor, buffer, cmds);
      ghost var doneW: string, doneR: seq<Reply> := [], [];
      var i := 0;
      assert cmds[0..] == cmds;
      while i < |cmds| && phase == Serving
        invariant i <= |cmds| && Valid() && pending == cmds
        invariant written == old(written) + doneW && replies == old(replies) + doneR
        invariant phase == Serving ==> all == Prepend(doneW, doneR, ServeAll(stdout, cursor, buffer, cmds[i..]))
        invariant phase == Hung ==> all == Batch(cursor, buffer, doneW, doneR, true)
        invariant phase == Serving || phase == Hung
        decreases |cmds| - i
      {
        var cmd := cmds[i];
        ghost var s := ServeOne(stdout, cursor, buffer, cmd);
        DrainStep(stdout, cursor, buffer, cmds, i, doneW, doneR, all);
        HandleCommand(cmd);
        AppendAssoc(old(written), doneW, Accepted(cmd.prompt, cmd.pipe));
        AppendAssoc(old(replies), doneR, [s.reply]);
        doneW, doneR := doneW + Accepted(cmd.prompt, cmd.pipe), doneR + [s.reply];
        i := i + 1;
      }
      assert phase == Serving ==> cmds[i..] == [];
      pending := [];
    }

    /**
     * `send_prompt_stream` after the handshake: a stopped task has dropped
     * its command channel, so the send fails; otherwise the child task takes the
     * command, and answers it when it is serving.  Commands taken here come
     * after the buffered ones, which are drained (or refused) first.
     */
    method Submit(cmd: Command) returns (r: Result<(), string>)
      requires Valid() && phase != Starting && pending == []
      modifies this`cursor, this`buffer, this`written, this`replies, this`phase
      ensures Valid()
      ensures old(phase) == Stopped <==> r == Err(ChannelClosed)
      ensures old(phase) != Serving ==> unchanged(this)
      ensures old(phase) == Serving ==>
        var s := ServeOne(stdout, old(cursor), old(buffer), cmd);
        && cursor == s.cursor && buffer == s.buffer && replies == old(replies) + [s.reply]
        && written == old(written) + Accepted(cmd.prompt, cmd.pipe)
        && phase == (if s.hung then Hung else Serving)
    {
      if phase == Stopped {
        return Err(ChannelClosed);
      }
      if phase == Serving {
        HandleCommand(cmd);
      }
      r := Ok(());
    }
  }

  // ---------------------------------------------------------------------
  // The caller's side of `send_prompt`.

  /** `send_prompt`: every token followed by a line feed, or the first error. */
  function Assembled(items: seq<Item>): (r: Result<string, string>)
    decreases |items|
  {
    if items == [] then Ok([])
    else match items[0]
      case Failure(msg) => Err(msg)
      case Token(t) =>
        match Assembled(items[1..])
        case Ok(s) => Ok(t + "\n" + s)
        case Err(e) => Err(e)
  }

  /** Prefixes an `Ok` text with `s`; an error passes through. */
  function After(s: string, r: Result<string, string>): Result<string, string> {
    if r.Ok? then Ok(s + r.value) else r
  }

  /** The stream loop of `send_prompt` over the items of one reply. */
  method SendPrompt(items: seq<Item>) returns (r: Result<string, string>)
    ensures r == Assembled(items)
  {
    var response: string := [];
    var i := 0;
    assert items[0..] == items;
    assert Assembled(items).Ok? ==> [] + Assembled(items).value == Assembled(items).value;
    while i < |items|
      invariant i <= |items|
      invariant After(response, Assembled(items[i..])) == Assembled(items)
      decreases |items| - i
    {
      assert items[i..][0] == items[i] && items[i..][1..] == items[i + 1..];
      match items[i]
      case Failure(msg) =>
        return Err(msg);
      case Token(t) =>
        ghost var tail := Assembled(items[i + 1..]);
        assert tail.Ok? ==> (response + t + "\n") + tail.value == response + (t + "\n" + tail.value);
        response := response + t + "\n";
        i := i + 1;
    }
    assert items[i..] == [] && response + [] == response;
    r := Ok(response);
  }

  /** `send_prompt` succeeds exactly when every item is a token. */
  lemma {:induction false} AssembledOkIffTokens(items: seq<Item>)
    ensures Assembled(items).Ok? <==> AllTokens(items)
    decreases |items|
  {
    if items != [] {
      AssembledOkIffTokens(items[1..]);
      assert AllTokens(items) <==> items[0].Token? && AllTokens(items[1..]) by {
        assert forall k :: 1 <= k < |items| ==> items[k] == items[1..][k - 1];
      }
    }
  }

  /** On success the text is the tokens, each followed by a line feed. */
  lemma {:induction false} AssembledText(items: seq<Item>)
    ensures Assembled(items).Ok? ==> Assembled(items).value == Concat(Lined(TokenTexts(items)))
    decreases |items|
  {
    if items != [] && items[0].Token? && Assembled(items).Ok? {
      AssembledText(items[1..]);
      ConcatCons(Lined(TokenTexts(items)));
      assert Lined(TokenTexts(items))[1..] == Lined(TokenTexts(items[1..]));
    }
  }

  /** On failure the error is that of the first error item. */
  lemma {:induction false} AssembledFirstError(items: seq<Item>)
    ensures Assembled(items).Err? ==>
      exists k :: 0 <= k < |items| && items[k] == Failure(Assembled(items).error) && AllTokens(items[..k])
    decreases |items|
  {
    if items != [] && Assembled(items).Err? {
      if items[0].Failure? {
        assert items[..0] == [];
        assert items[0] == Failure(Assembled(items).error) && AllTokens(items[..0]);
      } else {
        AssembledFirstError(items[1..]);
        var k :| 0 <= k < |items[1..]| && items[1..][k] == Failure(Assembled(items).error)
                 && AllTokens(items[1..][..k]);
        assert items[..k + 1] == [items[0]] + items[1..][..k];
        assert items[k + 1] == Failure(Assembled(items).error) && AllTokens(items[..k + 1]);
      }
    }
  }

  /** The texts of the items, errors giving the empty text. */
  function TokenTexts(items: seq<Item>): (r: seq<string>)
    ensures |r| == |items| && forall k :: 0 <= k < |items| && items[k].Token? ==> r[k] == items[k].text
  {
    seq(|items|, k requires 0 <= k < |items| => if items[k].Token? then items[k].text else [])
  }
}
