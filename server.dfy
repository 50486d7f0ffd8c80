// The OpenAI-compatible HTTP front end of src/server.rs: a chat request is
// flattened into one prompt; without `stream` the whole reply is buffered and
// returned as one completion, with `stream` every item of the reply becomes
// one server-sent event, the first token carrying the role.
//
// What the pool does with the prompt is a parameter: `reply(prompt)` is
// either the error that kept the prompt from reaching a process or the items
// that process sends back.  The completion id's UUID and the clock are
// parameters too; JSON encoding is not modelled (an event carries the chunk
// value itself).

module Server {
  import opened Base
  import opened Text
  import Demux
  import Supervisor

  datatype Message = Message(role: string, content: string)

  /** `ChatCompletionRequest` without the unused `max_tokens` and `temperature`. */
  datatype Request = Request(model: string, messages: seq<Message>, stream: bool)

  datatype Usage = Usage(promptTokens: nat, completionTokens: nat, totalTokens: nat)
  datatype Choice = Choice(index: nat, message: Message, finishReason: string)
  datatype Completion = Completion(id: string, objectKind: string, created: nat, model: string,
                                   choices: seq<Choice>, usage: Usage)

  datatype Delta = Delta(role: Option<string>, content: Option<string>)
  datatype ChoiceChunk = ChoiceChunk(index: nat, delta: Delta, finishReason: Option<string>)
  datatype CompletionChunk = CompletionChunk(id: string, objectKind: string, created: nat, model: string,
                                             choices: seq<ChoiceChunk>)

  /** A server-sent event: a data event with a chunk, or an `error` event. */
  datatype Event = Data(chunk: CompletionChunk) | ErrorEvent(message: string)

  /** What the handler answers. */
  datatype Response = JsonBody(completion: Completion) | EventStream(events: seq<Event>) | ServerError(status: nat, body: string)

  const InternalServerError: nat := 500
  const Assistant: string := "assistant"

  function CompletionId(uuid: string): string {
    "chatcmpl-" + uuid
  }

  // ------------------------------------------------------------------
  // The prompt
  // ------------------------------------------------------------------

  /** `format!("{}: {}", m.role, m.content)` */
  function Render(m: Message): (line: string)
    ensures |line| == |m.role| + 2 + |m.content|
    ensures line[..|m.role|] == m.role && line[|m.role|..|m.role| + 2] == ": "
    ensures line[|m.role| + 2..] == m.content
  {
    m.role + ": " + m.content
  }

  function Rendered(ms: seq<Message>): (r: seq<string>)
    ensures |r| == |ms| && forall i :: 0 <= i < |ms| ==> r[i] == Render(ms[i])
  {
    seq(|ms|, i requires 0 <= i < |ms| => Render(ms[i]))
  }

  /** The prompt of `chat_completions`: the rendered messages joined by line feeds. */
  function BuildPrompt(ms: seq<Message>): string {
    Join(Rendered(ms), "\n")
  }

  /** A message whose rendering is a single line of its own. */
  predicate OneLine(m: Message) {
    '\n' !in m.role && '\n' !in m.content && (m.content == [] || m.content[|m.content| - 1] != '\r')
  }

  /**
   * The prompt holds one line per message, in order, and no trailing line
   * feed: when no message spans lines, splitting the prompt into lines gives
   * back exactly the rendered messages.
   */
  lemma {:induction false} PromptLines(ms: seq<Message>)
    requires forall i :: 0 <= i < |ms| ==> OneLine(ms[i])
    ensures Lines(BuildPrompt(ms)) == Rendered(ms)
    decreases |ms|
  {
    if |ms| == 1 {
      var a := Render(ms[0]);
      SingleLine(ms[0]);
      assert Rendered(ms) == [a];
      LinesOfLine(a, []);
    } else if ms != [] {
      PromptLines(ms[1..]);
      PromptLinesStep(ms);
    }
  }

  /** One message in front of a prompt whose lines are already known. */
  lemma PromptLinesStep(ms: seq<Message>)
    requires |ms| > 1 && OneLine(ms[0])
    requires Lines(BuildPrompt(ms[1..])) == Rendered(ms[1..])
    ensures Lines(BuildPrompt(ms)) == Rendered(ms)
  {
    SingleLine(ms[0]);
    PromptCons(ms);
    LinesOfLine(Render(ms[0]), BuildPrompt(ms[1..]));
  }

  /** The prompt of several messages: the first one's line, a line feed, the rest. */
  lemma PromptCons(ms: seq<Message>)
    requires |ms| > 1
    ensures Rendered(ms) == [Render(ms[0])] + Rendered(ms[1..])
    ensures BuildPrompt(ms) == Render(ms[0]) + "\n" + BuildPrompt(ms[1..])
  {
    var r := Rendered(ms);
    assert r[1..] == Rendered(ms[1..]);
    assert r == [r[0]] + r[1..];
  }

  lemma SingleLine(m: Message)
    requires OneLine(m)
    ensures var a := Render(m); a != [] && '\n' !in a && DropCr(a) == a
  {
    var a := Render(m);
    forall k | 0 <= k < |a|
      ensures a[k] != '\n'
    {
      if k < |m.role| {
        assert a[k] == m.role[k];
      } else if k >= |m.role| + 2 {
        assert a[k] == m.content[k - |m.role| - 2];
      }
    }
  }

  /** A line without line feeds, then (when something follows) a line feed. */
  lemma LinesOfLine(a: string, rest: string)
    requires a != [] && '\n' !in a && DropCr(a) == a
    ensures rest == [] ==> Lines(a) == [a]
    ensures rest != [] ==> Lines(a + "\n" + rest) == [a] + Lines(rest)
  {
    if rest == [] {
      assert IndexOf(a, '\n') == |a|;
    } else {
      var s := a + "\n" + rest;
      var i := IndexOf(s, '\n');
      assert s[|a|] == '\n';
      assert i == |a|;
      assert s[..i] == a && s[i + 1..] == rest;
    }
  }

  /** The prompt with one more message: a line feed, then that message. */
  lemma PromptSnoc(ms: seq<Message>, m: Message)
    requires ms != []
    ensures BuildPrompt(ms + [m]) == BuildPrompt(ms) + "\n" + Render(m)
  {
    assert Rendered(ms + [m]) == Rendered(ms) + [Render(m)];
    JoinSnoc(Rendered(ms), Render(m), "\n");
  }

  // ------------------------------------------------------------------
  // The buffered answer
  // ------------------------------------------------------------------

  /** The body of a buffered answer: one assistant choice with the whole text,
      finished with "stop", the request's model, and zero usage. */
  function Respond(model: string, text: string, uuid: string, now: nat): (c: Completion)
    ensures |c.choices| == 1 && c.choices[0] == Choice(0, Message(Assistant, text), "stop")
    ensures c.model == model && c.usage == Usage(0, 0, 0)
    ensures c.id == CompletionId(uuid) && c.objectKind == "chat.completion" && c.created == now
  {
    Completion(CompletionId(uuid), "chat.completion", now, model,
               [Choice(0, Message(Assistant, text), "stop")], Usage(0, 0, 0))
  }

  // ------------------------------------------------------------------
  // The event stream
  // ------------------------------------------------------------------

  /** Item `i` is the first token of the reply. */
  predicate FirstToken(items: seq<Demux.Item>, i: nat)
    requires i < |items|
  {
    items[i].Token? && forall j :: 0 <= j < i ==> !items[j].Token?
  }

  /** The `object` field of a streamed chunk. */
  const ChunkObject: string := "chat.completion.chunk"

  /** The event of one item; `first` says whether the role goes with it. */
  function EventFor(item: Demux.Item, first: bool, id: string, created: nat, model: string): Event {
    match item
    case Token(t) =>
      var delta := Delta(if first then Some(Assistant) else None, Some(t));
      Data(CompletionChunk(id, ChunkObject, created, model, [ChoiceChunk(0, delta, None)]))
    case Failure(e) => ErrorEvent(e)
  }

  /** The events of a reply, one per item. */
  function StreamEvents(items: seq<Demux.Item>, id: string, created: nat, model: string): (events: seq<Event>)
    ensures |events| == |items|
    ensures forall i :: 0 <= i < |items| ==> events[i] == EventFor(items[i], FirstToken(items, i), id, created, model)
  {
    seq(|items|, i requires 0 <= i < |items| => EventFor(items[i], FirstToken(items, i), id, created, model))
  }

  /** The mapping closure of `chat_completions_stream`, with its
      `first_chunk` flag, over every item of the reply. */
  method MapStream(items: seq<Demux.Item>, id: string, created: nat, model: string) returns (events: seq<Event>)
    ensures events == StreamEvents(items, id, created, model)
  {
    var first := true;
    events := [];
    var i := 0;
    while i < |items|
      invariant i <= |items|
      invariant first <==> forall j :: 0 <= j < i ==> !items[j].Token?
      invariant |events| == i
      invariant forall k :: 0 <= k < i ==> events[k] == EventFor(items[k], FirstToken(items, k), id, created, model)
    {
      ghost var wasFirst := first;
      var event;
      match items[i] {
        case Token(t) =>
          var delta;
          if first {
            first := false;
            delta := Delta(Some(Assistant), Some(t));
          } else {
            delta := Delta(None, Some(t));
          }
          event := Data(CompletionChunk(id, ChunkObject, created, model, [ChoiceChunk(0, delta, None)]));
        case Failure(e) =>
          event := ErrorEvent(e);
      }
      assert event == EventFor(items[i], wasFirst, id, created, model);
      MapStep(items, i, wasFirst, events, event, id, created, model);
      events := events + [event];
      i := i + 1;
    }
  }

  /** One pass of `MapStream`'s loop. */
  lemma MapStep(items: seq<Demux.Item>, i: nat, first: bool, events: seq<Event>, event: Event,
                id: string, created: nat, model: string)
    requires i < |items| && |events| == i
    requires first <==> forall j :: 0 <= j < i ==> !items[j].Token?
    requires forall k :: 0 <= k < i ==> events[k] == EventFor(items[k], FirstToken(items, k), id, created, model)
    requires event == EventFor(items[i], first, id, created, model)
    ensures forall k :: 0 <= k < i + 1 ==>
              (events + [event])[k] == EventFor(items[k], FirstToken(items, k), id, created, model)
    ensures (first && !items[i].Token?) <==> forall j :: 0 <= j < i + 1 ==> !items[j].Token?
  {
    if items[i].Token? {
      assert FirstToken(items, i) == first;
    }
  }

  /** The event carries the role. */
  predicate HasRole(e: Event) {
    e.Data? && |e.chunk.choices| == 1 && e.chunk.choices[0].delta.role.Some?
  }

  /** A first token exists as soon as any token does. */
  lemma {:induction false} FirstTokenExists(items: seq<Demux.Item>, i: nat)
    requires i < |items| && items[i].Token?
    ensures exists k :: 0 <= k <= i && FirstToken(items, k)
    decreases i
  {
    if !FirstToken(items, i) {
      var j :| 0 <= j < i && items[j].Token?;
      FirstTokenExists(items, j);
    }
  }

  /**
   * Every item gives exactly one event, in order: a token becomes a data
   * event whose only choice has index 0, that token as content and no
   * finish reason; an error becomes an `error` event with its message.  The
   * role is carried by exactly one event, the first token's, when the reply
   * has a token, and by none otherwise.
   */
  lemma StreamShape(items: seq<Demux.Item>, id: string, created: nat, model: string)
    ensures var ev := StreamEvents(items, id, created, model);
      && (forall i :: 0 <= i < |items| ==> (ev[i].Data? <==> items[i].Token?))
      && (forall i :: 0 <= i < |items| && items[i].Token? ==>
            && |ev[i].chunk.choices| == 1
            && ev[i].chunk.choices[0].index == 0
            && ev[i].chunk.choices[0].delta.content == Some(items[i].text)
            && ev[i].chunk.choices[0].finishReason.None?)
      && (forall i :: 0 <= i < |items| && items[i].Failure? ==> ev[i] == ErrorEvent(items[i].msg))
      && (forall i, j :: 0 <= i < j < |items| && HasRole(ev[i]) ==> !HasRole(ev[j]))
      && ((exists i :: 0 <= i < |items| && HasRole(ev[i])) <==> (exists i :: 0 <= i < |items| && items[i].Token?))
  {
    var ev := StreamEvents(items, id, created, model);
    assert forall i :: 0 <= i < |items| ==> (HasRole(ev[i]) <==> FirstToken(items, i));
    if i :| 0 <= i < |items| && items[i].Token? {
      FirstTokenExists(items, i);
    }
  }

  /** The text an event adds to the answer. */
  function EventText(e: Event): string {
    if e.Data? && |e.chunk.choices| == 1 && e.chunk.choices[0].delta.content.Some?
    then e.chunk.choices[0].delta.content.value else []
  }

  /**
   * The two paths deliver the same tokens: when the reply has no error, the
   * buffered answer is the streamed texts, each followed by a line feed.
   */
  lemma BufferedMatchesStream(items: seq<Demux.Item>, id: string, created: nat, model: string)
    requires Demux.AllTokens(items)
    ensures var ev := StreamEvents(items, id, created, model);
      Supervisor.Assembled(items) == Ok(Concat(Supervisor.Lined(seq(|ev|, i requires 0 <= i < |ev| => EventText(ev[i])))))
  {
    var ev := StreamEvents(items, id, created, model);
    Supervisor.AssembledOkIffTokens(items);
    Supervisor.AssembledText(items);
    assert seq(|ev|, i requires 0 <= i < |ev| => EventText(ev[i])) == Supervisor.TokenTexts(items);
  }

  // ------------------------------------------------------------------
  // The handler
  // ------------------------------------------------------------------

  /**
   * `chat_completions`: the prompt goes to the pool; when it cannot be
   * delivered the answer is a 500 with the error text.  With `stream` the
   * reply becomes events; without it the reply is buffered by `send_prompt`,
   * whose first error is a 500 as well.
   */
  method ChatCompletions(req: Request, reply: string -> Result<seq<Demux.Item>, string>, uuid: string, now: nat)
    returns (resp: Response)
    ensures var r := reply(BuildPrompt(req.messages));
      && (r.Err? ==> resp == ServerError(InternalServerError, r.error))
      && (r.Ok? && req.stream ==> resp == EventStream(StreamEvents(r.value, CompletionId(uuid), now, req.model)))
      && (r.Ok? && !req.stream && Supervisor.Assembled(r.value).Err? ==>
            resp == ServerError(InternalServerError, Supervisor.Assembled(r.value).error))
      && (r.Ok? && !req.stream && Supervisor.Assembled(r.value).Ok? ==>
            resp == JsonBody(Respond(req.model, Supervisor.Assembled(r.value).value, uuid, now)))
  {
    var prompt := BuildPrompt(req.messages);
    var r := reply(prompt);
    if r.Err? {
      return ServerError(InternalServerError, r.error);
    }
    if req.stream {
      var events := MapStream(r.value, CompletionId(uuid), now, req.model);
      return EventStream(events);
    }
    var text := Supervisor.SendPrompt(r.value);
    if text.Err? {
      return ServerError(InternalServerError, text.error);
    }
    resp := JsonBody(Respond(req.model, text.value, uuid, now));
  }
}
