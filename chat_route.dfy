/** The `POST /api/chat` route of the Next.js front-end: pick the last user
    message, reject with 400 when there is none, forward its content as
    `{"prompt": …}` to the upstream service and wrap the reply as a stream of
    one chunk. The upstream call is a function-valued parameter; the route's
    outcome records every request it sent. */
module ChatRoute {
  import opened Text
  import opened Wire

  /** The roles of a conversational message. */
  datatype Role = System | User | Assistant | Tool

  datatype CoreMessage = CoreMessage(role: Role, content: String)

  /** What the upstream service answers: an HTTP status and the decoded body. */
  datatype UpstreamReply = UpstreamReply(status: nat, body: GenerateResponse)
  {
    /** `Response.ok`: a status in the range 200-299. */
    predicate Ok() { 200 <= status <= 299 }
  }

  /** The state a `ReadableStream` controller keeps: the chunks enqueued so
      far, in order, and whether `close()` has been called. */
  datatype StreamState = StreamState(queue: seq<String>, closed: bool)

  /** What one `reader.read()` yields: a chunk, or the end of the stream. */
  datatype ReadResult = Chunk(value: String) | Done

  datatype RouteResult =
    | Plain(status: nat, text: String)   // a plain `Response`
    | Streamed(stream: StreamState)      // a streaming text response
    | Thrown(message: String)            // an exception escaping the handler

  /** The route's result together with the upstream requests it made. */
  datatype Handled = Handled(upstreamCalls: seq<GenerateRequest>, result: RouteResult)

  const NoUserMessage: String := "No user message found"
  const HttpErrorPrefix: String := "HTTP error! status: "

  /** `messages.filter((m) => m.role === "user")`. */
  function UserMessages(messages: seq<CoreMessage>): (r: seq<CoreMessage>)
    ensures |r| <= |messages|
    ensures forall i :: 0 <= i < |r| ==> r[i].role == User && r[i] in messages
  {
    if messages == [] then []
    else if messages[0].role == User then [messages[0]] + UserMessages(messages[1..])
    else UserMessages(messages[1..])
  }

  /** `.pop()` on the filtered list: its last element, or nothing when empty. */
  function LastUserMessage(messages: seq<CoreMessage>): (r: Option<CoreMessage>)
    ensures r.Some? ==> r.value.role == User && r.value in messages
  {
    var users := UserMessages(messages);
    if users == [] then None else Some(users[|users| - 1])
  }

  /** An independent description of the choice: the index of the last
      message whose role is User, searched from the end. */
  function LastUserIndex(messages: seq<CoreMessage>): (r: Option<nat>)
    ensures r.Some? ==> r.value < |messages| && messages[r.value].role == User
    ensures r.Some? ==> forall j :: r.value < j < |messages| ==> messages[j].role != User
    ensures r.None? ==> forall j :: 0 <= j < |messages| ==> messages[j].role != User
  {
    if messages == [] then None
    else if messages[|messages| - 1].role == User then Some(|messages| - 1)
    else LastUserIndex(messages[..|messages| - 1])
  }

  lemma {:induction false} UserMessagesAppend(a: seq<CoreMessage>, b: seq<CoreMessage>)
    ensures UserMessages(a + b) == UserMessages(a) + UserMessages(b)
  {
    if a != [] {
      assert (a + b)[1..] == a[1..] + b;
      UserMessagesAppend(a[1..], b);
    } else {
      assert a + b == b;
    }
  }

  /** Filter-then-pop selects exactly the message at LastUserIndex. */
  lemma {:induction false} LastUserMessageAtIndex(messages: seq<CoreMessage>)
    ensures LastUserMessage(messages) ==
      match LastUserIndex(messages)
      case None => None
      case Some(i) => Some(messages[i])
  {
    if messages != [] {
      var init, last := messages[..|messages| - 1], messages[|messages| - 1];
      assert messages == init + [last];
      UserMessagesAppend(init, [last]);
      assert [last][1..] == [];
      LastUserMessageAtIndex(init);
    }
  }

  /** Messages after the last user message, being of other roles, do not
      change the choice. */
  lemma TrailingNonUserIgnored(messages: seq<CoreMessage>, tail: seq<CoreMessage>)
    requires forall j :: 0 <= j < |tail| ==> tail[j].role != User
    ensures LastUserMessage(messages + tail) == LastUserMessage(messages)
  {
    UserMessagesAppend(messages, tail);
    NoUserMessages(tail);
  }

  lemma {:induction false} NoUserMessages(messages: seq<CoreMessage>)
    requires forall j :: 0 <= j < |messages| ==> messages[j].role != User
    ensures UserMessages(messages) == []
  {
    if messages != [] {
      NoUserMessages(messages[1..]);
    }
  }

  /** The handler. */
  function Post(messages: seq<CoreMessage>, upstream: GenerateRequest -> UpstreamReply): (r: Handled)
    ensures r.result.Plain? <==> forall j :: 0 <= j < |messages| ==> messages[j].role != User
    ensures r.result.Plain? ==> r.result == Plain(400, NoUserMessage) && r.upstreamCalls == []
    ensures !r.result.Plain? ==>
      exists i :: 0 <= i < |messages| && messages[i].role == User
        && (forall j :: i < j < |messages| ==> messages[j].role != User)
        && r.upstreamCalls == [GenerateRequest(messages[i].content)]
    ensures r.upstreamCalls != [] ==>
      var reply := upstream(r.upstreamCalls[0]);
      if reply.Ok() then
        r.result.Streamed? && r.result.stream.closed
        && Drain(r.result.stream) == [Chunk(reply.body.response), Done]
      else r.result.Thrown? && r.result.message == HttpErrorPrefix + Decimal(reply.status)
  {
    LastUserMessageAtIndex(messages);
    match LastUserMessage(messages)
    case None => Handled([], Plain(400, NoUserMessage))
    case Some(last) =>
      var request := GenerateRequest(last.content);
      var reply := upstream(request);
      if !reply.Ok() then
        Handled([request], Thrown(HttpErrorPrefix + Decimal(reply.status)))
      else
        Handled([request], Streamed(Start(reply.body.response)))
  }

  /** `controller.enqueue(chunk)`: refused (a TypeError) once the stream is closed. */
  function Enqueue(s: StreamState, chunk: String): (r: Option<StreamState>)
    ensures r.None? <==> s.closed
  {
    if s.closed then None else Some(StreamState(s.queue + [chunk], false))
  }

  /** `controller.close()`: refused once the stream is already closed. */
  function Close(s: StreamState): (r: Option<StreamState>)
    ensures r.None? <==> s.closed
  {
    if s.closed then None else Some(StreamState(s.queue, true))
  }

  /** A reader draining a closed stream: every queued chunk in order, then
      the end of the stream. */
  function Drain(s: StreamState): (r: seq<ReadResult>)
    requires s.closed
    ensures |r| == |s.queue| + 1 && r[|s.queue|] == Done
    ensures forall i :: 0 <= i < |s.queue| ==> r[i] == Chunk(s.queue[i])
    decreases |s.queue|
  {
    if s.queue == [] then [Done]
    else [Chunk(s.queue[0])] + Drain(StreamState(s.queue[1..], true))
  }

  /** The stream's `start(controller)`: enqueue the text, then close; a
      reader then gets the text as its only chunk and the end of the stream. */
  function Start(text: String): (r: StreamState)
    ensures r.closed && Drain(r) == [Chunk(text), Done]
  {
    DrainAfterEnqueue(StreamState([], false), text);
    var open := Enqueue(StreamState([], false), text).value;
    Close(open).value
  }

  /** Enqueueing on an open stream and then closing it puts the chunk just
      before the end that closing at once would give. */
  lemma DrainAfterEnqueue(s: StreamState, chunk: String)
    requires !s.closed
    ensures Drain(Close(Enqueue(s, chunk).value).value)
      == Drain(Close(s).value)[..|s.queue|] + [Chunk(chunk), Done]
  {
  }

  /** Once `start` has run, the stream accepts neither another chunk nor a
      second close. */
  lemma StartSealed(text: String, chunk: String)
    ensures Enqueue(Start(text), chunk).None? && Close(Start(text)).None?
  {
  }

  /** The error text carries the status code, which can be read back from it. */
  lemma ErrorCarriesStatus(messages: seq<CoreMessage>, upstream: GenerateRequest -> UpstreamReply)
    requires Post(messages, upstream).result.Thrown?
    ensures var r := Post(messages, upstream);
      var m := r.result.message;
      |m| > |HttpErrorPrefix| && m[..|HttpErrorPrefix|] == HttpErrorPrefix
      && ParseDecimal(m[|HttpErrorPrefix|..]) == upstream(r.upstreamCalls[0]).status
  {
    var r := Post(messages, upstream);
    var status := upstream(r.upstreamCalls[0]).status;
    DecimalRoundTrip(status);
    assert r.result.message[|HttpErrorPrefix|..] == Decimal(status);
  }
}
