/** The standalone finance-assistant page of Ui/src/App.tsx: a message log
    that opens with a greeting, an input buffer and the two flags `isLoading`
    and `isTyping`. One exchange is a submit followed by exactly one
    completion: the reply delivered after the typing delay, or the fallback
    message when the request fails. */
module AssistantUi {
  import opened Text
  import opened Wire

  datatype Message = Message(content: String, isBot: bool)

  const Greeting: Message :=
    Message("Hello! I'm your finance assistant. How can I help you today?", true)

  const FallbackText: String := "Something went wrong. Please try again."

  /** Where the pending exchange is: no request, waiting for the HTTP
      response, or holding the reply until the typing-delay timer fires. */
  datatype Stage = Idle | AwaitingResponse | ReplyScheduled(reply: Message)

  /** `!input.trim() || isLoading`: the submit is ignored when the input is
      empty or only whitespace (what an empty `trim()` means, by
      Text.StripEmptyIffBlank), or a request is in flight. */
  predicate Ignored(input: String, isLoading: bool)
  {
    AllSpace(Ecma, input) || isLoading
  }

  class App {
    var messages: seq<Message>
    var input: String
    var isLoading: bool
    var isTyping: bool
    var stage: Stage  // the pending continuation: the awaited fetch or the timer closure

    /** The log opens with the greeting, the flags move together, and they
        are raised exactly while an exchange is pending. */
    ghost predicate Valid()
      reads this
    {
      |messages| >= 1 && messages[0] == Greeting
      && isLoading == isTyping
      && (isLoading <==> !stage.Idle?)
    }

    constructor ()
      ensures Valid()
      ensures messages == [Greeting] && input == [] && !isLoading && !isTyping && stage == Idle
    {
      messages := [Greeting];
      input := [];
      isLoading := false;
      isTyping := false;
      stage := Idle;
    }

    /** The input's `onChange`: replaces the buffer. */
    method Type(text: String)
      requires Valid()
      modifies this`input
      ensures Valid() && input == text
    {
      input := text;
    }

    /** `handleSubmit` up to the request: when accepted, appends the user's
        untrimmed text, clears the buffer, raises both flags and returns the
        body posted to `/chat/`. */
    method Submit() returns (request: Option<ChatRequest>)
      requires Valid()
      modifies this
      ensures Valid()
      ensures request.None? <==> Ignored(old(input), old(isLoading))
      ensures request.None? ==>
        messages == old(messages) && input == old(input)
        && isLoading == old(isLoading) && isTyping == old(isTyping) && stage == old(stage)
      ensures request.Some? ==>
        request.value == ChatRequest(old(input))
        && messages == old(messages) + [Message(old(input), false)]
        && input == [] && isLoading && isTyping && stage == AwaitingResponse
    {
      TrimGuardIsIgnored(input, isLoading);
      if Strip(Ecma, input) == [] || isLoading {
        return None;
      }
      request := Some(ChatRequest(input));
      messages := messages + [Message(input, false)];
      input := [];
      isLoading := true;
      isTyping := true;
      stage := AwaitingResponse;
    }

    /** An OK response was parsed: the reply waits for the typing-delay
        timer and nothing visible changes, so both flags stay raised. */
    method ReplyArrived(botResponse: String)
      requires Valid() && stage == AwaitingResponse
      modifies this`stage
      ensures Valid() && stage == ReplyScheduled(Message(botResponse, true))
    {
      stage := ReplyScheduled(Message(botResponse, true));
    }

    /** The timer fires: appends the held reply and clears both flags. */
    method DeliverReply()
      requires Valid() && stage.ReplyScheduled?
      modifies this
      ensures Valid()
      ensures messages == old(messages) + [old(stage).reply]
      ensures input == old(input) && !isLoading && !isTyping && stage == Idle
    {
      messages := messages + [stage.reply];
      isTyping := false;
      isLoading := false;
      stage := Idle;
    }

    /** A non-OK status or a thrown error: appends the fallback message and
        clears both flags. */
    method Fail()
      requires Valid() && stage == AwaitingResponse
      modifies this
      ensures Valid()
      ensures messages == old(messages) + [Message(FallbackText, true)]
      ensures input == old(input) && !isLoading && !isTyping && stage == Idle
    {
      messages := messages + [Message(FallbackText, true)];
      isTyping := false;
      isLoading := false;
      stage := Idle;
    }
  }

  /** A whole successful exchange from a fresh page: a second submit during
      the typing delay is ignored, and the log ends with the user's turn and
      the reply. */
  method SuccessfulExchange(text: String, botResponse: String, retyped: String)
    returns (log: seq<Message>, sent: Option<ChatRequest>, resent: Option<ChatRequest>)
    requires !AllSpace(Ecma, text)
    ensures sent == Some(ChatRequest(text)) && resent == None
    ensures log == [Greeting, Message(text, false), Message(botResponse, true)]
  {
    var app := new App();
    app.Type(text);
    sent := app.Submit();
    assert sent.Some? && app.stage == AwaitingResponse;
    app.ReplyArrived(botResponse);
    app.Type(retyped);
    assert app.isLoading;
    resent := app.Submit();
    app.DeliverReply();
    log := app.messages;
  }

  /** A failed exchange leaves the user's turn and the fallback message, and
      the page accepts the next submit. */
  method FailedExchange(text: String, next: String)
    returns (log: seq<Message>, nextSent: Option<ChatRequest>)
    requires !AllSpace(Ecma, text) && !AllSpace(Ecma, next)
    ensures log == [Greeting, Message(text, false), Message(FallbackText, true)]
    ensures nextSent == Some(ChatRequest(next))
  {
    var app := new App();
    app.Type(text);
    var sent := app.Submit();
    assert sent.Some? && app.stage == AwaitingResponse;
    assert app.messages == [Greeting, Message(text, false)];
    app.Fail();
    log := app.messages;
    assert log == [Greeting, Message(text, false), Message(FallbackText, true)];
    assert !app.isLoading;
    app.Type(next);
    assert !Ignored(app.input, app.isLoading);
    nextSent := app.Submit();
  }

  /** The guard as written, on the trimmed input, is the guard above. */
  lemma TrimGuardIsIgnored(input: String, isLoading: bool)
    ensures (Strip(Ecma, input) == [] || isLoading) <==> Ignored(input, isLoading)
  {
    StripEmptyIffBlank(Ecma, input);
  }
}
