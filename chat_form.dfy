/** The chat form of the Next.js front-end (Frontend/components/chat-form.tsx):
    a log of user and assistant turns and an input buffer. Unlike the
    standalone page it has no empty-input guard and no busy flag: every
    submit appends the user's turn, and the assistant's turn follows only
    when the HTTP reply is OK. The log's `append` is a plain append. */
module ChatFormUi {
  import opened Text
  import opened Wire

  datatype Role = User | Assistant

  datatype ChatMessage = ChatMessage(content: String, role: Role)

  /** The reply of `POST /chat/`: the `ok` flag and the decoded body. */
  datatype Reply = Reply(ok: bool, body: ChatResponse)

  /** `handleKeyDown`: Enter without Shift submits. */
  predicate SubmitsOnKey(key: String, shiftKey: bool)
  {
    key == "Enter" && !shiftKey
  }

  datatype Alignment = End | Start

  /** A rendered bubble: its side of the column and its text. */
  datatype Bubble = Bubble(alignment: Alignment, content: String)

  function AlignmentOf(role: Role): Alignment
  {
    if role == User then End else Start
  }

  /** The bubbles of `messageList`: one per message with non-empty content,
      in log order. */
  function Bubbles(messages: seq<ChatMessage>): (r: seq<Bubble>)
    ensures |r| <= |messages|
    ensures forall b :: b in r ==> b.content != []
  {
    if messages == [] then [] else BubbleOf(messages[0]) + Bubbles(messages[1..])
  }

  /** The bubble of one message: none when its content is empty. */
  function BubbleOf(m: ChatMessage): seq<Bubble>
  {
    if m.content != [] then [Bubble(AlignmentOf(m.role), m.content)] else []
  }

  /** Every bubble shows some message's content on that message's side. */
  lemma {:induction false} BubblesFromMessages(messages: seq<ChatMessage>)
    ensures forall b :: b in Bubbles(messages) ==>
      exists i :: 0 <= i < |messages| && messages[i].content == b.content
                  && b.alignment == AlignmentOf(messages[i].role)
  {
    if messages != [] {
      BubblesFromMessages(messages[1..]);
      forall b | b in Bubbles(messages)
        ensures exists i :: 0 <= i < |messages| && messages[i].content == b.content
                            && b.alignment == AlignmentOf(messages[i].role)
      {
        if b in BubbleOf(messages[0]) {
          assert messages[0].content == b.content;
        } else {
          assert b in Bubbles(messages[1..]);
          var i :| 0 <= i < |messages[1..]| && messages[1..][i].content == b.content
            && b.alignment == AlignmentOf(messages[1..][i].role);
          assert messages[i + 1] == messages[1..][i];
        }
      }
    }
  }

  /** Bubbles distributes over concatenation, so appending to the log only
      appends bubbles. */
  lemma {:induction false} BubblesAppend(a: seq<ChatMessage>, b: seq<ChatMessage>)
    ensures Bubbles(a + b) == Bubbles(a) + Bubbles(b)
  {
    if a == [] {
      assert a + b == b;
    } else {
      assert (a + b)[0] == a[0];
      assert (a + b)[1..] == a[1..] + b;
      BubblesAppend(a[1..], b);
      assert Bubbles(a + b) == BubbleOf(a[0]) + Bubbles(a[1..] + b);
    }
  }

  /** One appended message adds one bubble on its role's side when it has
      content, and none when it is empty. */
  lemma BubblesAfterAppend(log: seq<ChatMessage>, m: ChatMessage)
    ensures Bubbles(log + [m]) ==
      Bubbles(log) + (if m.content != [] then [Bubble(AlignmentOf(m.role), m.content)] else [])
  {
    BubblesAppend(log, [m]);
    assert [m][1..] == [];
  }

  class ChatForm {
    var messages: seq<ChatMessage>
    var input: String
    ghost var inFlight: nat  // requests posted whose reply has not come back

    constructor ()
      ensures messages == [] && input == [] && inFlight == 0
    {
      messages := [];
      input := [];
      inFlight := 0;
    }

    /** The textarea's `onChange`: replaces the buffer. */
    method Type(text: String)
      modifies this`input
      ensures input == text
    {
      input := text;
    }

    /** `handleSubmit` up to the request: appends the user's turn, even an
        empty one, clears the buffer and returns the body posted to `/chat/`,
        which carries the input as it was before clearing. */
    method Submit() returns (request: ChatRequest)
      modifies this
      ensures request == ChatRequest(old(input))
      ensures messages == old(messages) + [ChatMessage(old(input), User)]
      ensures input == [] && inFlight == old(inFlight) + 1
    {
      request := ChatRequest(input);
      messages := messages + [ChatMessage(input, User)];
      input := [];
      inFlight := inFlight + 1;
    }

    /** The rest of `handleSubmit`: an OK reply appends one assistant turn;
        any other reply leaves the log as it is. */
    method Receive(reply: Reply)
      requires inFlight > 0
      modifies this`messages, this`inFlight
      ensures messages == old(messages)
        + (if reply.ok then [ChatMessage(reply.body.botResponse, Assistant)] else [])
      ensures inFlight == old(inFlight) - 1
    {
      if reply.ok {
        messages := messages + [ChatMessage(reply.body.botResponse, Assistant)];
      }
      inFlight := inFlight - 1;
    }

    /** `handleKeyDown`: submits on Enter without Shift and otherwise
        changes nothing. */
    method KeyDown(key: String, shiftKey: bool) returns (request: Option<ChatRequest>)
      modifies this
      ensures request.Some? <==> SubmitsOnKey(key, shiftKey)
      ensures request.Some? ==>
        request.value == ChatRequest(old(input))
        && messages == old(messages) + [ChatMessage(old(input), User)]
        && input == [] && inFlight == old(inFlight) + 1
      ensures request.None? ==>
        messages == old(messages) && input == old(input) && inFlight == old(inFlight)
    {
      if SubmitsOnKey(key, shiftKey) {
        var sent := Submit();
        request := Some(sent);
      } else {
        request := None;
      }
    }
  }

  /** One exchange from a fresh form, typing `text` and pressing Enter: the
      body carries `text`, the buffer ends empty, and the log holds the
      user's turn followed by the assistant's only when the reply is OK. */
  method EnterExchange(text: String, reply: Reply)
    returns (log: seq<ChatMessage>, sent: Option<ChatRequest>, buffer: String)
    ensures sent == Some(ChatRequest(text)) && buffer == []
    ensures log == [ChatMessage(text, User)]
      + (if reply.ok then [ChatMessage(reply.body.botResponse, Assistant)] else [])
  {
    var form := new ChatForm();
    form.Type(text);
    sent := form.KeyDown("Enter", false);
    buffer := form.input;
    form.Receive(reply);
    log := form.messages;
  }
}
