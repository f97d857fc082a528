/** The `/chat/` endpoint of app.py: the prompt template around the user's
    text, the cut of the generated tokens after the prompt, and the strip of
    the decoded reply. The tokenizer and the model are function-valued fields
    of LanguageModel. */
module ChatService {
  import opened Text
  import opened Wire

  type Token = nat

  /** The tokenizer's encoder, the model's `generate` (which returns the
      prompt tokens followed by the new ones) and the decoder with special
      tokens skipped. */
  datatype LanguageModel = LanguageModel(
    encode: String -> seq<Token>,
    generate: seq<Token> -> seq<Token>,
    decode: seq<Token> -> String)

  const UserTag: String := "User: "
  const BotTag: String := "\nBot:"

  /** The model input: the user's text between the two tags, unchanged. */
  function Prompt(userInput: String): (p: String)
    ensures |p| == |UserTag| + |userInput| + |BotTag|
    ensures p[..|UserTag|] == UserTag && p[|p| - |BotTag|..] == BotTag
    ensures p[|UserTag|..|p| - |BotTag|] == userInput
  {
    UserTag + userInput + BotTag
  }

  /** Reads the user's text back out of a prompt, if it has the template's shape. */
  function UserInputOf(p: String): Option<String>
  {
    if |p| >= |UserTag| + |BotTag| && p[..|UserTag|] == UserTag && p[|p| - |BotTag|..] == BotTag
    then Some(p[|UserTag|..|p| - |BotTag|])
    else None
  }

  /** The template loses nothing: the user's text is recovered from the prompt. */
  lemma PromptRoundTrip(userInput: String)
    ensures UserInputOf(Prompt(userInput)) == Some(userInput)
  {
  }

  /** And every prompt-shaped string is the template applied to what it holds. */
  lemma PromptOfUserInput(p: String, userInput: String)
    requires UserInputOf(p) == Some(userInput)
    ensures Prompt(userInput) == p
  {
    assert p == p[..|UserTag|] + p[|UserTag|..|p| - |BotTag|] + p[|p| - |BotTag|..];
  }

  /** `output[:, n:]` for a batch of one: the tokens after the first `n`,
      or none when the output is shorter (a Python slice never fails). */
  function NewTokens(output: seq<Token>, n: nat): (r: seq<Token>)
    ensures n <= |output| ==> output[..n] + r == output
    ensures n > |output| ==> r == []
  {
    if n <= |output| then output[n..] else []
  }

  /** When the model echoes the prompt before its continuation, only the
      continuation is decoded: no prompt token reaches the reply. */
  lemma NewTokensDropPrompt(promptIds: seq<Token>, continuation: seq<Token>)
    ensures NewTokens(promptIds + continuation, |promptIds|) == continuation
  {
  }

  /** `chatbot_response`: the decoded new tokens, stripped. */
  function ChatbotResponse(userInput: String, m: LanguageModel): (r: String)
    ensures IsStripped(Python, r)
    ensures Strip(Python, r) == r
  {
    var ids := m.encode(Prompt(userInput));
    var output := m.generate(ids);
    var decoded := m.decode(NewTokens(output, |ids|));
    StripIdempotent(Python, decoded);
    Strip(Python, decoded)
  }

  /** When the model returns the prompt tokens followed by a continuation,
      the reply is the stripped decoding of the continuation alone. */
  lemma ReplyIsContinuation(userInput: String, m: LanguageModel, continuation: seq<Token>)
    requires m.generate(m.encode(Prompt(userInput))) == m.encode(Prompt(userInput)) + continuation
    ensures ChatbotResponse(userInput, m) == Strip(Python, m.decode(continuation))
  {
    NewTokensDropPrompt(m.encode(Prompt(userInput)), continuation);
  }

  /** The `/chat/` endpoint: `{"bot_response": …}` with the stripped reply. */
  function Chat(request: ChatRequest, m: LanguageModel): (r: ChatResponse)
    ensures IsStripped(Python, r.botResponse)
    ensures Strip(Python, r.botResponse) == r.botResponse
  {
    ChatResponse(ChatbotResponse(request.userInput, m))
  }
}
