/** The JSON bodies exchanged between the front-ends and the back-ends, one
    datatype per object shape; each field is one key of the object. */
module Wire {
  import opened Text

  /** `{"user_input": …}`, posted to `/chat/`. */
  datatype ChatRequest = ChatRequest(userInput: String)

  /** `{"bot_response": …}`, returned by `/chat/`. */
  datatype ChatResponse = ChatResponse(botResponse: String)

  /** `{"prompt": …}`, posted to the upstream text-generation service. */
  datatype GenerateRequest = GenerateRequest(prompt: String)

  /** `{"response": …}`, returned by the text-generation service. */
  datatype GenerateResponse = GenerateResponse(response: String)
}
