/** client/src/services/chatService.ts: `sendMessage` asks the model chat endpoint for
    a reply to one user message and picks the reply text out of the JSON it gets back.
    Every failure resolves to the empty string. `fetch` is given as a ChatOutcome and
    the stored model choice in `localStorage` as an optional string. */
module ChatService {
  import opened JsValues

  const ApiBaseUrl := "http://localhost:5000"
  const ChatPath := "/api/chat"
  const DefaultModel := "llama2"

  datatype Turn = Turn(role: string, content: string)

  /** The POST request: URL and the JSON body's `model`, `messages` and `stream`. */
  datatype ChatRequest = ChatRequest(url: string, model: string, messages: seq<Turn>, stream: bool)

  /** `choices[i]?.message?.content`: None when the message or its content is missing. */
  datatype Choice = Choice(content: Option<string>)

  /** The fields of a parsed reply the service reads, each None when missing. */
  datatype ChatBody = ChatBody(choices: Option<seq<Choice>>, response: Option<string>, error: Option<string>)

  /** `response.json()`: a value (None for a JSON null) or a parse failure. */
  datatype ChatJson = Parsed(body: Option<ChatBody>) | Malformed

  datatype ChatOutcome = FetchFailed(error: Thrown) | Received(ok: bool, json: ChatJson)

  /** `localStorage.getItem('selectedModel') || 'llama2'`: an empty stored name counts as none. */
  function SelectedModel(stored: Option<string>): (model: string)
    ensures model != ""
    ensures Truthy(stored) ==> model == stored.value
    ensures !Truthy(stored) ==> model == DefaultModel
  {
    if Truthy(stored) then stored.value else DefaultModel
  }

  /** The request for one message: exactly one user turn holding the message, no streaming. */
  function ChatRequestFor(message: string, stored: Option<string>): (r: ChatRequest)
    ensures r.messages == [Turn("user", message)] && !r.stream
    ensures r.model == SelectedModel(stored) && r.url == ApiBaseUrl + ChatPath
  {
    ChatRequest(ApiBaseUrl + ChatPath, SelectedModel(stored), [Turn("user", message)], false)
  }

  /** The first choice's content when it is a non-empty string. */
  function FirstChoice(b: ChatBody): (content: Option<string>)
    ensures content.Some? ==> content.value != ""
    ensures content.Some? <==> b.choices.Some? && |b.choices.value| > 0 && Truthy(b.choices.value[0].content)
  {
    if b.choices.Some? && |b.choices.value| > 0 && Truthy(b.choices.value[0].content) then
      b.choices.value[0].content
    else None
  }

  /** An OK reply's text: the first choice's content, else `response`, else "". */
  function ReplyText(b: ChatBody): (r: string)
    ensures FirstChoice(b).Some? ==> r == FirstChoice(b).value
    ensures FirstChoice(b).None? && Truthy(b.response) ==> r == b.response.value
    ensures r == "" <==> FirstChoice(b).None? && !Truthy(b.response)
  {
    match FirstChoice(b)
    case Some(content) => content
    case None => if Truthy(b.response) then b.response.value else ""
  }

  /** The `try` block: Some(text) when it returns text, None when it throws. A failed
      fetch, an unreadable OK reply and a truthy `error` field in a failed reply all throw. */
  function Attempt(outcome: ChatOutcome): (r: Option<string>)
    ensures outcome.FetchFailed? ==> r.None?
    ensures outcome.Received? && !outcome.ok ==> r.None? || r == Some("")
    ensures (outcome.Received? && !outcome.ok && outcome.json.Parsed? && outcome.json.body.Some? &&
             Truthy(outcome.json.body.value.error)) ==> r.None?
  {
    match outcome
    case FetchFailed(_) => None
    case Received(ok, json) =>
      if !ok then
        // `response.json().catch(() => null)`: a parse failure reads as null.
        var errorData := if json.Parsed? then json.body else None;
        if errorData.Some? && Truthy(errorData.value.error) then None else Some("")
      else if json.Malformed? || json.body.None? then None
      else Some(ReplyText(json.body.value))
  }

  /** sendMessage: never rejects; a reply text comes only from an OK, readable reply,
      and every failure is "". */
  function SendMessage(outcome: ChatOutcome): (reply: string)
    ensures outcome.FetchFailed? ==> reply == ""
    ensures outcome.Received? && !outcome.ok ==> reply == ""
    ensures reply != "" ==>
              outcome.Received? && outcome.ok && outcome.json.Parsed? && outcome.json.body.Some? &&
              reply == ReplyText(outcome.json.body.value)
  {
    match Attempt(outcome)
    case Some(text) => text
    case None => ""
  }

  /** An `error` field in a failed reply makes the `try` block throw, and the `catch`
      still resolves the call to "". */
  lemma ErrorFieldSwallowed(message: string, choices: Option<seq<Choice>>, response: Option<string>)
    requires message != ""
    ensures var outcome := Received(false, Parsed(Some(ChatBody(choices, response, Some(message)))));
            Attempt(outcome).None? && SendMessage(outcome) == ""
  {
  }

  /** A failed reply gives "" even when it carries a perfectly good answer. */
  lemma FailedReplyIgnoresAnswer(b: ChatBody)
    ensures SendMessage(Received(false, Parsed(Some(b)))) == ""
    ensures SendMessage(Received(true, Parsed(Some(b)))) == ReplyText(b)
  {
  }
}
