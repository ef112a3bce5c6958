/** frontend/src/components/Chat2SQL.js: a stand-alone query page. Its state is an
    append-only list of messages, the draft and a loading flag; a send posts the draft
    and appends the user's message and then one reply or one error message. The fetch
    is given as a PageOutcome; timestamps and scrolling are not modelled. */
module Chat2SqlPage {
  import opened JsValues
  import opened JsStrings

  const ExecuteUrl := "http://localhost:5000/api/execute"
  const FailedResponse := "Failed to get response from server"

  /** `data.data` as the page sees it: an array (each row as its JSON text), some other
      value (as the text React shows for it), or missing. */
  datatype Content = RowList(rows: seq<string>) | Scalar(text: string) | Missing

  /** The parsed reply's `data` and `columns` (None when missing or falsy). */
  datatype PageBody = PageBody(data: Content, columns: Option<seq<string>>)

  /** `response.json()`: a value (None for a JSON null) or a parse failure. */
  datatype PageJson = Parsed(body: Option<PageBody>) | Malformed

  /** What `fetch` gave; the status flag is carried but the page never reads it. */
  datatype PageOutcome = FetchFailed(error: Thrown) | Received(ok: bool, json: PageJson)

  datatype Message =
    | UserMessage(text: string)
    | ApiMessage(data: Content, columns: Option<seq<string>>)
    | ErrorMessage(text: string)

  /** The message appended once the request settles. */
  function ReplyMessage(outcome: PageOutcome): (m: Message)
    ensures m.ErrorMessage? ==> m.text == FailedResponse
    ensures m.ErrorMessage? <==> outcome.FetchFailed? || outcome.json.Malformed? || outcome.json.body.None?
    ensures m.ApiMessage? ==> m.data == outcome.json.body.value.data && m.columns == outcome.json.body.value.columns
    ensures !m.UserMessage?
  {
    match outcome
    case FetchFailed(_) => ErrorMessage(FailedResponse)
    case Received(_, json) =>
      // `data.data` on a null body throws a TypeError, caught like any other failure.
      if json.Malformed? || json.body.None? then ErrorMessage(FailedResponse)
      else ApiMessage(json.body.value.data, json.body.value.columns)
  }

  /** A reply that parses is shown whatever its status: a failed response with a JSON
      body is an 'api' message just like a successful one. */
  lemma StatusIgnored(json: PageJson)
    ensures ReplyMessage(Received(false, json)) == ReplyMessage(Received(true, json))
    ensures json.Parsed? && json.body.Some? ==> ReplyMessage(Received(false, json)).ApiMessage?
  {
  }

  datatype Align = Left | Right
  datatype Tone = UserTone | ErrorTone | NeutralTone

  /** What one rendered message shows: its side, its colour and its lines of text. */
  datatype View = View(align: Align, tone: Tone, lines: seq<string>)

  /** The lines of an 'api' message's body. */
  function ContentLines(c: Content): (lines: seq<string>)
    ensures c.RowList? ==> lines == c.rows
    ensures c.Scalar? ==> |lines| == 1
    ensures c.Missing? ==> lines == []
  {
    match c
    case RowList(rows) => rows
    case Scalar(text) => [text]
    case Missing => []
  }

  /** renderMessage */
  function Render(m: Message): (v: View)
    ensures v.align == Right <==> m.UserMessage?
    ensures v.tone == ErrorTone <==> m.ErrorMessage?
    ensures v.tone == UserTone <==> m.UserMessage?
    ensures !m.ApiMessage? ==> v.lines == [m.text]
    ensures m.ApiMessage? && m.columns.Some? ==>
              v.lines == ["Columns: " + Join(m.columns.value, ", ")] + ContentLines(m.data)
    ensures m.ApiMessage? && m.columns.None? ==> v.lines == ContentLines(m.data)
  {
    match m
    case UserMessage(text) => View(Right, UserTone, [text])
    case ErrorMessage(text) => View(Left, ErrorTone, [text])
    case ApiMessage(content, columns) =>
      var header := if columns.Some? then ["Columns: " + Join(columns.value, ", ")] else [];
      View(Left, NeutralTone, header + ContentLines(content))
  }

  /** An array reply shows one line per row, after the column line when there is one. */
  lemma RowsShownInOrder(rows: seq<string>, columns: Option<seq<string>>)
    ensures var v := Render(ApiMessage(RowList(rows), columns));
            var skip := if columns.Some? then 1 else 0;
            |v.lines| == |rows| + skip && v.lines[skip..] == rows
  {
  }

  /** The send button is disabled while loading or for a blank draft. */
  function SendDisabled(loading: bool, input: string): (disabled: bool)
    ensures disabled <==> loading || IsBlank(input)
  {
    TrimEmptyIffBlank(input);
    loading || Trim(input) == ""
  }

  class Page {
    var messages: seq<Message>
    var input: string
    var loading: bool
    /** The `query` fields posted so far, oldest first. */
    var posted: seq<string>

    constructor ()
      ensures messages == [] && input == "" && !loading && posted == []
    {
      messages, input, loading, posted := [], "", false, [];
    }

    /** Typing in the text field. */
    method SetInput(text: string)
      modifies this
      ensures input == text
      ensures messages == old(messages) && loading == old(loading) && posted == old(posted)
    {
      input := text;
    }

    /** handleSend up to its `await`: a blank draft does nothing; otherwise the draft as
        typed (not trimmed) becomes the user's message and the posted query, the draft is
        cleared and loading set. Returns the query posted. */
    method BeginSend() returns (query: Option<string>)
      modifies this
      ensures IsBlank(old(input)) ==>
                query == None && messages == old(messages) && input == old(input) &&
                loading == old(loading) && posted == old(posted)
      ensures !IsBlank(old(input)) ==>
                query == Some(old(input)) && messages == old(messages) + [UserMessage(old(input))] &&
                input == "" && loading && posted == old(posted) + [old(input)]
    {
      TrimEmptyIffBlank(input);
      if Trim(input) == "" {
        return None;
      }
      query := Some(input);
      messages := messages + [UserMessage(input)];
      posted := posted + [input];
      input := "";
      loading := true;
    }

    /** handleSend after the request settles: one reply or error message, then loading ends. */
    method FinishSend(outcome: PageOutcome)
      modifies this
      ensures messages == old(messages) + [ReplyMessage(outcome)]
      ensures !loading && input == old(input) && posted == old(posted)
    {
      messages := messages + [ReplyMessage(outcome)];
      loading := false;
    }

    /** A whole send with nothing else happening meanwhile: a non-blank draft adds
        exactly two messages, the user's and the reply, and earlier messages stay. */
    method HandleSend(outcome: PageOutcome)
      modifies this
      ensures IsBlank(old(input)) ==>
                messages == old(messages) && input == old(input) && loading == old(loading) && posted == old(posted)
      ensures !IsBlank(old(input)) ==>
                messages == old(messages) + [UserMessage(old(input)), ReplyMessage(outcome)] &&
                input == "" && !loading && posted == old(posted) + [old(input)]
      ensures |messages| == |old(messages)| || |messages| == |old(messages)| + 2
      ensures messages[..|old(messages)|] == old(messages)
    {
      var query := BeginSend();
      if query.Some? {
        FinishSend(outcome);
      }
    }
  }
}
