/** client/src/components/chat/ChatInput.tsx: the message box. It keeps a draft, a
    staged file, a Chat2SQL switch and a loading flag; `handleSend` either passes the
    trimmed draft on, or runs it as a query and passes on the query and a reply built
    from the result as a " | "-separated table. `onSendMessage` and
    `chat2sqlService.executeQuery` are recorded as Effects in the order they are issued. */
module ChatInput {
  import opened JsValues
  import opened JsStrings
  import opened Markdown
  import Chat2SqlService

  const UserTag := "[USER] "
  const SystemTag := "[SYSTEM] "
  const ErrorTag := "[SYSTEM] Error: "
  const CellSeparator := " | "
  const RuleCell := "---"
  const NoResultsLine := "No results found."

  // ---------------------------------------------------------------------------
  // The reply text (lines 102-121)

  /** `result.columns.map(col => row[col])` as text: missing keys and nulls read "". */
  function RowCells(columns: seq<string>, row: Row): (cells: seq<string>)
    ensures |cells| == |columns|
    ensures forall j :: 0 <= j < |columns| ==> cells[j] == CellText(row, columns[j])
  {
    seq(|columns|, j requires 0 <= j < |columns| => CellText(row, columns[j]))
  }

  /** One " | "-joined line per data row, in data order. */
  function RowLines(columns: seq<string>, data: seq<Row>): (lines: seq<string>)
    ensures |lines| == |data|
    ensures forall i :: 0 <= i < |data| ==> lines[i] == Join(RowCells(columns, data[i]), CellSeparator)
  {
    seq(|data|, i requires 0 <= i < |data| => Join(RowCells(columns, data[i]), CellSeparator))
  }

  /** One "---" per column. */
  function Rules(columns: seq<string>): (rules: seq<string>)
    ensures |rules| == |columns| && forall j :: 0 <= j < |rules| ==> rules[j] == RuleCell
  {
    seq(|columns|, _ => RuleCell)
  }

  /** No column name and no cell text holds a newline. */
  predicate NoNewlines(columns: seq<string>, data: seq<Row>) {
    (forall c :: c in columns ==> '\n' !in c) &&
    forall r, c :: r in data && c in columns ==> '\n' !in CellText(r, c)
  }

  /** `${header}\n${separator}\n${rows}`: cut at newlines, a table with rows whose names
      and cells hold no newline gives back its header line, its rule line and its row lines. */
  function TableText(columns: seq<string>, data: seq<Row>): (text: string)
    ensures |data| >= 1 && NoNewlines(columns, data) ==>
              Split(text, "\n") == [Join(columns, CellSeparator), Join(Rules(columns), CellSeparator)] + RowLines(columns, data)
  {
    TableLinesSplit(columns, data);
    Join(columns, CellSeparator) + "\n" + Join(Rules(columns), CellSeparator) + "\n"
      + Join(RowLines(columns, data), "\n")
  }

  /** The system message for a query that came back with `sql`: the tag, then the fenced
      query, which is what makes the message view take it as an SQL reply. */
  function FormatResult(sql: string, columns: seq<string>, data: seq<Row>): (r: string)
    ensures StartsWith(r, SystemTag)
    ensures OccursAt(r, SqlOpen, |SystemTag|)
  {
    var r := SystemTag + SqlBlock(sql) + "\n\n" + (if |data| > 0 then TableText(columns, data) else NoResultsLine);
    assert r[..|SystemTag|] == SystemTag;
    assert r[|SystemTag|..|SystemTag| + |SqlOpen|] == SqlOpen;
    r
  }

  /** The second `onSendMessage` of an SQL-mode send, if any: the formatted result when
      `sql` is set, else the `detail` as an error, else nothing; a rejection is reported
      with its message. */
  function ReplyFor(outcome: Result<Chat2SqlService.Response, Thrown>): (reply: Option<string>)
    ensures outcome.Err? ==> reply == Some(ErrorTag + Describe(outcome.error))
    ensures outcome.Ok? && Truthy(outcome.value.sql) ==>
              reply == Some(FormatResult(outcome.value.sql.value, outcome.value.columns, outcome.value.data))
    ensures outcome.Ok? && !Truthy(outcome.value.sql) ==>
              (reply.Some? <==> Truthy(outcome.value.detail)) &&
              (reply.Some? ==> reply.value == ErrorTag + outcome.value.detail.value)
  {
    match outcome
    case Ok(result) =>
      // `result.data` is always an array here, so `result.sql && result.data` is `result.sql`.
      if Truthy(result.sql) then Some(FormatResult(result.sql.value, result.columns, result.data))
      else if Truthy(result.detail) then Some(ErrorTag + result.detail.value)
      else None
    case Err(e) => Some(ErrorTag + Describe(e))
  }

  /** The " | " separator is marked by its bar. */
  lemma BarMarksSeparator()
    ensures MarkedAt(CellSeparator, 1)
  {
  }

  /** The header, rule and row lines glued with newlines split back into those lines
      when no name or cell holds a newline. */
  lemma TableLinesSplit(columns: seq<string>, data: seq<Row>)
    ensures var h, s, rows := Join(columns, CellSeparator), Join(Rules(columns), CellSeparator), RowLines(columns, data);
            |data| >= 1 && NoNewlines(columns, data) ==>
              Split(h + "\n" + s + "\n" + Join(rows, "\n"), "\n") == [h, s] + rows
  {
    var h, s, rows := Join(columns, CellSeparator), Join(Rules(columns), CellSeparator), RowLines(columns, data);
    if |data| >= 1 && NoNewlines(columns, data) {
      var lines := [h, s] + rows;
      GlueLines(h, s, rows, "\n");
      JoinAvoids(columns, CellSeparator, '\n');
      JoinAvoids(Rules(columns), CellSeparator, '\n');
      RowLinesHoldNoNewline(columns, data);
      forall i | 0 <= i < |lines| ensures "\n"[0] !in lines[i] {
        if i >= 2 {
          assert lines[i] == rows[i - 2];
        }
      }
      JoinThenSplit(lines, "\n", 0);
    }
  }

  /** Two lines in front of at least one more, glued with a separator. */
  lemma GlueLines(h: string, s: string, rows: seq<string>, sep: string)
    requires |rows| >= 1
    ensures h + sep + s + sep + Join(rows, sep) == Join([h, s] + rows, sep)
  {
    JoinCons(s, rows, sep);
    assert [h, s] + rows == [h] + ([s] + rows);
    JoinCons(h, [s] + rows, sep);
  }

  /** Row lines of newline-free cells hold no newline. */
  lemma RowLinesHoldNoNewline(columns: seq<string>, data: seq<Row>)
    requires NoNewlines(columns, data)
    ensures forall i :: 0 <= i < |data| ==> '\n' !in RowLines(columns, data)[i]
  {
    forall i | 0 <= i < |data| ensures '\n' !in RowLines(columns, data)[i] {
      var cells := RowCells(columns, data[i]);
      forall j | 0 <= j < |cells| ensures '\n' !in cells[j] {
        assert columns[j] in columns && data[i] in data;
      }
      JoinAvoids(cells, CellSeparator, '\n');
    }
  }

  /** With at least one column and no bar or newline in any column name or cell, the
      table reads back: one line per header, rule and row, each line cut at " | " giving
      the column names, one "---" per column, and each row's cells in column order. */
  lemma FormattedTableReadsBack(columns: seq<string>, data: seq<Row>)
    requires |columns| >= 1 && |data| >= 1
    requires forall c :: c in columns ==> '|' !in c && '\n' !in c
    requires forall r, c :: r in data && c in columns ==> '|' !in CellText(r, c) && '\n' !in CellText(r, c)
    ensures var lines := Split(TableText(columns, data), "\n");
            |lines| == |data| + 2 &&
            Split(lines[0], CellSeparator) == columns &&
            Split(lines[1], CellSeparator) == Rules(columns) &&
            forall i :: 0 <= i < |data| ==> Split(lines[i + 2], CellSeparator) == RowCells(columns, data[i])
  {
    var rows := RowLines(columns, data);
    BarMarksSeparator();
    forall i | 0 <= i < |data| ensures Split(rows[i], CellSeparator) == RowCells(columns, data[i]) {
      var cells := RowCells(columns, data[i]);
      forall j | 0 <= j < |cells| ensures '|' !in cells[j] {
        assert columns[j] in columns && data[i] in data;
      }
      JoinThenSplit(cells, CellSeparator, 1);
    }
    JoinThenSplit(columns, CellSeparator, 1);
    JoinThenSplit(Rules(columns), CellSeparator, 1);
  }

  // ---------------------------------------------------------------------------
  // Which controls are live (lines 134, 209, 213-231, 264, 270)

  /** The props the box reads. */
  datatype Props = Props(isLoading: bool, isStreaming: bool, isUploading: bool, isRagAvailable: bool)

  datatype File = File(name: string)

  /** While a reply streams the send button is replaced by a stop button. */
  datatype SendControl = StopButton | SendButton(disabled: bool)

  datatype Controls = Controls(
    textareaDisabled: bool,
    send: SendControl,
    uploadNowShown: bool,
    fileButtonDisabled: bool,
    ragToggleDisabled: bool)

  /** The state of every control for a draft, a staged file and the props. */
  function ControlsFor(input: string, selectedFile: Option<File>, p: Props): (c: Controls)
    ensures c.send.StopButton? <==> p.isStreaming
    ensures c.send.SendButton? ==> (c.send.disabled <==> IsBlank(input) || p.isLoading || p.isUploading)
    ensures c.uploadNowShown <==> selectedFile.Some? && !p.isUploading && !p.isLoading
    ensures c.ragToggleDisabled <==> !p.isRagAvailable || p.isLoading || p.isUploading || p.isStreaming
    ensures c.textareaDisabled <==> p.isLoading || p.isUploading
    ensures c.fileButtonDisabled <==> p.isStreaming
  {
    TrimEmptyIffBlank(input);
    Controls(
      p.isLoading || p.isUploading,
      if p.isStreaming then StopButton else SendButton(Trim(input) == "" || p.isLoading || p.isUploading),
      selectedFile.Some? && !p.isUploading && !p.isLoading,
      p.isStreaming,
      !p.isRagAvailable || p.isLoading || p.isUploading || p.isStreaming)
  }

  // ---------------------------------------------------------------------------
  // The component's state and handlers (lines 44-48, 76-132)

  /** A call the box makes on the outside world. */
  datatype Effect =
    | SendMessage(text: string, file: Option<File>)
    | ExecuteQuery(query: string)

  /** How the synchronous part of `handleSend` ended. */
  datatype SendStart = Ignored | SentPlain | AwaitingQuery(query: string)

  class InputBox {
    var input: string
    var selectedFile: Option<File>
    var chat2sqlEnabled: bool
    var loading: bool
    /** The effects issued so far, oldest first. */
    var effects: seq<Effect>

    constructor ()
      ensures input == "" && selectedFile == None && !chat2sqlEnabled && !loading && effects == []
    {
      input, selectedFile, chat2sqlEnabled, loading, effects := "", None, false, false, [];
    }

    /** Typing in the textarea. */
    method SetInput(text: string)
      modifies this
      ensures input == text
      ensures selectedFile == old(selectedFile) && chat2sqlEnabled == old(chat2sqlEnabled)
      ensures loading == old(loading) && effects == old(effects)
    {
      input := text;
    }

    /** handleFileSelect: stages the file. */
    method HandleFileSelect(file: File)
      modifies this
      ensures selectedFile == Some(file)
      ensures input == old(input) && chat2sqlEnabled == old(chat2sqlEnabled)
      ensures loading == old(loading) && effects == old(effects)
    {
      selectedFile := Some(file);
    }

    /** handleRemoveFile: unstages the file. */
    method HandleRemoveFile()
      modifies this
      ensures selectedFile == None
      ensures input == old(input) && chat2sqlEnabled == old(chat2sqlEnabled)
      ensures loading == old(loading) && effects == old(effects)
    {
      selectedFile := None;
    }

    /** handleAutoUpload: sends the file with an empty message; the staged file stays. */
    method HandleAutoUpload(file: File)
      modifies this
      ensures effects == old(effects) + [SendMessage("", Some(file))]
      ensures input == old(input) && selectedFile == old(selectedFile)
      ensures chat2sqlEnabled == old(chat2sqlEnabled) && loading == old(loading)
    {
      effects := effects + [SendMessage("", Some(file))];
    }

    /** The "Upload Now" button, only there while it is shown, uploads the staged file. */
    method UploadNow(p: Props)
      requires ControlsFor(input, selectedFile, p).uploadNowShown
      modifies this
      ensures effects == old(effects) + [SendMessage("", old(selectedFile))]
      ensures input == old(input) && selectedFile == old(selectedFile)
      ensures chat2sqlEnabled == old(chat2sqlEnabled) && loading == old(loading)
    {
      HandleAutoUpload(selectedFile.value);
    }

    /** handleToggle: flips the Chat2SQL switch and nothing else. */
    method HandleToggle()
      modifies this
      ensures chat2sqlEnabled == !old(chat2sqlEnabled)
      ensures input == old(input) && selectedFile == old(selectedFile)
      ensures loading == old(loading) && effects == old(effects)
    {
      chat2sqlEnabled := !chat2sqlEnabled;
    }

    /** handleSend up to its `await`. A blank draft does nothing. Otherwise, with the
        switch off, the trimmed draft is sent and the draft cleared; with it on, loading
        is set, the tagged query is sent and then the query issued, and the draft stays
        until the query settles. The staged file is never sent here. */
    method BeginSend() returns (start: SendStart)
      modifies this
      ensures IsBlank(old(input)) ==>
                start == Ignored && input == old(input) && loading == old(loading) && effects == old(effects)
      ensures !IsBlank(old(input)) && !old(chat2sqlEnabled) ==>
                start == SentPlain && input == "" && loading == old(loading) &&
                effects == old(effects) + [SendMessage(Trim(old(input)), None)]
      ensures !IsBlank(old(input)) && old(chat2sqlEnabled) ==>
                start == AwaitingQuery(Trim(old(input))) && input == old(input) && loading &&
                effects == old(effects) + [SendMessage(UserTag + Trim(old(input)), None), ExecuteQuery(Trim(old(input)))]
      ensures selectedFile == old(selectedFile) && chat2sqlEnabled == old(chat2sqlEnabled)
    {
      TrimEmptyIffBlank(input);
      var text := Trim(input);
      if text == "" {
        return Ignored;
      }
      if chat2sqlEnabled {
        loading := true;
        effects := effects + [SendMessage(UserTag + text, None)];
        effects := effects + [ExecuteQuery(text)];
        start := AwaitingQuery(text);
      } else {
        effects := effects + [SendMessage(text, None)];
        input := "";
        start := SentPlain;
      }
    }

    /** handleSend after `executeQuery` settles: the reply (if any) is sent, loading
        ends, and the draft is cleared, including anything typed meanwhile. */
    method FinishSend(outcome: Result<Chat2SqlService.Response, Thrown>)
      modifies this
      ensures effects == old(effects) + (if ReplyFor(outcome).Some? then [SendMessage(ReplyFor(outcome).value, None)] else [])
      ensures !loading && input == ""
      ensures selectedFile == old(selectedFile) && chat2sqlEnabled == old(chat2sqlEnabled)
    {
      var reply := ReplyFor(outcome);
      if reply.Some? {
        effects := effects + [SendMessage(reply.value, None)];
      }
      loading := false;
      input := "";
    }

    /** A whole send with nothing else happening while the query is out: at most three
        effects, in order, and loading never left set. */
    method HandleSend(outcome: Result<Chat2SqlService.Response, Thrown>)
      modifies this
      ensures IsBlank(old(input)) ==> input == old(input) && loading == old(loading) && effects == old(effects)
      ensures !IsBlank(old(input)) && !old(chat2sqlEnabled) ==>
                input == "" && loading == old(loading) && effects == old(effects) + [SendMessage(Trim(old(input)), None)]
      ensures !IsBlank(old(input)) && old(chat2sqlEnabled) ==>
                input == "" && !loading &&
                effects == old(effects) + [SendMessage(UserTag + Trim(old(input)), None), ExecuteQuery(Trim(old(input)))]
                           + (if ReplyFor(outcome).Some? then [SendMessage(ReplyFor(outcome).value, None)] else [])
      ensures selectedFile == old(selectedFile) && chat2sqlEnabled == old(chat2sqlEnabled)
    {
      var start := BeginSend();
      if start.AwaitingQuery? {
        FinishSend(outcome);
      }
    }
  }
}
