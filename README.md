# Chat-to-SQL message pipeline

This project models the chat-to-SQL message pipeline of the two chat front-ends in Dafny and proves properties of it:

- **ChatMessage.tsx (the React client's message bubble).** It decides from a message's text alone whether the message is an SQL reply, an `Error:` reply or plain text. An SQL reply is cut into a query and a tab-separated results table. The query can be copied, and the table is shown and downloaded as CSV.
- **ChatInput.tsx (the client's message box).** It keeps a draft, a staged file, a Chat2SQL switch and a loading flag. `handleSend` either passes the trimmed draft on, or runs it as a query and passes on a reply. The reply is built from the result as a `" | "`-separated table.
- **Chat2SQL.js (the stand-alone query page).** Its state is an append-only message list, a draft and a loading flag. It renders messages by their type.
- **chat2sqlService.ts.** It checks and reshapes the SQL service's JSON reply and maps fetch errors.
- **chatService.ts.** It picks the model's reply text out of a JSON reply, and every failure becomes `""`.

The network, `localStorage`, the clipboard and timers are inputs or events:

- A `fetch` is a given outcome: a rejection, or a response with its status flag and its parsed body.
- The stored model choice is an optional string.
- The 2000 ms reset timer is the event `ResetFires`.
- `onSendMessage` and `executeQuery` calls are recorded, in the order issued, as `Effect`s.

An `async` handler is split at its `await` into `BeginSend`, the synchronous part, and `FinishSend`, the continuation. Any other handler may run between the two. `HandleSend` is the run where nothing else happens in between.

The files:

- `js_values.dfy` covers JavaScript values: `Option`/`Result`, a thrown value, truthiness of strings, and table cells.
- `js_strings.dfy` covers the JavaScript string operations the code relies on: `includes`, `startsWith`, `split` with a non-empty separator, `join`, `trim` with ECMAScript white space, and one-character replacement. It also holds their round-trip lemmas.
- `markdown.dfy` covers the fenced `sql` block.
- Each front-end and service file has its own module: `chat_message.dfy`, `chat_input.dfy`, `chat2sql_page.dfy`, `chat2sql_service.dfy` and `chat_service.dfy`.
- `pipeline.dfy` states what the pieces do to each other's output.

Some behaviours of the code worth stating outright, all modelled as written:

- ChatInput.tsx renders a null or missing cell as `""`. There is no "NULL" label.
- A `|` inside a cell is not escaped.
- The Chat2SQL switch (ChatInput.tsx:88) clears neither the draft nor the staged file.
- `handleSend` has no busy check. The send button and the textarea are gated only on the parent's `isLoading` and `isUploading` props (ChatInput.tsx:209, 231). The Enter key (ChatInput.tsx:69-74) calls `handleSend` without going through the button. The component's own `loading` flag (set at ChatInput.tsx:94, cleared at :125) is read nowhere. In SQL mode the draft stays in the box until ChatInput.tsx:131. So unless the parent raises `isLoading`, nothing stops a second query while the first is still out. `InputBox.BeginSend` has no precondition and allows exactly that.
- ChatMessage.tsx shows plain AI text as it is (ChatMessage.tsx:430). The `ReactMarkdown` import (:3) and the code-block renderer `components` (:283-352), with its copy button, are never used.
- No producer in this code writes the "canonical" reply that ChatMessage.tsx parses best: a fenced query, a blank line and a tab-separated table. ChatInput.tsx writes a `" | "` table after a "[SYSTEM] " tag. The `ChatMessageProofs` lemmas about the canonical reply describe what the message view parses. The `Pipeline` lemmas describe what it makes of what ChatInput.tsx writes.

## Model

| member | source | states |
|---|---|---|
| JsStrings.TrimEmptyIffBlank | client/src/components/chat/ChatInput.tsx:91 | `trim()` gives "" exactly when every character is ECMAScript white space, which is the blank-draft guard every handler uses |
| JsStrings.TrimIsInnerSubstring | client/src/components/chat/ChatMessage.tsx:72-77 | `trim()` returns a contiguous piece of its input with only white space cut on either side, and its result has no white space at either end |
| JsStrings.TrimmedIsFixed | client/src/components/chat/ChatMessage.tsx:77 | trimming a text that has no white space at either end leaves it unchanged |
| JsStrings.SplitThenJoin | client/src/components/chat/ChatMessage.tsx:107-115 | joining the pieces of `split(sep)` with `sep` gives back the text |
| JsStrings.JoinThenSplit | client/src/components/chat/ChatMessage.tsx:229-247 | splitting a `join(sep)` gives back the pieces when a character of `sep` that occurs only once in it is absent from every piece |
| JsStrings.SplitPiecesAvoidSeparator | client/src/components/chat/ChatMessage.tsx:66 | no piece of `split(sep)` contains `sep` |
| JsStrings.JoinSplitReplaces | client/src/components/chat/ChatMessage.tsx:108-114 | splitting at one character and joining with another replaces that character everywhere |
| ChatMessage.IsSQLResponse | client/src/components/chat/ChatMessage.tsx:57 | a message is an SQL reply exactly when "```sql" occurs somewhere in it |
| ChatMessage.IsSystemMessage | client/src/components/chat/ChatMessage.tsx:54 | a message is a system message exactly when it holds "```sql", starts with "Error:" or is exactly "No results found" |
| ChatMessage.StripFences | client/src/components/chat/ChatMessage.tsx:72 | the regex replacement never lengthens the text and leaves a text without backticks as it is |
| ChatMessage.SplitSQLResponse | client/src/components/chat/ChatMessage.tsx:60-81 | an "Error:" text is all error message with empty query and results; otherwise the error is empty, a query exists only if the first blank-line segment holds the marker, results exist only if there is a second segment, and both come back trimmed |
| ChatMessage.ReadSegments | client/src/components/chat/ChatMessage.tsx:66-80 | the query is non-empty only when the first segment holds the marker, the results only when the second segment is non-empty, and both are trimmed |
| ChatMessage.ParseTable | client/src/components/chat/ChatMessage.tsx:229-247 | the header row always has a cell, and there is one table row per results line after the first |
| ChatMessage.CsvContent | client/src/components/chat/ChatMessage.tsx:103-115 | a download happens exactly when the results are neither empty nor exactly "No results found" |
| ChatMessage.RenderSQLResponse | client/src/components/chat/ChatMessage.tsx:84-280 | an "Error:" text gets the error box with the whole text; otherwise the query box shows exactly when the split gives a query, and shows that query; the results table shows exactly when the results are neither empty nor "No results found", and is the parse of those results; the notice shows exactly when the results are empty and the query is not; table and notice never show together |
| ChatMessage.Render | client/src/components/chat/ChatMessage.tsx:388-431 | a user message is shown as typed; an AI message's avatar reads "SQL" exactly for SQL replies and "AI" otherwise; a non-SQL AI text is error-styled exactly when it starts with "Error:"; a non-error SQL reply shows the SQL view with exactly the query box, results table and notice given by the split, as in RenderSQLResponse |
| ChatMessage.CopyFeedback.constructor | client/src/components/chat/ChatMessage.tsx:33 | nothing is copied at first and no reset is pending |
| ChatMessage.CopyFeedback.ShowsCopied | client/src/components/chat/ChatMessage.tsx:155-162 | an affordance reads "Copied" exactly when its own code is the copied code |
| ChatMessage.CopyFeedback.CopyToClipboard | client/src/components/chat/ChatMessage.tsx:38-41 | the clipboard and the copied code become exactly the given code, one more reset is scheduled, and only that code's affordance reads "Copied" |
| ChatMessage.CopyFeedback.ResetFires | client/src/components/chat/ChatMessage.tsx:41 | a firing timer clears the copied code whatever was copied since, leaves the clipboard alone, and no affordance reads "Copied" |
| ChatMessage.EarlierResetClearsLaterCopy | client/src/components/chat/ChatMessage.tsx:38-42 | after copying a, then b, then a's timer firing, b no longer reads "Copied" although b's own timer is still pending |
| ChatMessage.StatusColor | client/src/components/chat/ChatMessage.tsx:355-368 | the muted colour is used exactly for unknown statuses, and PROCESSING and EMBEDDING share the warning colour |
| ChatMessage.StatusText | client/src/components/chat/ChatMessage.tsx:371-385 | a status is shown as it is exactly when it is not one of the five known statuses |
| ChatMessageProofs.StatusLabels | client/src/components/chat/ChatMessage.tsx:371-385 | the five known statuses get five different labels |
| ChatMessageProofs.StripFencedBlock | client/src/components/chat/ChatMessage.tsx:72 | removing the fence markers from a fenced query without backticks gives back exactly the query |
| ChatMessageProofs.SplitCanonicalReply | client/src/components/chat/ChatMessage.tsx:60-81 | in the reply format the message view parses (no producer in this code writes it), a fenced query, a blank line and a results text are split back into exactly that query and those results when neither holds a blank line |
| ChatMessageProofs.SameLeadingSegments | client/src/components/chat/ChatMessage.tsx:66-80 | two texts that agree on the "Error:" test and on their first two blank-line segments give the same query and results |
| ChatMessageProofs.LaterSegmentsIgnored | client/src/components/chat/ChatMessage.tsx:66-78 | whatever follows a second blank line is dropped: appending it changes neither query nor results |
| ChatMessageProofs.ParseTabText | client/src/components/chat/ChatMessage.tsx:229-247 | the tab-separated table format the message view parses (ChatInput.tsx writes " \| " tables instead) is read back exactly when no cell holds a tab or newline: headers from the first line, rows from the later lines in order |
| ChatMessageProofs.CsvIsTabsToCommas | client/src/components/chat/ChatMessage.tsx:107-115 | the CSV is the results text with every tab turned into a comma, with no quoting |
| ChatMessageProofs.CsvLinesFollowResults | client/src/components/chat/ChatMessage.tsx:107-115 | the CSV has as many lines as the results, and each line is that results line's tab-separated cells joined with commas |
| ChatMessageProofs.RenderSqlMessage | client/src/components/chat/ChatMessage.tsx:415-417 | an AI message holding the marker is shown by the SQL view under the "SQL" avatar |
| ChatMessageProofs.RenderCanonicalReply | client/src/components/chat/ChatMessage.tsx:129-280 | a canonical SQL reply, the format the message view parses and no producer in this code writes, is shown with its query in the query box, exactly the table it was written from, and no notice |
| Chat2SqlService.QueryRequest | client/src/services/chat2sqlService.ts:13-22 | the query is posted unchanged as the `query` field to the fixed execute URL |
| Chat2SqlService.Attempt | client/src/services/chat2sqlService.ts:16-45 | the try block returns exactly when the response is OK and its body is an object with `columns` and an array `data`, and a failed response throws "Server error: " followed by the body text |
| Chat2SqlService.MapError | client/src/services/chat2sqlService.ts:46-51 | an error is replaced exactly when it is a TypeError whose message contains "Failed to fetch", and then by the fixed connection message |
| Chat2SqlService.ExecuteQuery | client/src/services/chat2sqlService.ts:10-53 | it resolves exactly for an OK, well-formed reply, with that reply's own data, columns and detail and never a `sql` field; a failed response rejects with "Server error: " and the body text; an OK reply of the wrong shape rejects with the invalid-format message |
| Chat2SqlService.FetchRejection | client/src/services/chat2sqlService.ts:46-51 | a rejected fetch with "Failed to fetch" becomes the connection message, and any other rejection passes through unchanged |
| Chat2SqlService.ParseErrorRethrown | client/src/services/chat2sqlService.ts:32-51 | a JSON parse error on an OK reply is rethrown as it is |
| ChatService.SelectedModel | client/src/services/chatService.ts:16 | the stored model name is used when it is non-empty, else "llama2", so the model is never empty |
| ChatService.ChatRequestFor | client/src/services/chatService.ts:18-31 | the request goes to the chat endpoint with the selected model, exactly one user turn holding the message, and streaming off |
| ChatService.FirstChoice | client/src/services/chatService.ts:43 | the first choice's content is used exactly when the choices exist, are non-empty, and the first one's content is a non-empty string |
| ChatService.ReplyText | client/src/services/chatService.ts:42-50 | an OK reply gives the first choice's content, else a non-empty `response`, and "" exactly when neither exists |
| ChatService.Attempt | client/src/services/chatService.ts:14-50 | a failed fetch throws; a failed response either throws or returns "", and throws whenever its body carries a truthy `error` |
| ChatService.SendMessage | client/src/services/chatService.ts:13-55 | a failed fetch and a failed response both give ""; a non-empty result is the reply text of an OK, readable response |
| ChatService.ErrorFieldSwallowed | client/src/services/chatService.ts:33-54 | an `error` field in a failed response makes the try block throw, and the call still resolves to "" |
| ChatService.FailedReplyIgnoresAnswer | client/src/services/chatService.ts:33-50 | the same body gives "" on a failed response and its reply text on an OK one |
| ChatInput.RowCells | client/src/components/chat/ChatInput.tsx:110 | a row's cells are its values in column order, with missing and null values read as "" |
| ChatInput.RowLines | client/src/components/chat/ChatInput.tsx:109-111 | there is one line per data row, in data order, with the row's cells joined by " \| " |
| ChatInput.Rules | client/src/components/chat/ChatInput.tsx:108 | the separator line has exactly one "---" per column |
| ChatInput.ReplyFor | client/src/components/chat/ChatInput.tsx:102-123 | a result with `sql` gets the formatted table; otherwise a truthy `detail` gets "[SYSTEM] Error: " and the detail, and anything else gets no second message; a rejection gets "[SYSTEM] Error: " and its message |
| ChatInput.TableText | client/src/components/chat/ChatInput.tsx:106-112 | cut at newlines, a table with rows gives back its header line, its rule line and its row lines when no column name or cell holds a newline |
| ChatInput.FormatResult | client/src/components/chat/ChatInput.tsx:104-115 | every formatted reply starts with "[SYSTEM] " and has the fenced sql block right after it, so the message view takes it for an SQL reply; its table reads back by FormattedTableReadsBack, and without rows it ends in "No results found." by Pipeline.FormatWithoutRows |
| ChatInput.FormattedTableReadsBack | client/src/components/chat/ChatInput.tsx:104-115 | with no bar or newline in any value, the header line reads back as the columns, the rule line as one "---" per column, and each row line as that row's cells in column order |
| ChatInput.ControlsFor | client/src/components/chat/ChatInput.tsx:134-270 | send is disabled exactly for a blank draft, loading or uploading; the stop button replaces it exactly while streaming; "Upload Now" shows exactly for a staged file when neither loading nor uploading; the RAG toggle is disabled exactly when RAG is unavailable, loading, uploading or streaming |
| ChatInput.InputBox.constructor | client/src/components/chat/ChatInput.tsx:44-48 | an empty draft, no staged file, the switch off, not loading and nothing sent |
| ChatInput.InputBox.SetInput | client/src/components/chat/ChatInput.tsx:194 | typing changes the draft only |
| ChatInput.InputBox.HandleFileSelect | client/src/components/chat/ChatInput.tsx:76-78 | selecting a file stages it and changes nothing else |
| ChatInput.InputBox.HandleRemoveFile | client/src/components/chat/ChatInput.tsx:84-86 | removing unstages the file and changes nothing else |
| ChatInput.InputBox.HandleAutoUpload | client/src/components/chat/ChatInput.tsx:80-82 | an upload sends the file with an empty message and changes no state |
| ChatInput.InputBox.UploadNow | client/src/components/chat/ChatInput.tsx:157-160 | the shown "Upload Now" button sends the staged file with an empty message and keeps it staged |
| ChatInput.InputBox.HandleToggle | client/src/components/chat/ChatInput.tsx:88 | the toggle flips the Chat2SQL switch; the draft, the staged file and everything else stay |
| ChatInput.InputBox.BeginSend | client/src/components/chat/ChatInput.tsx:90-100 | a blank draft changes nothing; with the switch off, exactly one message with the trimmed draft is sent and the draft is cleared; with it on, loading is set, then "[USER] " and the trimmed draft is sent before the trimmed draft is issued as a query, and the draft is kept |
| ChatInput.InputBox.FinishSend | client/src/components/chat/ChatInput.tsx:101-131 | the reply, if any, is sent as the one further message, loading ends false for every outcome, and the draft is cleared, including text typed while the query was out |
| ChatInput.InputBox.HandleSend | client/src/components/chat/ChatInput.tsx:90-132 | a whole send issues nothing, one plain message, or the tagged query, the query and at most one reply, in that order, and never leaves loading set |
| Chat2SqlPage.ReplyMessage | frontend/src/components/Chat2SQL.js:41-59 | a settled request adds an error message with the fixed text exactly when the fetch, the parse or the body fails; otherwise it adds an api message carrying the body's own `data` and `columns` |
| Chat2SqlPage.StatusIgnored | frontend/src/components/Chat2SQL.js:33-50 | the status is never read, so a failed response with a parsable body gives the same api message as an OK one |
| Chat2SqlPage.ContentLines | frontend/src/components/Chat2SQL.js:97-107 | an array reply shows one line per row in order, a scalar one line, and a missing value nothing |
| Chat2SqlPage.Render | frontend/src/components/Chat2SQL.js:65-108 | only user messages are right-aligned; error messages and only they are error-toned; an api message shows its column line when columns exist, then its content lines |
| Chat2SqlPage.RowsShownInOrder | frontend/src/components/Chat2SQL.js:92-104 | an array reply shows exactly its rows, in order, after the optional column line |
| Chat2SqlPage.SendDisabled | frontend/src/components/Chat2SQL.js:141 | send is disabled exactly while loading or for a blank draft |
| Chat2SqlPage.Page.constructor | frontend/src/components/Chat2SQL.js:6-8 | no messages, an empty draft and not loading |
| Chat2SqlPage.Page.SetInput | frontend/src/components/Chat2SQL.js:133 | typing changes the draft only |
| Chat2SqlPage.Page.BeginSend | frontend/src/components/Chat2SQL.js:19-39 | a blank draft changes nothing; otherwise the untrimmed draft is appended as the user's message and posted as the query, the draft is cleared and loading is set |
| Chat2SqlPage.Page.FinishSend | frontend/src/components/Chat2SQL.js:41-62 | exactly one reply or error message is appended and loading ends false |
| Chat2SqlPage.Page.HandleSend | frontend/src/components/Chat2SQL.js:19-63 | a send leaves earlier messages untouched and adds either nothing or exactly the user's message and then the reply |
| Pipeline.ServiceRepliesAreErrors | client/src/components/chat/ChatInput.tsx:102-121 | behind the real service an SQL-mode send gets a second message exactly on a rejection or a truthy detail, and that message always starts with "[SYSTEM] Error: ", so the table formatting is never reached |
| Pipeline.TaggedErrorNotStyled | client/src/components/chat/ChatMessage.tsx:419-431 | "[SYSTEM] Error: ..." shown as it was sent is not error-styled, while the same text without the tag is |
| Pipeline.StripAfterPlainPrefix | client/src/components/chat/ChatMessage.tsx:72 | text without backticks or newlines passes the fence removal unchanged |
| Pipeline.SplitTaggedReply | client/src/components/chat/ChatMessage.tsx:60-81 | the reply ChatInput would build is read back with "[SYSTEM] " kept inside the query and the results unchanged |
| Pipeline.SingleCellTable | client/src/components/chat/ChatMessage.tsx:106-109 | a results text with no newline and no tab is a table with that text as its only header and no rows |
| Pipeline.TaggedSingleCellReply | client/src/components/chat/ChatMessage.tsx:129-280 | a tagged reply whose results are one cell shows the tag inside the query box and that cell as a one-header table, without the notice |
| Pipeline.EmptyResultShownAsTable | client/src/components/chat/ChatInput.tsx:113-115 | the no-rows reply "No results found." (with a period) is not the notice ChatMessage looks for, so it shows as a one-cell results table |
| Pipeline.PipeTableReadAsOneColumn | client/src/components/chat/ChatInput.tsx:106-112 | ChatMessage reads ChatInput's " \| " table as a single column: the whole header line is one header, the "---" line becomes the first row, and each row line one cell |

## Left out

- `formatFileSize` (ChatMessage.tsx:45-51) is left out because it uses floating-point `log`, `pow` and `toFixed`.
- Layout, styling, the CSS block, the unused `components` code-block renderer (ChatMessage.tsx:283-352), syntax highlighting, the focus and auto-resize effects, scrolling, timestamps and console logging are not modelled. None of them affects which text or which call results.
- The component receiving `onSendMessage` is not part of this model. Its calls are recorded as effects, and the pipeline lemmas assume it passes the text through unchanged.
- The clipboard is modelled as the last text written to it (`CopyFeedback.clipboard`). The Blob and the download link are not modelled. The CSV text is.
- The 2000 ms timer is modelled only as the event `ResetFires`.
- `fetch` and `localStorage` are given as values.
- A `response.text()` that itself fails in chat2sqlService.ts is not modelled.
- Converting numbers or booleans to strings is not modelled. A cell value is a string or null, and a table row in Chat2SQL.js is given as its JSON text.
- Chat2SqlService.Attempt: a `columns` value that is truthy but not an array of strings, and a non-string `detail`, are not modelled.
- Two render-time crashes in Chat2SQL.js are not modelled: a truthy `columns` that is not an array, where `.join` throws (Chat2SQL.js:94), and an object-valued `data.data`, which React refuses as a child (Chat2SQL.js:106). The model treats such data as missing or as a scalar text.
- ChatService.ReplyText: a truthy `content` or `response` that is not a string is not modelled.
- ChatMessage.StripFences: its contract states only the length bound and the backtick-free case. The exact result on a fenced query is stated by ChatMessageProofs.StripFencedBlock and Pipeline.StripAfterPlainPrefix.
- The setState updater forms are modelled as direct updates. This is the same as long as no other update lands in the same render.
- frontend/src/App.js, frontend/src/components/Chat2SQLButton.js and the Python back end (eswar.py) are not part of this model. They are wiring, a boolean flip, and database and model access over the network.
- client/src/config.ts is used only for its base URL, "http://localhost:5000".
