/** How the pieces fit together: what ChatMessage.tsx makes of the replies
    ChatInput.tsx builds, and which of those replies chat2sqlService.ts can lead to. */
module Pipeline {
  import opened JsValues
  import opened JsStrings
  import opened Markdown
  import opened ChatMessage
  import opened ChatMessageProofs
  import ChatInput
  import Chat2SqlService

  /** The service never sets `sql`, so an SQL-mode send is answered, if at all, by an
      "[SYSTEM] Error: " message: the table formatting is never reached. */
  lemma ServiceRepliesAreErrors(outcome: Chat2SqlService.HttpOutcome)
    ensures var result := Chat2SqlService.ExecuteQuery(outcome);
            var reply := ChatInput.ReplyFor(result);
            (reply.Some? <==> result.Err? || Truthy(result.value.detail)) &&
            (reply.Some? ==> StartsWith(reply.value, ChatInput.ErrorTag))
  {
    var result := Chat2SqlService.ExecuteQuery(outcome);
    var reply := ChatInput.ReplyFor(result);
    if reply.Some? {
      var rest := if result.Err? then Describe(result.error) else result.value.detail.value;
      assert reply.value == ChatInput.ErrorTag + rest;
      assert reply.value[..|ChatInput.ErrorTag|] == ChatInput.ErrorTag;
    }
  }

  /** Shown as an AI message exactly as sent, "[SYSTEM] Error: ..." does not start with
      "Error:" and so is not styled as an error; the same text without the tag is. */
  lemma TaggedErrorNotStyled(d: string)
    requires !Contains(d, SqlMarker)
    ensures Render(ChatInput.ErrorTag + d, true) == Bubble(Label("AI"), ReplyText(ChatInput.ErrorTag + d, false))
    ensures Render("Error: " + d, true) == Bubble(Label("AI"), ReplyText("Error: " + d, true))
  {
    NotContainedAfterPrefix(ChatInput.ErrorTag, d, SqlMarker);
    NotContainedAfterPrefix("Error: ", d, SqlMarker);
    assert ("Error: " + d)[..|ErrorPrefix|] == ErrorPrefix;
  }

  /** A first character that can start neither fence is kept and the scan moves on. */
  lemma StripPlainHead(p: string, s: string)
    requires p != [] && p[0] != '`' && p[0] != '\n'
    ensures StripFences(p + s) == [p[0]] + StripFences(p[1..] + s)
  {
    var t := p + s;
    assert t[0] == p[0];
    assert t[1..] == p[1..] + s;
    assert !StartsWith(t, SqlOpen) by {
      if |t| >= |SqlOpen| { assert t[..|SqlOpen|][0] == t[0]; }
    }
    assert !StartsWith(t, SqlClose) by {
      if |t| >= |SqlClose| { assert t[..|SqlClose|][0] == t[0]; }
    }
  }

  /** One step of the scan over a plain prefix: its first character is kept. */
  lemma StripPlainStep(p: string, s: string)
    requires p != [] && p[0] != '`' && p[0] != '\n'
    requires StripFences(p[1..] + s) == p[1..] + StripFences(s)
    ensures StripFences(p + s) == p + StripFences(s)
  {
    StripPlainHead(p, s);
    ConsThenAppend(p, StripFences(s));
  }

  /** Putting a text's first character back in front of the rest of it, before a suffix. */
  lemma ConsThenAppend(p: string, r: string)
    requires p != []
    ensures [p[0]] + (p[1..] + r) == p + r
  {
    assert p == [p[0]] + p[1..];
  }

  /** Text without backticks or newlines passes the fence scan unchanged. */
  lemma {:induction false} StripAfterPlainPrefix(p: string, s: string)
    requires '`' !in p && '\n' !in p
    ensures StripFences(p + s) == p + StripFences(s)
    decreases |p|
  {
    if p == [] {
      assert p + s == s;
    } else {
      StripAfterPlainPrefix(p[1..], s);
      StripPlainStep(p, s);
    }
  }

  /** A prefix without newlines adds no blank line. */
  lemma NoBlankLineAfterPlainPrefix(p: string, f: string)
    requires '\n' !in p && NoBlankLine(f)
    ensures NoBlankLine(p + f)
  {
    var s := p + f;
    forall i | 0 <= i < |s| - 1 ensures !(s[i] == '\n' && s[i + 1] == '\n') {
      if i < |p| {
        assert s[i] == p[i];
      } else {
        assert s[i] == f[i - |p|] && s[i + 1] == f[i - |p| + 1];
      }
    }
  }

  /** The tagged fence holds no blank line and does not end in a newline, so the reply
      is cut right after it; and it does not start with "Error:". */
  lemma TaggedReplySegments(q: string, results: string)
    requires q != [] && IsTrimmed(q) && !Contains(q, BlankLine)
    requires !Contains(results, BlankLine)
    ensures var content := ChatInput.SystemTag + SqlBlock(q) + BlankLine + results;
            Split(content, BlankLine) == [ChatInput.SystemTag + SqlBlock(q), results] &&
            !StartsWith(content, ErrorPrefix)
  {
    var tag := ChatInput.SystemTag;
    var first := tag + SqlBlock(q);
    var content := first + BlankLine + results;
    NoBlankLineMeansNoSeparator(q);
    FenceHasNoBlankLine(q);
    NoBlankLineAfterPlainPrefix(tag, SqlBlock(q));
    assert first[|first| - 1] == SqlBlock(q)[|SqlBlock(q)| - 1];
    CutAtBlankLine(first, results);
    SplitWithoutSeparator(results, BlankLine);
    assert !StartsWith(content, ErrorPrefix) by { assert content[0] == '['; }
  }

  /** The tagged fence holds the marker, and stripping and trimming it leaves the tag
      followed by the query. */
  lemma TaggedReplyQuery(q: string)
    requires q != [] && IsTrimmed(q) && '`' !in q
    ensures var first := ChatInput.SystemTag + SqlBlock(q);
            Contains(first, SqlMarker) && Trim(StripFences(first)) == ChatInput.SystemTag + q
  {
    var tag := ChatInput.SystemTag;
    var first := tag + SqlBlock(q);
    assert OccursAt(first, SqlMarker, |tag|) by { assert first[|tag|..|tag| + |SqlMarker|] == SqlMarker; }
    StripAfterPlainPrefix(tag, SqlBlock(q));
    StripFencedBlock(q);
    assert IsTrimmed(tag + q) by { assert (tag + q)[|tag + q| - 1] == q[|q| - 1]; }
    TrimmedIsFixed(tag + q);
  }

  /** The reply ChatInput builds, "[SYSTEM] " + fenced query + blank line + results, is
      read back with the tag kept in the query and the results as they were. */
  lemma SplitTaggedReply(q: string, results: string)
    requires q != [] && IsTrimmed(q) && '`' !in q && !Contains(q, BlankLine)
    requires IsTrimmed(results) && !Contains(results, BlankLine)
    ensures SplitSQLResponse(ChatInput.SystemTag + SqlBlock(q) + BlankLine + results)
         == SqlParts("", ChatInput.SystemTag + q, results)
  {
    var first := ChatInput.SystemTag + SqlBlock(q);
    TaggedReplySegments(q, results);
    TaggedReplyQuery(q);
    TrimmedIsFixed(results);
    assert ReadSegments(first, results) == SqlParts("", ChatInput.SystemTag + q, results);
  }

  /** A text with no newline and no tab is read as a table with one header and no rows. */
  lemma SingleCellTable(text: string)
    requires '\n' !in text && '\t' !in text
    ensures ParseTable(text) == Table([text], [])
    ensures !Contains(text, BlankLine)
  {
    OneLine(text);
    OneCell(text);
    assert NoBlankLine(text) by {
      forall i | 0 <= i < |text| - 1 ensures text[i] != '\n' {
        assert text[i] in text;
      }
    }
    NoBlankLineMeansNoSeparator(text);
  }

  /** A tagged reply whose results are a single trimmed cell renders as that one-cell
      table under the query box, with the tag inside the query box. */
  lemma TaggedSingleCellReply(sql: string, line: string)
    requires sql != [] && IsTrimmed(sql) && '`' !in sql && !Contains(sql, BlankLine)
    requires '\n' !in line && '\t' !in line && IsTrimmed(line) && ShowResultsBox(line)
    ensures Render(ChatInput.SystemTag + SqlBlock(sql) + BlankLine + line, true)
         == Bubble(Label("SQL"), SqlView(Some(ChatInput.SystemTag + sql), Some(Table([line], [])), false))
  {
    var first := ChatInput.SystemTag + SqlBlock(sql);
    var content := first + BlankLine + line;
    SingleCellTable(line);
    SplitTaggedReply(sql, line);
    TaggedReplyQuery(sql);
    ContainedBeforeSuffix(first, BlankLine, SqlMarker);
    ContainedBeforeSuffix(first + BlankLine, line, SqlMarker);
    RenderSqlMessage(content);
  }

  /** A result with `sql` and no rows would be shown with "[SYSTEM] " inside the query box
      and "No results found." (with its period) as a one-cell results table, not as the
      "No results found" notice. */
  lemma EmptyResultShownAsTable(sql: string, columns: seq<string>)
    requires sql != [] && IsTrimmed(sql) && '`' !in sql && !Contains(sql, BlankLine)
    ensures Render(ChatInput.FormatResult(sql, columns, []), true)
         == Bubble(Label("SQL"), SqlView(Some(ChatInput.SystemTag + sql), Some(Table([ChatInput.NoResultsLine], [])), false))
  {
    var line := ChatInput.NoResultsLine;
    FormatWithoutRows(sql, columns);
    assert '\n' !in line && '\t' !in line && IsTrimmed(line) && ShowResultsBox(line);
    TaggedSingleCellReply(sql, line);
  }

  /** Without rows the formatted reply ends in "No results found.". */
  lemma FormatWithoutRows(sql: string, columns: seq<string>)
    ensures ChatInput.FormatResult(sql, columns, []) == ChatInput.SystemTag + SqlBlock(sql) + BlankLine + ChatInput.NoResultsLine
  {
  }

  /** A text without newlines is one line. */
  lemma OneLine(text: string)
    requires '\n' !in text
    ensures Split(text, "\n") == [text]
  {
    AbsentCharNotContained(text, '\n');
    SplitWithoutSeparator(text, "\n");
  }

  /** A text without tabs is one cell. */
  lemma OneCell(line: string)
    requires '\t' !in line
    ensures Split(line, "\t") == [line]
  {
    AbsentCharNotContained(line, '\t');
    SplitWithoutSeparator(line, "\t");
  }

  /** The " | " table is read by the tab-separated parser as a single column: the
      whole header line is one header, and the "---" rule line becomes the first row. */
  lemma PipeTableReadAsOneColumn(columns: seq<string>, data: seq<Row>)
    requires |data| >= 1
    requires forall c :: c in columns ==> '\n' !in c && '\t' !in c
    requires forall r, c :: r in data && c in columns ==> '\n' !in CellText(r, c) && '\t' !in CellText(r, c)
    ensures var t := ParseTable(ChatInput.TableText(columns, data));
            var rows := ChatInput.RowLines(columns, data);
            t.headers == [Join(columns, ChatInput.CellSeparator)] &&
            |t.rows| == |data| + 1 &&
            t.rows[0] == [Join(ChatInput.Rules(columns), ChatInput.CellSeparator)] &&
            forall i :: 0 <= i < |data| ==> t.rows[i + 1] == [rows[i]]
  {
    var rows := ChatInput.RowLines(columns, data);
    var header := Join(columns, ChatInput.CellSeparator);
    var rule := Join(ChatInput.Rules(columns), ChatInput.CellSeparator);
    var lines := [header, rule] + rows;
    assert ChatInput.NoNewlines(columns, data);
    JoinAvoids(columns, ChatInput.CellSeparator, '\t');
    JoinAvoids(ChatInput.Rules(columns), ChatInput.CellSeparator, '\t');
    RowLinesAvoidTabs(columns, data);
    forall i | 0 <= i < |lines| ensures '\t' !in lines[i] {
      if i >= 2 { assert lines[i] == rows[i - 2]; }
    }
    ParseTabFreeLines(ChatInput.TableText(columns, data), lines);
  }

  /** Lines without tabs are read one cell each: the first as the only header, each
      later one as a one-cell row. */
  lemma ParseTabFreeLines(text: string, lines: seq<string>)
    requires Split(text, "\n") == lines
    requires forall i :: 0 <= i < |lines| ==> '\t' !in lines[i]
    ensures var t := ParseTable(text);
            t.headers == [lines[0]] && |t.rows| == |lines| - 1 &&
            forall i :: 0 <= i < |t.rows| ==> t.rows[i] == [lines[i + 1]]
  {
    OneCell(lines[0]);
    var t := ParseTable(text);
    forall i | 0 <= i < |t.rows| ensures t.rows[i] == [lines[i + 1]] {
      OneCell(lines[i + 1]);
    }
  }

  /** " | " row lines of tab-free cells hold no tab. */
  lemma RowLinesAvoidTabs(columns: seq<string>, data: seq<Row>)
    requires forall r, c :: r in data && c in columns ==> '\t' !in CellText(r, c)
    ensures var rows := ChatInput.RowLines(columns, data);
            forall i :: 0 <= i < |rows| ==> '\t' !in rows[i]
  {
    var rows := ChatInput.RowLines(columns, data);
    forall i | 0 <= i < |rows| ensures '\t' !in rows[i] {
      var cells := ChatInput.RowCells(columns, data[i]);
      forall j | 0 <= j < |cells| ensures '\t' !in cells[j] {
        assert columns[j] in columns && data[i] in data;
      }
      JoinAvoids(cells, ChatInput.CellSeparator, '\t');
    }
  }
}
