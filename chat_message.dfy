/** client/src/components/chat/ChatMessage.tsx: how one chat bubble reads its text.
    The kind of a message is decided from its text alone; a reply holding a fenced
    `sql` block is cut into a query and a tab-separated results table, which is shown,
    copied and downloaded as CSV. */
module ChatMessage {
  import opened JsValues
  import opened JsStrings
  import opened Markdown

  const SqlMarker := "```sql"
  const ErrorPrefix := "Error:"
  const NoResults := "No results found"
  const BlankLine := "\n\n"

  // ---------------------------------------------------------------------------
  // Classification (lines 53-57)

  /** `content.includes('```sql')`: the text holds an sql fence marker somewhere. */
  function IsSQLResponse(content: string): (r: bool)
    ensures r <==> exists i :: OccursAt(content, SqlMarker, i)
  {
    Contains(content, SqlMarker)
  }

  /** An sql reply, an error text or exactly the bare "No results found" notice. */
  function IsSystemMessage(content: string): (r: bool)
    ensures r <==> (exists i :: OccursAt(content, SqlMarker, i)) || StartsWith(content, ErrorPrefix) || content == NoResults
  {
    IsSQLResponse(content) || StartsWith(content, ErrorPrefix) || content == NoResults
  }

  // ---------------------------------------------------------------------------
  // Query extraction (lines 60-81)

  /** `text.replace(/```sql\n|\n```/g, '')`: scanning left to right, a match of either
      alternative (the first one tried first) is deleted and the scan resumes after it. */
  function StripFences(s: string): (r: string)
    ensures |r| <= |s|
    ensures '`' !in s ==> r == s
    decreases |s|
  {
    if s == [] then []
    else if StartsWith(s, SqlOpen) then
      assert s[0] == SqlOpen[0] == '`';
      StripFences(s[|SqlOpen|..])
    else if StartsWith(s, SqlClose) then
      assert s[1] == SqlClose[1] == '`';
      StripFences(s[|SqlClose|..])
    else
      assert s[0] == '`' ==> '`' in s;
      [s[0]] + StripFences(s[1..])
  }

  datatype SqlParts = SqlParts(errorMessage: string, query: string, results: string)

  /** splitSQLResponse: an "Error:" text is all error message; otherwise the text is
      cut at blank lines and its first two segments are read. */
  function SplitSQLResponse(content: string): (r: SqlParts)
    ensures r.errorMessage != "" <==> StartsWith(content, ErrorPrefix)
    ensures r.errorMessage != "" ==> r == SqlParts(content, "", "")
    ensures r.query != "" ==> Contains(Split(content, BlankLine)[0], SqlMarker)
    ensures r.results != "" ==> |Split(content, BlankLine)| >= 2
    ensures IsTrimmed(r.query) && IsTrimmed(r.results)
  {
    if StartsWith(content, ErrorPrefix) then SqlParts(content, "", "")
    else
      var parts := Split(content, BlankLine);
      ReadSegments(parts[0], if |parts| > 1 then parts[1] else "")
  }

  /** The query is the fence-stripped first segment (when it holds the marker) and the
      results are the second segment, both trimmed. */
  function ReadSegments(first: string, second: string): (r: SqlParts)
    ensures r.errorMessage == ""
    ensures r.query != "" ==> Contains(first, SqlMarker)
    ensures r.results != "" ==> second != ""
    ensures IsTrimmed(r.query) && IsTrimmed(r.results)
  {
    var query := if Contains(first, SqlMarker) then Trim(StripFences(first)) else "";
    var results := if second != "" then Trim(second) else "";
    TrimIsInnerSubstring(StripFences(first));
    TrimIsInnerSubstring(second);
    SqlParts("", query, results)
  }

  // ---------------------------------------------------------------------------
  // The results table (lines 106-109, 229, 245-247)

  datatype Table = Table(headers: seq<string>, rows: seq<seq<string>>)

  /** The first line cut at tabs gives the headers; each later line, in order, one row of cells. */
  function ParseTable(results: string): (t: Table)
    ensures |t.headers| >= 1
    ensures |t.rows| == |Split(results, "\n")| - 1
  {
    var lines := Split(results, "\n");
    Table(Split(lines[0], "\t"), SplitEach(lines[1..], "\t"))
  }

  /** The tab-separated text a table is read from: the inverse of ParseTable. */
  function TabText(t: Table): string {
    Join(TabLines(t), "\n")
  }

  /** The lines of TabText: the header line, then one line per row. */
  function TabLines(t: Table): seq<string> {
    [Join(t.headers, "\t")] + JoinEach(t.rows, "\t")
  }

  /** No cell holds a tab or a newline, and the header line and every row have a cell. */
  predicate PlainCells(t: Table) {
    |t.headers| >= 1 && (forall h :: h in t.headers ==> '\t' !in h && '\n' !in h)
    && forall r :: r in t.rows ==> |r| >= 1 && forall c :: c in r ==> '\t' !in c && '\n' !in c
  }

  // ---------------------------------------------------------------------------
  // CSV download (lines 103-127)

  /** downloadTableData: nothing for empty or "No results found" results; otherwise the
      CSV text: each line's tab-separated cells re-joined with commas, lines kept in order. */
  function CsvContent(results: string): (csv: Option<string>)
    ensures csv.None? <==> results == "" || results == NoResults
  {
    if results == "" || results == NoResults then None
    else
      var lines := Split(results, "\n");
      var headers := Split(lines[0], "\t");
      var data := SplitEach(lines[1..], "\t");
      Some(Join([Join(headers, ",")] + JoinEach(data, ","), "\n"))
  }

  // ---------------------------------------------------------------------------
  // Rendering (lines 84-280, 388-433)

  /** The results box shows for non-empty results other than the bare notice text. */
  predicate ShowResultsBox(results: string) {
    results != "" && results != NoResults
  }

  /** The "No results found" notice shows when a query came back with no results text. */
  predicate ShowNoResultsNotice(query: string, results: string) {
    results == "" && query != ""
  }

  datatype Avatar = UserIcon | Label(text: string)

  datatype Body =
    | UserText(text: string)
    | SqlError(text: string)
    | SqlView(queryBox: Option<string>, resultsTable: Option<Table>, noResultsNotice: bool)
    | ReplyText(text: string, errorStyled: bool)

  datatype Bubble = Bubble(avatar: Avatar, body: Body)

  /** renderSQLResponse: the error box, or the query box, the results table and the notice. */
  function RenderSQLResponse(content: string): (body: Body)
    ensures body.SqlError? || body.SqlView?
    ensures body.SqlError? <==> StartsWith(content, ErrorPrefix)
    ensures body.SqlError? ==> body.text == content
    ensures body.SqlView? ==>
              var p := SplitSQLResponse(content);
              (body.queryBox.Some? <==> p.query != "") &&
              (body.queryBox.Some? ==> body.queryBox.value == p.query) &&
              (body.resultsTable.Some? <==> ShowResultsBox(p.results)) &&
              (body.resultsTable.Some? ==> body.resultsTable.value == ParseTable(p.results)) &&
              (body.noResultsNotice <==> p.results == "" && p.query != "")
    ensures body.SqlView? ==> !(body.resultsTable.Some? && body.noResultsNotice)
  {
    var parts := SplitSQLResponse(content);
    if parts.errorMessage != "" then SqlError(parts.errorMessage)
    else SqlView(if parts.query != "" then Some(parts.query) else None,
                 if ShowResultsBox(parts.results) then Some(ParseTable(parts.results)) else None,
                 ShowNoResultsNotice(parts.query, parts.results))
  }

  /** One message bubble, from the message text and whether it is an AI message. */
  function Render(content: string, isAI: bool): (b: Bubble)
    ensures !isAI ==> b == Bubble(UserIcon, UserText(content))
    ensures isAI ==> (b.avatar == Label("SQL") <==> exists i :: OccursAt(content, SqlMarker, i))
    ensures isAI ==> b.avatar == Label("SQL") || b.avatar == Label("AI")
    ensures b.body.ReplyText? ==> b.body.text == content && (b.body.errorStyled <==> StartsWith(content, ErrorPrefix))
    ensures isAI && !b.body.ReplyText? ==> exists i :: OccursAt(content, SqlMarker, i)
    ensures b.body.SqlError? ==> b.body.text == content && StartsWith(content, ErrorPrefix)
    ensures b.body.SqlView? ==> !(b.body.resultsTable.Some? && b.body.noResultsNotice)
    ensures b.body.SqlView? && b.body.noResultsNotice ==> b.body.queryBox.Some?
    ensures isAI && IsSQLResponse(content) && !StartsWith(content, ErrorPrefix) ==>
              var p := SplitSQLResponse(content);
              b.body.SqlView? &&
              (b.body.queryBox.Some? <==> p.query != "") &&
              (b.body.queryBox.Some? ==> b.body.queryBox.value == p.query) &&
              (b.body.resultsTable.Some? <==> ShowResultsBox(p.results)) &&
              (b.body.resultsTable.Some? ==> b.body.resultsTable.value == ParseTable(p.results)) &&
              (b.body.noResultsNotice <==> p.results == "" && p.query != "")
  {
    if !isAI then Bubble(UserIcon, UserText(content))
    else
      var avatar := Label(if IsSQLResponse(content) then "SQL" else if IsSystemMessage(content) then "AI" else "AI");
      if IsSQLResponse(content) then Bubble(avatar, RenderSQLResponse(content))
      else Bubble(avatar, ReplyText(content, StartsWith(content, ErrorPrefix)))
  }

  // ---------------------------------------------------------------------------
  // Copy feedback (lines 33, 38-42, 155-170, 315-330)

  /** The `copiedCode` state of one message and the effects of copying. */
  class CopyFeedback {
    var copiedCode: Option<string>
    /** The text last written to the clipboard. */
    var clipboard: Option<string>
    /** Reset timers scheduled and not yet fired. */
    var pendingResets: nat

    constructor ()
      ensures copiedCode == None && clipboard == None && pendingResets == 0
    {
      copiedCode, clipboard, pendingResets := None, None, 0;
    }

    /** A copy affordance for `code` reads "Copied" exactly when `code` is the copied code. */
    function ShowsCopied(code: string): (shown: bool)
      reads this
      ensures shown ==> copiedCode.Some?
      ensures shown <==> copiedCode == Some(code)
    {
      copiedCode == Some(code)
    }

    /** copyToClipboard: write the code, remember it and schedule a reset. */
    method CopyToClipboard(code: string)
      modifies this
      ensures clipboard == Some(code) && copiedCode == Some(code)
      ensures pendingResets == old(pendingResets) + 1
      ensures ShowsCopied(code) && forall other :: other != code ==> !ShowsCopied(other)
    {
      clipboard := Some(code);
      copiedCode := Some(code);
      pendingResets := pendingResets + 1;
    }

    /** The 2000 ms timer fires: the copied code is cleared whatever was copied since. */
    method ResetFires()
      requires pendingResets > 0
      modifies this
      ensures copiedCode == None && clipboard == old(clipboard)
      ensures pendingResets == old(pendingResets) - 1
      ensures forall code :: !ShowsCopied(code)
    {
      copiedCode := None;
      pendingResets := pendingResets - 1;
    }
  }

  /** Copying a, then b, then the first timer firing: b no longer reads "Copied"
      although its own reset has not fired yet. */
  method EarlierResetClearsLaterCopy(a: string, b: string) returns (bShown: bool, bPending: bool)
    ensures !bShown && bPending
  {
    var f := new CopyFeedback();
    f.CopyToClipboard(a);
    f.CopyToClipboard(b);
    f.ResetFires();
    bShown := f.ShowsCopied(b);
    bPending := f.pendingResets > 0;
  }

  // ---------------------------------------------------------------------------
  // Upload status (lines 355-386)

  const KnownStatuses := ["UPLOADED", "PROCESSING", "EMBEDDING", "PROCESSED", "ERROR"]
  const MutedColor := "var(--color-text-muted)"

  /** getStatusColor */
  function StatusColor(status: string): (color: string)
    ensures color == MutedColor <==> status !in KnownStatuses
    ensures status == "PROCESSING" || status == "EMBEDDING" ==> color == "var(--color-warning)"
  {
    if status == "UPLOADED" then "var(--color-info)"
    else if status == "PROCESSING" || status == "EMBEDDING" then "var(--color-warning)"
    else if status == "PROCESSED" then "var(--color-success)"
    else if status == "ERROR" then "var(--color-error)"
    else MutedColor
  }

  /** getStatusText: a fixed label for each known status, any other status as it is. */
  function StatusText(status: string): (shown: string)
    ensures shown == status <==> status !in KnownStatuses
  {
    if status == "UPLOADED" then "Uploaded"
    else if status == "PROCESSING" then "Processing"
    else if status == "EMBEDDING" then "Generating embeddings"
    else if status == "PROCESSED" then "Ready"
    else if status == "ERROR" then "Error"
    else status
  }
}

/** Proofs about ChatMessage: the canonical sql reply and its table read back
    exactly, and the CSV is the results text with tabs turned into commas. */
module ChatMessageProofs {
  import opened JsValues
  import opened JsStrings
  import opened Markdown
  import opened ChatMessage

  /** No two consecutive newlines, i.e. no blank-line separator inside. */
  predicate NoBlankLine(s: string) {
    forall i :: 0 <= i < |s| - 1 ==> !(s[i] == '\n' && s[i + 1] == '\n')
  }

  lemma NoBlankLineMeansNoSeparator(s: string)
    ensures NoBlankLine(s) <==> !Contains(s, BlankLine)
  {
    assert Contains(s, BlankLine) ==> !NoBlankLine(s) by {
      if Contains(s, BlankLine) {
        var i :| OccursAt(s, BlankLine, i);
        assert s[i] == s[i..i + 2][0] && s[i + 1] == s[i..i + 2][1];
      }
    }
    assert !NoBlankLine(s) ==> Contains(s, BlankLine) by {
      if !NoBlankLine(s) {
        var i :| 0 <= i < |s| - 1 && s[i] == '\n' && s[i + 1] == '\n';
        assert s[i..i + 2] == [s[i], s[i + 1]];
        assert OccursAt(s, BlankLine, i);
      }
    }
  }

  /** A segment without a blank line and not ending in a newline is cut off exactly
      where the blank line after it starts. */
  lemma CutAtBlankLine(a: string, rest: string)
    requires NoBlankLine(a) && (a == [] || a[|a| - 1] != '\n')
    ensures Split(a + BlankLine + rest, BlankLine) == [a] + Split(rest, BlankLine)
  {
    forall j | j < |a| ensures !OccursAt(a + BlankLine, BlankLine, j) {
      if 0 <= j {
        assert (a + BlankLine)[j..j + 2] == [(a + BlankLine)[j], (a + BlankLine)[j + 1]];
      }
    }
    SplitAfter(a, BlankLine, rest);
  }

  /** A non-empty text is its first character followed by the rest. */
  lemma HeadThenRest(q: string)
    requires q != []
    ensures [q[0]] + q[1..] == q
  {
  }

  /** Where neither fence starts, the scan keeps the first character. */
  lemma StripKeepsHead(t: string)
    requires t != [] && !StartsWith(t, SqlOpen) && !StartsWith(t, SqlClose)
    ensures StripFences(t) == [t[0]] + StripFences(t[1..])
  {
  }

  /** A text whose character at k differs from the prefix's does not start with it. */
  lemma DiffersAt(t: string, prefix: string, k: nat)
    requires k < |prefix| && k < |t| && t[k] != prefix[k]
    ensures !StartsWith(t, prefix)
  {
    if |t| >= |prefix| {
      assert t[..|prefix|][k] == t[k];
    }
  }

  /** Neither fence starts at the head of a backtick-free query followed by the closing fence. */
  lemma NoFenceAtHead(q: string)
    requires q != [] && '`' !in q
    ensures var s := q + SqlClose;
            !StartsWith(s, SqlOpen) && !StartsWith(s, SqlClose) && s[0] == q[0] && s[1..] == q[1..] + SqlClose
  {
    var s := q + SqlClose;
    assert s[0] == q[0];
    assert q[0] in q;
    DiffersAt(s, SqlOpen, 0);
    if |q| >= 2 {
      assert s[1] == q[1] && q[1] in q;
    } else {
      assert s[1] == '\n';
    }
    DiffersAt(s, SqlClose, 1);
    assert s[1..] == q[1..] + SqlClose;
  }

  /** The first character of a backtick-free query before the closing fence is kept. */
  lemma StripBeforeCloseStep(q: string)
    requires q != [] && '`' !in q
    ensures StripFences(q + SqlClose) == [q[0]] + StripFences(q[1..] + SqlClose)
  {
    NoFenceAtHead(q);
    StripKeepsHead(q + SqlClose);
  }

  /** The fence markers around a query without backticks are exactly what the regex removes. */
  lemma {:induction false} StripBeforeClose(q: string)
    requires '`' !in q
    ensures StripFences(q + SqlClose) == q
    decreases |q|
  {
    var s := q + SqlClose;
    if q == [] {
      assert s == SqlClose;
      assert s[|SqlClose|..] == [];
    } else {
      StripBeforeCloseStep(q);
      StripBeforeClose(q[1..]);
      HeadThenRest(q);
    }
  }

  /** Stripping the fences of a fenced query without backticks gives the query back. */
  lemma StripFencedBlock(q: string)
    requires '`' !in q
    ensures StripFences(SqlBlock(q)) == q
  {
    var s := SqlBlock(q);
    assert StartsWith(s, SqlOpen);
    assert s[|SqlOpen|..] == q + SqlClose;
    StripBeforeClose(q);
  }

  /** A fenced, trimmed query with no blank line in it holds no blank line either. */
  lemma FenceHasNoBlankLine(q: string)
    requires q != [] && IsTrimmed(q) && NoBlankLine(q)
    ensures NoBlankLine(SqlBlock(q)) && SqlBlock(q)[|SqlBlock(q)| - 1] != '\n'
  {
    var s := SqlBlock(q);
    assert s == SqlOpen + q + SqlClose;
    var n := |SqlOpen|;
    forall i | 0 <= i < |s| - 1 ensures !(s[i] == '\n' && s[i + 1] == '\n') {
      if i < n - 1 {
        assert s[i] == SqlOpen[i];
      } else if i == n - 1 {
        assert s[i + 1] == q[0];
      } else if i < n + |q| - 1 {
        assert s[i] == q[i - n] && s[i + 1] == q[i - n + 1];
      } else if i == n + |q| - 1 {
        assert s[i] == q[|q| - 1];
      } else {
        assert s[i + 1] == SqlClose[i + 1 - n - |q|];
      }
    }
  }

  /** The canonical sql reply, a fenced query, a blank line and a results table, is
      split back into exactly that query and that table. */
  lemma SplitCanonicalReply(q: string, table: string)
    requires q != [] && IsTrimmed(q) && '`' !in q && !Contains(q, BlankLine)
    requires IsTrimmed(table) && !Contains(table, BlankLine)
    ensures SplitSQLResponse(SqlBlock(q) + BlankLine + table) == SqlParts("", q, table)
  {
    var fence := SqlBlock(q);
    var content := fence + BlankLine + table;
    NoBlankLineMeansNoSeparator(q);
    FenceHasNoBlankLine(q);
    assert !StartsWith(content, ErrorPrefix) by { assert content[0] == '`'; }
    CutAtBlankLine(fence, table);
    SplitWithoutSeparator(table, BlankLine);
    var parts := Split(content, BlankLine);
    assert parts == [fence, table];
    assert OccursAt(fence, SqlMarker, 0) by { assert fence[..6] == SqlMarker; }
    StripFencedBlock(q);
    TrimmedIsFixed(q);
    TrimmedIsFixed(table);
  }

  /** Texts that agree on the "Error:" test and on their first two blank-line
      segments give the same query and results. */
  lemma SameLeadingSegments(x: string, y: string)
    requires StartsWith(x, ErrorPrefix) == StartsWith(y, ErrorPrefix)
    requires |Split(x, BlankLine)| >= 2 && |Split(y, BlankLine)| >= 2
    requires Split(x, BlankLine)[..2] == Split(y, BlankLine)[..2]
    ensures SplitSQLResponse(x).query == SplitSQLResponse(y).query
    ensures SplitSQLResponse(x).results == SplitSQLResponse(y).results
  {
    var px, py := Split(x, BlankLine), Split(y, BlankLine);
    assert px[0] == px[..2][0] == py[0] && px[1] == px[..2][1] == py[1];
  }

  /** "Error:" holds no newline, so whether a text starts with it is settled before
      its first blank line. */
  lemma ErrorPrefixWithinFirstLine(a: string, u: string, v: string)
    ensures StartsWith(a + BlankLine + u, ErrorPrefix) == StartsWith(a + BlankLine + v, ErrorPrefix)
  {
    var x := a + BlankLine + u;
    var y := a + BlankLine + v;
    if |a| >= |ErrorPrefix| {
      assert x[..|ErrorPrefix|] == a[..|ErrorPrefix|] == y[..|ErrorPrefix|];
    } else {
      assert x[|a|] == '\n' == y[|a|] && ErrorPrefix[|a|] != '\n';
      assert |x| >= |ErrorPrefix| ==> x[..|ErrorPrefix|][|a|] == '\n';
      assert |y| >= |ErrorPrefix| ==> y[..|ErrorPrefix|][|a|] == '\n';
    }
  }

  /** The query and results come from the first two blank-line segments alone:
      whatever follows the next blank line is dropped. */
  lemma LaterSegmentsIgnored(a: string, b: string, c: string)
    requires !Contains(a, BlankLine) && (a == [] || a[|a| - 1] != '\n')
    requires !Contains(b, BlankLine) && (b == [] || b[|b| - 1] != '\n')
    ensures SplitSQLResponse(a + BlankLine + b + BlankLine + c).query == SplitSQLResponse(a + BlankLine + b).query
    ensures SplitSQLResponse(a + BlankLine + b + BlankLine + c).results == SplitSQLResponse(a + BlankLine + b).results
  {
    NoBlankLineMeansNoSeparator(a);
    NoBlankLineMeansNoSeparator(b);
    var tail := b + BlankLine + c;
    var long := a + BlankLine + tail;
    var short := a + BlankLine + b;
    assert a + BlankLine + b + BlankLine + c == long;
    SegmentsOfLong(a, b, c);
    CutAtBlankLine(a, b);
    SplitWithoutSeparator(b, BlankLine);
    assert Split(short, BlankLine) == [a, b];
    ErrorPrefixWithinFirstLine(a, tail, b);
    SameLeadingSegments(long, short);
  }

  lemma SegmentsOfLong(a: string, b: string, c: string)
    requires NoBlankLine(a) && (a == [] || a[|a| - 1] != '\n')
    requires NoBlankLine(b) && (b == [] || b[|b| - 1] != '\n')
    ensures var parts := Split(a + BlankLine + (b + BlankLine + c), BlankLine);
            |parts| >= 2 && parts[..2] == [a, b]
  {
    CutAtBlankLine(a, b + BlankLine + c);
    CutAtBlankLine(b, c);
  }

  /** No line of the tab-separated text of a table with plain cells holds a newline. */
  lemma TabLinesHoldNoNewline(t: Table)
    requires PlainCells(t)
    ensures forall i :: 0 <= i < |TabLines(t)| ==> '\n' !in TabLines(t)[i]
  {
    var lines := TabLines(t);
    forall i | 0 <= i < |lines| ensures '\n' !in lines[i] {
      if i == 0 {
        JoinAvoids(t.headers, "\t", '\n');
      } else {
        assert t.rows[i - 1] in t.rows;
        JoinAvoids(t.rows[i - 1], "\t", '\n');
      }
    }
  }

  /** Rows whose cells hold no tab are read back from their tab-joined lines. */
  lemma RowsReadBack(rows: seq<seq<string>>)
    requires forall r :: r in rows ==> |r| >= 1 && forall c :: c in r ==> '\t' !in c
    ensures SplitEach(JoinEach(rows, "\t"), "\t") == rows
  {
    var back := SplitEach(JoinEach(rows, "\t"), "\t");
    forall i | 0 <= i < |rows| ensures back[i] == rows[i] {
      assert rows[i] in rows;
      JoinThenSplit(rows[i], "\t", 0);
    }
  }

  /** Reading the tab-separated text of a table with plain cells gives that table back. */
  lemma ParseTabText(t: Table)
    requires PlainCells(t)
    ensures ParseTable(TabText(t)) == t
  {
    var lines := TabLines(t);
    TabLinesHoldNoNewline(t);
    JoinThenSplit(lines, "\n", 0);
    JoinThenSplit(t.headers, "\t", 0);
    assert lines[1..] == JoinEach(t.rows, "\t");
    RowsReadBack(t.rows);
  }

  /** The downloaded CSV is the results text with every tab turned into a comma. */
  lemma CsvIsTabsToCommas(results: string)
    requires results != "" && results != NoResults
    ensures CsvContent(results) == Some(ReplaceChar(results, '\t', ','))
  {
    var lines := Split(results, "\n");
    var all := JoinEach(SplitEach(lines, "\t"), ",");
    assert all == [Join(Split(lines[0], "\t"), ",")] + JoinEach(SplitEach(lines[1..], "\t"), ",");
    ReplaceDistributesOverJoin(lines, "\n", '\t', ',');
    SplitThenJoin(results, "\n");
  }

  /** No line cut at newlines holds a newline. */
  lemma LinesHoldNoNewline(results: string)
    ensures forall l :: l in Split(results, "\n") ==> '\n' !in l
  {
    SplitPiecesAvoidSeparator(results, "\n");
    forall l | l in Split(results, "\n") ensures '\n' !in l {
      forall k | 0 <= k < |l| ensures l[k] != '\n' {
        assert !OccursAt(l, "\n", k);
        assert l[k..k + 1] == [l[k]];
      }
    }
  }

  /** Re-joining with commas keeps a line free of newlines. */
  lemma CsvLinesHoldNoNewline(lines: seq<string>)
    requires forall l :: l in lines ==> '\n' !in l
    ensures forall l :: l in JoinEach(SplitEach(lines, "\t"), ",") ==> '\n' !in l
  {
    var all := JoinEach(SplitEach(lines, "\t"), ",");
    forall i | 0 <= i < |all| ensures '\n' !in all[i] {
      JoinSplitReplaces(lines[i], '\t', ',');
      assert lines[i] in lines;
    }
  }

  /** The CSV has one line per results line, each that line's tab-separated cells
      joined with commas and no quoting. */
  lemma CsvLinesFollowResults(results: string)
    requires results != "" && results != NoResults
    ensures var lines := Split(results, "\n");
            var csvLines := Split(CsvContent(results).value, "\n");
            |csvLines| == |lines| &&
            forall i :: 0 <= i < |lines| ==> csvLines[i] == Join(Split(lines[i], "\t"), ",")
  {
    var lines := Split(results, "\n");
    var all := JoinEach(SplitEach(lines, "\t"), ",");
    assert all == [Join(Split(lines[0], "\t"), ",")] + JoinEach(SplitEach(lines[1..], "\t"), ",");
    assert CsvContent(results).value == Join(all, "\n");
    LinesHoldNoNewline(results);
    CsvLinesHoldNoNewline(lines);
    JoinThenSplit(all, "\n", 0);
  }

  /** An AI message holding an sql marker is rendered by the sql view under the SQL avatar. */
  lemma RenderSqlMessage(content: string)
    requires Contains(content, SqlMarker)
    ensures Render(content, true) == Bubble(Label("SQL"), RenderSQLResponse(content))
  {
  }

  /** An AI message holding the canonical reply renders as the SQL avatar with the query
      box and exactly the table it was written from, and no notice. */
  lemma RenderCanonicalReply(q: string, t: Table)
    requires q != [] && IsTrimmed(q) && '`' !in q && !Contains(q, BlankLine)
    requires PlainCells(t) && ShowResultsBox(TabText(t))
    requires IsTrimmed(TabText(t)) && !Contains(TabText(t), BlankLine)
    ensures Render(SqlBlock(q) + BlankLine + TabText(t), true)
         == Bubble(Label("SQL"), SqlView(Some(q), Some(t), false))
  {
    var content := SqlBlock(q) + BlankLine + TabText(t);
    assert OccursAt(content, SqlMarker, 0) by { assert content[..6] == SqlMarker; }
    assert Contains(content, SqlMarker);
    RenderSqlMessage(content);
    SplitCanonicalReply(q, TabText(t));
    ParseTabText(t);
  }

  /** Distinct known statuses get distinct labels. */
  lemma StatusLabels()
    ensures forall s, u :: s in KnownStatuses && u in KnownStatuses && s != u ==> StatusText(s) != StatusText(u)
  {
  }
}
