/** The data side of `EnhancedResponsesTable` in
    components/admin/enhanced-responses-table.tsx: which questions get
    analytics, the table that copy and export build (headers and one row
    per submission), its CSV, TSV and Markdown renderings, the download
    file name and the per-question answer count. */
module ResponsesTable {
  import opened Wrappers
  import opened Strings
  import opened JsValues
  import opened Types
  import QuestionAnalytics

  // ---------------------------------------------------------------------
  // Which questions

  /** `analyticsQuestions`: the questions whose breakdown can be selected. */
  function AnalyticsQuestions(questions: seq<Question>): (r: seq<Question>)
    ensures forall q :: q in r <==> q in questions && QuestionAnalytics.ShowsAnalytics(q)
    ensures |r| <= |questions|
  {
    if questions == [] then []
    else (if QuestionAnalytics.ShowsAnalytics(questions[0]) then [questions[0]] else [])
         + AnalyticsQuestions(questions[1..])
  }

  /** `analyticsQuestions.find(q => q.id === selectedQuestionId) || null`. */
  function SelectedQuestion(questions: seq<Question>, selectedId: Option<string>): (r: Option<Question>)
    ensures r.Some? ==> selectedId == Some(r.value.id) && r.value in questions
                        && QuestionAnalytics.ShowsAnalytics(r.value)
    ensures r.None? ==> selectedId.None? ||
                        forall q :: q in questions && QuestionAnalytics.ShowsAnalytics(q) ==> q.id != selectedId.value
  {
    if selectedId.None? then None else FindById(AnalyticsQuestions(questions), selectedId.value)
  }

  function FindById(qs: seq<Question>, id: string): (r: Option<Question>)
    ensures r.Some? ==> r.value in qs && r.value.id == id
    ensures r.None? ==> forall q :: q in qs ==> q.id != id
  {
    if qs == [] then None else if qs[0].id == id then Some(qs[0]) else FindById(qs[1..], id)
  }

  /** Export drops only the e-mail questions (the address has its own
      column); a name question is exported. */
  predicate ExportedQuestion(q: Question) {
    Lower(q.questionId) != "email" && Lower(q.questionId) != "email_address"
  }

  function ExportQuestions(questions: seq<Question>): (r: seq<Question>)
    ensures forall q :: q in r <==> q in questions && ExportedQuestion(q)
    ensures |r| <= |questions|
  {
    if questions == [] then []
    else (if ExportedQuestion(questions[0]) then [questions[0]] else []) + ExportQuestions(questions[1..])
  }

  /** The exported columns keep the form's question order. */
  lemma {:induction false} ExportQuestionsConcat(a: seq<Question>, b: seq<Question>)
    ensures ExportQuestions(a + b) == ExportQuestions(a) + ExportQuestions(b)
  {
    if a == [] {
      assert a + b == b;
    } else {
      assert (a + b)[1..] == a[1..] + b;
      ExportQuestionsConcat(a[1..], b);
    }
  }

  // ---------------------------------------------------------------------
  // The table

  /** `["Email", "Submitted At", ...question texts]`. */
  function Headers(qs: seq<Question>): (r: seq<string>)
    ensures |r| == |qs| + 2
    ensures r[0] == "Email" && r[1] == "Submitted At"
    ensures forall i :: 0 <= i < |qs| ==> r[i + 2] == qs[i].questionText
  {
    ["Email", "Submitted At"] + seq(|qs|, i requires 0 <= i < |qs| => qs[i].questionText)
  }

  /** One answer cell: an array joined by ", ", otherwise the answer's
      string form when it is truthy, else the empty string. */
  function Cell(answer: JsVal): string {
    if answer.Arr? then JoinArr(answer.elems, ", ")
    else if Truthy(answer) then ToStr(answer)
    else ""
  }

  /** `new Date(created_at).toISOString().split('T')[0]`, the ISO rendering
      being the parameter `iso`. */
  function DatePart(createdAt: string, iso: string -> string): string {
    Split(iso(createdAt), 'T')[0]
  }

  function Row(sub: Submission, qs: seq<Question>, iso: string -> string): (r: seq<string>)
    ensures |r| == |qs| + 2
  {
    var email := if sub.email.Some? && sub.email.value != "" then sub.email.value else "Anonymous";
    [email, DatePart(sub.createdAt, iso)]
      + seq(|qs|, i requires 0 <= i < |qs| => Cell(At(sub.answers, qs[i].questionId)))
  }

  function Rows(subs: seq<Submission>, qs: seq<Question>, iso: string -> string): (r: seq<seq<string>>)
    ensures |r| == |subs|
    ensures forall i :: 0 <= i < |subs| ==> r[i] == Row(subs[i], qs, iso)
  {
    seq(|subs|, i requires 0 <= i < |subs| => Row(subs[i], qs, iso))
  }

  /** Every row lines up with the headers: the address (or "Anonymous"),
      the day, then for each exported question the cell of its answer. */
  lemma RowSpec(sub: Submission, qs: seq<Question>, iso: string -> string)
    ensures var r := Row(sub, qs, iso);
            && |r| == |Headers(qs)|
            && (r[0] == "Anonymous" <==> sub.email.None? || sub.email.value == "" || sub.email.value == "Anonymous")
            && (sub.email.Some? && sub.email.value != "" ==> r[0] == sub.email.value)
            && 'T' !in r[1]
            && (forall i :: 0 <= i < |qs| ==> r[i + 2] == Cell(At(sub.answers, qs[i].questionId)))
  {
    var d := Split(iso(sub.createdAt), 'T');
    SplitFirstHasNoSeparator(iso(sub.createdAt), 'T');
  }

  lemma {:induction false} SplitFirstHasNoSeparator(s: string, c: char)
    ensures c !in Split(s, c)[0]
    decreases |s|
  {
    if s != [] && s[0] != c {
      SplitFirstHasNoSeparator(s[1..], c);
    }
  }

  /** The cell rule: unanswered, null, false, 0 and "" give an empty cell,
      a string gives itself, and an array lists its elements. */
  lemma CellSpec(answer: JsVal)
    ensures !answer.Arr? && !Truthy(answer) ==> Cell(answer) == ""
    ensures answer.Str? ==> Cell(answer) == answer.s
    ensures answer.Arr? && |answer.elems| == 1 && answer.elems[0].Str? ==> Cell(answer) == answer.elems[0].s
  {
  }

  // ---------------------------------------------------------------------
  // Renderings

  function Lines(parts: seq<string>): string {
    Join(parts, "\n")
  }

  function MapJoin(rows: seq<seq<string>>, sep: string): (r: seq<string>)
    ensures |r| == |rows|
    ensures forall i :: 0 <= i < |rows| ==> r[i] == Join(rows[i], sep)
  {
    seq(|rows|, i requires 0 <= i < |rows| => Join(rows[i], sep))
  }

  /** Tab-separated: header and rows joined by tabs, lines by newlines. */
  function TsvContent(headers: seq<string>, rows: seq<seq<string>>): string {
    Lines([Join(headers, "\t")] + MapJoin(rows, "\t"))
  }

  /** `| a | b |`. */
  function MarkdownLine(cells: seq<string>): string {
    "| " + Join(cells, " | ") + " |"
  }

  /** `|---|---|` with one `---` per header. */
  function MarkdownRule(headers: seq<string>): string {
    "|" + Join(seq(|headers|, _ => "---"), "|") + "|"
  }

  function MarkdownRows(rows: seq<seq<string>>): (r: seq<string>)
    ensures |r| == |rows|
    ensures forall i :: 0 <= i < |rows| ==> r[i] == MarkdownLine(rows[i])
  {
    seq(|rows|, i requires 0 <= i < |rows| => MarkdownLine(rows[i]))
  }

  function MarkdownContent(headers: seq<string>, rows: seq<seq<string>>): string {
    MarkdownLine(headers) + "\n" + MarkdownRule(headers) + "\n" + Lines(MarkdownRows(rows))
  }

  /** With at least one row and no newline in any cell, the Markdown text
      is the header line, the rule line and one line per row. */
  lemma MarkdownLinesSpec(headers: seq<string>, rows: seq<seq<string>>)
    requires rows != []
    requires forall j :: 0 <= j < |headers| ==> '\n' !in headers[j]
    requires forall i, j :: 0 <= i < |rows| && 0 <= j < |rows[i]| ==> '\n' !in rows[i][j]
    ensures Split(MarkdownContent(headers, rows), '\n')
         == [MarkdownLine(headers), MarkdownRule(headers)] + MarkdownRows(rows)
  {
    var parts := [MarkdownLine(headers), MarkdownRule(headers)] + MarkdownRows(rows);
    assert Join(parts, "\n") == MarkdownContent(headers, rows) by {
      assert parts[1..] == [MarkdownRule(headers)] + MarkdownRows(rows);
      assert parts[1..][1..] == MarkdownRows(rows);
    }
    JoinChars(headers, " | ", '\n');
    JoinChars(seq(|headers|, _ => "---"), "|", '\n');
    forall i | 0 <= i < |rows| ensures '\n' !in MarkdownLine(rows[i]) {
      JoinChars(rows[i], " | ", '\n');
    }
    SplitJoin(parts, '\n');
  }

  /** With no rows, the Markdown text still ends in the newline after the
      rule, so its lines are the header line, the rule and one empty line. */
  lemma MarkdownNoRows(headers: seq<string>)
    requires forall j :: 0 <= j < |headers| ==> '\n' !in headers[j]
    ensures Split(MarkdownContent(headers, []), '\n') == [MarkdownLine(headers), MarkdownRule(headers), ""]
  {
    var parts := [MarkdownLine(headers), MarkdownRule(headers), ""];
    assert Join(parts, "\n") == MarkdownContent(headers, []) by {
      assert parts[1..] == [MarkdownRule(headers), ""];
      assert parts[1..][1..] == [""];
      assert Join(parts[1..], "\n") == MarkdownRule(headers) + "\n" + "";
      assert Lines(MarkdownRows([])) == "";
    }
    JoinChars(headers, " | ", '\n');
    JoinChars(seq(|headers|, _ => "---"), "|", '\n');
    SplitJoin(parts, '\n');
  }

  /** CSV as the source writes it: the header joined by commas as is,
      every data cell wrapped in double quotes without escaping. */
  function CsvQuoteAsWritten(cell: string): string {
    "\"" + cell + "\""
  }

  function QuoteAllAsWritten(cells: seq<string>): (r: seq<string>)
    ensures |r| == |cells|
    ensures forall i :: 0 <= i < |cells| ==> r[i] == CsvQuoteAsWritten(cells[i])
  {
    seq(|cells|, i requires 0 <= i < |cells| => CsvQuoteAsWritten(cells[i]))
  }

  function CsvRowAsWritten(cells: seq<string>): string {
    Join(QuoteAllAsWritten(cells), ",")
  }

  /** A quote inside a cell ends the field early: two different rows give
      the same line. */
  lemma CsvRowAsWrittenAmbiguous()
    ensures CsvRowAsWritten(["a\",\"b"]) == CsvRowAsWritten(["a", "b"])
  {
    var one := QuoteAllAsWritten(["a\",\"b"]);
    var two := QuoteAllAsWritten(["a", "b"]);
    assert |one| == 1 && one[0] == "\"a\",\"b\"";
    assert |two| == 2 && two[0] == "\"a\"" && two[1] == "\"b\"";
    assert two[1..] == ["\"b\""];
    assert "\"a\"" + "," + "\"b\"" == "\"a\",\"b\"";
  }

  /** The quoting the code means (section 2 of RFC 4180):
      quotes inside a field are doubled. */
  function EscapeQuotes(cell: string): (r: string)
    ensures |r| >= |cell|
  {
    if cell == [] then []
    else (if cell[0] == '"' then "\"\"" else [cell[0]]) + EscapeQuotes(cell[1..])
  }

  function CsvQuote(cell: string): string {
    "\"" + EscapeQuotes(cell) + "\""
  }

  function QuoteAll(cells: seq<string>): (r: seq<string>)
    ensures |r| == |cells|
    ensures forall i :: 0 <= i < |cells| ==> r[i] == CsvQuote(cells[i])
  {
    seq(|cells|, i requires 0 <= i < |cells| => CsvQuote(cells[i]))
  }

  function CsvRow(cells: seq<string>): string {
    Join(QuoteAll(cells), ",")
  }

  /** Reads the rest of a quoted field after its opening quote: the field's
      text and what follows its closing quote. */
  function ParseQuoted(s: string): (r: Option<(string, string)>)
    ensures r.Some? ==> |r.value.1| < |s|
    decreases |s|
  {
    if s == [] then None
    else if s[0] == '"' then
      if |s| >= 2 && s[1] == '"' then
        match ParseQuoted(s[2..])
        case None => None
        case Some((f, rest)) => Some(("\"" + f, rest))
      else Some(("", s[1..]))
    else
      match ParseQuoted(s[1..])
      case None => None
      case Some((f, rest)) => Some(([s[0]] + f, rest))
  }

  /** Reads a line of quoted fields separated by commas. */
  function ParseCsvRow(s: string): Option<seq<string>>
    decreases |s|
  {
    if s == [] || s[0] != '"' then None
    else
      match ParseQuoted(s[1..])
      case None => None
      case Some((f, rest)) =>
        if rest == [] then Some([f])
        else if rest[0] != ',' then None
        else
          match ParseCsvRow(rest[1..])
          case None => None
          case Some(fs) => Some([f] + fs)
  }

  lemma {:induction false} ParseQuotedEscaped(cell: string, rest: string)
    requires rest == [] || rest[0] != '"'
    ensures ParseQuoted(EscapeQuotes(cell) + "\"" + rest) == Some((cell, rest))
    decreases |cell|
  {
    var s := EscapeQuotes(cell) + "\"" + rest;
    if cell == [] {
      assert s == "\"" + rest;
      assert s[1..] == rest;
    } else {
      ParseQuotedEscaped(cell[1..], rest);
      var tail := EscapeQuotes(cell[1..]) + "\"" + rest;
      if cell[0] == '"' {
        assert s == "\"\"" + tail;
        assert s[2..] == tail;
      } else {
        assert s == [cell[0]] + tail;
        assert s[1..] == tail;
      }
      assert cell == [cell[0]] + cell[1..];
    }
  }

  /** Reading a line that starts with a quoted field: the field comes back
      and reading goes on after the comma that follows it. */
  lemma ParseCsvRowStep(cell: string, rest: string)
    requires rest == [] || rest[0] == ','
    ensures ParseCsvRow(CsvQuote(cell) + rest) ==
              if rest == [] then Some([cell])
              else match ParseCsvRow(rest[1..])
                case None => None
                case Some(fs) => Some([cell] + fs)
  {
    var s := CsvQuote(cell) + rest;
    assert s[0] == '"';
    assert s[1..] == EscapeQuotes(cell) + "\"" + rest;
    ParseQuotedEscaped(cell, rest);
  }

  /** The corrected row encoding is read back exactly: no two rows share
      a line. */
  lemma {:induction false} CsvRowRoundTrip(cells: seq<string>)
    requires cells != []
    ensures ParseCsvRow(CsvRow(cells)) == Some(cells)
    decreases |cells|
  {
    var quoted := QuoteAll(cells);
    if |cells| == 1 {
      assert CsvRow(cells) == CsvQuote(cells[0]) + "";
      ParseCsvRowStep(cells[0], "");
      assert cells == [cells[0]];
    } else {
      var tail := CsvRow(cells[1..]);
      CsvRowRoundTrip(cells[1..]);
      assert quoted[1..] == QuoteAll(cells[1..]);
      assert CsvRow(cells) == CsvQuote(cells[0]) + ("," + tail);
      ParseCsvRowStep(cells[0], "," + tail);
      assert ("," + tail)[1..] == tail;
      assert cells == [cells[0]] + cells[1..];
    }
  }

  function CsvRowsAsWritten(rows: seq<seq<string>>): (r: seq<string>)
    ensures |r| == |rows|
    ensures forall i :: 0 <= i < |rows| ==> r[i] == CsvRowAsWritten(rows[i])
  {
    seq(|rows|, i requires 0 <= i < |rows| => CsvRowAsWritten(rows[i]))
  }

  /** CSV as the source writes it: the header line unquoted, each data
      cell wrapped in quotes that are not escaped. */
  function CsvContent(headers: seq<string>, rows: seq<seq<string>>): string {
    Lines([Join(headers, ",")] + CsvRowsAsWritten(rows))
  }

  /** A row without newlines gives a CSV line without newlines. */
  lemma CsvRowAsWrittenOneLine(cells: seq<string>)
    requires forall j :: 0 <= j < |cells| ==> '\n' !in cells[j]
    ensures '\n' !in CsvRowAsWritten(cells)
  {
    var quoted := QuoteAllAsWritten(cells);
    forall j | 0 <= j < |quoted| ensures '\n' !in quoted[j] {
      assert quoted[j] == "\"" + cells[j] + "\"";
    }
    JoinChars(quoted, ",", '\n');
  }

  /** With no newline in any cell, the CSV text splits into the bare header
      line and, for row i, line i + 1 holding its cells each wrapped in
      quotes, as written. */
  lemma CsvLinesSpec(headers: seq<string>, rows: seq<seq<string>>)
    requires forall j :: 0 <= j < |headers| ==> '\n' !in headers[j]
    requires forall i, j :: 0 <= i < |rows| && 0 <= j < |rows[i]| ==> '\n' !in rows[i][j]
    ensures var lines := Split(CsvContent(headers, rows), '\n');
            && |lines| == |rows| + 1
            && lines[0] == Join(headers, ",")
            && forall i :: 0 <= i < |rows| ==> lines[i + 1] == CsvRowAsWritten(rows[i])
  {
    var parts := [Join(headers, ",")] + CsvRowsAsWritten(rows);
    JoinChars(headers, ",", '\n');
    forall i | 0 <= i < |parts| ensures '\n' !in parts[i] {
      if i > 0 {
        CsvRowAsWrittenOneLine(rows[i - 1]);
      }
    }
    SplitJoin(parts, '\n');
    assert Lines(parts) == Join(parts, ['\n']);
  }

  /** The `switch (format)` of `copyTableData`: an unknown format (and
      "json", which only export handles) gives empty content. */
  function CopyContent(format: string, headers: seq<string>, rows: seq<seq<string>>): string {
    if format == "csv" then CsvContent(headers, rows)
    else if format == "tsv" then TsvContent(headers, rows)
    else if format == "markdown" then MarkdownContent(headers, rows)
    else ""
  }

  /** The `switch (format)` of `exportData`; `json` is the rendering of
      `JSON.stringify(...)`. */
  function ExportContent(format: string, headers: seq<string>, rows: seq<seq<string>>, json: string): (r: string)
    ensures format != "json" ==> r == CopyContent(format, headers, rows)
  {
    if format == "json" then json else CopyContent(format, headers, rows)
  }

  /** What the exported file holds, line by line, when no cell holds a
      newline: for CSV the bare header line and one as-written quoted line
      per row; for TSV, when no cell holds a tab either, lines that split
      back into the headers and the rows; for Markdown the header line, the rule and one line per row;
      for an unknown format nothing. */
  lemma ExportContentSpec(format: string, headers: seq<string>, rows: seq<seq<string>>, json: string)
    requires forall j :: 0 <= j < |headers| ==> '\n' !in headers[j]
    requires forall i, j :: 0 <= i < |rows| && 0 <= j < |rows[i]| ==> '\n' !in rows[i][j]
    ensures format == "json" ==> ExportContent(format, headers, rows, json) == json
    ensures format == "csv" ==>
              var lines := Split(ExportContent(format, headers, rows, json), '\n');
              && |lines| == |rows| + 1
              && lines[0] == Join(headers, ",")
              && forall i :: 0 <= i < |rows| ==> lines[i + 1] == CsvRowAsWritten(rows[i])
    ensures format == "markdown" && rows != [] ==>
              Split(ExportContent(format, headers, rows, json), '\n')
                == [MarkdownLine(headers), MarkdownRule(headers)] + MarkdownRows(rows)
    ensures format == "markdown" && rows == [] ==>
              Split(ExportContent(format, headers, rows, json), '\n')
                == [MarkdownLine(headers), MarkdownRule(headers), ""]
    ensures format == "tsv" && headers != [] && (forall i :: 0 <= i < |rows| ==> rows[i] != []) &&
            (forall j :: 0 <= j < |headers| ==> '\t' !in headers[j]) &&
            (forall i, j :: 0 <= i < |rows| && 0 <= j < |rows[i]| ==> '\t' !in rows[i][j]) ==>
              var lines := Split(ExportContent(format, headers, rows, json), '\n');
              && |lines| == |rows| + 1
              && Split(lines[0], '\t') == headers
              && forall i :: 0 <= i < |rows| ==> Split(lines[i + 1], '\t') == rows[i]
    ensures format != "json" && format != "csv" && format != "tsv" && format != "markdown" ==>
              ExportContent(format, headers, rows, json) == ""
  {
    if format == "tsv" && headers != [] && (forall i :: 0 <= i < |rows| ==> rows[i] != []) &&
       (forall j :: 0 <= j < |headers| ==> '\t' !in headers[j]) &&
       (forall i, j :: 0 <= i < |rows| && 0 <= j < |rows[i]| ==> '\t' !in rows[i][j]) {
      TsvRoundTrip(headers, rows);
    } else if format == "csv" {
      CsvLinesSpec(headers, rows);
    } else if format == "markdown" && rows != [] {
      MarkdownLinesSpec(headers, rows);
    } else if format == "markdown" {
      MarkdownNoRows(headers);
    }
  }

  /** The TSV text is read back line by line and cell by cell when no cell
      holds a tab or a newline. */
  lemma TsvRoundTrip(headers: seq<string>, rows: seq<seq<string>>)
    requires headers != [] && forall i :: 0 <= i < |rows| ==> rows[i] != []
    requires forall j :: 0 <= j < |headers| ==> '\t' !in headers[j] && '\n' !in headers[j]
    requires forall i, j :: 0 <= i < |rows| && 0 <= j < |rows[i]| ==> '\t' !in rows[i][j] && '\n' !in rows[i][j]
    ensures var lines := Split(TsvContent(headers, rows), '\n');
            && |lines| == |rows| + 1
            && Split(lines[0], '\t') == headers
            && forall i :: 0 <= i < |rows| ==> Split(lines[i + 1], '\t') == rows[i]
  {
    var parts := [Join(headers, "\t")] + MapJoin(rows, "\t");
    JoinChars(headers, "\t", '\n');
    forall i | 0 <= i < |rows| ensures '\n' !in Join(rows[i], "\t") {
      JoinChars(rows[i], "\t", '\n');
    }
    assert forall i :: 0 <= i < |parts| ==> '\n' !in parts[i];
    SplitJoin(parts, '\n');
    SplitJoin(headers, '\t');
    forall i | 0 <= i < |rows| ensures Split(parts[i + 1], '\t') == rows[i] {
      SplitJoin(rows[i], '\t');
    }
  }

  // ---------------------------------------------------------------------
  // File name and statistics

  /** `${formName.toLowerCase().replace(/\s+/g, '-')}-responses.${format}`. */
  function FileName(formName: string, format: string): string {
    CollapseSpaces(Lower(formName), "-") + "-responses." + format
  }

  /** The name holds no whitespace and no upper-case letter when the form
      name and format have none, and a name without whitespace is only
      lower-cased. */
  lemma FileNameSpec(formName: string, format: string)
    ensures var stem := CollapseSpaces(Lower(formName), "-");
            && FileName(formName, format) == stem + "-responses." + format
            && (forall i :: 0 <= i < |stem| ==> !IsSpace(stem[i]))
            && ((forall i :: 0 <= i < |formName| ==> !IsSpace(formName[i])) ==> stem == Lower(formName))
  {
    CollapseSpacesNoSpace(Lower(formName), "-");
    if forall i :: 0 <= i < |formName| ==> !IsSpace(formName[i]) {
      forall i | 0 <= i < |formName| ensures !IsSpace(Lower(formName)[i]) {
        assert Lower(formName)[i] == LowerChar(formName[i]);
      }
      CollapseSpacesIdentity(Lower(formName), "-");
    }
  }

  /** `getQuestionStats(q).totalResponses`: the truthy answers. */
  function TruthyAnswers(qid: string, subs: seq<Submission>): nat {
    if subs == [] then 0
    else (if Truthy(At(subs[0].answers, qid)) then 1 else 0) + TruthyAnswers(qid, subs[1..])
  }

  /** The table's count is at most the analytics' count of answered
      responses: it also drops `false` and `0`. */
  lemma {:induction false} TruthyAtMostAnswered(qid: string, subs: seq<Submission>)
    ensures TruthyAnswers(qid, subs) <= AnsweredCount(qid, subs) <= |subs|
    ensures (forall s :: s in subs ==> !At(s.answers, qid).Bool? && !At(s.answers, qid).Num?)
              ==> TruthyAnswers(qid, subs) == AnsweredCount(qid, subs)
    decreases |subs|
  {
    if subs != [] {
      assert forall s :: s in subs[1..] ==> s in subs;
      TruthyAtMostAnswered(qid, subs[1..]);
      TruthyIsAnswered(At(subs[0].answers, qid));
      assert subs[0] in subs;
    }
  }
}
