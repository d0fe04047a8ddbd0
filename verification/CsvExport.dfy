/** The CSV export of support conversations, and a reader for RFC 4180 section 2 with LF line ends. */
module CsvExport {
  import opened Wrappers
  import opened Tally

  type Row = seq<string>

  // ---------- printing ----------

  /** `replace(/"/g, '""')`. */
  function DoubleQuotes(s: string): string {
    if s == "" then "" else (if s[0] == '"' then "\"\"" else [s[0]]) + DoubleQuotes(s[1..])
  }

  function PrintCell(cell: string): string {
    "\"" + DoubleQuotes(cell) + "\""
  }

  function Join(parts: seq<string>, separator: char): string {
    if parts == [] then ""
    else if |parts| == 1 then parts[0]
    else parts[0] + [separator] + Join(parts[1..], separator)
  }

  function PrintCells(row: Row): (cells: seq<string>)
    ensures |cells| == |row| && forall i :: 0 <= i < |row| ==> cells[i] == PrintCell(row[i])
  {
    seq(|row|, i requires 0 <= i < |row| => PrintCell(row[i]))
  }

  function PrintRow(row: Row): string {
    Join(PrintCells(row), ',')
  }

  function PrintRows(rows: seq<Row>): (lines: seq<string>)
    ensures |lines| == |rows| && forall i :: 0 <= i < |rows| ==> lines[i] == PrintRow(rows[i])
  {
    seq(|rows|, i requires 0 <= i < |rows| => PrintRow(rows[i]))
  }

  /** Headers are joined as they are; every other cell is quoted. */
  function PrintCsv(headers: Row, rows: seq<Row>): string {
    Join([Join(headers, ',')] + PrintRows(rows), '\n')
  }

  // ---------- reading ----------

  datatype Mode = CellStart | Bare | Quoted | QuoteSeen

  /** One pass over the text: `cell`, `row` and `rows` hold what is complete so far. */
  function Parse(s: string, mode: Mode, cell: string, row: Row, rows: seq<Row>): Option<seq<Row>> {
    if s == "" then
      if mode == Quoted then None else Some(rows + [row + [cell]])
    else
      var c, rest := s[0], s[1..];
      match mode
      case Quoted => if c == '"' then Parse(rest, QuoteSeen, cell, row, rows) else Parse(rest, Quoted, cell + [c], row, rows)
      case _ =>
        if c == ',' then Parse(rest, CellStart, "", row + [cell], rows)
        else if c == '\n' then Parse(rest, CellStart, "", [], rows + [row + [cell]])
        else if c == '"' then
          if mode == CellStart then Parse(rest, Quoted, "", row, rows)
          else if mode == QuoteSeen then Parse(rest, Quoted, cell + ['"'], row, rows)
          else None
        else if mode == QuoteSeen then None
        else Parse(rest, Bare, cell + [c], row, rows)
  }

  function ParseCsv(s: string): Option<seq<Row>> {
    Parse(s, CellStart, "", [], [])
  }

  // ---------- the reader undoes the printer ----------

  /** Inside quotes every character, doubled quotes included, is read back up to the closing quote. */
  lemma {:induction false} ParseQuoted(text: string, rest: string, cell: string, row: Row, rows: seq<Row>)
    ensures Parse(DoubleQuotes(text) + "\"" + rest, Quoted, cell, row, rows) == Parse(rest, QuoteSeen, cell + text, row, rows)
  {
    var s := DoubleQuotes(text) + "\"" + rest;
    if text == "" {
      assert s == "\"" + rest && cell + text == cell && s[1..] == rest;
    } else {
      var tail := DoubleQuotes(text[1..]) + "\"" + rest;
      assert cell + text == cell + [text[0]] + text[1..];
      if text[0] == '"' {
        assert s == "\"\"" + tail && s[1..] == "\"" + tail && s[1..][1..] == tail;
      } else {
        assert s == [text[0]] + tail && s[1..] == tail;
      }
      ParseQuoted(text[1..], rest, cell + [text[0]], row, rows);
    }
  }

  lemma ParsePrintedCell(text: string, rest: string, row: Row, rows: seq<Row>)
    ensures Parse(PrintCell(text) + rest, CellStart, "", row, rows) == Parse(rest, QuoteSeen, text, row, rows)
  {
    var body := DoubleQuotes(text) + "\"" + rest;
    assert PrintCell(text) + rest == "\"" + body;
    assert ("\"" + body)[1..] == body;
    ParseQuoted(text, rest, "", row, rows);
    assert "" + text == text;
  }

  /** A printed row is read back as itself, with its last cell still open. */
  lemma {:induction false} ParsePrintedRow(cells: Row, rest: string, row: Row, rows: seq<Row>)
    requires cells != []
    ensures Parse(PrintRow(cells) + rest, CellStart, "", row, rows)
         == Parse(rest, QuoteSeen, cells[|cells| - 1], row + cells[..|cells| - 1], rows)
  {
    if |cells| == 1 {
      ParsePrintedCell(cells[0], rest, row, rows);
      assert row + cells[..0] == row;
    } else {
      var tail := PrintRow(cells[1..]) + rest;
      assert PrintCells(cells)[1..] == PrintCells(cells[1..]);
      assert PrintRow(cells) + rest == PrintCell(cells[0]) + ("," + tail);
      ParsePrintedCell(cells[0], "," + tail, row, rows);
      assert ("," + tail)[1..] == tail;
      ParsePrintedRow(cells[1..], rest, row + [cells[0]], rows);
      assert row + [cells[0]] + cells[1..][..|cells| - 2] == row + cells[..|cells| - 1];
    }
  }

  /** A header cell: no separator, no quote, and something to see. */
  predicate Plain(cell: string) {
    ',' !in cell && '\n' !in cell && '"' !in cell && cell != ""
  }

  lemma {:induction false} ParseBare(text: string, rest: string, mode: Mode, cell: string, row: Row, rows: seq<Row>)
    requires ',' !in text && '\n' !in text && '"' !in text && text != ""
    requires mode == CellStart || mode == Bare
    ensures Parse(text + rest, mode, cell, row, rows) == Parse(rest, Bare, cell + text, row, rows)
  {
    assert (text + rest)[1..] == text[1..] + rest;
    if |text| == 1 {
      assert text[1..] + rest == rest && text == [text[0]];
    } else {
      ParseBare(text[1..], rest, Bare, cell + [text[0]], row, rows);
      assert cell + [text[0]] + text[1..] == cell + text;
    }
  }

  lemma {:induction false} ParseHeaders(headers: Row, rest: string, row: Row)
    requires headers != [] && forall i :: 0 <= i < |headers| ==> Plain(headers[i])
    ensures Parse(Join(headers, ',') + rest, CellStart, "", row, [])
         == Parse(rest, Bare, headers[|headers| - 1], row + headers[..|headers| - 1], [])
  {
    assert "" + headers[0] == headers[0];
    if |headers| == 1 {
      ParseBare(headers[0], rest, CellStart, "", row, []);
      assert row + headers[..0] == row;
    } else {
      var tail := Join(headers[1..], ',') + rest;
      assert Join(headers, ',') + rest == headers[0] + ("," + tail);
      ParseBare(headers[0], "," + tail, CellStart, "", row, []);
      assert ("," + tail)[1..] == tail;
      ParseHeaders(headers[1..], rest, row + [headers[0]]);
      assert row + [headers[0]] + headers[1..][..|headers| - 2] == row + headers[..|headers| - 1];
    }
  }

  /** The lines after the first, each preceded by its line break. */
  function PrintLines(rows: seq<Row>): string {
    if rows == [] then "" else "\n" + PrintRow(rows[0]) + PrintLines(rows[1..])
  }

  lemma PrintRowsCons(rows: seq<Row>)
    requires rows != []
    ensures PrintRows(rows) == [PrintRow(rows[0])] + PrintRows(rows[1..])
  {
  }

  lemma {:induction false} JoinLines(first: string, rows: seq<Row>)
    ensures Join([first] + PrintRows(rows), '\n') == first + PrintLines(rows)
    decreases |rows|
  {
    var lines := [first] + PrintRows(rows);
    assert lines[1..] == PrintRows(rows);
    if rows == [] {
      assert lines == [first];
    } else {
      PrintRowsCons(rows);
      JoinLines(PrintRow(rows[0]), rows[1..]);
    }
  }

  /** Lines read back as rows, whatever line was open before them. */
  lemma {:induction false} ParseLines(rows: seq<Row>, mode: Mode, cell: string, row: Row, done: seq<Row>)
    requires mode == Bare || mode == QuoteSeen
    requires forall i :: 0 <= i < |rows| ==> rows[i] != []
    ensures Parse(PrintLines(rows), mode, cell, row, done) == Some(done + [row + [cell]] + rows)
  {
    if rows == [] {
      assert done + [row + [cell]] + rows == done + [row + [cell]];
    } else {
      var r, rest := rows[0], PrintLines(rows[1..]);
      var last := |r| - 1;
      assert PrintLines(rows) == "\n" + (PrintRow(r) + rest);
      assert ("\n" + (PrintRow(r) + rest))[1..] == PrintRow(r) + rest;
      ParsePrintedRow(r, rest, [], done + [row + [cell]]);
      ParseLines(rows[1..], QuoteSeen, r[last], [] + r[..last], done + [row + [cell]]);
      assert [] + r[..last] + [r[last]] == r;
      assert done + [row + [cell]] + [r] + rows[1..] == done + [row + [cell]] + rows;
    }
  }

  /** Reading the export gives back the header and every row, for all cell texts. */
  lemma CsvRoundTrip(headers: Row, rows: seq<Row>)
    requires headers != [] && forall i :: 0 <= i < |headers| ==> Plain(headers[i])
    requires forall i :: 0 <= i < |rows| ==> rows[i] != []
    ensures ParseCsv(PrintCsv(headers, rows)) == Some([headers] + rows)
  {
    var last, lines := |headers| - 1, PrintLines(rows);
    assert PrintCsv(headers, rows) == Join(headers, ',') + lines by { JoinLines(Join(headers, ','), rows); }
    ParseHeaders(headers, lines, []);
    assert [] + headers[..last] == headers[..last];
    ParseLines(rows, Bare, headers[last], headers[..last], []);
    OneMoreRow(headers, rows);
  }

  lemma OneMoreRow(headers: Row, rows: seq<Row>)
    requires headers != []
    ensures [] + [headers[..|headers| - 1] + [headers[|headers| - 1]]] + rows == [headers] + rows
  {
    assert headers[..|headers| - 1] + [headers[|headers| - 1]] == headers;
  }

  // ---------- conversations to rows ----------

  datatype Message = Message(
    id: string, senderType: string, senderId: string, senderName: Option<string>,
    messageType: string, content: string, createdAt: string, isRead: bool)

  datatype Conversation = Conversation(
    id: string, userId: string, email: Option<string>, displayName: Option<string>,
    adminId: Option<string>, adminName: Option<string>, status: string, createdAt: string,
    messages: seq<Message>)

  const HEADERS: Row := [
    "对话ID", "用户ID", "用户邮箱", "用户名称", "管理员ID", "管理员名称", "对话状态", "对话创建时间",
    "消息ID", "消息发送者类型", "消息发送者ID", "消息发送者名称", "消息类型", "消息内容", "消息时间", "是否已读"]

  function OrEmpty(text: Option<string>): string {
    if text.Some? then text.value else ""
  }

  /** `String(null)`. */
  function OrNull(text: Option<string>): string {
    if text.Some? then text.value else "null"
  }

  function ConversationCells(c: Conversation): Row {
    [c.id, c.userId, OrEmpty(c.email), OrEmpty(c.displayName), OrEmpty(c.adminId), OrEmpty(c.adminName), c.status, c.createdAt]
  }

  function MessageCells(m: Message): Row {
    [m.id, m.senderType, m.senderId, OrNull(m.senderName), m.messageType, m.content, m.createdAt, if m.isRead then "是" else "否"]
  }

  const NO_MESSAGE: Row := ["", "", "", "", "", "(无消息)", "", ""]

  /** The rows of one conversation. */
  function RowsOf(c: Conversation): (rows: seq<Row>)
    ensures |rows| == if c.messages == [] then 1 else |c.messages|
  {
    if c.messages == [] then [ConversationCells(c) + NO_MESSAGE]
    else seq(|c.messages|, m requires 0 <= m < |c.messages| => ConversationCells(c) + MessageCells(c.messages[m]))
  }

  /** The parts one after the other. */
  function Gather<S, T>(items: seq<S>, parts: S -> seq<T>): seq<T> {
    if items == [] then [] else Gather(items[..|items| - 1], parts) + parts(items[|items| - 1])
  }

  function Flatten(conversations: seq<Conversation>): seq<Row> {
    Gather(conversations, RowsOf)
  }

  function RowCount(): Conversation -> int {
    (c: Conversation) => if |c.messages| > 1 then |c.messages| else 1
  }

  lemma {:induction false} GatherCount<S(!new), T>(items: seq<S>, parts: S -> seq<T>, count: S -> int)
    requires forall s :: |parts(s)| == count(s)
    ensures |Gather(items, parts)| == SumBy(items, count)
  {
    if items != [] {
      GatherCount(items[..|items| - 1], parts, count);
    }
  }

  /** Every part stands in one piece, right after the parts of the items before it. */
  lemma {:induction false} GatherOrder<S, T>(items: seq<S>, parts: S -> seq<T>, k: nat, m: nat)
    requires k < |items| && m < |parts(items[k])|
    ensures var at := |Gather(items[..k], parts)| + m;
            at < |Gather(items, parts)| && Gather(items, parts)[at] == parts(items[k])[m]
  {
    var start := items[..|items| - 1];
    if k < |start| {
      assert items[..k] == start[..k];
      GatherOrder(start, parts, k, m);
    }
  }

  /** The export has max(1, number of messages) rows per conversation. */
  lemma FlattenCount(conversations: seq<Conversation>)
    ensures |Flatten(conversations)| == SumBy(conversations, RowCount())
  {
    GatherCount(conversations, RowsOf, RowCount());
  }

  /** They stand together, in order: message `m` of conversation `k` is in row (rows of the conversations before it) + m. */
  lemma FlattenOrder(conversations: seq<Conversation>, k: nat, m: nat)
    requires k < |conversations| && m < |RowsOf(conversations[k])|
    ensures var row := SumBy(conversations[..k], RowCount()) + m;
            0 <= row < |Flatten(conversations)| && Flatten(conversations)[row] == RowsOf(conversations[k])[m]
  {
    FlattenCount(conversations[..k]);
    GatherOrder(conversations, RowsOf, k, m);
  }

  lemma {:induction false} FlattenShape(conversations: seq<Conversation>, n: nat)
    requires n < |Flatten(conversations)|
    ensures |Flatten(conversations)[n]| == 16
  {
    var last := |conversations| - 1;
    if n < |Flatten(conversations[..last])| {
      FlattenShape(conversations[..last], n);
    }
  }

  lemma HeadersArePlain()
    ensures |HEADERS| == 16 && forall i :: 0 <= i < |HEADERS| ==> Plain(HEADERS[i])
  {
    forall i | 0 <= i < |HEADERS| ensures Plain(HEADERS[i]) {
      assert HEADERS[i] in HEADERS;
    }
  }

  /** The whole export, read back: the header line, then exactly the flattened rows. */
  lemma ExportRoundTrip(conversations: seq<Conversation>)
    ensures ParseCsv(PrintCsv(HEADERS, Flatten(conversations))) == Some([HEADERS] + Flatten(conversations))
  {
    HeadersArePlain();
    forall n | 0 <= n < |Flatten(conversations)| ensures Flatten(conversations)[n] != [] {
      FlattenShape(conversations, n);
    }
    CsvRoundTrip(HEADERS, Flatten(conversations));
  }

  /** The export as it runs: two nested loops push rows, then the text is joined. */
  method ExportConversationsAsCsv(conversations: seq<Conversation>) returns (csv: string)
    ensures csv == PrintCsv(HEADERS, Flatten(conversations))
    ensures ParseCsv(csv) == Some([HEADERS] + Flatten(conversations))
  {
    var rows: seq<Row> := [];
    for k := 0 to |conversations|
      invariant rows == Flatten(conversations[..k])
    {
      var c := conversations[k];
      var prefix := rows;
      assert conversations[..k + 1][..k] == conversations[..k];
      if |c.messages| == 0 {
        rows := rows + [ConversationCells(c) + NO_MESSAGE];
      } else {
        for m := 0 to |c.messages|
          invariant rows == prefix + RowsOf(c)[..m]
        {
          rows := rows + [ConversationCells(c) + MessageCells(c.messages[m])];
        }
        assert RowsOf(c)[..|c.messages|] == RowsOf(c);
      }
    }
    assert conversations[..|conversations|] == conversations;
    ExportRoundTrip(conversations);
    csv := PrintCsv(HEADERS, rows);
  }
}
