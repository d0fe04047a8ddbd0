/** Which field of the exported rows stands under which header. */
module CsvColumns {
  import opened Wrappers
  import opened CsvExport
  import Tally

  /** The cell of a row under a header. */
  function Under(header: string, row: Row): string
    requires |row| == |HEADERS|
  {
    Find(HEADERS, row, header)
  }

  function Find(headers: Row, row: Row, header: string): string
    requires |headers| == |row|
  {
    if headers == [] then "" else if headers[0] == header then row[0] else Find(headers[1..], row[1..], header)
  }

  lemma {:induction false} FindAt(headers: Row, row: Row, k: nat)
    requires |headers| == |row| && k < |headers|
    requires forall i :: 0 <= i < k ==> headers[i] != headers[k]
    ensures Find(headers, row, headers[k]) == row[k]
  {
    if k > 0 {
      FindAt(headers[1..], row[1..], k - 1);
    }
  }

  /** All headers differ. */
  lemma HeadersDiffer(k: nat)
    requires k < |HEADERS|
    ensures forall i :: 0 <= i < k ==> HEADERS[i] != HEADERS[k]
  {
  }

  lemma UnderAt(row: Row, k: nat)
    requires |row| == |HEADERS| == 16 && k < 16
    ensures Under(HEADERS[k], row) == row[k]
  {
    HeadersDiffer(k);
    FindAt(HEADERS, row, k);
  }

  lemma AllUnder(row: Row)
    requires |row| == |HEADERS| == 16
    ensures forall k :: 0 <= k < 16 ==> Under(HEADERS[k], row) == row[k]
  {
    forall k | 0 <= k < 16 ensures Under(HEADERS[k], row) == row[k] {
      UnderAt(row, k);
    }
  }

  /** The eight columns that describe the conversation, in every row of it. */
  ghost predicate ConversationColumns(c: Conversation, row: Row)
    requires |row| == |HEADERS|
  {
    && Under("对话ID", row) == c.id
    && Under("用户ID", row) == c.userId
    && Under("用户邮箱", row) == (if c.email.Some? then c.email.value else "")
    && Under("用户名称", row) == (if c.displayName.Some? then c.displayName.value else "")
    && Under("管理员ID", row) == (if c.adminId.Some? then c.adminId.value else "")
    && Under("管理员名称", row) == (if c.adminName.Some? then c.adminName.value else "")
    && Under("对话状态", row) == c.status
    && Under("对话创建时间", row) == c.createdAt
  }

  /** The eight columns that describe a message. */
  ghost predicate MessageColumns(m: Message, row: Row)
    requires |row| == |HEADERS|
  {
    && Under("消息ID", row) == m.id
    && Under("消息发送者类型", row) == m.senderType
    && Under("消息发送者ID", row) == m.senderId
    && Under("消息发送者名称", row) == (if m.senderName.Some? then m.senderName.value else "null")
    && Under("消息类型", row) == m.messageType
    && Under("消息内容", row) == m.content
    && Under("消息时间", row) == m.createdAt
    && Under("是否已读", row) == (if m.isRead then "是" else "否")
  }

  /** ... and what they hold when there is none. */
  ghost predicate NoMessageColumns(row: Row)
    requires |row| == |HEADERS|
  {
    && Under("消息内容", row) == "(无消息)"
    && Under("消息ID", row) == Under("消息发送者类型", row) == Under("消息发送者ID", row) == Under("消息发送者名称", row) == ""
    && Under("消息类型", row) == Under("消息时间", row) == Under("是否已读", row) == ""
  }

  lemma HeaderTexts()
    ensures |HEADERS| == 16
    ensures HEADERS[0] == "对话ID" && HEADERS[1] == "用户ID" && HEADERS[2] == "用户邮箱" && HEADERS[3] == "用户名称"
    ensures HEADERS[4] == "管理员ID" && HEADERS[5] == "管理员名称" && HEADERS[6] == "对话状态" && HEADERS[7] == "对话创建时间"
    ensures HEADERS[8] == "消息ID" && HEADERS[9] == "消息发送者类型" && HEADERS[10] == "消息发送者ID" && HEADERS[11] == "消息发送者名称"
    ensures HEADERS[12] == "消息类型" && HEADERS[13] == "消息内容" && HEADERS[14] == "消息时间" && HEADERS[15] == "是否已读"
  {
  }

  lemma FirstHalf(c: Conversation, row: Row)
    requires |row| == |HEADERS| == 16 && forall k :: 0 <= k < 8 ==> row[k] == ConversationCells(c)[k]
    ensures ConversationColumns(c, row)
  {
    HeaderTexts();
    AllUnder(row);
  }

  lemma SecondHalf(m: Message, row: Row)
    requires |row| == |HEADERS| == 16 && forall k :: 8 <= k < 16 ==> row[k] == MessageCells(m)[k - 8]
    ensures MessageColumns(m, row)
  {
    HeaderTexts();
    AllUnder(row);
  }

  lemma EmptyHalf(row: Row)
    requires |row| == |HEADERS| == 16 && forall k :: 8 <= k < 16 ==> row[k] == NO_MESSAGE[k - 8]
    ensures NoMessageColumns(row)
  {
    HeaderTexts();
    AllUnder(row);
  }

  /** A row of a conversation: its own columns, and those of its message `m` or of there being none. */
  ghost predicate RowHolds(c: Conversation, m: nat, row: Row) {
    && |row| == |HEADERS|
    && ConversationColumns(c, row)
    && (c.messages == [] ==> NoMessageColumns(row))
    && (m < |c.messages| ==> MessageColumns(c.messages[m], row))
  }

  lemma RowColumns(c: Conversation, m: nat)
    requires m < |RowsOf(c)|
    ensures RowHolds(c, m, RowsOf(c)[m])
  {
    var row := RowsOf(c)[m];
    assert |HEADERS| == 16 by { HeaderTexts(); }
    FirstHalf(c, row);
    if c.messages == [] {
      EmptyHalf(row);
    } else {
      SecondHalf(c.messages[m], row);
    }
  }

  /** The row of the export that holds message `m` of conversation `k`: the header line, then the rows before it. */
  function LineOf(conversations: seq<Conversation>, k: nat, m: nat): int
    requires k < |conversations|
  {
    1 + Tally.SumBy(conversations[..k], RowCount()) + m
  }

  lemma LineIsTheRow(conversations: seq<Conversation>, k: nat, m: nat, parsed: seq<Row>)
    requires k < |conversations| && m < |RowsOf(conversations[k])|
    requires parsed == [HEADERS] + Flatten(conversations)
    ensures 0 < LineOf(conversations, k, m) < |parsed| && parsed[LineOf(conversations, k, m)] == RowsOf(conversations[k])[m]
  {
    FlattenOrder(conversations, k, m);
  }

  /** Reading an export back, message `m` of conversation `k` has each of its fields under its header, in its own row. */
  lemma ExportedUnderItsHeaders(conversations: seq<Conversation>, k: nat, m: nat)
    requires k < |conversations| && m < |RowsOf(conversations[k])|
    ensures var parsed := ParseCsv(PrintCsv(HEADERS, Flatten(conversations)));
      && parsed.Some? && 0 < LineOf(conversations, k, m) < |parsed.value| && parsed.value[0] == HEADERS
      && RowHolds(conversations[k], m, parsed.value[LineOf(conversations, k, m)])
  {
    var parsed := [HEADERS] + Flatten(conversations);
    assert ParseCsv(PrintCsv(HEADERS, Flatten(conversations))) == Some(parsed) by { ExportRoundTrip(conversations); }
    LineIsTheRow(conversations, k, m, parsed);
    RowColumns(conversations[k], m);
  }
}
