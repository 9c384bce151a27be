/**
 From stored message rows to model messages (`_message_to_context`, `get_conversation_history`),
 and how that expansion meets the repair of `HistoryRepair`.
 */
module HistoryReplay {
  import opened HistoryRepair

  /** One stored call; empty strings stand for missing keys. */
  datatype StoredCall = StoredCall(id: string, name: string, args: string)

  /** The parsed `tool_calls` column: absent or unreadable, a single object, or a list. */
  datatype StoredCalls = NoCalls | OneCall(call: StoredCall) | CallList(list: seq<StoredCall>)

  /** The Agent Tool Call a row links to. */
  datatype Link = Link(callId: string, tool: string, args: string)

  /** A stored row.  `content` is the text its context policy selects; empty strings stand for null columns. */
  datatype Row = Row(
    policy: string, role: string, kind: string, content: string,
    toolCall: string, toolCallId: string, toolCalls: StoredCalls)

  const EXCLUDING_POLICIES := {"exclude", "transient_only", "include_on_demand"}
  const NOT_STORED := "[result not stored in this history row]"

  function RoleOf(row: Row): string {
    if row.role == "agent" then "assistant" else row.role
  }

  function Or(a: string, b: string): string {
    if a != "" then a else b
  }

  /** The call id, tool and arguments of a row, through its link only when the row has no id itself. */
  function ResolveDetails(row: Row, links: map<string, Link>): (string, string, string) {
    if row.toolCall != "" && row.toolCallId == "" && row.toolCall in links then
      var link := links[row.toolCall];
      (Or(link.callId, row.toolCall), link.tool, Or(link.args, "{}"))
    else (Or(row.toolCallId, row.toolCall), "", "{}")
  }

  function Digits(n: nat): string {
    if n < 10 then ["0123456789"[n]] else Digits(n / 10) + ["0123456789"[n % 10]]
  }

  /** A row that holds both a request and its result. */
  predicate Combined(row: Row) {
    row.policy !in EXCLUDING_POLICIES && row.kind == "Tool Result" && RoleOf(row) == "assistant"
  }

  /** The calls a combined row replays: always at least one. */
  function ReplayedCalls(row: Row): seq<StoredCall>
    ensures |ReplayedCalls(row)| >= 1
  {
    match row.toolCalls
    case OneCall(call) => [call]
    case CallList(list) => if list == [] then [StoredCall("", "", "")] else list
    case NoCalls => [StoredCall("", "", "")]
  }

  /** The first stored call with the row's own id, else the first call. */
  function Primary(row: Row): nat {
    FirstWithId(ReplayedCalls(row), row.toolCallId, 0)
  }

  function FirstWithId(calls: seq<StoredCall>, id: string, from: nat): nat
    decreases |calls| - from
  {
    if id == "" || from >= |calls| then 0
    else if calls[from].id == id then from
    else FirstWithId(calls, id, from + 1)
  }

  /** What stored call `i` of a combined row declares. */
  function DeclaredCall(row: Row, links: map<string, Link>, i: nat): Call
    requires i < |ReplayedCalls(row)|
  {
    var stored := ReplayedCalls(row)[i];
    var (callId, tool, args) := ResolveDetails(row, links);
    if i == Primary(row) then Call(Or(stored.id, callId), Or(stored.name, tool), Or(stored.args, args))
    else Call(Or(stored.id, callId + "_" + Digits(i)), Or(stored.name, "tool"), Or(stored.args, "{}"))
  }

  function ReplayedResult(row: Row, links: map<string, Link>, i: nat): Message
    requires i < |ReplayedCalls(row)|
  {
    var call := DeclaredCall(row, links, i);
    ToolResult(call.id, call.name, if i == Primary(row) then row.content else NOT_STORED)
  }

  /** The messages of a combined row: one declaration of all its calls, then one result per call. */
  function Group(row: Row, links: map<string, Link>): seq<Message> {
    var n := |ReplayedCalls(row)|;
    [Assistant("", seq(n, i requires 0 <= i < n => DeclaredCall(row, links, i)))]
    + seq(n, i requires 0 <= i < n => ReplayedResult(row, links, i))
  }

  function AsCall(stored: StoredCall): Call {
    Call(stored.id, stored.name, stored.args)
  }

  /** An assistant row that only issued calls; no calls at all means it replays as plain text. */
  function IssuedCalls(row: Row, links: map<string, Link>): seq<Call> {
    if row.toolCalls.CallList? && row.toolCalls.list != [] then
      seq(|row.toolCalls.list|, i requires 0 <= i < |row.toolCalls.list| => AsCall(row.toolCalls.list[i]))
    else if row.toolCallId != "" || row.toolCall != "" then
      var (callId, tool, args) := ResolveDetails(row, links);
      [Call(callId, tool, args)]
    else []
  }

  function ToContext(row: Row, links: map<string, Link>): seq<Message> {
    if row.policy in EXCLUDING_POLICIES then []
    else if Combined(row) then Group(row, links)
    else if RoleOf(row) == "assistant" then [Assistant(if IssuedCalls(row, links) == [] then row.content else "",
      IssuedCalls(row, links))]
    else if RoleOf(row) == "tool" then
      var (callId, tool, _) := ResolveDetails(row, links);
      [ToolResult(callId, tool, row.content)]
    else [Plain(RoleOf(row), row.content)]
  }

  function Expand(rows: seq<Row>, links: map<string, Link>): seq<Message> {
    if rows == [] then [] else Expand(rows[..|rows| - 1], links) + ToContext(rows[|rows| - 1], links)
  }

  // ---- the walk over one row's stored calls, and over the rows --------------------------------------

  method MessageToContext(row: Row, links: map<string, Link>) returns (messages: seq<Message>)
    ensures messages == ToContext(row, links)
  {
    if row.policy in EXCLUDING_POLICIES {
      return [];
    }
    if row.kind == "Tool Result" && RoleOf(row) == "assistant" {
      messages := ReplayCombined(row, links);
      return;
    }
    if RoleOf(row) == "assistant"
       && (row.kind == "Tool Call" || row.toolCall != "" || row.toolCallId != "" || row.toolCalls != NoCalls) {
      var calls := [];
      if row.toolCalls.CallList? {
        for i := 0 to |row.toolCalls.list|
          invariant |calls| == i && forall k :: 0 <= k < i ==> calls[k] == AsCall(row.toolCalls.list[k])
        {
          calls := calls + [AsCall(row.toolCalls.list[i])];
        }
      }
      if calls == [] && (row.toolCallId != "" || row.toolCall != "") {
        var (callId, tool, args) := ResolveDetails(row, links);
        calls := [Call(callId, tool, args)];
      }
      assert calls == IssuedCalls(row, links);
      if calls != [] {
        return [Assistant("", calls)];
      }
    }
    if RoleOf(row) == "tool" {
      var (callId, tool, _) := ResolveDetails(row, links);
      return [ToolResult(callId, tool, row.content)];
    }
    return [if RoleOf(row) == "assistant" then Assistant(row.content, []) else Plain(RoleOf(row), row.content)];
  }

  /** The calls and results of the first `n` stored calls. */
  function CallsTo(row: Row, links: map<string, Link>, n: nat): seq<Call>
    requires n <= |ReplayedCalls(row)|
  {
    if n == 0 then [] else CallsTo(row, links, n - 1) + [DeclaredCall(row, links, n - 1)]
  }

  function ResultsTo(row: Row, links: map<string, Link>, n: nat): seq<Message>
    requires n <= |ReplayedCalls(row)|
  {
    if n == 0 then [] else ResultsTo(row, links, n - 1) + [ReplayedResult(row, links, n - 1)]
  }

  method ReplayCombined(row: Row, links: map<string, Link>) returns (messages: seq<Message>)
    requires Combined(row)
    ensures messages == Group(row, links)
  {
    var stored := match row.toolCalls { case OneCall(c) => [c] case CallList(l) => l case NoCalls => [] };
    if stored == [] {
      stored := [StoredCall("", "", "")];
    }
    assert stored == ReplayedCalls(row);
    var declared, results := [], [];
    for i := 0 to |stored|
      invariant declared == CallsTo(row, links, i) && results == ResultsTo(row, links, i)
    {
      var call := ReplayOne(row, links, stored[i], i);
      var result := ToolResult(call.id, call.name, if i == Primary(row) then row.content else NOT_STORED);
      declared, results := declared + [call], results + [result];
    }
    AssembleGroup(row, links, |stored|);
    messages := [Assistant("", declared)] + results;
  }

  method ReplayOne(row: Row, links: map<string, Link>, stored: StoredCall, i: nat) returns (call: Call)
    requires i < |ReplayedCalls(row)| && stored == ReplayedCalls(row)[i]
    ensures call == DeclaredCall(row, links, i)
  {
    var (callId, toolName, toolArgs) := ResolveDetails(row, links);
    var primary := i == Primary(row);
    var id := Or(stored.id, if primary then callId else callId + "_" + Digits(i));
    var name := Or(stored.name, if primary then toolName else "tool");
    var args := Or(stored.args, if primary then toolArgs else "{}");
    call := Call(id, name, args);
  }

  lemma {:induction false} CallsAt(row: Row, links: map<string, Link>, n: nat, k: nat)
    requires k < n <= |ReplayedCalls(row)|
    ensures |CallsTo(row, links, n)| == n && CallsTo(row, links, n)[k] == DeclaredCall(row, links, k)
  {
    if n > 1 {
      CallsAt(row, links, n - 1, if k < n - 1 then k else 0);
    }
  }

  lemma {:induction false} ResultsAt(row: Row, links: map<string, Link>, n: nat, k: nat)
    requires k < n <= |ReplayedCalls(row)|
    ensures |ResultsTo(row, links, n)| == n && ResultsTo(row, links, n)[k] == ReplayedResult(row, links, k)
  {
    if n > 1 {
      ResultsAt(row, links, n - 1, if k < n - 1 then k else 0);
    }
  }

  lemma AssembleGroup(row: Row, links: map<string, Link>, n: nat)
    requires 0 < n == |ReplayedCalls(row)|
    ensures [Assistant("", CallsTo(row, links, n))] + ResultsTo(row, links, n) == Group(row, links)
  {
    CallsAt(row, links, n, 0);
    ResultsAt(row, links, n, 0);
    forall k | 0 <= k < n
      ensures CallsTo(row, links, n)[k] == DeclaredCall(row, links, k)
      ensures ResultsTo(row, links, n)[k] == ReplayedResult(row, links, k)
    {
      CallsAt(row, links, n, k);
      ResultsAt(row, links, n, k);
    }
    assert CallsTo(row, links, n) == seq(n, i requires 0 <= i < n => DeclaredCall(row, links, i));
    assert ResultsTo(row, links, n) == seq(n, i requires 0 <= i < n => ReplayedResult(row, links, i));
  }

  /** The rows a history request reads: the newest `limit` of them (1000 when unlimited), oldest first. */
  function Newest(rows: seq<Row>, limit: nat): seq<Row> {
    var n := if limit == 0 then 1000 else limit;
    if |rows| <= n then rows else rows[|rows| - n..]
  }

  /** The last `limit` rows, or the last 1000. */
  lemma NewestIs(older: seq<Row>, newer: seq<Row>, limit: nat)
    requires |newer| == if limit == 0 then 1000 else limit
    ensures Newest(older + newer, limit) == newer
  {
    assert older == [] ==> older + newer == newer;
  }

  lemma ExpandNext(rows: seq<Row>, links: map<string, Link>, k: nat)
    requires k < |rows|
    ensures Expand(rows[..k + 1], links) == Expand(rows[..k], links) + ToContext(rows[k], links)
  {
    assert rows[..k + 1][..k] == rows[..k];
  }

  method GetConversationHistory(stored: seq<Row>, links: map<string, Link>, limit: nat) returns (result: seq<Message>)
    ensures result == Expand(Newest(stored, limit), links)
    ensures |stored| <= (if limit == 0 then 1000 else limit) ==> result == Expand(stored, links)
    ensures forall older, newer :: stored == older + newer && |newer| == (if limit == 0 then 1000 else limit) ==>
              result == Expand(newer, links)
  {
    var rows := Newest(stored, limit);
    forall older, newer | stored == older + newer && |newer| == (if limit == 0 then 1000 else limit)
      ensures rows == newer
    {
      NewestIs(older, newer, limit);
    }
    result := [];
    for k := 0 to |rows|
      invariant result == Expand(rows[..k], links)
    {
      var messages := MessageToContext(rows[k], links);
      ExpandNext(rows, links, k);
      result := result + messages;
    }
    assert rows[..|rows|] == rows;
  }

  lemma ExpandOne(row: Row, links: map<string, Link>)
    ensures Expand([row], links) == ToContext(row, links)
  {
    assert [row][..0] == [];
  }

  lemma ExpandSnoc(rows: seq<Row>, row: Row, links: map<string, Link>)
    ensures Expand(rows + [row], links) == Expand(rows, links) + ToContext(row, links)
  {
    assert (rows + [row])[..|rows|] == rows;
  }

  lemma Associative<T>(x: seq<T>, y: seq<T>, z: seq<T>)
    ensures (x + y) + z == x + (y + z)
  {
  }

  /** The expansion is the rows' messages, row after row. */
  lemma {:induction false} ExpandConcat(a: seq<Row>, b: seq<Row>, links: map<string, Link>)
    ensures Expand(a + b, links) == Expand(a, links) + Expand(b, links)
  {
    if b == [] {
      assert a + b == a;
    } else {
      var init, last := b[..|b| - 1], [b[|b| - 1]];
      assert b == init + last;
      Associative(a, init, last);
      ExpandSnoc(a + init, last[0], links);
      ExpandConcat(a, init, links);
      Associative(Expand(a, links), Expand(init, links), ToContext(last[0], links));
    }
  }

  // ---- what the expansion guarantees -----------------------------------------------------------------

  /** Rows that never touch tool calls, and rows that hold a request with its result. */
  predicate PlainOrCombined(row: Row, links: map<string, Link>) {
    Combined(row) || ToContext(row, links) == []
    || (RoleOf(row) != "tool" && (RoleOf(row) == "assistant" ==> IssuedCalls(row, links) == []))
  }

  /** The ids a row declares, in order. */
  function RowIds(row: Row, links: map<string, Link>): seq<string> {
    if Combined(row) then
      seq(|ReplayedCalls(row)|, i requires 0 <= i < |ReplayedCalls(row)| => DeclaredCall(row, links, i).id)
    else []
  }

  predicate AllIdsPresent(rows: seq<Row>, links: map<string, Link>) {
    forall k | 0 <= k < |rows| :: "" !in RowIds(rows[k], links)
  }

  /** A combined row declares its stored calls in order, each answered at once and in the same order. */
  lemma GroupShape(row: Row, links: map<string, Link>, i: nat)
    requires Combined(row) && i < |ReplayedCalls(row)|
    ensures var g := ToContext(row, links);
            && |g| == 1 + |ReplayedCalls(row)|
            && g[0].Assistant? && |g[0].calls| == |ReplayedCalls(row)|
            && g[1 + i].ToolResult? && g[1 + i].callId == g[0].calls[i].id
            && (ReplayedCalls(row)[i].id != "" ==> g[0].calls[i].id == ReplayedCalls(row)[i].id)
            && (g[1 + i].content == row.content || i != Primary(row))
  {
  }

  predicate Decimal(s: string) {
    s != "" && forall k | 0 <= k < |s| :: '0' <= s[k] <= '9'
  }

  /** The number a decimal text stands for. */
  function Value(s: string): nat
    requires Decimal(s)
  {
    var last := s[|s| - 1] as int - '0' as int;
    if |s| == 1 then last else 10 * Value(s[..|s| - 1]) + last
  }

  lemma {:induction false} DigitsRead(n: nat)
    ensures Decimal(Digits(n)) && Value(Digits(n)) == n
  {
    if n >= 10 {
      DigitsRead(n / 10);
      assert Digits(n)[..|Digits(n)| - 1] == Digits(n / 10);
    }
  }

  /** The stored call that a combined row's result belongs to: the first one with the row's own id, else the first. */
  predicate Owns(row: Row, i: nat) {
    var calls := ReplayedCalls(row);
    && i < |calls|
    && if row.toolCallId != "" && exists k :: 0 <= k < |calls| && calls[k].id == row.toolCallId then
         calls[i].id == row.toolCallId && forall k | 0 <= k < i :: calls[k].id != row.toolCallId
       else i == 0
  }

  lemma {:induction false} FirstWithIdIs(calls: seq<StoredCall>, id: string, from: nat)
    requires from <= |calls| && calls != [] && id != ""
    ensures var p := FirstWithId(calls, id, from);
            if exists k :: from <= k < |calls| && calls[k].id == id then
              from <= p < |calls| && calls[p].id == id && forall k | from <= k < p :: calls[k].id != id
            else p == 0
    decreases |calls| - from
  {
    if from < |calls| && calls[from].id != id {
      FirstWithIdIs(calls, id, from + 1);
    }
  }

  lemma PrimaryOwns(row: Row, i: nat)
    requires i < |ReplayedCalls(row)|
    ensures i == Primary(row) <==> Owns(row, i)
  {
    if row.toolCallId != "" {
      FirstWithIdIs(ReplayedCalls(row), row.toolCallId, 0);
    }
  }

  /** What a combined row's stored call declares and how it is answered: with the row's own text for the call that owns
      it, with a placeholder for the others; missing names and arguments come from the row's link for the owner only. */
  lemma GroupFields(row: Row, links: map<string, Link>, i: nat)
    requires Combined(row) && i < |ReplayedCalls(row)|
    ensures var g := ToContext(row, links); var stored := ReplayedCalls(row)[i];
            && i + 1 < |g| && g[0].Assistant? && g[0].text == "" && i < |g[0].calls|
            && var call, result := g[0].calls[i], g[1 + i];
            && (stored.id != "" ==> call.id == stored.id) && (stored.name != "" ==> call.name == stored.name)
            && (stored.args != "" ==> call.args == stored.args)
            && result.ToolResult? && result.callId == call.id && result.name == call.name
            && result.content == (if Owns(row, i) then row.content else "[result not stored in this history row]")
            && (!Owns(row, i) && stored.name == "" ==> call.name == "tool")
            && (!Owns(row, i) && stored.args == "" ==> call.args == "{}")
            && var (callId, tool, args) := ResolveDetails(row, links);
            && (Owns(row, i) && stored.id == "" ==> call.id == callId)
            && (Owns(row, i) && stored.name == "" ==> call.name == tool)
            && (Owns(row, i) && stored.args == "" ==> call.args == args)
            && (!Owns(row, i) && stored.id == "" ==>
                  exists d :: call.id == callId + "_" + d && Decimal(d) && Value(d) == i)
  {
    DigitsRead(i);
    PrimaryOwns(row, i);
  }

  /** The call id, tool and arguments of a row that names its own id, that only has a link, and that has neither. */
  lemma ResolvedDetails(row: Row, links: map<string, Link>)
    ensures row.toolCallId != "" ==> ResolveDetails(row, links) == (row.toolCallId, "", "{}")
    ensures row.toolCallId == "" && row.toolCall in links && row.toolCall != "" ==>
              var link, (id, tool, args) := links[row.toolCall], ResolveDetails(row, links);
              && tool == link.tool && id == (if link.callId != "" then link.callId else row.toolCall)
              && args == (if link.args != "" then link.args else "{}")
    ensures row.toolCallId == "" && row.toolCall !in links ==> ResolveDetails(row, links) == (row.toolCall, "", "{}")
  {
  }

  /** The messages of a row that is not combined. */
  lemma RowsAlone(row: Row, links: map<string, Link>)
    ensures row.policy in {"exclude", "transient_only", "include_on_demand"} ==> ToContext(row, links) == []
    ensures row.policy !in EXCLUDING_POLICIES && row.role !in {"agent", "assistant", "tool"} ==>
              ToContext(row, links) == [Plain(row.role, row.content)]
    ensures row.policy !in EXCLUDING_POLICIES && row.role == "tool" ==>
              ToContext(row, links) ==
                [ToolResult(ResolveDetails(row, links).0, ResolveDetails(row, links).1, row.content)]
  {
  }

  /** An assistant row that is not combined: its stored calls as they are, else the one call it names, else its text. */
  lemma AssistantRows(row: Row, links: map<string, Link>)
    requires row.policy !in EXCLUDING_POLICIES && row.role in {"agent", "assistant"} && row.kind != "Tool Result"
    ensures var g := ToContext(row, links);
            && |g| == 1 && g[0].Assistant?
            && if row.toolCalls.CallList? && row.toolCalls.list != [] then
                 && g[0].text == "" && |g[0].calls| == |row.toolCalls.list|
                 && forall i | 0 <= i < |row.toolCalls.list| :: SameCall(g[0].calls[i], row.toolCalls.list[i])
               else if row.toolCallId != "" || row.toolCall != "" then
                 && g[0].text == "" && |g[0].calls| == 1
                 && (g[0].calls[0].id, g[0].calls[0].name, g[0].calls[0].args) == ResolveDetails(row, links)
               else g[0].text == row.content && g[0].calls == []
  {
  }

  predicate SameCall(call: Call, stored: StoredCall) {
    call.id == stored.id && call.name == stored.name && call.args == stored.args
  }

  /** The declared ids of a message list, in order, and the answered ids. */
  function DeclaredIds(ms: seq<Message>): seq<string> {
    if ms == [] then []
    else
      var last := ms[|ms| - 1];
      DeclaredIds(ms[..|ms| - 1])
      + (if last.Assistant? then seq(|last.calls|, i requires 0 <= i < |last.calls| => last.calls[i].id) else [])
  }

  function AnsweredIds(ms: seq<Message>): seq<string> {
    if ms == [] then []
    else
      var last := ms[|ms| - 1];
      AnsweredIds(ms[..|ms| - 1]) + (if last.ToolResult? then [last.callId] else [])
  }

  function AllRowIds(rows: seq<Row>, links: map<string, Link>): seq<string> {
    if rows == [] then [] else AllRowIds(rows[..|rows| - 1], links) + RowIds(rows[|rows| - 1], links)
  }

  lemma {:induction false} DeclaredConcat(a: seq<Message>, b: seq<Message>)
    ensures DeclaredIds(a + b) == DeclaredIds(a) + DeclaredIds(b)
  {
    if b == [] {
      assert a + b == a;
    } else {
      DeclaredConcat(a, b[..|b| - 1]);
      assert (a + b)[..|a + b| - 1] == a + b[..|b| - 1];
    }
  }

  lemma {:induction false} AnsweredConcat(a: seq<Message>, b: seq<Message>)
    ensures AnsweredIds(a + b) == AnsweredIds(a) + AnsweredIds(b)
  {
    if b == [] {
      assert a + b == a;
    } else {
      AnsweredConcat(a, b[..|b| - 1]);
      assert (a + b)[..|a + b| - 1] == a + b[..|b| - 1];
    }
  }

  lemma IdsConcat(a: seq<Message>, b: seq<Message>)
    ensures DeclaredIds(a + b) == DeclaredIds(a) + DeclaredIds(b)
    ensures AnsweredIds(a + b) == AnsweredIds(a) + AnsweredIds(b)
  {
    DeclaredConcat(a, b);
    AnsweredConcat(a, b);
  }

  lemma {:induction false} ResultIds(row: Row, links: map<string, Link>, results: seq<Message>, n: nat)
    requires Combined(row) && |results| == |RowIds(row, links)| && n <= |results|
    requires forall k :: 0 <= k < |results| ==> results[k].ToolResult? && results[k].callId == RowIds(row, links)[k]
    ensures AnsweredIds(results[..n]) == RowIds(row, links)[..n]
    ensures DeclaredIds(results[..n]) == []
  {
    if n > 0 {
      ResultIds(row, links, results, n - 1);
      assert results[..n][..n - 1] == results[..n - 1];
    }
  }

  lemma GroupIds(g: seq<Message>, ids: seq<string>)
    requires |g| == 1 + |ids| && g[0].Assistant? && |g[0].calls| == |ids|
    requires forall k :: 0 <= k < |ids| ==> g[0].calls[k].id == ids[k]
    requires AnsweredIds(g[1..][..|ids|]) == ids[..|ids|] && DeclaredIds(g[1..][..|ids|]) == []
    ensures DeclaredIds(g) == ids && AnsweredIds(g) == ids
  {
    assert g == [g[0]] + g[1..] && g[1..][..|ids|] == g[1..];
    IdsConcat([g[0]], g[1..]);
    assert [g[0]][..0] == [];
    assert DeclaredIds([g[0]]) == ids;
  }

  lemma RowIdsOfContext(row: Row, links: map<string, Link>)
    requires PlainOrCombined(row, links)
    ensures DeclaredIds(ToContext(row, links)) == RowIds(row, links)
    ensures AnsweredIds(ToContext(row, links)) == RowIds(row, links)
  {
    var g := ToContext(row, links);
    if Combined(row) {
      ResultIds(row, links, g[1..], |g| - 1);
      GroupIds(g, RowIds(row, links));
    } else if g != [] {
      assert g[..0] == [];
      assert |g| == 1;
    }
  }

  /** Over a whole history the declarations and the results carry the same ids in the same order: those of the rows. */
  lemma {:induction false} EachCallDeclaredAndAnswered(rows: seq<Row>, links: map<string, Link>)
    requires forall k | 0 <= k < |rows| :: PlainOrCombined(rows[k], links)
    ensures DeclaredIds(Expand(rows, links)) == AnsweredIds(Expand(rows, links)) == AllRowIds(rows, links)
  {
    if rows != [] {
      var front, last := rows[..|rows| - 1], rows[|rows| - 1];
      EachCallDeclaredAndAnswered(front, links);
      RowIdsOfContext(last, links);
      IdsConcat(Expand(front, links), ToContext(last, links));
    }
  }

  /** One declaration with non-empty ids, followed by its results in order, obeys the pairing rule. */
  lemma AnsweredInOrderSettles(g: seq<Message>)
    requires |g| >= 2 && g[0].Assistant? && |g[0].calls| == |g| - 1
    requires forall k :: 1 <= k < |g| ==> g[k].ToolResult? && g[k].callId == g[0].calls[k - 1].id && g[k].callId != ""
    ensures Settled(g)
  {
    forall id | id in CallIds(g[0])
      ensures AnsweredAfter(g, 0, id)
    {
      var k :| 0 <= k < |g[0].calls| && g[0].calls[k].id == id;
      assert IsResult(g[k + 1], id);
    }
    assert g[0].calls[0] in g[0].calls && g[1].callId in CallIds(g[0]);
    assert Fulfilled(g, 0);
    forall i | 0 <= i < |g|
      ensures SettledAt(g, i)
    {
      if i > 0 {
        assert g[0].calls[i - 1] in g[0].calls;
        assert g[i].callId in CallIds(g[0]);
      }
    }
  }

  lemma GroupSettled(row: Row, links: map<string, Link>)
    requires PlainOrCombined(row, links) && "" !in RowIds(row, links)
    ensures Settled(ToContext(row, links))
  {
    if Combined(row) {
      var g, ids := ToContext(row, links), RowIds(row, links);
      forall k | 1 <= k < |g|
        ensures g[k].ToolResult? && g[k].callId == g[0].calls[k - 1].id && g[k].callId != ""
      {
        assert g[1..][k - 1] == g[k] && ids[k - 1] in ids;
      }
      AnsweredInOrderSettles(g);
    }
  }

  lemma SettledConcat(a: seq<Message>, b: seq<Message>)
    requires Settled(a) && Settled(b)
    ensures Settled(a + b)
  {
    forall i | 0 <= i < |a + b|
      ensures SettledAt(a + b, i)
    {
      if i < |a| {
        assert SettledAt(a, i);
        SettledWithin(a, a + b, 0, i);
      } else {
        assert SettledAt(b, i - |a|);
        SettledWithin(b, a + b, |a|, i - |a|);
      }
    }
  }

  lemma SettledWithin(part: seq<Message>, whole: seq<Message>, at: nat, i: nat)
    requires at + |part| <= |whole| && whole[at..at + |part|] == part
    requires i < |part| && SettledAt(part, i)
    ensures SettledAt(whole, at + i)
  {
    assert forall k | 0 <= k < |part| :: whole[at + k] == part[k];
    if part[i].ToolResult? {
      var a :| Fulfilled(part, a) && part[i].callId in CallIds(part[a]);
    }
  }

  lemma {:induction false} ExpansionSettled(rows: seq<Row>, links: map<string, Link>)
    requires forall k | 0 <= k < |rows| :: PlainOrCombined(rows[k], links)
    requires AllIdsPresent(rows, links)
    ensures Settled(Expand(rows, links))
  {
    if rows != [] {
      ExpansionSettled(rows[..|rows| - 1], links);
      GroupSettled(rows[|rows| - 1], links);
      SettledConcat(Expand(rows[..|rows| - 1], links), ToContext(rows[|rows| - 1], links));
    }
  }

  lemma {:induction false} ResultsOf(ms: seq<Message>, id: string)
    requires id in AnsweredIds(ms)
    ensures exists r :: 0 <= r < |ms| && ms[r].ToolResult? && ms[r].callId == id
  {
    var front := ms[..|ms| - 1];
    if id in AnsweredIds(front) {
      ResultsOf(front, id);
      var r :| 0 <= r < |front| && front[r].ToolResult? && front[r].callId == id;
      assert ms[r] == front[r];
    } else {
      assert ms[|ms| - 1].ToolResult?;
    }
  }

  lemma {:induction false} RowIdIn(rows: seq<Row>, links: map<string, Link>, k: nat)
    requires k < |rows|
    ensures forall id | id in RowIds(rows[k], links) :: id in AllRowIds(rows, links)
  {
    if k < |rows| - 1 {
      RowIdIn(rows[..|rows| - 1], links, k);
      assert rows[..|rows| - 1][k] == rows[k];
    }
  }

  /** The repair leaves a replayed history of plain and combined rows alone exactly when no call id is missing. */
  lemma ReplayIsFixedPointIff(rows: seq<Row>, links: map<string, Link>, records: map<string, CallRecord>)
    requires forall k | 0 <= k < |rows| :: PlainOrCombined(rows[k], links)
    ensures Repair(Expand(rows, links), records) == Expand(rows, links) <==> AllIdsPresent(rows, links)
  {
    var ms := Expand(rows, links);
    FixedPointIffSettled(ms, records);
    if AllIdsPresent(rows, links) {
      ExpansionSettled(rows, links);
    } else {
      var k :| 0 <= k < |rows| && "" in RowIds(rows[k], links);
      RowIdIn(rows, links, k);
      EachCallDeclaredAndAnswered(rows, links);
      ResultsOf(ms, "");
      var r: nat :| r < |ms| && ms[r].ToolResult? && ms[r].callId == "";
      assert !SettledAt(ms, r);
    }
  }
}
