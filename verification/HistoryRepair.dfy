/**
 Tool-call pairing in a model history (`repair_message_sequence`).

 An assistant message may declare tool calls; each declared call wants a later tool result with
 the same id.  The repair drops declarations that are not fully answered, rebuilds a missing
 declaration from the stored tool-call records, and drops results it cannot pair.
 */
module HistoryRepair {

  /** One declared tool call.  An empty id stands for a missing one. */
  datatype Call = Call(id: string, name: string, args: string)

  /** `Plain` covers every message the repair never inspects: user and system text, non-dict entries. */
  datatype Message =
    | Assistant(text: string, calls: seq<Call>)
    | ToolResult(callId: string, name: string, content: string)
    | Plain(role: string, content: string)

  /** The stored record of a tool call: its tool and its arguments. */
  datatype CallRecord = CallRecord(tool: string, args: string)

  /** The non-empty ids an assistant message declares. */
  function CallIds(m: Message): set<string> {
    if m.Assistant? then set c | c in m.calls && c.id != "" :: c.id else {}
  }

  predicate IsResult(m: Message, id: string) {
    m.ToolResult? && m.callId == id && id != ""
  }

  /** The declaration rebuilt from a stored record; empty arguments become an empty object. */
  function Synthesize(id: string, record: CallRecord): Message {
    Assistant("", [Call(id, record.tool, if record.args == "" then "{}" else record.args)])
  }

  // ---- what a message list must satisfy --------------------------------------------------------

  ghost predicate AnsweredAfter(ms: seq<Message>, i: int, id: string) {
    exists r :: 0 <= r < |ms| && i < r && IsResult(ms[r], id)
  }

  /** Message `i` declares at least one id and each of its ids has a later result. */
  ghost predicate Fulfilled(ms: seq<Message>, i: int) {
    0 <= i < |ms| && CallIds(ms[i]) != {} && forall id :: id in CallIds(ms[i]) ==> AnsweredAfter(ms, i, id)
  }

  ghost predicate DeclaredFulfilled(ms: seq<Message>, id: string) {
    exists i :: Fulfilled(ms, i) && id in CallIds(ms[i])
  }

  ghost predicate DeclaredBefore(ms: seq<Message>, r: int, id: string) {
    exists i :: 0 <= i < |ms| && i < r && id in CallIds(ms[i])
  }

  /** Result `r` gets a rebuilt declaration: no kept declaration of its id, none before it, and a record exists. */
  ghost predicate Repairable(ms: seq<Message>, records: map<string, CallRecord>, r: int) {
    && 0 <= r < |ms| && ms[r].ToolResult? && ms[r].callId != ""
    && !DeclaredFulfilled(ms, ms[r].callId)
    && !DeclaredBefore(ms, r, ms[r].callId)
    && ms[r].callId in records
  }

  ghost predicate KeptId(ms: seq<Message>, records: map<string, CallRecord>, id: string) {
    DeclaredFulfilled(ms, id) || exists r :: Repairable(ms, records, r) && ms[r].callId == id
  }

  /** What message `i` becomes in the repaired list. */
  ghost function Emit(ms: seq<Message>, records: map<string, CallRecord>, i: nat): seq<Message>
    requires i < |ms|
  {
    var m := ms[i];
    if m.Assistant? && m.calls != [] then
      if Fulfilled(ms, i) then [m] else []
    else if m.ToolResult? then
      if !KeptId(ms, records, m.callId) then []
      else if Repairable(ms, records, i) then [Synthesize(m.callId, records[m.callId]), m]
      else [m]
    else [m]
  }

  ghost function RepairTo(ms: seq<Message>, records: map<string, CallRecord>, n: nat): seq<Message>
    requires n <= |ms|
  {
    if n == 0 then [] else RepairTo(ms, records, n - 1) + Emit(ms, records, n - 1)
  }

  ghost function Repair(ms: seq<Message>, records: map<string, CallRecord>): seq<Message> {
    RepairTo(ms, records, |ms|)
  }

  // ---- the four passes ---------------------------------------------------------------------------

  /** `declarations` lists the declaring messages among the first `n`. */
  ghost predicate ListsDeclarations(ms: seq<Message>, n: nat, declarations: seq<nat>) {
    && (forall i | i in declarations :: i < n <= |ms| && CallIds(ms[i]) != {})
    && (forall i | 0 <= i < n <= |ms| && CallIds(ms[i]) != {} :: i in declarations)
  }

  ghost predicate AllAnswer(ms: seq<Message>, n: nat, id: string, positions: seq<nat>) {
    forall r | r in positions :: r < n <= |ms| && IsResult(ms[r], id)
  }

  /** `results` files the answering messages among the first `n` under their ids. */
  ghost predicate FilesResults(ms: seq<Message>, n: nat, results: map<string, seq<nat>>) {
    && (forall id | id in results :: AllAnswer(ms, n, id, results[id]))
    && (forall r | 0 <= r < n <= |ms| && ms[r].ToolResult? && ms[r].callId != "" ::
          ms[r].callId in results && r in results[ms[r].callId])
  }

  ghost predicate OrdersKeys(order: seq<string>, results: map<string, seq<nat>>) {
    && (forall id | id in results :: id in order)
    && (forall k | 0 <= k < |order| :: order[k] in results)
    && (forall a, b | 0 <= a < b < |order| :: order[a] != order[b])
  }

  /** First pass: positions of declarations, and positions of results by id (ids in first-seen order). */
  method Survey(ms: seq<Message>) returns (declarations: seq<nat>, order: seq<string>, results: map<string, seq<nat>>)
    ensures ListsDeclarations(ms, |ms|, declarations)
    ensures FilesResults(ms, |ms|, results)
    ensures OrdersKeys(order, results)
  {
    declarations, order, results := [], [], map[];
    for idx := 0 to |ms|
      invariant ListsDeclarations(ms, idx, declarations)
      invariant FilesResults(ms, idx, results)
      invariant OrdersKeys(order, results)
    {
      var m := ms[idx];
      if m.Assistant? {
        if CallIds(m) != {} {
          declarations := declarations + [idx];
        }
      } else if m.ToolResult? && m.callId != "" {
        if m.callId !in results {
          order := order + [m.callId];
          results := results[m.callId := [idx]];
        } else {
          results := results[m.callId := results[m.callId] + [idx]];
        }
      }
    }
  }

  predicate LaterResult(results: map<string, seq<nat>>, a: nat, id: string) {
    id in results && exists r | r in results[id] :: r > a
  }

  lemma AnsweredIffFulfilled(ms: seq<Message>, results: map<string, seq<nat>>, a: nat)
    requires FilesResults(ms, |ms|, results) && a < |ms| && CallIds(ms[a]) != {}
    ensures (forall id | id in CallIds(ms[a]) :: LaterResult(results, a, id)) <==> Fulfilled(ms, a)
  {
    assert forall id | id in CallIds(ms[a]) :: LaterResult(results, a, id) <==> AnsweredAfter(ms, a, id);
  }

  ghost predicate DeclaredWithin(ms: seq<Message>, declarations: seq<nat>, id: string) {
    exists k :: 0 <= k < |declarations| && Fulfilled(ms, declarations[k]) && id in CallIds(ms[declarations[k]])
  }

  /** Second pass: the declarations whose every id has a later result, and the ids they declare. */
  method KeepFulfilled(ms: seq<Message>, declarations: seq<nat>, results: map<string, seq<nat>>)
    returns (keep: set<nat>, keepIds: set<string>)
    requires ListsDeclarations(ms, |ms|, declarations)
    requires FilesResults(ms, |ms|, results)
    ensures forall i :: i in keep <==> Fulfilled(ms, i)
    ensures forall id :: id in keepIds <==> DeclaredFulfilled(ms, id)
  {
    keep, keepIds := {}, {};
    for k := 0 to |declarations|
      invariant forall i :: i in keep <==> i in declarations[..k] && Fulfilled(ms, i)
      invariant forall id :: id in keepIds <==> DeclaredWithin(ms, declarations[..k], id)
    {
      var a := declarations[k];
      assert a in declarations;
      WithinExtends(ms, declarations[..k], a);
      assert declarations[..k + 1] == declarations[..k] + [a];
      AnsweredIffFulfilled(ms, results, a);
      if forall id | id in CallIds(ms[a]) :: LaterResult(results, a, id) {
        keep := keep + {a};
        keepIds := keepIds + CallIds(ms[a]);
      }
    }
    assert declarations[..|declarations|] == declarations;
    WithinAll(ms, declarations);
  }

  lemma WithinAll(ms: seq<Message>, declarations: seq<nat>)
    requires ListsDeclarations(ms, |ms|, declarations)
    ensures forall i :: Fulfilled(ms, i) ==> i in declarations
    ensures forall id :: DeclaredWithin(ms, declarations, id) <==> DeclaredFulfilled(ms, id)
  {
    forall id
      ensures DeclaredWithin(ms, declarations, id) <==> DeclaredFulfilled(ms, id)
    {
      if DeclaredFulfilled(ms, id) {
        var i :| Fulfilled(ms, i) && id in CallIds(ms[i]);
        assert i in declarations;
      }
    }
  }

  lemma WithinExtends(ms: seq<Message>, ds: seq<nat>, a: nat)
    ensures forall id :: DeclaredWithin(ms, ds + [a], id) <==>
              DeclaredWithin(ms, ds, id) || (Fulfilled(ms, a) && id in CallIds(ms[a]))
  {
    forall id
      ensures DeclaredWithin(ms, ds + [a], id) <==>
              DeclaredWithin(ms, ds, id) || (Fulfilled(ms, a) && id in CallIds(ms[a]))
    {
      if DeclaredWithin(ms, ds, id) {
        var k :| 0 <= k < |ds| && Fulfilled(ms, ds[k]) && id in CallIds(ms[ds[k]]);
        assert (ds + [a])[k] == ds[k];
      }
      assert (ds + [a])[|ds|] == a;
    }
  }

  /** `repaired` holds a rebuilt declaration for the repairable results in `where`, and only for those. */
  ghost predicate Rebuilt(
    ms: seq<Message>, records: map<string, CallRecord>, where: set<nat>, repaired: map<nat, Message>)
  {
    && (forall r :: r in repaired <==> r in where && Repairable(ms, records, r))
    && (forall r | r in repaired && Repairable(ms, records, r) ::
          repaired[r] == Synthesize(ms[r].callId, records[ms[r].callId]))
  }

  /** One more position looked at: it gets a rebuilt declaration exactly when it is repairable. */
  lemma RebuiltExtends(
    ms: seq<Message>, records: map<string, CallRecord>, where: set<nat>, before: map<nat, Message>, r: nat,
      after: map<nat, Message>)
    requires Rebuilt(ms, records, where, before)
    requires Repairable(ms, records, r) ==> after == before[r := Synthesize(ms[r].callId, records[ms[r].callId])]
    requires !Repairable(ms, records, r) ==> after == before
    ensures Rebuilt(ms, records, where + {r}, after)
  {
  }

  /** Looking for an earlier declaration among the listed ones finds any there is. */
  lemma DeclaredScan(ms: seq<Message>, declarations: seq<nat>, r: nat, id: string)
    requires ListsDeclarations(ms, |ms|, declarations)
    ensures (exists a | a in declarations :: id in CallIds(ms[a]) && a < r) <==> DeclaredBefore(ms, r, id)
  {
    if DeclaredBefore(ms, r, id) {
      var i :| 0 <= i < |ms| && i < r && id in CallIds(ms[i]);
      assert i in declarations;
    }
  }

  /** The third pass for one id: rebuild its declaration in front of each of its results that needs one. */
  method RebuildId(
    ms: seq<Message>, records: map<string, CallRecord>, declarations: seq<nat>, id: string, entries: seq<nat>,
    before: map<nat, Message>, ghost where: set<nat>)
    returns (repaired: map<nat, Message>)
    requires ListsDeclarations(ms, |ms|, declarations)
    requires AllAnswer(ms, |ms|, id, entries)
    requires !DeclaredFulfilled(ms, id)
    requires Rebuilt(ms, records, where, before)
    ensures Rebuilt(ms, records, where + (set r | r in entries), repaired)
    ensures before.Keys <= repaired.Keys
  {
    repaired := before;
    ghost var seen := where;
    for k := 0 to |entries|
      invariant seen == where + (set r | r in entries[..k])
      invariant Rebuilt(ms, records, seen, repaired)
      invariant before.Keys <= repaired.Keys
    {
      var r := entries[k];
      assert r in entries;
      assert entries[..k + 1] == entries[..k] + [r];
      ghost var last := repaired;
      var declared := exists a | a in declarations :: id in CallIds(ms[a]) && a < r;
      DeclaredScan(ms, declarations, r, id);
      assert Repairable(ms, records, r) <==> !declared && id in records;
      if !declared && id in records {
        repaired := repaired[r := Synthesize(id, records[id])];
      }
      RebuiltExtends(ms, records, seen, last, r, repaired);
      seen := seen + {r};
    }
    assert entries[..|entries|] == entries;
  }

  ghost function ResultPositions(ms: seq<Message>): set<nat> {
    set r: nat | r < |ms| && ms[r].ToolResult? && ms[r].callId != ""
  }

  /** The positions filed under the first `j` ids. */
  ghost function Filed(order: seq<string>, results: map<string, seq<nat>>, j: nat): set<nat>
    requires j <= |order| && forall k | 0 <= k < |order| :: order[k] in results
  {
    if j == 0 then {}
    else
      var positions := results[order[j - 1]];
      Filed(order, results, j - 1) + (set r | r in positions)
  }

  lemma {:induction false} FiledAt(order: seq<string>, results: map<string, seq<nat>>, j: nat, r: nat)
    requires j <= |order| && forall k | 0 <= k < |order| :: order[k] in results
    ensures r in Filed(order, results, j) <==> exists k :: 0 <= k < j && r in results[order[k]]
  {
    if j > 0 {
      FiledAt(order, results, j - 1, r);
    }
  }

  ghost predicate RepairedId(ms: seq<Message>, repaired: set<nat>, id: string) {
    exists r :: r in repaired && r < |ms| && ms[r].ToolResult? && ms[r].callId == id
  }

  ghost predicate CoversIds(ms: seq<Message>, repaired: set<nat>, fulfilledIds: set<string>, keepIds: set<string>) {
    forall id :: id in keepIds <==> id in fulfilledIds || RepairedId(ms, repaired, id)
  }

  /** Third pass: rebuild a declaration for each orphaned result that has a record. */
  method RebuildOrphans(
    ms: seq<Message>, records: map<string, CallRecord>, declarations: seq<nat>, order: seq<string>,
    results: map<string, seq<nat>>, fulfilledIds: set<string>)
    returns (repaired: map<nat, Message>, keepIds: set<string>)
    requires ListsDeclarations(ms, |ms|, declarations)
    requires FilesResults(ms, |ms|, results) && OrdersKeys(order, results)
    requires forall id :: id in fulfilledIds <==> DeclaredFulfilled(ms, id)
    ensures Rebuilt(ms, records, ResultPositions(ms), repaired)
    ensures forall id :: id in keepIds <==> KeptId(ms, records, id)
  {
    repaired, keepIds := map[], fulfilledIds;
    for j := 0 to |order|
      invariant Rebuilt(ms, records, Filed(order, results, j), repaired)
      invariant CoversIds(ms, repaired.Keys, fulfilledIds, keepIds)
    {
      var id, before := order[j], repaired;
      assert id in results;
      FirstTime(ms, records, order, results, j, repaired);
      ghost var where := Filed(order, results, j);
      if id in keepIds {
        SkippedId(ms, records, where, repaired, id, results[id]);
      } else {
        repaired := RebuildId(ms, records, declarations, id, results[id], before, where);
        ghost var kept := keepIds;
        if repaired.Keys != before.Keys {
          keepIds := keepIds + {id};
        }
        CoverGrows(ms, records, before, repaired, id, results[id], where, fulfilledIds, kept, keepIds);
      }
    }
    AllFiled(ms, order, results);
  }

  /** An id with a kept declaration has nothing to repair. */
  lemma SkippedId(
    ms: seq<Message>, records: map<string, CallRecord>, where: set<nat>, repaired: map<nat, Message>, id: string,
      entries: seq<nat>)
    requires DeclaredFulfilled(ms, id) && AllAnswer(ms, |ms|, id, entries)
    requires Rebuilt(ms, records, where, repaired)
    ensures Rebuilt(ms, records, where + (set r | r in entries), repaired)
  {
    assert forall r | r in entries :: !Repairable(ms, records, r);
  }

  /** An id met for the first time has nothing repaired yet: `order` has no repetitions. */
  lemma FirstTime(
    ms: seq<Message>, records: map<string, CallRecord>, order: seq<string>, results: map<string, seq<nat>>, j: nat,
    repaired: map<nat, Message>)
    requires FilesResults(ms, |ms|, results) && OrdersKeys(order, results) && j < |order|
    requires Rebuilt(ms, records, Filed(order, results, j), repaired)
    ensures !RepairedId(ms, repaired.Keys, order[j])
  {
    forall r | r in repaired
      ensures r < |ms| && ms[r].ToolResult? && ms[r].callId != order[j]
    {
      FiledAt(order, results, j, r);
      var k :| 0 <= k < j && r in results[order[k]];
      assert IsResult(ms[r], order[k]);
    }
  }

  lemma CoverGrows(
    ms: seq<Message>, records: map<string, CallRecord>, before: map<nat, Message>, after: map<nat, Message>, id: string,
    entries: seq<nat>, where: set<nat>, fulfilledIds: set<string>, kept: set<string>, keepIds: set<string>)
    requires CoversIds(ms, before.Keys, fulfilledIds, kept)
    requires keepIds == if after.Keys != before.Keys then kept + {id} else kept
    requires AllAnswer(ms, |ms|, id, entries)
    requires Rebuilt(ms, records, where, before)
    requires Rebuilt(ms, records, where + (set r | r in entries), after)
    requires before.Keys <= after.Keys
    ensures CoversIds(ms, after.Keys, fulfilledIds, keepIds)
  {
    forall r | r in after && r !in before
      ensures r < |ms| && IsResult(ms[r], id)
    {
      assert r in entries;
    }
    if after.Keys != before.Keys {
      var r :| r in after.Keys && r !in before.Keys;
      assert RepairedId(ms, after.Keys, id);
    }
  }

  lemma AllFiled(ms: seq<Message>, order: seq<string>, results: map<string, seq<nat>>)
    requires FilesResults(ms, |ms|, results) && OrdersKeys(order, results)
    ensures Filed(order, results, |order|) == ResultPositions(ms)
  {
    forall r: nat
      ensures r in Filed(order, results, |order|) <==> r in ResultPositions(ms)
    {
      FiledAt(order, results, |order|, r);
      if r < |ms| && ms[r].ToolResult? && ms[r].callId != "" {
        var k :| 0 <= k < |order| && order[k] == ms[r].callId;
      }
    }
  }

  /** The whole repair, pass by pass. */
  method RepairMessageSequence(ms: seq<Message>, records: map<string, CallRecord>) returns (final: seq<Message>)
    ensures final == Repair(ms, records)
  {
    if ms == [] {
      return ms;
    }
    var declarations, order, results := Survey(ms);
    var keep, fulfilledIds := KeepFulfilled(ms, declarations, results);
    var repaired, keepIds := RebuildOrphans(ms, records, declarations, order, results, fulfilledIds);
    final := BuildFinal(ms, keep, repaired, keepIds);
    BuiltIsRepair(ms, records, keep, repaired, keepIds, |ms|);
  }

  ghost predicate AreFulfilled(ms: seq<Message>, keep: set<nat>) {
    forall i :: i in keep <==> Fulfilled(ms, i)
  }

  ghost predicate AreKept(ms: seq<Message>, records: map<string, CallRecord>, keepIds: set<string>) {
    forall id :: id in keepIds <==> KeptId(ms, records, id)
  }

  /** What the last pass appends for one message. */
  function One(ms: seq<Message>, keep: set<nat>, repaired: map<nat, Message>, keepIds: set<string>,
    i: nat): seq<Message>
    requires i < |ms|
  {
    var m := ms[i];
    if m.Assistant? && m.calls != [] then if i in keep then [m] else []
    else if m.ToolResult? then if m.callId in keepIds then (if i in repaired then [repaired[i]] else []) + [m] else []
    else [m]
  }

  function BuiltTo(ms: seq<Message>, keep: set<nat>, repaired: map<nat, Message>, keepIds: set<string>,
    n: nat): seq<Message>
    requires n <= |ms|
  {
    if n == 0 then [] else BuiltTo(ms, keep, repaired, keepIds, n - 1) + One(ms, keep, repaired, keepIds, n - 1)
  }

  /** Last pass: build the repaired list. */
  method BuildFinal(ms: seq<Message>, keep: set<nat>, repaired: map<nat, Message>, keepIds: set<string>)
    returns (final: seq<Message>)
    ensures final == BuiltTo(ms, keep, repaired, keepIds, |ms|)
  {
    final := [];
    for idx := 0 to |ms|
      invariant final == BuiltTo(ms, keep, repaired, keepIds, idx)
    {
      var m := ms[idx];
      if m.Assistant? && m.calls != [] {
        if idx in keep {
          final := final + [m];
        }
      } else if m.ToolResult? {
        if m.callId in keepIds {
          if idx in repaired {
            final := final + [repaired[idx]];
          }
          final := final + [m];
        }
      } else {
        final := final + [m];
      }
    }
  }

  lemma {:induction false} BuiltIsRepair(
    ms: seq<Message>, records: map<string, CallRecord>, keep: set<nat>, repaired: map<nat, Message>,
      keepIds: set<string>, n: nat)
    requires n <= |ms| && forall i | 0 <= i < |ms| :: One(ms, keep, repaired, keepIds, i) == Emit(ms, records, i)
    ensures BuiltTo(ms, keep, repaired, keepIds, n) == RepairTo(ms, records, n)
  {
    if n > 0 {
      BuiltIsRepair(ms, records, keep, repaired, keepIds, n - 1);
    }
  }

  // ---- positions in the repaired list --------------------------------------------------------------

  ghost function Start(ms: seq<Message>, records: map<string, CallRecord>, i: nat): nat
    requires i <= |ms|
  {
    |RepairTo(ms, records, i)|
  }

  lemma {:induction false} PrefixOf(ms: seq<Message>, records: map<string, CallRecord>, i: nat, n: nat)
    requires i <= n <= |ms|
    ensures RepairTo(ms, records, i) <= RepairTo(ms, records, n)
    decreases n
  {
    if i < n {
      PrefixOf(ms, records, i, n - 1);
    }
  }

  /** What message `i` becomes stands from `Start(i)` to `Start(i + 1)`. */
  lemma Lands(ms: seq<Message>, records: map<string, CallRecord>, i: nat)
    requires i < |ms|
    ensures Start(ms, records, i) + |Emit(ms, records, i)| == Start(ms, records, i + 1) <= |Repair(ms, records)|
  {
    PrefixOf(ms, records, i + 1, |ms|);
  }

  /** Its k-th part stands at `Start(i) + k`. */
  lemma LandsAt(ms: seq<Message>, records: map<string, CallRecord>, i: nat, k: nat)
    requires i < |ms| && k < |Emit(ms, records, i)|
    ensures Start(ms, records, i) + k < |Repair(ms, records)|
    ensures Repair(ms, records)[Start(ms, records, i) + k] == Emit(ms, records, i)[k]
  {
    PrefixOf(ms, records, i + 1, |ms|);
    var p := RepairTo(ms, records, i + 1);
    assert p == RepairTo(ms, records, i) + Emit(ms, records, i);
    assert Repair(ms, records)[Start(ms, records, i) + k] == p[Start(ms, records, i) + k];
  }

  lemma StartMonotone(ms: seq<Message>, records: map<string, CallRecord>, i: nat, n: nat)
    requires i <= n <= |ms|
    ensures Start(ms, records, i) <= Start(ms, records, n)
  {
    PrefixOf(ms, records, i, n);
  }

  /** Every position of the repaired list comes from one input message. */
  lemma {:induction false} Origin(ms: seq<Message>, records: map<string, CallRecord>, n: nat, j: nat) returns (i: nat)
    requires n <= |ms| && j < |RepairTo(ms, records, n)|
    ensures i < n && Start(ms, records, i) <= j < Start(ms, records, i + 1)
  {
    if j < Start(ms, records, n - 1) {
      i := Origin(ms, records, n - 1, j);
    } else {
      i := n - 1;
    }
  }

  /** A result whose id is kept is in the output, at the last position of what it became. */
  lemma KeptResultLands(ms: seq<Message>, records: map<string, CallRecord>, r: nat)
    requires r < |ms| && ms[r].ToolResult? && KeptId(ms, records, ms[r].callId)
    ensures Start(ms, records, r) <= Start(ms, records, r + 1) - 1 < |Repair(ms, records)|
    ensures Repair(ms, records)[Start(ms, records, r + 1) - 1] == ms[r]
  {
    Lands(ms, records, r);
    LandsAt(ms, records, r, |Emit(ms, records, r)| - 1);
  }

  /** A kept result behind message `i` is in the output, behind what `i` became. */
  lemma ResultAfter(ms: seq<Message>, records: map<string, CallRecord>, i: nat, r: nat)
    requires i < r < |ms| && ms[r].ToolResult? && KeptId(ms, records, ms[r].callId)
    ensures Start(ms, records, i + 1) <= Start(ms, records, r + 1) - 1 < |Repair(ms, records)|
    ensures Repair(ms, records)[Start(ms, records, r + 1) - 1] == ms[r]
  {
    StartMonotone(ms, records, i + 1, r);
    KeptResultLands(ms, records, r);
  }

  lemma StillAnswered(ms: seq<Message>, records: map<string, CallRecord>, i: nat, id: string)
    requires Fulfilled(ms, i) && id in CallIds(ms[i]) && Start(ms, records, i) < Start(ms, records, i + 1)
    ensures AnsweredAfter(Repair(ms, records), Start(ms, records, i), id)
  {
    var r :| 0 <= r < |ms| && i < r && IsResult(ms[r], id);
    assert DeclaredFulfilled(ms, id);
    ResultAfter(ms, records, i, r);
    assert IsResult(Repair(ms, records)[Start(ms, records, r + 1) - 1], id);
  }

  /** A fulfilled declaration is in the output and still fulfilled there. */
  lemma FulfilledSurvives(ms: seq<Message>, records: map<string, CallRecord>, i: nat)
    requires Fulfilled(ms, i)
    ensures Start(ms, records, i) < |Repair(ms, records)|
    ensures Repair(ms, records)[Start(ms, records, i)] == ms[i]
    ensures Fulfilled(Repair(ms, records), Start(ms, records, i))
  {
    Lands(ms, records, i);
    LandsAt(ms, records, i, 0);
    forall id | id in CallIds(ms[i])
      ensures AnsweredAfter(Repair(ms, records), Start(ms, records, i), id)
    {
      StillAnswered(ms, records, i, id);
    }
  }

  /** A rebuilt declaration stands right in front of its result, which answers it: an assistant without text and
      with one call, of the result's id, the record's tool, and the record's arguments or, when there are none, an
      empty object. */
  lemma RebuiltIsFulfilled(ms: seq<Message>, records: map<string, CallRecord>, r: nat)
    requires Repairable(ms, records, r)
    ensures Start(ms, records, r) + 1 < |Repair(ms, records)|
    ensures Repair(ms, records)[Start(ms, records, r) + 1] == ms[r]
    ensures var record, d := records[ms[r].callId], Repair(ms, records)[Start(ms, records, r)];
            && d.Assistant? && d.text == "" && |d.calls| == 1
            && d.calls[0].id == ms[r].callId && d.calls[0].name == record.tool
            && (record.args != "" ==> d.calls[0].args == record.args)
            && (record.args == "" ==> d.calls[0].args == "{}")
    ensures Fulfilled(Repair(ms, records), Start(ms, records, r))
    ensures CallIds(Repair(ms, records)[Start(ms, records, r)]) == {ms[r].callId}
  {
    var out, s, id := Repair(ms, records), Start(ms, records, r), ms[r].callId;
    assert KeptId(ms, records, id);
    LandsAt(ms, records, r, 0);
    LandsAt(ms, records, r, 1);
    assert out[s].calls[0] in out[s].calls;
    assert CallIds(out[s]) == {id};
    assert IsResult(out[s + 1], id);
  }

  /** A result survives exactly when its id has a fulfilled declaration, or a record and some result of that id with no
      declaration in front of it. */
  lemma ResultSurvivesIff(ms: seq<Message>, records: map<string, CallRecord>, r: nat)
    requires r < |ms| && ms[r].ToolResult?
    ensures var id := ms[r].callId;
            ms[r] in Repair(ms, records) <==>
              DeclaredFulfilled(ms, id)
              || (id != "" && id in records && exists q :: FirstHeard(ms, id, q))
  {
    var id := ms[r].callId;
    assert KeptId(ms, records, id) <==>
        DeclaredFulfilled(ms, id) || (id != "" && id in records && exists q :: FirstHeard(ms, id, q)) by {
      if !DeclaredFulfilled(ms, id) && id != "" && id in records && exists q :: FirstHeard(ms, id, q) {
        var q :| FirstHeard(ms, id, q);
        assert Repairable(ms, records, q);
      }
      if !DeclaredFulfilled(ms, id) && KeptId(ms, records, id) {
        var q :| Repairable(ms, records, q) && ms[q].callId == id;
        assert FirstHeard(ms, id, q);
      }
    }
    if KeptId(ms, records, id) {
      KeptResultLands(ms, records, r);
    }
    if ms[r] in Repair(ms, records) {
      var j :| 0 <= j < |Repair(ms, records)| && Repair(ms, records)[j] == ms[r];
      var i, k := EmittedFrom(ms, records, j);
    }
  }

  /** A result of `id` that no declaration of it precedes. */
  ghost predicate FirstHeard(ms: seq<Message>, id: string, q: int) {
    0 <= q < |ms| && IsResult(ms[q], id) && !DeclaredBefore(ms, q, id)
  }

  /** Nothing is made up: every message of the output is one of the input, or a declaration right in front of a result
      of its id that had a record and no declaration before it. */
  lemma NothingMadeUp(ms: seq<Message>, records: map<string, CallRecord>, j: nat)
    requires j < |Repair(ms, records)|
    ensures var out := Repair(ms, records);
            || out[j] in ms
            || (j + 1 < |out| && out[j + 1] in ms && out[j].Assistant?
                && exists q :: out[j + 1].ToolResult? && FirstHeard(ms, out[j + 1].callId, q)
                               && out[j + 1] == ms[q] && out[j + 1].callId in records)
  {
    var i, k := EmittedFrom(ms, records, j);
    if Repair(ms, records)[j] != ms[i] {
      assert Repairable(ms, records, i) && k == 0;
      RebuiltIsFulfilled(ms, records, i);
      assert FirstHeard(ms, ms[i].callId, i);
    }
  }

  // ---- main results --------------------------------------------------------------------------------

  /** The provider's rule: each assistant that declares calls is answered for every id, each result is declared. */
  ghost predicate Settled(ms: seq<Message>) {
    forall i | 0 <= i < |ms| :: SettledAt(ms, i)
  }

  ghost predicate SettledAt(ms: seq<Message>, i: nat)
    requires i < |ms|
  {
    && (ms[i].Assistant? && ms[i].calls != [] ==> Fulfilled(ms, i))
    && (ms[i].ToolResult? ==> ms[i].callId != "" && DeclaredFulfilled(ms, ms[i].callId))
  }

  /** Call `id` of message `i` is answered by a later tool message. */
  predicate AnsweredLater(ms: seq<Message>, i: nat, id: string) {
    exists r | 0 <= r < |ms| :: r > i && ms[r].ToolResult? && ms[r].callId == id
  }

  /** Message `i` declares calls with ids, and every one of them is answered later. */
  predicate DeclaresAnswered(ms: seq<Message>, i: nat)
    requires i < |ms|
  {
    && ms[i].Assistant? && (exists c | c in ms[i].calls :: c.id != "")
    && forall c | c in ms[i].calls && c.id != "" :: AnsweredLater(ms, i, c.id)
  }

  /** The rule call by call: every assistant with calls has them all answered later, and every tool message answers
      a call of such an assistant. */
  predicate Rule(ms: seq<Message>) {
    && (forall i | 0 <= i < |ms| && ms[i].Assistant? && ms[i].calls != [] :: DeclaresAnswered(ms, i))
    && (forall r | 0 <= r < |ms| && ms[r].ToolResult? :: ms[r].callId != "" && DeclaredSomewhere(ms, ms[r].callId))
  }

  predicate DeclaredSomewhere(ms: seq<Message>, id: string) {
    exists i | 0 <= i < |ms| :: DeclaresAnswered(ms, i) && exists c | c in ms[i].calls :: c.id == id
  }

  lemma FulfilledIff(ms: seq<Message>, i: nat)
    requires i < |ms|
    ensures Fulfilled(ms, i) <==> DeclaresAnswered(ms, i)
  {
    if ms[i].Assistant? {
      assert CallIds(ms[i]) != {} <==> exists c | c in ms[i].calls :: c.id != "" by {
        if c :| c in ms[i].calls && c.id != "" {
          assert c.id in CallIds(ms[i]);
        }
      }
      forall c | c in ms[i].calls && c.id != ""
        ensures c.id in CallIds(ms[i]) && (AnsweredLater(ms, i, c.id) <==> AnsweredAfter(ms, i, c.id))
      {
        AnsweredIff(ms, i, c.id);
      }
    }
  }

  lemma AnsweredIff(ms: seq<Message>, i: nat, id: string)
    requires id != ""
    ensures AnsweredLater(ms, i, id) <==> AnsweredAfter(ms, i, id)
  {
    if AnsweredLater(ms, i, id) {
      var r :| 0 <= r < |ms| && r > i && ms[r].ToolResult? && ms[r].callId == id;
      assert IsResult(ms[r], id);
    }
  }

  lemma DeclaredIff(ms: seq<Message>, id: string)
    requires id != ""
    ensures DeclaredFulfilled(ms, id) <==> DeclaredSomewhere(ms, id)
  {
    forall i | 0 <= i < |ms|
      ensures Fulfilled(ms, i) <==> DeclaresAnswered(ms, i)
    {
      FulfilledIff(ms, i);
    }
    if DeclaredFulfilled(ms, id) {
      var i :| Fulfilled(ms, i) && id in CallIds(ms[i]);
      assert DeclaresAnswered(ms, i);
      var c :| c in ms[i].calls && c.id == id;
    }
    if DeclaredSomewhere(ms, id) {
      var i :| 0 <= i < |ms| && DeclaresAnswered(ms, i) && exists c | c in ms[i].calls :: c.id == id;
      assert Fulfilled(ms, i);
      var c :| c in ms[i].calls && c.id == id;
      assert c.id in CallIds(ms[i]);
    }
  }

  /** The two ways of saying it agree. */
  lemma SettledIffRule(ms: seq<Message>)
    ensures Settled(ms) <==> Rule(ms)
  {
    forall i | 0 <= i < |ms|
      ensures SettledAt(ms, i) <==>
                && (ms[i].Assistant? && ms[i].calls != [] ==> DeclaresAnswered(ms, i))
                && (ms[i].ToolResult? ==> ms[i].callId != "" && DeclaredSomewhere(ms, ms[i].callId))
    {
      FulfilledIff(ms, i);
      if ms[i].ToolResult? && ms[i].callId != "" {
        DeclaredIff(ms, ms[i].callId);
      }
    }
    if Settled(ms) {
      assert forall i | 0 <= i < |ms| :: SettledAt(ms, i);
    }
  }

  /** Every output of the repair obeys the rule, whatever the input and whatever records exist. */
  lemma RepairSettles(ms: seq<Message>, records: map<string, CallRecord>)
    ensures Settled(Repair(ms, records))
  {
    forall j | 0 <= j < |Repair(ms, records)|
      ensures SettledAt(Repair(ms, records), j)
    {
      var i, k := EmittedFrom(ms, records, j);
      EmittedIsSettled(ms, records, i, k);
    }
  }

  /** Every position of the output comes from one input message. */
  lemma EmittedFrom(ms: seq<Message>, records: map<string, CallRecord>, j: nat) returns (i: nat, k: nat)
    requires j < |Repair(ms, records)|
    ensures i < |ms| && k < |Emit(ms, records, i)| && j == Start(ms, records, i) + k
    ensures Repair(ms, records)[j] == Emit(ms, records, i)[k]
  {
    i := Origin(ms, records, |ms|, j);
    Lands(ms, records, i);
    k := j - Start(ms, records, i);
    LandsAt(ms, records, i, k);
  }

  lemma EmittedIsSettled(ms: seq<Message>, records: map<string, CallRecord>, i: nat, k: nat)
    requires i < |ms| && k < |Emit(ms, records, i)|
    requires Start(ms, records, i) + k < |Repair(ms, records)|
    requires Repair(ms, records)[Start(ms, records, i) + k] == Emit(ms, records, i)[k]
    ensures SettledAt(Repair(ms, records), Start(ms, records, i) + k)
  {
    if ms[i].Assistant? && ms[i].calls != [] {
      FulfilledSurvives(ms, records, i);
    } else if ms[i].ToolResult? {
      if Repairable(ms, records, i) {
        RebuiltIsFulfilled(ms, records, i);
      }
      KeptIdDeclared(ms, records, ms[i].callId);
    }
  }

  lemma KeptIdDeclared(ms: seq<Message>, records: map<string, CallRecord>, id: string)
    requires KeptId(ms, records, id)
    ensures id != "" && DeclaredFulfilled(Repair(ms, records), id)
  {
    if DeclaredFulfilled(ms, id) {
      var a :| Fulfilled(ms, a) && id in CallIds(ms[a]);
      FulfilledSurvives(ms, records, a);
    } else {
      var r :| Repairable(ms, records, r) && ms[r].callId == id;
      RebuiltIsFulfilled(ms, records, r);
    }
  }

  lemma SettledEmits(ms: seq<Message>, records: map<string, CallRecord>, i: nat)
    requires i < |ms| && SettledAt(ms, i)
    ensures Emit(ms, records, i) == [ms[i]]
  {
  }

  lemma {:induction false} SettledIsUntouched(ms: seq<Message>, records: map<string, CallRecord>, n: nat)
    requires Settled(ms) && n <= |ms|
    ensures RepairTo(ms, records, n) == ms[..n]
  {
    if n > 0 {
      SettledIsUntouched(ms, records, n - 1);
      SettledEmits(ms, records, n - 1);
    }
  }

  /** The lists the repair leaves alone are exactly the settled ones. */
  lemma FixedPointIffSettled(ms: seq<Message>, records: map<string, CallRecord>)
    ensures Repair(ms, records) == ms <==> Settled(ms)
  {
    RepairSettles(ms, records);
    if Settled(ms) {
      SettledIsUntouched(ms, records, |ms|);
    }
  }

  /** Repairing twice is repairing once, for every input and even if the records changed in between. */
  lemma RepairIsIdempotent(ms: seq<Message>, records: map<string, CallRecord>, later: map<string, CallRecord>)
    ensures Repair(Repair(ms, records), later) == Repair(ms, records)
  {
    RepairSettles(ms, records);
    FixedPointIffSettled(Repair(ms, records), later);
  }

  /** Messages outside tool calls. */
  predicate OutsideToolCalls(m: Message) {
    m.Plain? || (m.Assistant? && m.calls == [])
  }

  function Conversation(ms: seq<Message>): seq<Message> {
    if ms == [] then []
    else Conversation(ms[..|ms| - 1]) + (if OutsideToolCalls(ms[|ms| - 1]) then [ms[|ms| - 1]] else [])
  }

  lemma {:induction false} ConversationConcat(a: seq<Message>, b: seq<Message>)
    ensures Conversation(a + b) == Conversation(a) + Conversation(b)
  {
    if b == [] {
      assert a + b == a;
    } else {
      ConversationConcat(a, b[..|b| - 1]);
      assert (a + b)[..|a + b| - 1] == a + b[..|b| - 1];
    }
  }

  lemma ConversationOfEmit(ms: seq<Message>, records: map<string, CallRecord>, i: nat)
    requires i < |ms|
    ensures Conversation(Emit(ms, records, i)) == if OutsideToolCalls(ms[i]) then [ms[i]] else []
  {
    var e := Emit(ms, records, i);
    if |e| == 2 {
      assert e[..1] == [e[0]] && e[..1][..0] == [];
      assert e[..|e| - 1] == e[..1] && Conversation(e[..1]) == [];
    } else if |e| == 1 {
      assert e[..0] == [];
    }
  }

  /** Everything outside tool calls survives, in order, with nothing added to it. */
  lemma {:induction false} ConversationKept(ms: seq<Message>, records: map<string, CallRecord>, n: nat)
    requires n <= |ms|
    ensures Conversation(RepairTo(ms, records, n)) == Conversation(ms[..n])
  {
    if n > 0 {
      ConversationKept(ms, records, n - 1);
      var e := Emit(ms, records, n - 1);
      ConversationConcat(RepairTo(ms, records, n - 1), e);
      ConversationOfEmit(ms, records, n - 1);
      assert ms[..n][..n - 1] == ms[..n - 1];
    }
  }

  /** Each id's results come after a kept declaration of it, whenever it has one at all. */
  ghost predicate NoEarlyResult(ms: seq<Message>) {
    forall r | 0 <= r < |ms| && ms[r].ToolResult? && DeclaredFulfilled(ms, ms[r].callId) :: DeclaredInTime(ms, r)
  }

  ghost predicate DeclaredInTime(ms: seq<Message>, r: nat)
    requires r < |ms| && ms[r].ToolResult?
  {
    exists a :: a < r && Fulfilled(ms, a) && ms[r].callId in CallIds(ms[a])
  }

  ghost predicate EveryResultPreceded(ms: seq<Message>) {
    forall r | 0 <= r < |ms| && ms[r].ToolResult? :: DeclaredBefore(ms, r, ms[r].callId)
  }

  /** A declaration of `id` in the output is a fulfilled input declaration, unless the id had none. */
  lemma DeclarationOrigin(ms: seq<Message>, records: map<string, CallRecord>, j: nat, id: string) returns (i: nat)
    requires j < |Repair(ms, records)| && id in CallIds(Repair(ms, records)[j])
    ensures i < |ms| && Start(ms, records, i) <= j < Start(ms, records, i + 1)
    ensures DeclaredFulfilled(ms, id) ==> Fulfilled(ms, i) && id in CallIds(ms[i]) && j == Start(ms, records, i)
  {
    var k;
    i, k := EmittedFrom(ms, records, j);
    Lands(ms, records, i);
  }

  /** A fulfilled declaration in front of a kept result is in front of it in the output. */
  lemma FulfilledPrecedes(ms: seq<Message>, records: map<string, CallRecord>, a: nat, r: nat, id: string)
    requires a < r < |ms| && Fulfilled(ms, a) && id in CallIds(ms[a])
    requires ms[r].ToolResult? && KeptId(ms, records, ms[r].callId)
    ensures DeclaredBefore(Repair(ms, records), Start(ms, records, r + 1) - 1, id)
  {
    FulfilledSurvives(ms, records, a);
    LandsBefore(ms, records, a, r);
  }

  lemma LandsBefore(ms: seq<Message>, records: map<string, CallRecord>, a: nat, r: nat)
    requires a < r < |ms| && Fulfilled(ms, a)
    requires ms[r].ToolResult? && KeptId(ms, records, ms[r].callId)
    ensures Start(ms, records, a) < Start(ms, records, r + 1) - 1
  {
    Lands(ms, records, a);
    ResultAfter(ms, records, a, r);
    assert Emit(ms, records, a) == [ms[a]];
  }

  /** A result of the output stands at the end of what its input message became. */
  lemma ResultOrigin(ms: seq<Message>, records: map<string, CallRecord>, j: nat) returns (r: nat)
    requires j < |Repair(ms, records)| && Repair(ms, records)[j].ToolResult?
    ensures r < |ms| && ms[r] == Repair(ms, records)[j] && KeptId(ms, records, ms[r].callId)
    ensures j == Start(ms, records, r + 1) - 1
  {
    var k;
    r, k := EmittedFrom(ms, records, j);
  }

  /** A rebuilt declaration is in front of its own result and of every later kept one. */
  lemma RebuiltPrecedes(ms: seq<Message>, records: map<string, CallRecord>, q: nat, r: nat)
    requires q <= r < |ms| && Repairable(ms, records, q)
    requires ms[r].ToolResult? && KeptId(ms, records, ms[r].callId)
    ensures DeclaredBefore(Repair(ms, records), Start(ms, records, r + 1) - 1, ms[q].callId)
  {
    RebuiltIsFulfilled(ms, records, q);
    RebuiltBefore(ms, records, q, r);
  }

  lemma RebuiltBefore(ms: seq<Message>, records: map<string, CallRecord>, q: nat, r: nat)
    requires q <= r < |ms| && Repairable(ms, records, q)
    requires ms[r].ToolResult? && KeptId(ms, records, ms[r].callId)
    ensures Start(ms, records, q) < Start(ms, records, r + 1) - 1
  {
    Lands(ms, records, q);
    assert |Emit(ms, records, q)| == 2;
    if q < r {
      ResultAfter(ms, records, q, r);
    }
  }

  /** Without a kept declaration, some repairable result stands at or before any result of the same id. */
  lemma RepairableAtOrBefore(ms: seq<Message>, records: map<string, CallRecord>, r: nat) returns (q: nat)
    requires r < |ms| && ms[r].ToolResult? && KeptId(ms, records, ms[r].callId) && !DeclaredFulfilled(ms, ms[r].callId)
    ensures q <= r && Repairable(ms, records, q) && ms[q].callId == ms[r].callId
  {
    if Repairable(ms, records, r) {
      q := r;
    } else {
      // An earlier declaration of the id was dropped; the repaired result stands in front of it.
      q :| Repairable(ms, records, q) && ms[q].callId == ms[r].callId;
      assert ms[r].callId != "" && DeclaredBefore(ms, r, ms[r].callId);
      var d :| 0 <= d < |ms| && d < r && ms[r].callId in CallIds(ms[d]);
      assert q <= d;
    }
  }

  /** One result of the output, as seen from the input: preceded, given no result comes early. */
  lemma ResultPreceded(ms: seq<Message>, records: map<string, CallRecord>, r: nat)
    requires NoEarlyResult(ms)
    requires r < |ms| && ms[r].ToolResult? && KeptId(ms, records, ms[r].callId)
    ensures DeclaredBefore(Repair(ms, records), Start(ms, records, r + 1) - 1, ms[r].callId)
  {
    if DeclaredFulfilled(ms, ms[r].callId) {
      assert DeclaredInTime(ms, r);
      var a: nat :| a < r && Fulfilled(ms, a) && ms[r].callId in CallIds(ms[a]);
      FulfilledPrecedes(ms, records, a, r, ms[r].callId);
    } else {
      var q := RepairableAtOrBefore(ms, records, r);
      RebuiltPrecedes(ms, records, q, r);
    }
  }

  lemma PrecededWhenInTime(ms: seq<Message>, records: map<string, CallRecord>)
    requires NoEarlyResult(ms)
    ensures EveryResultPreceded(Repair(ms, records))
  {
    var out := Repair(ms, records);
    forall j | 0 <= j < |out| && out[j].ToolResult?
      ensures DeclaredBefore(out, j, out[j].callId)
    {
      var r := ResultOrigin(ms, records, j);
      ResultPreceded(ms, records, r);
    }
  }

  lemma InTimeWhenPreceded(ms: seq<Message>, records: map<string, CallRecord>, r: nat)
    requires EveryResultPreceded(Repair(ms, records))
    requires r < |ms| && ms[r].ToolResult? && DeclaredFulfilled(ms, ms[r].callId)
    ensures DeclaredInTime(ms, r)
  {
    var out, id, j := Repair(ms, records), ms[r].callId, Start(ms, records, r + 1) - 1;
    KeptResultLands(ms, records, r);
    assert DeclaredBefore(out, j, id);
    var d :| 0 <= d < |out| && d < j && id in CallIds(out[d]);
    var a := DeclarationOrigin(ms, records, d, id);
    if a > r {
      StartMonotone(ms, records, r + 1, a);
      assert false;
    }
  }

  /** Every kept result is preceded by a declaration exactly when no kept id has an early result in the input. */
  lemma PrecededIffNoEarlyResult(ms: seq<Message>, records: map<string, CallRecord>)
    ensures EveryResultPreceded(Repair(ms, records)) <==> NoEarlyResult(ms)
  {
    if NoEarlyResult(ms) {
      PrecededWhenInTime(ms, records);
    } else if EveryResultPreceded(Repair(ms, records)) {
      forall r | 0 <= r < |ms| && ms[r].ToolResult? && DeclaredFulfilled(ms, ms[r].callId)
        ensures DeclaredInTime(ms, r)
      {
        InTimeWhenPreceded(ms, records, r);
      }
    }
  }

  ghost predicate SingleResults(ms: seq<Message>) {
    forall p, q | 0 <= p < q < |ms| && ms[p].ToolResult? && ms[q].ToolResult? :: ms[p].callId != ms[q].callId
  }

  /** In particular when no call id has two results. */
  lemma SingleResultsArePreceded(ms: seq<Message>, records: map<string, CallRecord>)
    requires SingleResults(ms)
    ensures EveryResultPreceded(Repair(ms, records))
  {
    assert NoEarlyResult(ms);
    PrecededIffNoEarlyResult(ms, records);
  }

  /** With two results of one id, the first may be kept in front of its only declaration. */
  lemma EarlyResultExample()
    ensures var ms := [ToolResult("c", "", "old"), Assistant("", [Call("c", "t", "{}")]), ToolResult("c", "", "new")];
            Repair(ms, map[]) == ms && !EveryResultPreceded(ms)
  {
    var ms := [ToolResult("c", "", "old"), Assistant("", [Call("c", "t", "{}")]), ToolResult("c", "", "new")];
    assert ms[1].calls[0] in ms[1].calls;
    assert CallIds(ms[1]) == {"c"};
    assert IsResult(ms[2], "c");
    assert Fulfilled(ms, 1);
    FixedPointIffSettled(ms, map[]);
    assert ms[0].ToolResult? && !DeclaredBefore(ms, 0, "c");
  }
}
