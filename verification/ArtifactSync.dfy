/**
 The artifact rows of a message follow the artifact blocks parsed from its content
 (`parse_artifacts`, `sync_message_artifacts`).
 */
module ArtifactSync {

  const ASSISTANT_ROLES := {"agent"}

  datatype Fields = Fields(artifactType: string, title: string, language: string, content: string)

  /** A block found by one of the three tag parsers, and where. */
  datatype Block = Block(start: nat, fields: Fields)

  datatype Row = Row(message: string, index: int, fields: Fields, conversation: string, agent: string)

  datatype Message = Message(name: string, role: string, conversation: string, agent: string, blocks: seq<Fields>)

  // ---- parse: blocks in document order -----------------------------------------------------------------

  function Insert(b: Block, bs: seq<Block>): seq<Block> {
    if bs == [] || b.start < bs[0].start then [b] + bs else [bs[0]] + Insert(b, bs[1..])
  }

  /** The stable sort by position, filled from the left. */
  function SortByStart(bs: seq<Block>): seq<Block> {
    if bs == [] then [] else Insert(bs[|bs| - 1], SortByStart(bs[..|bs| - 1]))
  }

  function ParseArtifacts(tags: seq<Block>, webPreviews: seq<Block>, jsxPreviews: seq<Block>): seq<Fields> {
    var blocks := SortByStart(tags + webPreviews + jsxPreviews);
    seq(|blocks|, k requires 0 <= k < |blocks| => blocks[k].fields)
  }

  predicate Increasing(bs: seq<Block>) {
    forall j, k | 0 <= j < k < |bs| :: bs[j].start < bs[k].start
  }

  predicate Sorted(bs: seq<Block>) {
    forall j, k | 0 <= j < k < |bs| :: bs[j].start <= bs[k].start
  }

  lemma {:induction false} InsertHolds(b: Block, bs: seq<Block>)
    ensures multiset(Insert(b, bs)) == multiset(bs) + multiset{b}
  {
    if bs != [] && b.start >= bs[0].start {
      InsertHolds(b, bs[1..]);
      assert bs == [bs[0]] + bs[1..];
    }
  }

  lemma {:induction false} InsertSorted(b: Block, bs: seq<Block>)
    requires Sorted(bs)
    ensures Sorted(Insert(b, bs))
    ensures Insert(b, bs)[0] == if bs == [] || b.start < bs[0].start then b else bs[0]
  {
    if bs != [] && b.start >= bs[0].start {
      InsertSorted(b, bs[1..]);
      SortedCons(bs[0], Insert(b, bs[1..]));
    }
  }

  lemma SortedCons(b: Block, bs: seq<Block>)
    requires Sorted(bs) && (bs != [] ==> b.start <= bs[0].start)
    ensures Sorted([b] + bs)
  {
  }

  lemma {:induction false} SortKeeps(bs: seq<Block>)
    ensures Sorted(SortByStart(bs)) && multiset(SortByStart(bs)) == multiset(bs)
  {
    if bs != [] {
      var front, last := bs[..|bs| - 1], bs[|bs| - 1];
      SortKeeps(front);
      InsertSorted(last, SortByStart(front));
      InsertHolds(last, SortByStart(front));
      assert bs == front + [last];
    }
  }

  /** Two strictly increasing sequences with the same blocks are the same. */
  lemma {:induction false} DocumentOrderIsUnique(a: seq<Block>, b: seq<Block>)
    requires Increasing(a) && Increasing(b) && multiset(a) == multiset(b)
    ensures a == b
  {
    if a == [] {
      assert |b| == |multiset(b)| == 0;
    } else {
      assert |a| == |multiset(a)| == |multiset(b)| == |b|;
      SameFirst(a, b);
      TailHolds(a);
      TailHolds(b);
      DocumentOrderIsUnique(a[1..], b[1..]);
      assert a == [a[0]] + a[1..] && b == [b[0]] + b[1..];
    }
  }

  lemma SameFirst(a: seq<Block>, b: seq<Block>)
    requires Increasing(a) && Increasing(b) && a != [] && b != [] && multiset(a) == multiset(b)
    ensures a[0] == b[0]
  {
    assert a[0] in multiset(b) && b[0] in multiset(a);
    var j :| 0 <= j < |b| && b[j] == a[0];
    var k :| 0 <= k < |a| && a[k] == b[0];
  }

  lemma TailHolds(a: seq<Block>)
    requires a != []
    ensures multiset(a[1..]) == multiset(a) - multiset{a[0]}
  {
    assert a == [a[0]] + a[1..];
  }

  /** The parse lists every block found, in document order: whatever sequence holds the same blocks by strictly
      increasing position is the result, so the order of the three parsers does not matter. */
  lemma ParsedInDocumentOrder(tags: seq<Block>, webPreviews: seq<Block>, jsxPreviews: seq<Block>, document: seq<Block>)
    requires Increasing(document) && multiset(document) == multiset(tags + webPreviews + jsxPreviews)
    ensures ParseArtifacts(tags, webPreviews, jsxPreviews)
         == seq(|document|, k requires 0 <= k < |document| => document[k].fields)
  {
    var blocks := SortByStart(tags + webPreviews + jsxPreviews);
    SortKeeps(tags + webPreviews + jsxPreviews);
    SortedDistinctIncreases(blocks, document);
    DocumentOrderIsUnique(blocks, document);
  }

  lemma SortedDistinctIncreases(blocks: seq<Block>, document: seq<Block>)
    requires Sorted(blocks) && Increasing(document) && multiset(blocks) == multiset(document)
    ensures Increasing(blocks)
  {
    forall j, k | 0 <= j < k < |blocks|
      ensures blocks[j].start != blocks[k].start
    {
      if blocks[j].start == blocks[k].start {
        assert blocks[j] in multiset(document) && blocks[k] in multiset(document);
        assert blocks[j] == blocks[k];
        TwiceIn(blocks, j, k);
        OnceIn(document, blocks[j]);
      }
    }
  }

  lemma TwiceIn(bs: seq<Block>, j: nat, k: nat)
    requires j < k < |bs| && bs[j] == bs[k]
    ensures multiset(bs)[bs[j]] >= 2
  {
    assert bs == bs[..j] + [bs[j]] + bs[j + 1..k] + [bs[k]] + bs[k + 1..];
  }

  lemma {:induction false} OnceIn(bs: seq<Block>, b: Block)
    requires Increasing(bs)
    ensures multiset(bs)[b] <= 1
  {
    if bs != [] {
      OnceIn(bs[1..], b);
      assert bs == [bs[0]] + bs[1..];
      assert b == bs[0] ==> b !in bs[1..];
    }
  }

  // ---- the table and one sync --------------------------------------------------------------------------

  /** The artifact table, with the writes made so far. */
  datatype Table = Table(rows: map<nat, Row>, nextId: nat, writes: nat)

  predicate Valid(t: Table) {
    forall id | id in t.rows :: id < t.nextId
  }

  predicate IsOwn(rows: map<nat, Row>, m: Message, id: nat) {
    id in rows && rows[id].message == m.name
  }

  /** What the query returns: the rows of the message, each once. */
  ghost predicate IsListing(rows: map<nat, Row>, m: Message, listed: seq<nat>) {
    && (forall k | 0 <= k < |listed| :: IsOwn(rows, m, listed[k]))
    && (forall id | IsOwn(rows, m, id) :: id in listed)
    && (forall j, k | 0 <= j < k < |listed| :: listed[j] != listed[k])
  }

  /** The dictionary by index; of rows with the same index the last listed stays. */
  function ByIndex(rows: map<nat, Row>, listed: seq<nat>): map<int, nat>
  {
    if listed == [] then map[]
    else
      var last, dict := listed[|listed| - 1], ByIndex(rows, listed[..|listed| - 1]);
      if last in rows then dict[rows[last].index := last] else dict
  }

  function Wanted(m: Message, i: int): Row
    requires 0 <= i < |m.blocks|
  {
    Row(m.name, i, m.blocks[i], m.conversation, m.agent)
  }

  /** One block of the loop. */
  function Put(t: Table, dict: map<int, nat>, m: Message, i: nat): Table
    requires i < |m.blocks|
  {
    if i !in dict then Table(t.rows[t.nextId := Wanted(m, i)], t.nextId + 1, t.writes + 1)
    else if dict[i] in t.rows && t.rows[dict[i]] == Wanted(m, i) then t
    else t.(rows := t.rows[dict[i] := Wanted(m, i)], writes := t.writes + 1)
  }

  function PutAll(t: Table, dict: map<int, nat>, m: Message, k: nat): Table
    requires k <= |m.blocks|
  {
    if k == 0 then t else Put(PutAll(t, dict, m, k - 1), dict, m, k - 1)
  }

  function Surplus(dict: map<int, nat>, n: nat): set<int> {
    set i | i in dict && i >= n
  }

  function DropRows(t: Table, dict: map<int, nat>, indices: set<int>): Table
    requires indices <= dict.Keys
  {
    t.(rows := map id | id in t.rows && (forall i | i in indices :: dict[i] != id) :: t.rows[id],
      writes := t.writes + |indices|)
  }

  ghost function Synced(t: Table, listed: seq<nat>, m: Message): Table
    requires IsListing(t.rows, m, listed)
  {
    if m.role !in ASSISTANT_ROLES then t
    else
      var dict := ByIndex(t.rows, listed);
      DropRows(PutAll(t, dict, m, |m.blocks|), dict, Surplus(dict, |m.blocks|))
  }

  class ArtifactTable {
    var rows: map<nat, Row>
    var nextId: nat
    var writes: nat

    function Contents(): Table
      reads this
    {
      Table(rows, nextId, writes)
    }

    method SyncMessageArtifacts(m: Message, listed: seq<nat>) returns (count: nat)
      requires Valid(Contents()) && IsListing(rows, m, listed)
      modifies this
      ensures Contents() == Synced(old(Contents()), listed, m)
      ensures count == if m.role in ASSISTANT_ROLES then |m.blocks| else 0
    {
      if m.role !in ASSISTANT_ROLES {
        return 0;
      }
      var byIndex := IndexRows(listed);
      ByIndexIsRight(rows, m, listed);
      PlaceBlocks(m, byIndex);
      DeleteSurplus(byIndex, Surplus(byIndex, |m.blocks|));
      count := |m.blocks|;
    }

    method IndexRows(listed: seq<nat>) returns (byIndex: map<int, nat>)
      requires forall k | 0 <= k < |listed| :: listed[k] in rows
      ensures byIndex == ByIndex(rows, listed)
    {
      byIndex := map[];
      for k := 0 to |listed|
        invariant byIndex == ByIndex(rows, listed[..k])
      {
        assert listed[..k + 1][..k] == listed[..k];
        byIndex := byIndex[rows[listed[k]].index := listed[k]];
      }
      assert listed[..|listed|] == listed;
    }

    method PlaceBlocks(m: Message, byIndex: map<int, nat>)
      requires Valid(Contents()) && Indexed(rows, m, byIndex)
      modifies this
      ensures Contents() == PutAll(old(Contents()), byIndex, m, |m.blocks|)
    {
      ghost var start := Contents();
      for i := 0 to |m.blocks|
        invariant Contents() == PutAll(start, byIndex, m, i)
      {
        if i in byIndex {
          ChosenIsThere(start, byIndex, m, i);
          UpdateArtifactIfChanged(byIndex[i], i, m);
        } else {
          rows, nextId, writes := rows[nextId := Wanted(m, i)], nextId + 1, writes + 1;
        }
      }
    }

    method UpdateArtifactIfChanged(id: nat, i: nat, m: Message)
      requires i < |m.blocks| && id in rows && rows[id].message == m.name && rows[id].index == i
      modifies `rows, `writes
      ensures Contents() == Put(old(Contents()), map[i := id], m, i)
    {
      var row, block := rows[id], m.blocks[i];
      var changed := row;
      if row.fields.title != block.title { changed := changed.(fields := changed.fields.(title := block.title)); }
      if row.fields.language != block.language {
        changed := changed.(fields := changed.fields.(language := block.language));
      }
      if row.fields.artifactType != block.artifactType {
        changed := changed.(fields := changed.fields.(artifactType := block.artifactType));
      }
      if row.fields.content != block.content {
        changed := changed.(fields := changed.fields.(content := block.content));
      }
      if row.conversation != m.conversation { changed := changed.(conversation := m.conversation); }
      if row.agent != m.agent { changed := changed.(agent := m.agent); }
      if changed != row {
        rows, writes := rows[id := changed], writes + 1;
      }
    }

    method DeleteSurplus(byIndex: map<int, nat>, surplus: set<int>)
      requires surplus <= byIndex.Keys
      modifies `rows, `writes
      ensures Contents() == DropRows(old(Contents()), byIndex, surplus)
    {
      ghost var start := Contents();
      var done: set<int> := {};
      while done != surplus
        invariant done <= surplus && Contents() == DropRows(start, byIndex, done)
        decreases surplus - done
      {
        var index := PickIndex(surplus - done);
        DropOneMore(start, Contents(), byIndex, done, index);
        rows, writes := map id | id in rows && id != byIndex[index] :: rows[id], writes + 1;
        done := done + {index};
      }
    }
  }

  method PickIndex(indices: set<int>) returns (index: int)
    requires indices != {}
    ensures index in indices
  {
    HasElement(indices);
    index :| index in indices;
  }

  lemma HasElement(indices: set<int>)
    requires indices != {}
    ensures exists i :: i in indices
  {
    assert (forall i :: i !in indices) ==> indices == {};
  }

  lemma DropOneMore(t: Table, p: Table, dict: map<int, nat>, dropped: set<int>, index: int)
    requires dropped <= dict.Keys && index in dict && index !in dropped && p == DropRows(t, dict, dropped)
    ensures DropRows(t, dict, dropped + {index})
         == Table(map id | id in p.rows && id != dict[index] :: p.rows[id], p.nextId, p.writes + 1)
  {
    assert DropRows(t, dict, dropped + {index}).rows == map id | id in p.rows && id != dict[index] :: p.rows[id];
  }

  lemma ChosenIsThere(t: Table, dict: map<int, nat>, m: Message, i: nat)
    requires Valid(t) && Indexed(t.rows, m, dict) && i < |m.blocks| && i in dict
    ensures EntryOf(PutAll(t, dict, m, i).rows, m, dict[i], i)
  {
    PutAllRows(t, dict, m, i);
    assert OldRow(t, PutAll(t, dict, m, i), dict, m, i, dict[i]);
  }

  // ---- what the dictionary holds -----------------------------------------------------------------------

  predicate EntryOf(rows: map<nat, Row>, m: Message, id: nat, i: int) {
    IsOwn(rows, m, id) && rows[id].index == i
  }

  /** The dictionary's entries are rows of the message at that index, and every index of the message is in it. */
  ghost predicate Indexed(rows: map<nat, Row>, m: Message, dict: map<int, nat>) {
    && (forall i | i in dict :: EntryOf(rows, m, dict[i], i))
    && (forall id | IsOwn(rows, m, id) :: rows[id].index in dict)
  }

  lemma {:induction false} ByIndexOfPrefix(rows: map<nat, Row>, m: Message, listed: seq<nat>)
    requires forall k | 0 <= k < |listed| :: IsOwn(rows, m, listed[k])
    ensures forall i | i in ByIndex(rows, listed) :: EntryOf(rows, m, ByIndex(rows, listed)[i], i)
    ensures forall k | 0 <= k < |listed| :: IsOwn(rows, m, listed[k]) && rows[listed[k]].index in ByIndex(rows, listed)
  {
    if listed != [] {
      ByIndexOfPrefix(rows, m, listed[..|listed| - 1]);
    }
  }

  lemma ByIndexIsRight(rows: map<nat, Row>, m: Message, listed: seq<nat>)
    requires IsListing(rows, m, listed)
    ensures Indexed(rows, m, ByIndex(rows, listed))
  {
    ByIndexOfPrefix(rows, m, listed);
  }

  // ---- what the loop leaves ----------------------------------------------------------------------------

  /** How many of the indices below `k` have no row. */
  function Missing(dict: map<int, nat>, k: nat): nat {
    if k == 0 then 0 else Missing(dict, k - 1) + if k - 1 in dict then 0 else 1
  }

  /** A row that was there is rewritten when it is the one chosen for an index below `k`, and left alone otherwise. */
  predicate OldRow(t: Table, p: Table, dict: map<int, nat>, m: Message, k: nat, id: nat)
    requires k <= |m.blocks|
  {
    id in t.rows ==>
      && id in p.rows
      && p.rows[id] == if t.rows[id].message == m.name && 0 <= t.rows[id].index < k && t.rows[id].index in dict
                          && dict[t.rows[id].index] == id
                       then Wanted(m, t.rows[id].index) else t.rows[id]
  }

  /** A row that is new was made for one index that had none. */
  predicate NewRow(t: Table, p: Table, dict: map<int, nat>, m: Message, k: nat, id: nat)
    requires k <= |m.blocks|
  {
    id in p.rows && id !in t.rows ==>
      && 0 <= p.rows[id].index < k && p.rows[id].index !in dict
      && p.rows[id] == Wanted(m, p.rows[id].index) && id == t.nextId + Missing(dict, p.rows[id].index)
  }

  predicate Made(t: Table, p: Table, dict: map<int, nat>, i: nat) {
    i !in dict ==> t.nextId + Missing(dict, i) in p.rows && p.rows[t.nextId + Missing(dict, i)].index == i
  }

  ghost predicate PutRight(t: Table, p: Table, dict: map<int, nat>, m: Message, k: nat)
    requires k <= |m.blocks|
  {
    && Valid(p) && p.nextId == t.nextId + Missing(dict, k)
    && (forall id :: OldRow(t, p, dict, m, k, id))
    && (forall id :: NewRow(t, p, dict, m, k, id))
    && (forall i | 0 <= i < k :: Made(t, p, dict, i))
  }

  lemma {:induction false} MissingGrows(dict: map<int, nat>, i: nat, k: nat)
    requires i < k
    ensures Missing(dict, i) <= Missing(dict, k) && (i !in dict ==> Missing(dict, i) < Missing(dict, k))
  {
    if i < k - 1 {
      MissingGrows(dict, i, k - 1);
    }
  }

  lemma {:induction false} PutAllRows(t: Table, dict: map<int, nat>, m: Message, k: nat)
    requires Valid(t) && Indexed(t.rows, m, dict) && k <= |m.blocks|
    ensures PutRight(t, PutAll(t, dict, m, k), dict, m, k)
  {
    if k > 0 {
      PutAllRows(t, dict, m, k - 1);
      PutStaysRight(t, PutAll(t, dict, m, k - 1), dict, m, k - 1);
    }
  }

  lemma PutStaysRight(t: Table, p: Table, dict: map<int, nat>, m: Message, i: nat)
    requires Valid(t) && Indexed(t.rows, m, dict) && i < |m.blocks| && PutRight(t, p, dict, m, i)
    ensures PutRight(t, Put(p, dict, m, i), dict, m, i + 1)
  {
    var q := Put(p, dict, m, i);
    var k := i + 1;
    forall id
      ensures OldRow(t, q, dict, m, k, id)
    {
      assert OldRow(t, p, dict, m, i, id);
    }
    forall id
      ensures NewRow(t, q, dict, m, k, id)
    {
      assert NewRow(t, p, dict, m, i, id);
    }
    forall j | 0 <= j < i + 1
      ensures Made(t, q, dict, j)
    {
      if j < i {
        assert Made(t, p, dict, j);
        MissingGrows(dict, j, i);
      }
    }
  }

  // ---- the result --------------------------------------------------------------------------------------

  ghost predicate UniqueIndices(rows: map<nat, Row>, m: Message) {
    forall a, b | IsOwn(rows, m, a) && IsOwn(rows, m, b) && rows[a].index == rows[b].index :: a == b
  }

  ghost predicate NoNegative(rows: map<nat, Row>, m: Message) {
    forall id | IsOwn(rows, m, id) :: rows[id].index >= 0
  }

  /** The row stands for one of the parsed blocks. */
  predicate Stands(rows: map<nat, Row>, m: Message, id: nat) {
    IsOwn(rows, m, id) ==>
      && 0 <= rows[id].index < |m.blocks| && rows[id].fields == m.blocks[rows[id].index]
      && rows[id].conversation == m.conversation && rows[id].agent == m.agent
  }

  ghost predicate HasRow(rows: map<nat, Row>, m: Message, i: nat) {
    exists id | IsOwn(rows, m, id) :: rows[id].index == i
  }

  /** The rows of the message are exactly one for each parsed block, with its index and fields. */
  ghost predicate Exact(rows: map<nat, Row>, m: Message) {
    && (forall id | IsOwn(rows, m, id) :: Stands(rows, m, id))
    && (forall i | 0 <= i < |m.blocks| :: HasRow(rows, m, i))
    && UniqueIndices(rows, m)
  }

  /** A row of the message after the sync is the chosen row of its index, a new row, or one the dictionary lost. */
  lemma OwnAfter(t: Table, listed: seq<nat>, m: Message, id: nat)
    requires Valid(t) && IsListing(t.rows, m, listed) && m.role in ASSISTANT_ROLES
    requires UniqueIndices(t.rows, m) && NoNegative(t.rows, m)
    requires IsOwn(Synced(t, listed, m).rows, m, id)
    ensures var q := Synced(t, listed, m); var dict := ByIndex(t.rows, listed);
            && Stands(q.rows, m, id)
            && id == if q.rows[id].index in dict then dict[q.rows[id].index]
              else t.nextId + Missing(dict, q.rows[id].index)
  {
    var dict := ByIndex(t.rows, listed);
    var p := PutAll(t, dict, m, |m.blocks|);
    ByIndexIsRight(t.rows, m, listed);
    PutAllRows(t, dict, m, |m.blocks|);
    assert OldRow(t, p, dict, m, |m.blocks|, id) && NewRow(t, p, dict, m, |m.blocks|, id);
    if id in t.rows {
      assert IsOwn(t.rows, m, id);
      assert IsOwn(t.rows, m, dict[t.rows[id].index]);
    }
  }

  lemma RowForEach(t: Table, listed: seq<nat>, m: Message, i: nat)
    requires Valid(t) && IsListing(t.rows, m, listed) && m.role in ASSISTANT_ROLES && i < |m.blocks|
    ensures HasRow(Synced(t, listed, m).rows, m, i)
  {
    var dict := ByIndex(t.rows, listed);
    var p := PutAll(t, dict, m, |m.blocks|);
    ByIndexIsRight(t.rows, m, listed);
    PutAllRows(t, dict, m, |m.blocks|);
    var id := if i in dict then dict[i] else t.nextId + Missing(dict, i);
    assert Made(t, p, dict, i) && OldRow(t, p, dict, m, |m.blocks|, id) && NewRow(t, p, dict, m, |m.blocks|, id);
    assert IsOwn(Synced(t, listed, m).rows, m, id);
  }

  lemma SyncIsExact(t: Table, listed: seq<nat>, m: Message)
    requires Valid(t) && IsListing(t.rows, m, listed) && m.role in ASSISTANT_ROLES
    requires UniqueIndices(t.rows, m) && NoNegative(t.rows, m)
    ensures Exact(Synced(t, listed, m).rows, m)
  {
    var q := Synced(t, listed, m);
    forall id | IsOwn(q.rows, m, id)
      ensures Stands(q.rows, m, id)
    {
      OwnAfter(t, listed, m, id);
    }
    forall i | 0 <= i < |m.blocks|
      ensures HasRow(q.rows, m, i)
    {
      RowForEach(t, listed, m, i);
    }
    forall a, b | IsOwn(q.rows, m, a) && IsOwn(q.rows, m, b) && q.rows[a].index == q.rows[b].index
      ensures a == b
    {
      OwnAfter(t, listed, m, a);
      OwnAfter(t, listed, m, b);
    }
  }

  /** A row that the dictionary lost to another of its index, or that has a negative index, stays as it was. */
  lemma StaysBehind(t: Table, listed: seq<nat>, m: Message, id: nat)
    requires Valid(t) && IsListing(t.rows, m, listed) && IsOwn(t.rows, m, id)
    requires var dict := ByIndex(t.rows, listed);
             t.rows[id].index < 0 || (t.rows[id].index in dict && dict[t.rows[id].index] != id)
    ensures id in Synced(t, listed, m).rows && Synced(t, listed, m).rows[id] == t.rows[id]
  {
    var dict := ByIndex(t.rows, listed);
    var p := PutAll(t, dict, m, |m.blocks|);
    ByIndexIsRight(t.rows, m, listed);
    PutAllRows(t, dict, m, |m.blocks|);
    assert OldRow(t, p, dict, m, |m.blocks|, id);
  }

  /** A message of anybody but the agent is not looked at. */
  lemma OnlyAgentMessages(t: Table, listed: seq<nat>, m: Message)
    requires IsListing(t.rows, m, listed) && m.role != "agent"
    ensures Synced(t, listed, m) == t
  {
  }

  /** Exactly when no two rows of the message shared an index and none was negative does the sync leave one row per
      parsed block and no other. */
  lemma SyncIsExactIff(t: Table, listed: seq<nat>, m: Message)
    requires Valid(t) && IsListing(t.rows, m, listed) && m.role in ASSISTANT_ROLES
    ensures Exact(Synced(t, listed, m).rows, m) <==> UniqueIndices(t.rows, m) && NoNegative(t.rows, m)
  {
    var q := Synced(t, listed, m);
    if UniqueIndices(t.rows, m) && NoNegative(t.rows, m) {
      SyncIsExact(t, listed, m);
    } else if !NoNegative(t.rows, m) {
      var id :| IsOwn(t.rows, m, id) && t.rows[id].index < 0;
      StaysBehind(t, listed, m, id);
      assert IsOwn(q.rows, m, id) && !Stands(q.rows, m, id);
    } else {
      var a, b :| IsOwn(t.rows, m, a) && IsOwn(t.rows, m, b) && t.rows[a].index == t.rows[b].index && a != b;
      TwinStaysBehind(t, listed, m, a, b);
    }
  }

  lemma TwinStaysBehind(t: Table, listed: seq<nat>, m: Message, a: nat, b: nat)
    requires Valid(t) && IsListing(t.rows, m, listed) && m.role in ASSISTANT_ROLES
    requires IsOwn(t.rows, m, a) && IsOwn(t.rows, m, b) && t.rows[a].index == t.rows[b].index && a != b
    ensures !Exact(Synced(t, listed, m).rows, m)
  {
    var q, dict := Synced(t, listed, m), ByIndex(t.rows, listed);
    var i := t.rows[a].index;
    ByIndexIsRight(t.rows, m, listed);
    var id := if dict[i] == a then b else a;
    StaysBehind(t, listed, m, id);
    assert IsOwn(q.rows, m, id);
    if 0 <= i < |m.blocks| {
      ChosenStays(t, listed, m, i);
      assert IsOwn(q.rows, m, dict[i]);
    } else {
      assert !Stands(q.rows, m, id);
    }
  }

  lemma ChosenStays(t: Table, listed: seq<nat>, m: Message, i: nat)
    requires Valid(t) && IsListing(t.rows, m, listed) && m.role in ASSISTANT_ROLES
    requires i < |m.blocks| && i in ByIndex(t.rows, listed)
    ensures var q := Synced(t, listed, m);
            var id := ByIndex(t.rows, listed)[i];
            id in q.rows && q.rows[id] == Wanted(m, i)
  {
    var dict := ByIndex(t.rows, listed);
    var p := PutAll(t, dict, m, |m.blocks|);
    ByIndexIsRight(t.rows, m, listed);
    PutAllRows(t, dict, m, |m.blocks|);
    assert OldRow(t, p, dict, m, |m.blocks|, dict[i]);
  }

  /** Rows of other messages are not touched, and none appear. */
  lemma OthersUntouched(t: Table, listed: seq<nat>, m: Message, id: nat)
    requires Valid(t) && IsListing(t.rows, m, listed)
    ensures var q := Synced(t, listed, m);
            && (id in t.rows && t.rows[id].message != m.name ==> id in q.rows && q.rows[id] == t.rows[id])
            && (id in q.rows && q.rows[id].message != m.name ==> id in t.rows && q.rows[id] == t.rows[id])
  {
    var dict := ByIndex(t.rows, listed);
    var p := PutAll(t, dict, m, |m.blocks|);
    ByIndexIsRight(t.rows, m, listed);
    PutAllRows(t, dict, m, |m.blocks|);
    assert OldRow(t, p, dict, m, |m.blocks|, id) && NewRow(t, p, dict, m, |m.blocks|, id);
  }

  lemma {:induction false} PutAllOfExact(t: Table, dict: map<int, nat>, m: Message, k: nat)
    requires Indexed(t.rows, m, dict) && Exact(t.rows, m) && k <= |m.blocks|
    ensures PutAll(t, dict, m, k) == t
  {
    if k > 0 {
      PutAllOfExact(t, dict, m, k - 1);
      assert HasRow(t.rows, m, k - 1);
      assert Stands(t.rows, m, dict[k - 1]);
    }
  }

  lemma {:induction false} PutAllCounts(t: Table, dict: map<int, nat>, m: Message, k: nat)
    requires k <= |m.blocks|
    ensures PutAll(t, dict, m, k).writes >= t.writes
    ensures PutAll(t, dict, m, k).writes == t.writes ==> PutAll(t, dict, m, k) == t
  {
    if k > 0 {
      PutAllCounts(t, dict, m, k - 1);
    }
  }

  /** A sync that counts no write has changed nothing. */
  lemma ChangesAreWrites(t: Table, listed: seq<nat>, m: Message)
    requires IsListing(t.rows, m, listed)
    ensures Synced(t, listed, m).writes >= t.writes
    ensures Synced(t, listed, m).writes == t.writes ==> Synced(t, listed, m) == t
  {
    if m.role in ASSISTANT_ROLES {
      var dict := ByIndex(t.rows, listed);
      PutAllCounts(t, dict, m, |m.blocks|);
      var p := PutAll(t, dict, m, |m.blocks|);
      if Surplus(dict, |m.blocks|) == {} {
        assert DropRows(p, dict, {}).rows == p.rows;
      }
    }
  }

  /** A sync of a table that is already exact writes nothing. */
  lemma ExactIsLeftAlone(t: Table, listed: seq<nat>, m: Message)
    requires Valid(t) && IsListing(t.rows, m, listed) && Exact(t.rows, m)
    ensures Synced(t, listed, m) == t
  {
    var dict := ByIndex(t.rows, listed);
    ByIndexIsRight(t.rows, m, listed);
    PutAllOfExact(t, dict, m, |m.blocks|);
    forall i | i in dict
      ensures i < |m.blocks|
    {
      assert Stands(t.rows, m, dict[i]);
    }
    assert Surplus(dict, |m.blocks|) == {};
  }

  /** So a second sync of the same message writes nothing, in whatever order its rows are listed. */
  lemma SecondSyncWritesNothing(t: Table, listed: seq<nat>, m: Message, again: seq<nat>)
    requires Valid(t) && IsListing(t.rows, m, listed) && UniqueIndices(t.rows, m) && NoNegative(t.rows, m)
    requires IsListing(Synced(t, listed, m).rows, m, again)
    ensures Synced(Synced(t, listed, m), again, m) == Synced(t, listed, m)
  {
    var q := Synced(t, listed, m);
    if m.role in ASSISTANT_ROLES {
      SyncIsExact(t, listed, m);
      SyncStaysValid(t, listed, m);
      ExactIsLeftAlone(q, again, m);
    }
  }

  lemma SyncStaysValid(t: Table, listed: seq<nat>, m: Message)
    requires Valid(t) && IsListing(t.rows, m, listed)
    ensures Valid(Synced(t, listed, m))
  {
    ByIndexIsRight(t.rows, m, listed);
    PutAllRows(t, ByIndex(t.rows, listed), m, |m.blocks|);
  }
}
