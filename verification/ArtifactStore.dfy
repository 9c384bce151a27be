/**
 The context-artifact store: quotas on creation, purge and cascade delete (files first, then rows),
 and the line-wise paging of a payload.  The check of the quotas and the insert are one step, except
 in the section on overlapping creations.
 */
module ArtifactStore {
  import opened Options

  const DEFAULT_MAX_ARTIFACT_BYTES := 25 * 1024 * 1024
  const DEFAULT_MAX_ARTIFACTS := 500
  const DEFAULT_MAX_CONVERSATION_BYTES := 250 * 1024 * 1024

  /** A row; the File attached to it, if any, is kept under the same id. */
  datatype Artifact = Artifact(id: nat, conversation: string, bytes: nat, expires: Option<int>)

  datatype Store = Store(rows: seq<Artifact>, files: set<nat>, nextId: nat)

  /** The three overrides of the site configuration; 0 is an absent or empty one. */
  datatype Conf = Conf(maxBytes: int, maxCount: int, maxConversationBytes: int)

  function ConfInt(value: int, default: int): int {
    if value != 0 then value else default
  }

  function Limits(conf: Conf): Conf {
    Conf(ConfInt(conf.maxBytes, DEFAULT_MAX_ARTIFACT_BYTES), ConfInt(conf.maxCount, DEFAULT_MAX_ARTIFACTS),
         ConfInt(conf.maxConversationBytes, DEFAULT_MAX_CONVERSATION_BYTES))
  }

  // ---- create, purge, cascade --------------------------------------------------------------------------

  function Count(rows: seq<Artifact>, c: string): nat {
    if rows == [] then 0
    else Count(rows[..|rows| - 1], c) + if rows[|rows| - 1].conversation == c then 1 else 0
  }

  function Total(rows: seq<Artifact>, c: string): nat {
    if rows == [] then 0
    else Total(rows[..|rows| - 1], c) + if rows[|rows| - 1].conversation == c then rows[|rows| - 1].bytes else 0
  }

  predicate Admits(s: Store, conf: Conf, c: string, bytes: nat) {
    var limits := Limits(conf);
    bytes <= limits.maxBytes && Count(s.rows, c) < limits.maxCount
      && Total(s.rows, c) + bytes <= limits.maxConversationBytes
  }

  /** A payload that is not inline is attached as a file. */
  function Create(s: Store, conf: Conf, c: string, bytes: nat, inline: bool, expires: Option<int>): Store {
    if !Admits(s, conf, c, bytes) then s
    else Store(s.rows + [Artifact(s.nextId, c, bytes, expires)], s.files + (if inline then {} else {s.nextId}),
      s.nextId + 1)
  }

  /** How the deletion of an artifact goes: it may fail at the file or at the row. */
  datatype Fate = Deleted | FileStuck | RowStuck

  function Without(rows: seq<Artifact>, id: nat): seq<Artifact> {
    if rows == [] then []
    else
      var front, last := Without(rows[..|rows| - 1], id), rows[|rows| - 1];
      if last.id == id then front else front + [last]
  }

  /** Whether the deletion gets through. */
  predicate Succeeds(s: Store, id: nat, fate: Fate) {
    match fate
    case Deleted => true
    case FileStuck => id !in s.files
    case RowStuck => false
  }

  function DeleteOne(s: Store, id: nat, fate: Fate): Store {
    if Succeeds(s, id, fate) then s.(rows := Without(s.rows, id), files := s.files - {id})
    else if fate.FileStuck? then s
    else s.(files := s.files - {id})
  }

  predicate HasExpired(a: Artifact, now: int) {
    a.expires.Some? && a.expires.value < now
  }

  function ExpiredOf(rows: seq<Artifact>, now: int): seq<nat> {
    if rows == [] then []
    else ExpiredOf(rows[..|rows| - 1], now) + if HasExpired(rows[|rows| - 1], now) then [rows[|rows| - 1].id] else []
  }

  function IdsOf(rows: seq<Artifact>, c: string): seq<nat> {
    if rows == [] then []
    else IdsOf(rows[..|rows| - 1], c) + if rows[|rows| - 1].conversation == c then [rows[|rows| - 1].id] else []
  }

  /** The purge goes on after a failure. */
  function PurgeAll(s: Store, ids: seq<nat>, fate: nat -> Fate): Store {
    if ids == [] then s else DeleteOne(PurgeAll(s, ids[..|ids| - 1], fate), ids[|ids| - 1], fate(ids[|ids| - 1]))
  }

  /** How many of the deletions of a purge get through. */
  function Purged(s: Store, ids: seq<nat>, fate: nat -> Fate): nat {
    if ids == [] then 0
    else
      var front, last := ids[..|ids| - 1], ids[|ids| - 1];
      Purged(s, front, fate) + if Succeeds(PurgeAll(s, front, fate), last, fate(last)) then 1 else 0
  }

  /** The cascade stops at the first failure. */
  function Cascade(s: Store, ids: seq<nat>, fate: nat -> Fate): Store
    decreases |ids|
  {
    if ids == [] then s
    else if !Succeeds(s, ids[0], fate(ids[0])) then DeleteOne(s, ids[0], fate(ids[0]))
    else Cascade(DeleteOne(s, ids[0], fate(ids[0])), ids[1..], fate)
  }

  class ContextArtifacts {
    var rows: seq<Artifact>
    var files: set<nat>
    var nextId: nat

    function Contents(): Store
      reads this
    {
      Store(rows, files, nextId)
    }

    method CheckArtifactQuotas(conf: Conf, c: string, incoming: nat) returns (admitted: bool)
      ensures admitted == Admits(Contents(), conf, c, incoming)
    {
      var maxBytes := if conf.maxBytes != 0 then conf.maxBytes else DEFAULT_MAX_ARTIFACT_BYTES;
      if incoming > maxBytes {
        return false;
      }
      var maxCount := if conf.maxCount != 0 then conf.maxCount else DEFAULT_MAX_ARTIFACTS;
      if Count(rows, c) >= maxCount {
        return false;
      }
      var maxConversation := if conf.maxConversationBytes != 0 then conf.maxConversationBytes
        else DEFAULT_MAX_CONVERSATION_BYTES;
      admitted := Total(rows, c) + incoming <= maxConversation;
    }

    method CreateContextArtifact(conf: Conf, c: string, bytes: nat, inline: bool, expires: Option<int>)
      returns (created: bool)
      modifies this
      ensures Contents() == Create(old(Contents()), conf, c, bytes, inline, expires)
      ensures created == Admits(old(Contents()), conf, c, bytes)
    {
      created := CheckArtifactQuotas(conf, c, bytes);
      if created {
        rows := rows + [Artifact(nextId, c, bytes, expires)];
        if !inline {
          files := files + {nextId};
        }
        nextId := nextId + 1;
      }
    }

    method DeleteArtifactAndFile(id: nat, fate: Fate) returns (ok: bool)
      modifies `rows, `files
      ensures Contents() == DeleteOne(old(Contents()), id, fate) && ok == Succeeds(old(Contents()), id, fate)
    {
      if id in files {
        if fate.FileStuck? {
          return false;
        }
        files := files - {id};
      }
      if fate.RowStuck? {
        return false;
      }
      rows := Without(rows, id);
      ok := true;
    }

    method PurgeExpiredContextArtifacts(now: int, fate: nat -> Fate) returns (purged: nat)
      modifies `rows, `files
      ensures Contents() == PurgeAll(old(Contents()), ExpiredOf(old(rows), now), fate)
      ensures Tidy(old(Contents())) ==> purged == |old(rows)| - |rows|
    {
      var expired := ExpiredOf(rows, now);
      purged := 0;
      for k := 0 to |expired|
        invariant Contents() == PurgeAll(old(Contents()), expired[..k], fate)
        invariant purged == Purged(old(Contents()), expired[..k], fate)
      {
        assert expired[..k + 1][..k] == expired[..k];
        var ok := DeleteArtifactAndFile(expired[k], fate(expired[k]));
        if ok {
          purged := purged + 1;
        }
      }
      if Tidy(old(Contents())) {
        PurgedAreGone(old(Contents()), now, fate);
      }
      assert expired[..|expired|] == expired;
    }

    method DeleteConversationArtifacts(c: string, fate: nat -> Fate) returns (ok: bool)
      modifies `rows, `files
      ensures Contents() == Cascade(old(Contents()), IdsOf(old(rows), c), fate)
    {
      var ids := IdsOf(rows, c);
      for k := 0 to |ids|
        invariant Cascade(old(Contents()), ids, fate) == Cascade(Contents(), ids[k..], fate)
      {
        assert ids[k..][0] == ids[k] && ids[k..][1..] == ids[k + 1..];
        ok := DeleteArtifactAndFile(ids[k], fate(ids[k]));
        if !ok {
          return;
        }
      }
      ok := true;
    }
  }

  // ---- every run stays within the quotas ---------------------------------------------------------------

  datatype Action =
    | DoCreate(c: string, bytes: nat, inline: bool, expires: Option<int>)
    | DoPurge(now: int, fate: nat -> Fate)
    | DoCascade(c: string, fate: nat -> Fate)

  function Step(s: Store, conf: Conf, a: Action): Store {
    match a
    case DoCreate(c, bytes, inline, expires) => Create(s, conf, c, bytes, inline, expires)
    case DoPurge(now, fate) => PurgeAll(s, ExpiredOf(s.rows, now), fate)
    case DoCascade(c, fate) => Cascade(s, IdsOf(s.rows, c), fate)
  }

  function Run(s: Store, conf: Conf, actions: seq<Action>): Store {
    if actions == [] then s else Step(Run(s, conf, actions[..|actions| - 1]), conf, actions[|actions| - 1])
  }

  /** A conversation that holds anything holds no more than the quotas allow. */
  predicate WithinQuotas(s: Store, conf: Conf, c: string) {
    var limits := Limits(conf);
    && (forall a | a in s.rows :: a.bytes <= limits.maxBytes)
    && (Count(s.rows, c) > 0 ==> Count(s.rows, c) <= limits.maxCount && Total(s.rows, c) <= limits.maxConversationBytes)
  }

  /** Ids are unique, and no file is left without its row. */
  ghost predicate Tidy(s: Store) {
    && (forall a | a in s.rows :: a.id < s.nextId)
    && UniqueIds(s.rows)
    && (forall id | id in s.files :: HasRow(s.rows, id))
  }

  predicate HasRow(rows: seq<Artifact>, id: nat) {
    exists a | a in rows :: a.id == id
  }

  /** What a deletion leaves of the rows: some of them, in order, and at most as many bytes of any conversation. */
  predicate Shrunk(before: seq<Artifact>, after: seq<Artifact>, c: string) {
    && (forall a | a in after :: a in before)
    && Count(after, c) <= Count(before, c) && Total(after, c) <= Total(before, c)
  }

  lemma {:induction false} WithoutKeeps(rows: seq<Artifact>, id: nat, a: Artifact)
    ensures a in Without(rows, id) <==> a in rows && a.id != id
  {
    if rows != [] {
      WithoutKeeps(rows[..|rows| - 1], id, a);
      assert rows == rows[..|rows| - 1] + [rows[|rows| - 1]];
    }
  }

  lemma CountsSnoc(front: seq<Artifact>, last: Artifact, c: string)
    ensures Count(front + [last], c) == Count(front, c) + if last.conversation == c then 1 else 0
    ensures Total(front + [last], c) == Total(front, c) + if last.conversation == c then last.bytes else 0
  {
    assert (front + [last])[..|front|] == front;
  }

  lemma {:induction false} WithoutCounts(rows: seq<Artifact>, id: nat, c: string)
    ensures Count(Without(rows, id), c) <= Count(rows, c) && Total(Without(rows, id), c) <= Total(rows, c)
  {
    if rows != [] {
      WithoutCounts(rows[..|rows| - 1], id, c);
      CountsSnoc(Without(rows[..|rows| - 1], id), rows[|rows| - 1], c);
    }
  }

  lemma WithoutShrinks(rows: seq<Artifact>, id: nat, c: string)
    ensures Shrunk(rows, Without(rows, id), c)
  {
    WithoutCounts(rows, id, c);
    forall a | a in Without(rows, id)
      ensures a in rows
    {
      WithoutKeeps(rows, id, a);
    }
  }

  ghost predicate UniqueIds(rows: seq<Artifact>) {
    forall j, k | 0 <= j < k < |rows| :: rows[j].id != rows[k].id
  }

  lemma {:induction false} WithoutStaysUnique(rows: seq<Artifact>, id: nat)
    requires UniqueIds(rows)
    ensures UniqueIds(Without(rows, id))
  {
    if rows != [] {
      var front, last := rows[..|rows| - 1], rows[|rows| - 1];
      WithoutStaysUnique(front, id);
      forall k | 0 <= k < |Without(front, id)|
        ensures Without(front, id)[k].id != last.id
      {
        WithoutKeeps(front, id, Without(front, id)[k]);
      }
    }
  }

  lemma FilesKeepRows(s: Store, id: nat, fate: Fate, f: nat)
    requires Tidy(s) && f in DeleteOne(s, id, fate).files
    ensures HasRow(DeleteOne(s, id, fate).rows, f)
  {
    assert HasRow(s.rows, f);
    var a :| a in s.rows && a.id == f;
    WithoutKeeps(s.rows, id, a);
  }

  lemma DeleteOneIsSafe(s: Store, id: nat, fate: Fate, c: string)
    requires Tidy(s)
    ensures Tidy(DeleteOne(s, id, fate)) && Shrunk(s.rows, DeleteOne(s, id, fate).rows, c)
  {
    WithoutShrinks(s.rows, id, c);
    WithoutStaysUnique(s.rows, id);
    forall f | f in DeleteOne(s, id, fate).files
      ensures HasRow(DeleteOne(s, id, fate).rows, f)
    {
      FilesKeepRows(s, id, fate, f);
    }
  }

  lemma {:induction false} PurgeIsSafe(s: Store, ids: seq<nat>, fate: nat -> Fate, c: string)
    requires Tidy(s)
    ensures Tidy(PurgeAll(s, ids, fate)) && Shrunk(s.rows, PurgeAll(s, ids, fate).rows, c)
  {
    if ids != [] {
      var front, last := ids[..|ids| - 1], ids[|ids| - 1];
      PurgeIsSafe(s, front, fate, c);
      DeleteOneIsSafe(PurgeAll(s, front, fate), last, fate(last), c);
    }
  }

  lemma {:induction false} CascadeIsSafe(s: Store, ids: seq<nat>, fate: nat -> Fate, c: string)
    requires Tidy(s)
    ensures Tidy(Cascade(s, ids, fate)) && Shrunk(s.rows, Cascade(s, ids, fate).rows, c)
    decreases |ids|
  {
    if ids != [] {
      DeleteOneIsSafe(s, ids[0], fate(ids[0]), c);
      if Succeeds(s, ids[0], fate(ids[0])) {
        CascadeIsSafe(DeleteOne(s, ids[0], fate(ids[0])), ids[1..], fate, c);
      }
    }
  }

  lemma CreateIsSafe(s: Store, conf: Conf, c: string, bytes: nat, inline: bool, expires: Option<int>, other: string)
    requires Tidy(s) && WithinQuotas(s, conf, other)
    ensures var n := Create(s, conf, c, bytes, inline, expires); Tidy(n) && WithinQuotas(n, conf, other)
  {
    var n := Create(s, conf, c, bytes, inline, expires);
    if Admits(s, conf, c, bytes) {
      var added := Artifact(s.nextId, c, bytes, expires);
      assert n.rows[..|n.rows| - 1] == s.rows && n.rows[|n.rows| - 1] == added;
      forall f | f in n.files
        ensures HasRow(n.rows, f)
      {
        assert f != s.nextId ==> HasRow(s.rows, f);
        assert added in n.rows;
      }
    }
  }

  /** A payload is admitted exactly when the store with it would be within every quota; then its conversation has one
      artifact and its bytes more, with a file of its own unless it is inline, and no other conversation changes. */
  lemma CreateAddsOne(s: Store, conf: Conf, c: string, bytes: nat, inline: bool, expires: Option<int>, other: string)
    requires Tidy(s)
    ensures var n := Create(s, conf, c, bytes, inline, expires); var limits := Limits(conf);
            if bytes <= limits.maxBytes && Count(s.rows, c) + 1 <= limits.maxCount
              && Total(s.rows, c) + bytes <= limits.maxConversationBytes then
              && Count(n.rows, other) == Count(s.rows, other) + (if other == c then 1 else 0)
              && Total(n.rows, other) == Total(s.rows, other) + (if other == c then bytes else 0)
              && s.rows < n.rows && s.files <= n.files && !HasRow(s.rows, n.rows[|s.rows|].id)
              && (n.rows[|s.rows|].id in n.files <==> !inline)
            else n == s
  {
    CountsSnoc(s.rows, Artifact(s.nextId, c, bytes, expires), other);
    forall f | f in s.files
      ensures f != s.nextId
    {
      assert HasRow(s.rows, f);
    }
  }

  /** Over any run of creations, purges and cascades, failing or not, every conversation stays within the quotas, ids
      stay unique and no file is orphaned. */
  lemma {:induction false} EveryRunWithinQuotas(conf: Conf, actions: seq<Action>, c: string)
    ensures var s := Run(Store([], {}, 0), conf, actions); Tidy(s) && WithinQuotas(s, conf, c)
  {
    if actions != [] {
      var front, last := actions[..|actions| - 1], actions[|actions| - 1];
      EveryRunWithinQuotas(conf, front, c);
      var s := Run(Store([], {}, 0), conf, front);
      match last
      case DoCreate(d, bytes, inline, expires) => CreateIsSafe(s, conf, d, bytes, inline, expires, c);
      case DoPurge(now, fate) => PurgeIsSafe(s, ExpiredOf(s.rows, now), fate, c);
      case DoCascade(d, fate) => CascadeIsSafe(s, IdsOf(s.rows, d), fate, c);
    }
  }

  // ---- overlapping creations --------------------------------------------------------------------------

  /** The store, with the payloads of one conversation that have passed the check and are not inserted yet. */
  datatype Overlap = Overlap(store: Store, checked: seq<nat>)

  datatype Part =
    | Checks(bytes: nat)
    | Inserts(j: nat, inline: bool, expires: Option<int>)
    | Others(action: Action)

  /** At most `k` creations of conversation `c` are under way at a time; other conversations, purges and cascades do as
      they like. */
  predicate CanPart(o: Overlap, conf: Conf, c: string, k: nat, p: Part) {
    match p
    case Checks(bytes) => |o.checked| < k && Admits(o.store, conf, c, bytes)
    case Inserts(j, _, _) => j < |o.checked|
    case Others(a) => a.DoCreate? ==> a.c != c
  }

  function Insert(s: Store, c: string, bytes: nat, inline: bool, expires: Option<int>): Store {
    Store(s.rows + [Artifact(s.nextId, c, bytes, expires)], s.files + (if inline then {} else {s.nextId}), s.nextId + 1)
  }

  function DoPart(o: Overlap, conf: Conf, c: string, p: Part): Overlap
    requires p.Inserts? ==> p.j < |o.checked|
  {
    match p
    case Checks(bytes) => o.(checked := [bytes] + o.checked)
    case Inserts(j, inline, expires) =>
      Overlap(Insert(o.store, c, o.checked[j], inline, expires), o.checked[..j] + o.checked[j + 1..])
    case Others(a) => o.(store := Step(o.store, conf, a))
  }

  function Sum(checked: seq<nat>): nat {
    if checked == [] then 0 else checked[0] + Sum(checked[1..])
  }

  lemma {:induction false} SumWithout(checked: seq<nat>, j: nat)
    requires j < |checked|
    ensures Sum(checked) == checked[j] + Sum(checked[..j] + checked[j + 1..])
  {
    if j == 0 {
      assert checked[..0] + checked[1..] == checked[1..];
    } else {
      SumWithout(checked[1..], j - 1);
      var left := checked[..j] + checked[j + 1..];
      assert left[1..] == checked[1..][..j - 1] + checked[1..][j..];
    }
  }

  lemma {:induction false} SumOfBounded(checked: seq<nat>, most: nat)
    requires forall k | 0 <= k < |checked| :: checked[k] <= most
    ensures Sum(checked) <= |checked| * most
  {
    if checked != [] {
      SumOfBounded(checked[1..], most);
      assert |checked| * most == (|checked| - 1) * most + most;
    }
  }

  lemma Scaled(few: int, many: int, most: nat)
    requires few <= many
    ensures few * most <= many * most
  {
    assert many * most == few * most + (many - few) * most;
  }

  function Min(a: int, b: int): int {
    if a < b then a else b
  }

  /** The largest payload that is ever admitted. */
  function Largest(conf: Conf): int {
    Min(Limits(conf).maxBytes, Limits(conf).maxConversationBytes)
  }

  /** The most bytes a conversation can come to hold while at most k creations are under way. */
  function MostBytes(conf: Conf, k: nat): int {
    Min(Limits(conf).maxConversationBytes, Limits(conf).maxCount * Largest(conf)) + (k - 1) * Largest(conf)
  }

  /** No artifact of the conversation, stored or under way, is larger than the largest payload. */
  predicate NoneLarger(o: Overlap, conf: Conf, c: string) {
    && (forall j | 0 <= j < |o.checked| :: o.checked[j] <= Largest(conf))
    && (forall a | a in o.store.rows && a.conversation == c :: a.bytes <= Largest(conf))
  }

  /** What is stored and what is under way together exceed the quotas by what the other k - 1 creations can add. */
  ghost predicate WithinOverlap(o: Overlap, conf: Conf, c: string, k: nat) {
    var limits := Limits(conf);
    && Tidy(o.store) && |o.checked| <= k && NoneLarger(o, conf, c)
    && (Count(o.store.rows, c) + |o.checked| > 0 ==>
          && Largest(conf) >= 0 && Count(o.store.rows, c) + |o.checked| <= limits.maxCount + (k - 1)
          && Total(o.store.rows, c) + Sum(o.checked) <= limits.maxConversationBytes + (k - 1) * Largest(conf))
  }

  lemma {:induction false} TotalOfBounded(rows: seq<Artifact>, c: string, most: nat)
    requires forall a | a in rows && a.conversation == c :: a.bytes <= most
    ensures Total(rows, c) <= Count(rows, c) * most
  {
    if rows != [] {
      TotalOfBounded(rows[..|rows| - 1], c, most);
      assert rows[|rows| - 1] in rows;
      assert (Count(rows[..|rows| - 1], c) + 1) * most == Count(rows[..|rows| - 1], c) * most + most;
    }
  }

  lemma CheckStaysWithin(o: Overlap, conf: Conf, c: string, k: nat, bytes: nat)
    requires WithinOverlap(o, conf, c, k) && CanPart(o, conf, c, k, Checks(bytes))
    ensures WithinOverlap(DoPart(o, conf, c, Checks(bytes)), conf, c, k)
  {
    var after := [bytes] + o.checked;
    assert after[1..] == o.checked;
    SumOfBounded(o.checked, Largest(conf));
    Scaled(|o.checked|, k - 1, Largest(conf));
  }

  lemma InsertStaysTidy(s: Store, c: string, bytes: nat, inline: bool, expires: Option<int>)
    requires Tidy(s)
    ensures Tidy(Insert(s, c, bytes, inline, expires))
  {
    var n := Insert(s, c, bytes, inline, expires);
    assert n.rows[|s.rows|] == Artifact(s.nextId, c, bytes, expires);
    forall f | f in n.files
      ensures HasRow(n.rows, f)
    {
      assert n.rows[|s.rows|] in n.rows;
      assert f != s.nextId ==> HasRow(s.rows, f);
    }
  }

  lemma InsertStaysWithin(
    o: Overlap, conf: Conf, c: string, k: nat, j: nat, inline: bool, expires: Option<int>)
    requires WithinOverlap(o, conf, c, k) && j < |o.checked|
    ensures WithinOverlap(DoPart(o, conf, c, Inserts(j, inline, expires)), conf, c, k)
  {
    SumWithout(o.checked, j);
    NoMoreStaysWithin(o, DoPart(o, conf, c, Inserts(j, inline, expires)), conf, c, k);
  }

  lemma NoMoreStaysWithin(o: Overlap, n: Overlap, conf: Conf, c: string, k: nat)
    requires WithinOverlap(o, conf, c, k) && Tidy(n.store) && |n.checked| <= |o.checked|
    requires NoneLarger(n, conf, c)
    requires Count(n.store.rows, c) + |n.checked| <= Count(o.store.rows, c) + |o.checked|
    requires Total(n.store.rows, c) + Sum(n.checked) <= Total(o.store.rows, c) + Sum(o.checked)
    ensures WithinOverlap(n, conf, c, k)
  {
  }

  lemma OtherShrinks(s: Store, conf: Conf, c: string, a: Action)
    requires Tidy(s) && (a.DoCreate? ==> a.c != c)
    ensures Tidy(Step(s, conf, a)) && forall b | b in Step(s, conf, a).rows && b.conversation == c :: b in s.rows
    ensures Count(Step(s, conf, a).rows, c) <= Count(s.rows, c) && Total(Step(s, conf, a).rows, c) <= Total(s.rows, c)
  {
    match a
    case DoCreate(d, bytes, inline, expires) =>
      InsertStaysTidy(s, d, bytes, inline, expires);
      CountsSnoc(s.rows, Artifact(s.nextId, d, bytes, expires), c);
    case DoPurge(now, fate) => PurgeIsSafe(s, ExpiredOf(s.rows, now), fate, c);
    case DoCascade(d, fate) => CascadeIsSafe(s, IdsOf(s.rows, d), fate, c);
  }

  predicate PossibleParts(o: Overlap, conf: Conf, c: string, k: nat, parts: seq<Part>)
    decreases |parts|
  {
    parts == [] ||
    (CanPart(o, conf, c, k, parts[0]) && PossibleParts(DoPart(o, conf, c, parts[0]), conf, c, k, parts[1..]))
  }

  function AfterParts(o: Overlap, conf: Conf, c: string, k: nat, parts: seq<Part>): Overlap
    requires PossibleParts(o, conf, c, k, parts)
    decreases |parts|
  {
    if parts == [] then o else AfterParts(DoPart(o, conf, c, parts[0]), conf, c, k, parts[1..])
  }

  /** Every step keeps these bounds. */
  lemma {:induction false} OverlapIsBounded(o: Overlap, conf: Conf, c: string, k: nat, parts: seq<Part>)
    requires WithinOverlap(o, conf, c, k) && PossibleParts(o, conf, c, k, parts)
    ensures WithinOverlap(AfterParts(o, conf, c, k, parts), conf, c, k)
    decreases |parts|
  {
    if parts != [] {
      match parts[0] {
        case Checks(bytes) => CheckStaysWithin(o, conf, c, k, bytes);
        case Inserts(j, inline, expires) => InsertStaysWithin(o, conf, c, k, j, inline, expires);
        case Others(a) => OtherShrinks(o.store, conf, c, a);
      }
      OverlapIsBounded(DoPart(o, conf, c, parts[0]), conf, c, k, parts[1..]);
    }
  }

  const NOTHING := Overlap(Store([], {}, 0), [])

  /** The check and the insert of a creation are two steps: with at most k creations of a conversation under way at a
      time it never holds more than k - 1 artifacts above the count quota, nor more bytes than k - 1 of the largest
      payloads above what the quotas allow. */
  lemma OverlappingStayWithin(conf: Conf, c: string, k: nat, parts: seq<Part>)
    requires k > 0 && PossibleParts(NOTHING, conf, c, k, parts)
    ensures var rows := AfterParts(NOTHING, conf, c, k, parts).store.rows;
            Count(rows, c) > 0 ==>
              Count(rows, c) <= Limits(conf).maxCount + (k - 1) && Total(rows, c) <= MostBytes(conf, k)
  {
    OverlapIsBounded(NOTHING, conf, c, k, parts);
    var o := AfterParts(NOTHING, conf, c, k, parts);
    if Count(o.store.rows, c) > 0 {
      TotalOfBounded(o.store.rows, c, Largest(conf));
      CountBound(Total(o.store.rows, c), Count(o.store.rows, c), Limits(conf).maxCount, k - 1, Largest(conf));
    }
  }

  lemma CountBound(total: int, n: int, quota: int, more: int, most: nat)
    requires total <= n * most && n <= quota + more
    ensures total <= quota * most + more * most
  {
    Scaled(n, quota + more, most);
    assert (quota + more) * most == quota * most + more * most;
  }

  lemma Before(o: Overlap, conf: Conf, c: string, k: nat, first: Part, rest: seq<Part>) returns (parts: seq<Part>)
    requires CanPart(o, conf, c, k, first) && PossibleParts(DoPart(o, conf, c, first), conf, c, k, rest)
    ensures PossibleParts(o, conf, c, k, parts)
    ensures AfterParts(o, conf, c, k, parts) == AfterParts(DoPart(o, conf, c, first), conf, c, k, rest)
  {
    parts := [first] + rest;
    assert parts[1..] == rest;
  }

  /** The payloads that have been checked are all inserted. */
  lemma {:induction false} InsertAll(o: Overlap, conf: Conf, c: string, k: nat) returns (parts: seq<Part>)
    ensures PossibleParts(o, conf, c, k, parts)
    ensures var rows := AfterParts(o, conf, c, k, parts).store.rows;
            && Count(rows, c) == Count(o.store.rows, c) + |o.checked|
            && Total(rows, c) == Total(o.store.rows, c) + Sum(o.checked)
    decreases |o.checked|
  {
    parts := [];
    if o.checked != [] {
      var first := Inserts(0, true, None);
      CountsSnoc(o.store.rows, Artifact(o.store.nextId, c, o.checked[0], None), c);
      assert o.checked[..0] + o.checked[1..] == o.checked[1..];
      parts := InsertAll(DoPart(o, conf, c, first), conf, c, k);
      parts := Before(o, conf, c, k, first, parts);
    }
  }

  /** A payload the store admits is checked until k are under way; then all are inserted. */
  lemma {:induction false} CheckAll(o: Overlap, conf: Conf, c: string, k: nat, bytes: nat, n: nat)
    returns (parts: seq<Part>)
    requires |o.checked| + n == k && Admits(o.store, conf, c, bytes)
    ensures PossibleParts(o, conf, c, k, parts)
    ensures var rows := AfterParts(o, conf, c, k, parts).store.rows;
            && Count(rows, c) == Count(o.store.rows, c) + k
            && Total(rows, c) == Total(o.store.rows, c) + Sum(o.checked) + n * bytes
    decreases n
  {
    if n == 0 {
      parts := InsertAll(o, conf, c, k);
    } else {
      var first := Checks(bytes);
      assert ([bytes] + o.checked)[1..] == o.checked;
      assert n * bytes == (n - 1) * bytes + bytes;
      parts := CheckAll(DoPart(o, conf, c, first), conf, c, k, bytes, n - 1);
      parts := Before(o, conf, c, k, first, parts);
    }
  }

  /** The store is filled one creation at a time, with `n` artifacts of `left` bytes together; then k are checked. */
  lemma {:induction false} FillThenCheck(o: Overlap, conf: Conf, c: string, k: nat, n: nat, left: nat)
    returns (parts: seq<Part>)
    requires k > 0 && o.checked == [] && Largest(conf) >= 0 && left <= n * Largest(conf)
    requires Count(o.store.rows, c) + n == Limits(conf).maxCount - 1
    requires Total(o.store.rows, c) + left + Largest(conf) <= Limits(conf).maxConversationBytes
    ensures PossibleParts(o, conf, c, k, parts)
    ensures var rows := AfterParts(o, conf, c, k, parts).store.rows;
            && Count(rows, c) == Limits(conf).maxCount + (k - 1)
            && Total(rows, c) == Total(o.store.rows, c) + left + k * Largest(conf)
    decreases n
  {
    if n == 0 {
      parts := CheckAll(o, conf, c, k, Largest(conf), k);
    } else {
      var bytes := Min(left, Largest(conf));
      var check, insert := Checks(bytes), Inserts(0, true, None);
      var checked := DoPart(o, conf, c, check);
      CountsSnoc(o.store.rows, Artifact(o.store.nextId, c, bytes, None), c);
      assert n * Largest(conf) == (n - 1) * Largest(conf) + Largest(conf);
      Scaled(0, n - 1, Largest(conf));
      parts := FillThenCheck(DoPart(checked, conf, c, insert), conf, c, k, n - 1, left - bytes);
      parts := Before(checked, conf, c, k, insert, parts);
      parts := Before(o, conf, c, k, check, parts);
    }
  }

  /** Both bounds are met, by one and the same run, whatever the configuration, if it admits anything at all. */
  lemma OverlapAttains(conf: Conf, c: string, k: nat) returns (parts: seq<Part>)
    requires k > 0 && Admits(Store([], {}, 0), conf, c, 0)
    ensures PossibleParts(NOTHING, conf, c, k, parts)
    ensures var rows := AfterParts(NOTHING, conf, c, k, parts).store.rows;
            Count(rows, c) == Limits(conf).maxCount + (k - 1) && Total(rows, c) == MostBytes(conf, k)
  {
    var most, count := Largest(conf), Limits(conf).maxCount;
    var left := Min(Limits(conf).maxConversationBytes, count * most) - most;
    assert count * most == (count - 1) * most + most;
    Scaled(0, count - 1, most);
    parts := FillThenCheck(NOTHING, conf, c, k, count - 1, left);
    assert k * most == (k - 1) * most + most;
  }

  /** Whether every run with at most k creations of a conversation under way keeps it within the count quota. */
  ghost predicate CountHolds(conf: Conf, c: string, k: nat) {
    forall parts | PossibleParts(NOTHING, conf, c, k, parts) ::
      var n := Count(AfterParts(NOTHING, conf, c, k, parts).store.rows, c); n > 0 ==> n <= Limits(conf).maxCount
  }

  ghost predicate BytesHold(conf: Conf, c: string, k: nat) {
    forall parts | PossibleParts(NOTHING, conf, c, k, parts) ::
      var rows := AfterParts(NOTHING, conf, c, k, parts).store.rows;
      Count(rows, c) > 0 ==> Total(rows, c) <= Limits(conf).maxConversationBytes
  }

  /** The count quota holds exactly when creations of a conversation do not overlap; the byte quota also when even the
      largest payloads, as many as the count quota lets through, fit in it. */
  lemma QuotasHoldIff(conf: Conf, c: string, k: nat)
    requires k > 0 && Admits(Store([], {}, 0), conf, c, 0)
    ensures CountHolds(conf, c, k) <==> k == 1
    ensures BytesHold(conf, c, k) <==>
              k == 1 || (Limits(conf).maxCount + k - 1) * Largest(conf) <= Limits(conf).maxConversationBytes
  {
    var parts := OverlapAttains(conf, c, k);
    MostBytesFitIff(conf, k);
    forall ps | PossibleParts(NOTHING, conf, c, k, ps)
      ensures var rows := AfterParts(NOTHING, conf, c, k, ps).store.rows;
              Count(rows, c) > 0 ==>
                Count(rows, c) <= Limits(conf).maxCount + (k - 1) && Total(rows, c) <= MostBytes(conf, k)
    {
      OverlappingStayWithin(conf, c, k, ps);
    }
  }

  lemma MostBytesFitIff(conf: Conf, k: nat)
    requires k > 0 && Largest(conf) >= 0 && Limits(conf).maxCount > 0
    ensures MostBytes(conf, k) <= Limits(conf).maxConversationBytes <==>
              k == 1 || (Limits(conf).maxCount + k - 1) * Largest(conf) <= Limits(conf).maxConversationBytes
  {
    var most, count := Largest(conf), Limits(conf).maxCount;
    assert (count + k - 1) * most == count * most + (k - 1) * most;
    if k > 1 {
      Scaled(1, k - 1, most);
      Scaled(1, count, most);
    }
  }

  // ---- what a purge and a cascade remove ---------------------------------------------------------------

  lemma {:induction false} ExpiredAre(rows: seq<Artifact>, now: int, id: nat)
    ensures id in ExpiredOf(rows, now) <==> exists a :: a in rows && a.id == id && HasExpired(a, now)
  {
    if rows != [] {
      var front, last := rows[..|rows| - 1], rows[|rows| - 1];
      ExpiredAre(front, now, id);
      assert rows == front + [last];
    }
  }

  lemma {:induction false} IdsAre(rows: seq<Artifact>, c: string, id: nat)
    ensures id in IdsOf(rows, c) <==> exists a :: a in rows && a.id == id && a.conversation == c
  {
    if rows != [] {
      var front, last := rows[..|rows| - 1], rows[|rows| - 1];
      IdsAre(front, c, id);
      assert rows == front + [last];
    }
  }

  /** An artifact survives exactly when it is not listed or its deletion failed; the file of one not listed stays. */
  lemma {:induction false} PurgeAllRemoves(s: Store, ids: seq<nat>, fate: nat -> Fate, a: Artifact)
    requires Tidy(s)
    ensures a in PurgeAll(s, ids, fate).rows <==> a in s.rows && !(a.id in ids && Succeeds(s, a.id, fate(a.id)))
    ensures a.id !in ids ==> (a.id in PurgeAll(s, ids, fate).files <==> a.id in s.files)
    ensures fate(a.id).FileStuck? ==> (a.id in PurgeAll(s, ids, fate).files <==> a.id in s.files)
    ensures a.id in ids && !fate(a.id).FileStuck? ==> a.id !in PurgeAll(s, ids, fate).files
  {
    if ids != [] {
      var front, last := ids[..|ids| - 1], ids[|ids| - 1];
      PurgeAllRemoves(s, front, fate, a);
      WithoutKeeps(PurgeAll(s, front, fate).rows, last, a);
      assert ids == front + [last];
    }
  }

  /** The purge removes exactly the artifacts whose time is before now and whose deletion gets through: one failure
      does not stop the rest, an artifact without a time is never touched.  A file goes before its row, also when
      the row then stays. */
  lemma PurgeExactly(s: Store, now: int, fate: nat -> Fate, a: Artifact)
    requires Tidy(s) && a in s.rows
    ensures var p := PurgeAll(s, ExpiredOf(s.rows, now), fate);
            var due := a.expires.Some? && a.expires.value < now;
            && (a in p.rows <==> !due || fate(a.id) == RowStuck || (fate(a.id) == FileStuck && a.id in s.files))
            && (a.id in p.files <==> a.id in s.files && (!due || fate(a.id) == FileStuck))
  {
    ExpiredAre(s.rows, now, a.id);
    if a.id in ExpiredOf(s.rows, now) {
      var b :| b in s.rows && b.id == a.id && HasExpired(b, now);
    }
    PurgeAllRemoves(s, ExpiredOf(s.rows, now), fate, a);
  }

  lemma {:induction false} WithoutOne(rows: seq<Artifact>, id: nat)
    requires UniqueIds(rows)
    ensures |Without(rows, id)| == |rows| - if HasRow(rows, id) then 1 else 0
  {
    if rows != [] {
      var front, last := rows[..|rows| - 1], rows[|rows| - 1];
      WithoutOne(front, id);
      assert rows == front + [last];
      assert HasRow(rows, id) <==> HasRow(front, id) || last.id == id;
    }
  }

  predicate DistinctIds(ids: seq<nat>) {
    forall j, k | 0 <= j < k < |ids| :: ids[j] != ids[k]
  }

  lemma {:induction false} ExpiredAreDistinct(rows: seq<Artifact>, now: int)
    requires UniqueIds(rows)
    ensures DistinctIds(ExpiredOf(rows, now))
  {
    if rows != [] {
      ExpiredAreDistinct(rows[..|rows| - 1], now);
      ExpiredAre(rows[..|rows| - 1], now, rows[|rows| - 1].id);
    }
  }

  lemma {:induction false} PurgedCount(s: Store, ids: seq<nat>, fate: nat -> Fate)
    requires Tidy(s) && DistinctIds(ids) && forall k | 0 <= k < |ids| :: HasRow(s.rows, ids[k])
    ensures |PurgeAll(s, ids, fate).rows| + Purged(s, ids, fate) == |s.rows|
  {
    if ids != [] {
      var front, last := ids[..|ids| - 1], ids[|ids| - 1];
      PurgedCount(s, front, fate);
      PurgeIsSafe(s, front, fate, "");
      var a :| a in s.rows && a.id == last;
      PurgeAllRemoves(s, front, fate, a);
      WithoutOne(PurgeAll(s, front, fate).rows, last);
    }
  }

  /** The number a purge returns is the number of artifacts that are gone. */
  lemma PurgedAreGone(s: Store, now: int, fate: nat -> Fate)
    requires Tidy(s)
    ensures var ids := ExpiredOf(s.rows, now); Purged(s, ids, fate) == |s.rows| - |PurgeAll(s, ids, fate).rows|
  {
    var ids := ExpiredOf(s.rows, now);
    ExpiredAreDistinct(s.rows, now);
    forall k | 0 <= k < |ids|
      ensures HasRow(s.rows, ids[k])
    {
      ExpiredAre(s.rows, now, ids[k]);
    }
    PurgedCount(s, ids, fate);
  }

  predicate AllSucceed(s: Store, ids: seq<nat>, fate: nat -> Fate) {
    forall id | id in ids :: fate(id) == Deleted
  }

  lemma {:induction false} CascadeRemoves(s: Store, ids: seq<nat>, fate: nat -> Fate, a: Artifact)
    requires Tidy(s) && AllSucceed(s, ids, fate)
    ensures a in Cascade(s, ids, fate).rows <==> a in s.rows && a.id !in ids
    ensures a.id in Cascade(s, ids, fate).files <==> a.id in s.files && a.id !in ids
    decreases |ids|
  {
    if ids != [] {
      var next := DeleteOne(s, ids[0], fate(ids[0]));
      WithoutKeeps(s.rows, ids[0], a);
      DeleteOneIsSafe(s, ids[0], fate(ids[0]), a.conversation);
      CascadeRemoves(next, ids[1..], fate, a);
    }
  }

  /** A cascade without failures removes all artifacts of the conversation with their files, and nothing else. */
  lemma CascadeExactly(s: Store, c: string, fate: nat -> Fate, a: Artifact)
    requires Tidy(s) && AllSucceed(s, IdsOf(s.rows, c), fate) && a in s.rows
    ensures var d := Cascade(s, IdsOf(s.rows, c), fate);
            && (a in d.rows <==> a.conversation != c)
            && (a.id in d.files <==> a.id in s.files && a.conversation != c)
  {
    IdsAre(s.rows, c, a.id);
    if a.id in IdsOf(s.rows, c) {
      var b :| b in s.rows && b.id == a.id && b.conversation == c;
    }
    CascadeRemoves(s, IdsOf(s.rows, c), fate, a);
  }

  /** A cascade stops at its first failure: what comes before it is gone, its row stays, and its file unless the row was
      what failed; everything behind it is untouched. */
  lemma {:induction false} CascadeStops(s: Store, ids: seq<nat>, fate: nat -> Fate, k: nat, a: Artifact)
    requires Tidy(s) && DistinctIds(ids) && k < |ids| && a in s.rows
    requires forall j | 0 <= j < k :: fate(ids[j]) == Deleted
    requires fate(ids[k]) == RowStuck || (fate(ids[k]) == FileStuck && ids[k] in s.files)
    ensures var d := Cascade(s, ids, fate);
            && (a in d.rows <==> a.id !in ids[..k])
            && (a.id in d.files <==>
                  a.id in s.files && a.id !in ids[..k] && (a.id == ids[k] ==> fate(ids[k]) == FileStuck))
    decreases k
  {
    if k > 0 {
      var next, rest := DeleteOne(s, ids[0], fate(ids[0])), ids[1..];
      assert fate(ids[0]) == Deleted && Cascade(s, ids, fate) == Cascade(next, rest, fate);
      assert ids[..k] == [ids[0]] + rest[..k - 1];
      WithoutKeeps(s.rows, ids[0], a);
      if a.id == ids[0] {
        CascadeOnlyRemoves(next, rest, fate, a);
      } else {
        DeleteOneIsSafe(s, ids[0], fate(ids[0]), a.conversation);
        assert rest[k - 1] == ids[k] != ids[0];
        CascadeStops(next, rest, fate, k - 1, a);
      }
    }
  }

  lemma {:induction false} CascadeOnlyRemoves(s: Store, ids: seq<nat>, fate: nat -> Fate, a: Artifact)
    requires a !in s.rows && a.id !in s.files
    ensures a !in Cascade(s, ids, fate).rows && a.id !in Cascade(s, ids, fate).files
    decreases |ids|
  {
    if ids != [] {
      WithoutKeeps(s.rows, ids[0], a);
      if Succeeds(s, ids[0], fate(ids[0])) {
        CascadeOnlyRemoves(DeleteOne(s, ids[0], fate(ids[0])), ids[1..], fate, a);
      }
    }
  }

  /** The quotas a configuration stands for: its own where it has one, else 25 MiB a payload, 500 artifacts and 250
      MiB a conversation. */
  lemma LimitsAre(s: Store, conf: Conf, c: string, bytes: nat)
    ensures Admits(s, conf, c, bytes) <==>
              && bytes <= (if conf.maxBytes == 0 then 26214400 else conf.maxBytes)
              && Count(s.rows, c) + 1 <= (if conf.maxCount == 0 then 500 else conf.maxCount)
              && Total(s.rows, c) + bytes
                   <= (if conf.maxConversationBytes == 0 then 262144000 else conf.maxConversationBytes)
  {
  }

  // ---- paging ------------------------------------------------------------------------------------------

  datatype Page = Page(content: string, totalLines: nat, offset: nat, truncated: bool)

  function Join(lines: seq<string>): string {
    if lines == [] then "" else if |lines| == 1 then lines[0] else lines[0] + "\n" + Join(lines[1..])
  }

  /** A slice bound as the source language takes it: negative ones count from the end. */
  function Bound(k: int, n: nat): nat {
    if k < 0 then (if k + n < 0 then 0 else k + n) else if k > n then n else k
  }

  function Slice(lines: seq<string>, start: nat, end: int): seq<string> {
    var from, to := Bound(start, |lines|), Bound(end, |lines|);
    if from <= to then lines[from..to] else []
  }

  function StartOf(offset: Option<int>): nat {
    if offset.None? || offset.value < 0 then 0 else offset.value
  }

  function EndOf(total: nat, offset: Option<int>, limit: Option<int>): int {
    if limit.None? || limit.value == 0 then total else StartOf(offset) + limit.value
  }

  /** The lines of a page; an absent offset is 0 and an absent or zero limit is none. */
  function PageLines(lines: seq<string>, offset: Option<int>, limit: Option<int>): seq<string> {
    Slice(lines, StartOf(offset), EndOf(|lines|, offset, limit))
  }

  predicate Truncated(total: nat, offset: Option<int>, limit: Option<int>) {
    EndOf(total, offset, limit) < total
  }

  method ReadContextArtifactPayload(lines: seq<string>, offset: Option<int>, limit: Option<int>) returns (page: Page)
    ensures page == Page(Join(PageLines(lines, offset, limit)), |lines|, StartOf(offset),
              Truncated(|lines|, offset, limit))
  {
    var start := if offset.Some? && offset.value > 0 then offset.value else 0;
    var end := if limit.Some? && limit.value != 0 then start + limit.value else |lines|;
    page := Page(Join(Slice(lines, start, end)), |lines|, start, end < |lines|);
  }

  /** One page in plain terms: from the offset, or the start when it is absent or negative, as many lines as the limit
      says and there are; all of them without a limit; and for a negative limit what the source language's negative end
      leaves. */
  lemma PageIs(lines: seq<string>, offset: Option<int>, limit: Option<int>)
    ensures var start: nat := if offset.Some? && offset.value > 0 then offset.value else 0;
            var page := PageLines(lines, offset, limit);
            && (start >= |lines| ==> page == [])
            && (start < |lines| && (limit.None? || limit == Some(0)) ==>
                  page == lines[start..] && !Truncated(|lines|, offset, limit))
            && (start < |lines| && limit.Some? && 0 < limit.value <= |lines| - start ==>
                  page == lines[start..start + limit.value])
            && (start < |lines| && limit.Some? && limit.value > |lines| - start ==> page == lines[start..])
            && (limit.Some? && 0 < limit.value ==>
                  (Truncated(|lines|, offset, limit) <==> start + limit.value < |lines|))
            && (start < |lines| && limit.Some? && limit.value < 0 && -|lines| <= start + limit.value < 0 ==>
                  var end := |lines| + start + limit.value; page == if start <= end then lines[start..end] else [])
            && (limit.Some? && limit.value < 0 && start + limit.value >= 0 ==> page == [])
  {
  }

  /** The pages of a reader that goes on from where the last page ended until one is not truncated. */
  function ReadOn(lines: seq<string>, offset: nat, limit: nat): (pages: seq<seq<string>>)
    requires limit > 0
    decreases |lines| - offset
  {
    [PageLines(lines, Some(offset), Some(limit))]
    + if Truncated(|lines|, Some(offset), Some(limit)) then ReadOn(lines, offset + limit, limit) else []
  }

  /** The contents of the pages. */
  function Contents(pages: seq<seq<string>>): seq<string> {
    if pages == [] then [] else [Join(pages[0])] + Contents(pages[1..])
  }

  function Concat(pages: seq<seq<string>>): seq<string> {
    if pages == [] then [] else pages[0] + Concat(pages[1..])
  }

  predicate NoneEmpty(pages: seq<seq<string>>) {
    forall k | 0 <= k < |pages| :: pages[k] != []
  }

  lemma {:induction false} JoinAppends(a: seq<string>, b: seq<string>)
    requires a != [] && b != []
    ensures Join(a + b) == Join(a) + "\n" + Join(b)
  {
    if |a| == 1 {
      assert (a + b)[1..] == b;
    } else {
      JoinAppends(a[1..], b);
      assert (a + b)[1..] == a[1..] + b;
    }
  }

  /** Joining the contents of non-empty pages is joining all their lines. */
  lemma {:induction false} JoinOfContents(pages: seq<seq<string>>)
    requires pages != [] && NoneEmpty(pages)
    ensures Concat(pages) != [] && Contents(pages) != [] && Join(Contents(pages)) == Join(Concat(pages))
  {
    var rest := pages[1..];
    if rest == [] {
      assert pages[0] + [] == pages[0];
    } else {
      JoinOfContents(rest);
      JoinAppends(pages[0], Concat(rest));
      JoinAppends([Join(pages[0])], Contents(rest));
    }
  }

  /** The pages are the lines from the first offset on, cut up; and none is empty, unless there are no lines at all. */
  lemma {:induction false} PagesAreTheLines(lines: seq<string>, offset: nat, limit: nat)
    requires limit > 0 && offset <= |lines|
    ensures Concat(ReadOn(lines, offset, limit)) == lines[offset..]
    ensures offset < |lines| ==> NoneEmpty(ReadOn(lines, offset, limit))
    decreases |lines| - offset
  {
    var next := offset + limit;
    var rest := if next < |lines| then ReadOn(lines, next, limit) else [];
    assert ReadOn(lines, offset, limit) == [PageLines(lines, Some(offset), Some(limit))] + rest;
    if next < |lines| {
      PagesAreTheLines(lines, next, limit);
      assert lines[offset..] == lines[offset..next] + lines[next..];
    } else {
      assert PageLines(lines, Some(offset), Some(limit)) == lines[offset..];
    }
  }

  /** Pages of any fixed positive size, read until one is not truncated, join to exactly the text from the first offset
      on. */
  lemma PagesJoinToText(lines: seq<string>, offset: nat, limit: nat)
    requires limit > 0 && offset <= |lines|
    ensures Join(Contents(ReadOn(lines, offset, limit))) == Join(lines[offset..])
  {
    PagesAreTheLines(lines, offset, limit);
    if offset < |lines| {
      JoinOfContents(ReadOn(lines, offset, limit));
    } else {
      assert ReadOn(lines, offset, limit) == [[]];
    }
  }

  /** The pages needed for `left` lines. */
  function PageNumber(left: nat, limit: nat): nat
    requires limit > 0
  {
    if left <= limit then 1 else 1 + PageNumber(left - limit, limit)
  }

  /** They are the lines divided by the page size, rounded up, and one for no lines at all. */
  lemma {:induction false} PageNumberIsQuotient(left: nat, limit: nat)
    requires limit > 0
    ensures (PageNumber(left, limit) - 1) * limit <= left <= PageNumber(left, limit) * limit
  {
    if left > limit {
      PageNumberIsQuotient(left - limit, limit);
    }
  }

  /** The reading ends after exactly that many pages. */
  lemma {:induction false} PagesNeeded(lines: seq<string>, offset: nat, limit: nat)
    requires limit > 0 && offset <= |lines|
    ensures |ReadOn(lines, offset, limit)| == PageNumber(|lines| - offset, limit)
    decreases |lines| - offset
  {
    if offset + limit < |lines| {
      PagesNeeded(lines, offset + limit, limit);
    }
  }
}
