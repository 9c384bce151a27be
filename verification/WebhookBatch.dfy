/**
 One verified delivery that carries many messages (`_handle_batched_payload`).

 A pass stores at most MAX_INGEST new messages; past that it answers 503 and the provider sends the
 same payload again.  After MAX_DEFERRALS such passes the rest is dead-lettered and the payload is
 acknowledged.  Rows are keyed by the provider's message id: the idempotency key allows one row each.
 */
module WebhookBatch {

  /** What ingest makes of a message it has not stored yet. */
  datatype Verdict = Clean | Filtered | Poison | Transient

  /** `keeps` says whether a dead letter for this message can be written. */
  datatype Msg = Msg(id: string, verdict: Verdict, keeps: bool)

  /** What the row of a message is: routed, still open (Received or Failed), or a dead letter. */
  datatype Kind = Stored | Open | DeadLettered

  type Rows = map<string, Kind>

  datatype Answer = Acked | Deferred | Failing

  const MAX_INGEST := 500
  const MAX_DEFERRALS := 5

  /** The state a walk over the messages leaves: rows, messages past the cap, and whether a transient error occurred. */
  datatype Walked = Walked(rows: Rows, rest: seq<Msg>, transient: bool)

  /** A dead letter: a new row, or an open one marked as such; any other row is left alone. */
  function Keep(rows: Rows, m: Msg): Rows {
    if !m.keeps || (m.id in rows && rows[m.id] != Open) then rows else rows[m.id := DeadLettered]
  }

  /** One message: a duplicate, a new row, a filtered one (which leaves no row), or a failure. */
  function Ingest(rows: Rows, m: Msg): Rows {
    if m.id in rows then rows
    else
      match m.verdict
      case Clean => rows[m.id := Stored]
      case Poison => Keep(rows, m)
      case _ => rows
  }

  /** Stored and filtered messages use up the cap; duplicates and failures do not. */
  function Counts(rows: Rows, m: Msg): nat {
    if m.id !in rows && m.verdict in {Clean, Filtered} then 1 else 0
  }

  function Walk(rows: Rows, ms: seq<Msg>, ingested: nat): Walked
    decreases |ms|
  {
    if ms == [] || ingested >= MAX_INGEST then Walked(rows, ms, false)
    else
      var w := Walk(Ingest(rows, ms[0]), ms[1..], ingested + Counts(rows, ms[0]));
      w.(transient := w.transient || (ms[0].id !in rows && ms[0].verdict == Transient))
  }

  function KeepAll(rows: Rows, ms: seq<Msg>): Rows
    decreases |ms|
  {
    if ms == [] then rows else KeepAll(Keep(rows, ms[0]), ms[1..])
  }

  datatype Pass = Pass(rows: Rows, answer: Answer, deferrals: nat)

  /** One pass over the payload, after `seen` deferred ones. */
  function RunPass(rows: Rows, ms: seq<Msg>, seen: nat): Pass {
    var w := Walk(rows, ms, 0);
    if w.rest == [] then Pass(w.rows, if w.transient then Failing else Acked, seen)
    else if seen >= MAX_DEFERRALS then Pass(KeepAll(w.rows, w.rest), if w.transient then Failing else Acked, seen)
    else Pass(w.rows, if w.transient then Failing else Deferred, seen + 1)
  }

  /** The handler: the event table and the deferral counters (by payload body) are updated message by message. */
  class Intake {
    var rows: Rows
    var deferrals: map<string, nat>

    function Seen(body: string): nat
      reads this
    {
      if body in deferrals then deferrals[body] else 0
    }

    method HandleBatchedPayload(body: string, messages: seq<Msg>) returns (answer: Answer, ingested: nat, deferred: nat)
      modifies this
      ensures var p := RunPass(old(rows), messages, old(Seen(body)));
              rows == p.rows && answer == p.answer && Seen(body) == p.deferrals
      ensures forall b | b != body :: Seen(b) == old(Seen(b))
      ensures answer == Deferred ==> ingested >= MAX_INGEST && deferred > 0
      ensures ingested <= MAX_INGEST
    {
      ingested, deferred := 0, 0;
      var transient, index := false, 0;
      while index < |messages| && ingested < MAX_INGEST
        invariant index <= |messages| && ingested <= MAX_INGEST && deferrals == old(deferrals)
        invariant var w := Walk(rows, messages[index..], ingested);
                  Walk(old(rows), messages, 0) == w.(transient := w.transient || transient)
        decreases |messages| - index
      {
        var m := messages[index];
        assert messages[index..][0] == m && messages[index..][1..] == messages[index + 1..];
        if m.id in rows {
        } else {
          match m.verdict {
            case Clean =>
              rows := rows[m.id := Stored];
              ingested := ingested + 1;
            case Filtered => ingested := ingested + 1;
            case Transient => transient := true;
            case Poison =>
              if m.keeps {
                rows := rows[m.id := DeadLettered];
              }
          }
        }
        index := index + 1;
      }
      var remaining := messages[index..];
      deferred := |remaining|;
      if remaining != [] {
        var seen := Seen(body);
        if seen >= MAX_DEFERRALS {
          DeadLetterAll(remaining);
          deferred := 0;
        } else {
          deferrals := deferrals[body := seen + 1];
        }
      }
      answer := if transient then Failing else if deferred > 0 then Deferred else Acked;
    }

    method DeadLetterAll(remaining: seq<Msg>)
      modifies `rows
      ensures rows == KeepAll(old(rows), remaining)
    {
      for k := 0 to |remaining|
        invariant KeepAll(old(rows), remaining) == KeepAll(rows, remaining[k..])
      {
        assert remaining[k..][0] == remaining[k] && remaining[k..][1..] == remaining[k + 1..];
        var m := remaining[k];
        if m.keeps && (m.id !in rows || rows[m.id] == Open) {
          rows := rows[m.id := DeadLettered];
        }
      }
    }
  }

  // ---- nothing is lost ---------------------------------------------------------------------------------

  predicate Extends(rows: Rows, later: Rows) {
    forall id | id in rows :: id in later && (later[id] == rows[id] || (rows[id] == Open && later[id] == DeadLettered))
  }

  /** Whether a message has a row, or could not have one: it is filtered, or its dead letter cannot be written. */
  predicate Accounted(rows: Rows, m: Msg) {
    m.id in rows || m.verdict == Filtered || !m.keeps
  }

  predicate Steady(ms: seq<Msg>) {
    forall k | 0 <= k < |ms| :: ms[k].verdict != Transient
  }

  /** A walk only adds rows, stops at a suffix of the messages, and accounts for everything before it. */
  lemma {:induction false} WalkAccounts(rows: Rows, ms: seq<Msg>, ingested: nat)
    ensures var w := Walk(rows, ms, ingested);
            && Extends(rows, w.rows) && |w.rest| <= |ms| && w.rest == ms[|ms| - |w.rest|..]
            && (Steady(ms) ==> !w.transient && forall k | 0 <= k < |ms| - |w.rest| :: Accounted(w.rows, ms[k]))
    decreases |ms|
  {
    if ms != [] && ingested < MAX_INGEST {
      WalkAccounts(Ingest(rows, ms[0]), ms[1..], ingested + Counts(rows, ms[0]));
      var w := Walk(rows, ms, ingested);
      assert ms[|ms| - |w.rest|..] == ms[1..][|ms[1..]| - |w.rest|..];
      assert Steady(ms) ==> Steady(ms[1..]) && Accounted(Ingest(rows, ms[0]), ms[0]);
      forall k | 0 <= k < |ms| - |w.rest| && Steady(ms)
        ensures Accounted(w.rows, ms[k])
      {
        if k > 0 {
          assert Accounted(w.rows, ms[1..][k - 1]);
        }
      }
    }
  }

  lemma {:induction false} KeepAllAccounts(rows: Rows, ms: seq<Msg>)
    ensures Extends(rows, KeepAll(rows, ms)) && forall k | 0 <= k < |ms| :: Accounted(KeepAll(rows, ms), ms[k])
    ensures forall k | 0 <= k < |ms| && ms[k].keeps ::
              ms[k].id in KeepAll(rows, ms) && KeepAll(rows, ms)[ms[k].id] != Open
    decreases |ms|
  {
    if ms != [] {
      KeepAllAccounts(Keep(rows, ms[0]), ms[1..]);
      forall k | 0 <= k < |ms|
        ensures Accounted(KeepAll(rows, ms), ms[k])
        ensures ms[k].keeps ==> ms[k].id in KeepAll(rows, ms) && KeepAll(rows, ms)[ms[k].id] != Open
      {
        if k > 0 {
          assert Accounted(KeepAll(rows, ms), ms[1..][k - 1]);
          assert ms[1..][k - 1] == ms[k];
        }
      }
    }
  }

  /** The messages a pass leaves behind are marked by the pass that gives up: none of their rows is open any more. */
  lemma GivingUpClosesRows(rows: Rows, ms: seq<Msg>, seen: nat, k: nat)
    requires seen >= MAX_DEFERRALS && k < |Walk(rows, ms, 0).rest| && Walk(rows, ms, 0).rest[k].keeps
    ensures var p, id := RunPass(rows, ms, seen), Walk(rows, ms, 0).rest[k].id;
            id in p.rows && p.rows[id] in {Stored, DeadLettered}
  {
    KeepAllAccounts(Walk(rows, ms, 0).rows, Walk(rows, ms, 0).rest);
  }

  /** A pass never loses a row, and changes none but an open one into a dead letter; without transient errors it is
      acknowledged or deferred, and an acknowledged pass accounts for every message of the payload. */
  lemma PassAccounts(rows: Rows, ms: seq<Msg>, seen: nat)
    ensures var p := RunPass(rows, ms, seen);
            && Extends(rows, p.rows)
            && (Steady(ms) ==> p.answer != Failing)
            && (Steady(ms) && p.answer == Acked ==> forall k | 0 <= k < |ms| :: Accounted(p.rows, ms[k]))
            && (p.answer == Deferred ==> seen < MAX_DEFERRALS && p.deferrals == seen + 1)
  {
    WalkAccounts(rows, ms, 0);
    var w := Walk(rows, ms, 0);
    if w.rest != [] && seen >= MAX_DEFERRALS {
      KeepAllAccounts(w.rows, w.rest);
      forall k | 0 <= k < |ms| && Steady(ms)
        ensures Accounted(KeepAll(w.rows, w.rest), ms[k])
      {
        if k < |ms| - |w.rest| {
          assert Accounted(w.rows, ms[k]);
        } else {
          assert ms[k] == w.rest[k - (|ms| - |w.rest|)];
        }
      }
    }
  }

  /** The rows once the payload, redelivered as long as it is deferred, is acknowledged; and the passes that takes. */
  function Redelivered(rows: Rows, ms: seq<Msg>, seen: nat): (Rows, nat)
    requires Steady(ms)
    decreases MAX_DEFERRALS - seen
  {
    PassAccounts(rows, ms, seen);
    var p := RunPass(rows, ms, seen);
    if p.answer == Acked then (p.rows, 1)
    else
      var (later, n) := Redelivered(p.rows, ms, p.deferrals);
      (later, n + 1)
  }

  /** Redelivery ends: within MAX_DEFERRALS + 1 passes the payload is acknowledged, no row was lost on the way, and
      every message is accounted for. */
  lemma {:induction false} AcknowledgedInTime(rows: Rows, ms: seq<Msg>, seen: nat)
    requires Steady(ms)
    ensures var (later, passes) := Redelivered(rows, ms, seen);
            && Extends(rows, later)
            && (forall k | 0 <= k < |ms| :: Accounted(later, ms[k]))
            && passes <= (if seen <= MAX_DEFERRALS then MAX_DEFERRALS + 1 - seen else 1)
    decreases MAX_DEFERRALS - seen
  {
    PassAccounts(rows, ms, seen);
    var p := RunPass(rows, ms, seen);
    if p.answer != Acked {
      AcknowledgedInTime(p.rows, ms, p.deferrals);
    }
  }

  // ---- progress ----------------------------------------------------------------------------------------

  predicate Distinct(ms: seq<Msg>) {
    forall j, k | 0 <= j < k < |ms| :: ms[j].id != ms[k].id
  }

  predicate AllClean(ms: seq<Msg>) {
    Distinct(ms) && forall k | 0 <= k < |ms| :: ms[k].verdict == Clean
  }

  /** How many messages have no row yet. */
  function Missing(rows: Rows, ms: seq<Msg>): nat {
    if ms == [] then 0 else (if ms[0].id in rows then 0 else 1) + Missing(rows, ms[1..])
  }

  function Min(a: nat, b: nat): nat {
    if a < b then a else b
  }

  /** Every row of `later` that `rows` lacks is a stored one. */
  predicate OnlyStores(rows: Rows, later: Rows) {
    forall id | id in later && id !in rows :: later[id] == Stored
  }

  lemma {:induction false} MissingIgnoresOthers(rows: Rows, id: string, ms: seq<Msg>)
    requires forall k | 0 <= k < |ms| :: ms[k].id != id
    ensures Missing(rows[id := Stored], ms) == Missing(rows, ms)
  {
    if ms != [] {
      MissingIgnoresOthers(rows, id, ms[1..]);
    }
  }

  /** `later` is `rows` after storing min(room, missing) of the messages, and nothing else. */
  predicate Filled(rows: Rows, ms: seq<Msg>, room: nat, later: Rows) {
    && Missing(later, ms) == Missing(rows, ms) - Min(room, Missing(rows, ms))
    && |later| == |rows| + Min(room, Missing(rows, ms))
    && OnlyStores(rows, later)
  }

  /** Distinct clean messages: a walk stores min(room, missing) new ones, and touches nothing else. */
  lemma {:induction false} WalkProgress(rows: Rows, ms: seq<Msg>, ingested: nat)
    requires AllClean(ms) && ingested <= MAX_INGEST
    ensures Filled(rows, ms, MAX_INGEST - ingested, Walk(rows, ms, ingested).rows)
    decreases |ms|
  {
    if ms == [] || ingested == MAX_INGEST {
      NothingToFill(rows, ms, MAX_INGEST - ingested);
    } else {
      var next, count := Ingest(rows, ms[0]), Counts(rows, ms[0]);
      HeadProgress(rows, ms);
      WalkProgress(next, ms[1..], ingested + count);
      var later := WalkStep(rows, ms, ingested);
      ProgressStep(rows, next, ms, count, MAX_INGEST - ingested, later);
    }
  }

  lemma NothingToFill(rows: Rows, ms: seq<Msg>, room: nat)
    requires ms == [] || room == 0
    ensures Filled(rows, ms, room, rows)
  {
  }

  lemma WalkStep(rows: Rows, ms: seq<Msg>, ingested: nat) returns (later: Rows)
    requires ms != [] && ingested < MAX_INGEST
    ensures later == Walk(rows, ms, ingested).rows
    ensures later == Walk(Ingest(rows, ms[0]), ms[1..], ingested + Counts(rows, ms[0])).rows
    ensures Extends(Ingest(rows, ms[0]), later)
  {
    WalkAccounts(Ingest(rows, ms[0]), ms[1..], ingested + Counts(rows, ms[0]));
    later := Walk(rows, ms, ingested).rows;
  }

  lemma ProgressStep(rows: Rows, next: Rows, ms: seq<Msg>, count: nat, room: nat, later: Rows)
    requires ms != [] && ms[0].id in next && Extends(next, later) && OnlyStores(rows, next)
    requires count <= 1 <= room && |next| == |rows| + count && Missing(next, ms[1..]) == Missing(rows, ms) - count
    requires Filled(next, ms[1..], room - count, later)
    ensures Filled(rows, ms, room, later)
  {
    assert Missing(later, ms) == Missing(later, ms[1..]);
  }

  lemma TailIsClean(ms: seq<Msg>)
    requires AllClean(ms) && ms != []
    ensures AllClean(ms[1..]) && forall k | 0 <= k < |ms[1..]| :: ms[1..][k].id != ms[0].id
  {
    assert forall k | 0 <= k < |ms[1..]| :: ms[1..][k] == ms[k + 1];
  }

  lemma HeadProgress(rows: Rows, ms: seq<Msg>)
    requires AllClean(ms) && ms != []
    ensures var next := Ingest(rows, ms[0]);
            && AllClean(ms[1..]) && ms[0].id in next && OnlyStores(rows, next)
            && Missing(next, ms[1..]) == Missing(rows, ms) - Counts(rows, ms[0])
            && |next| == |rows| + Counts(rows, ms[0])
  {
    var m, next := ms[0], Ingest(rows, ms[0]);
    TailIsClean(ms);
    if m.id !in rows {
      MissingIgnoresOthers(rows, m.id, ms[1..]);
      assert next.Keys == rows.Keys + {m.id};
    }
  }

  lemma {:induction false} KeepAllOfStored(rows: Rows, ms: seq<Msg>)
    requires Missing(rows, ms) == 0
    ensures KeepAll(rows, ms).Keys == rows.Keys
    decreases |ms|
  {
    if ms != [] {
      assert Keep(rows, ms[0]).Keys == rows.Keys;
      SameKeysSameMissing(rows, Keep(rows, ms[0]), ms[1..]);
      KeepAllOfStored(Keep(rows, ms[0]), ms[1..]);
    }
  }

  lemma {:induction false} SameKeysSameMissing(rows: Rows, later: Rows, ms: seq<Msg>)
    requires rows.Keys == later.Keys
    ensures Missing(later, ms) == Missing(rows, ms)
  {
    if ms != [] {
      SameKeysSameMissing(rows, later, ms[1..]);
    }
  }

  lemma {:induction false} MissingSuffix(rows: Rows, ms: seq<Msg>, k: nat)
    requires k <= |ms|
    ensures Missing(rows, ms[k..]) <= Missing(rows, ms)
  {
    if k > 0 {
      MissingSuffix(rows, ms[1..], k - 1);
      assert ms[1..][k - 1..] == ms[k..];
    }
  }

  /** Each pass over distinct clean messages stores min(MAX_INGEST, missing) of them; only the last pass may
      dead-letter, and only what is then still missing. */
  lemma PassProgress(rows: Rows, ms: seq<Msg>, seen: nat)
    requires AllClean(ms)
    ensures var p := RunPass(rows, ms, seen); var stored := Min(MAX_INGEST, Missing(rows, ms));
            && (p.answer == Deferred || stored == Missing(rows, ms) ==>
                  |p.rows| == |rows| + stored && Missing(p.rows, ms) == Missing(rows, ms) - stored
                  && OnlyStores(rows, p.rows))
  {
    WalkProgress(rows, ms, 0);
    WalkAccounts(rows, ms, 0);
    var w := Walk(rows, ms, 0);
    if w.rest != [] && seen >= MAX_DEFERRALS && Missing(rows, ms) <= MAX_INGEST {
      MissingSuffix(w.rows, ms, |ms| - |w.rest|);
      KeepAllOfStored(w.rows, w.rest);
      KeepAllAccounts(w.rows, w.rest);
      SameKeysSameMissing(w.rows, KeepAll(w.rows, w.rest), ms);
      assert |KeepAll(w.rows, w.rest)| == |KeepAll(w.rows, w.rest).Keys| == |w.rows.Keys| == |w.rows|;
    }
  }

  predicate AllKept(ms: seq<Msg>) {
    forall k | 0 <= k < |ms| :: ms[k].keeps
  }

  lemma {:induction false} KeepAllFills(rows: Rows, ms: seq<Msg>)
    requires AllKept(ms)
    ensures var later := KeepAll(rows, ms);
            && (forall id | id in later && id !in rows :: later[id] == DeadLettered)
            && (forall k | 0 <= k < |ms| :: ms[k].id in later) && Extends(rows, later)
    decreases |ms|
  {
    if ms != [] {
      KeepAllFills(Keep(rows, ms[0]), ms[1..]);
      assert forall k | 0 < k < |ms| :: ms[k] == ms[1..][k - 1];
    }
  }

  lemma {:induction false} NoneMissing(rows: Rows, ms: seq<Msg>)
    requires forall k | 0 <= k < |ms| :: ms[k].id in rows
    ensures Missing(rows, ms) == 0
  {
    if ms != [] {
      NoneMissing(rows, ms[1..]);
    }
  }

  /** The pass that gives up on a payload of distinct clean messages stores exactly MAX_INGEST of those still missing
      and dead-letters all the others, so that none is missing afterwards. */
  lemma LastPassKeepsTheRest(rows: Rows, ms: seq<Msg>, seen: nat) returns (stored: Rows)
    requires AllClean(ms) && AllKept(ms) && seen >= MAX_DEFERRALS && Missing(rows, ms) > MAX_INGEST
    ensures Filled(rows, ms, MAX_INGEST, stored) && |stored| == |rows| + MAX_INGEST && Extends(rows, stored)
    ensures var p := RunPass(rows, ms, seen);
            && Extends(stored, p.rows) && Missing(p.rows, ms) == 0
            && forall id | id in p.rows && id !in stored :: p.rows[id] == DeadLettered
  {
    WalkProgress(rows, ms, 0);
    WalkAccounts(rows, ms, 0);
    var w := Walk(rows, ms, 0);
    stored := w.rows;
    if w.rest == [] {
      AllAccountedMeansNoneMissing(w.rows, ms, 0, rows);
    }
    KeepAllFills(w.rows, w.rest);
    forall k | 0 <= k < |ms|
      ensures ms[k].id in KeepAll(w.rows, w.rest)
    {
      if k < |ms| - |w.rest| {
        assert Accounted(w.rows, ms[k]);
      } else {
        InRest(ms, w.rest, k);
      }
    }
    NoneMissing(KeepAll(w.rows, w.rest), ms);
  }

  lemma InRest(ms: seq<Msg>, rest: seq<Msg>, k: nat)
    requires |rest| <= |ms| && rest == ms[|ms| - |rest|..] && |ms| - |rest| <= k < |ms|
    ensures ms[k] == rest[k - (|ms| - |rest|)]
  {
  }

  /** What the passes left after `seen` deferred ones can store. */
  function Room(seen: nat): int {
    MAX_INGEST * (MAX_DEFERRALS + 1 - seen)
  }

  /** A payload of at most MAX_INGEST new messages per remaining pass is stored in full: no new message is
      dead-lettered. */
  lemma {:induction false} SmallEnoughIsStored(rows: Rows, ms: seq<Msg>, seen: nat)
    requires AllClean(ms) && Steady(ms)
    requires seen <= MAX_DEFERRALS && Missing(rows, ms) <= Room(seen)
    ensures OnlyStores(rows, Redelivered(rows, ms, seen).0)
    decreases MAX_DEFERRALS - seen
  {
    OnePassSmallEnough(rows, ms, seen);
    PassAccounts(rows, ms, seen);
    var p := RunPass(rows, ms, seen);
    if p.answer == Deferred {
      SmallEnoughIsStored(p.rows, ms, seen + 1);
      AcknowledgedInTime(p.rows, ms, seen + 1);
    }
  }

  lemma {:induction false} SomeMissing(rows: Rows, ms: seq<Msg>) returns (k: nat)
    requires Missing(rows, ms) > 0
    ensures k < |ms| && ms[k].id !in rows
  {
    k := 0;
    if ms[0].id in rows {
      k := SomeMissing(rows, ms[1..]);
      k := k + 1;
    }
  }

  /** The last pass over more than it can store adds a dead letter. */
  lemma LastPassAddsDeadLetter(rows: Rows, ms: seq<Msg>, seen: nat)
    requires AllClean(ms) && AllKept(ms) && seen >= MAX_DEFERRALS && Missing(rows, ms) > MAX_INGEST
    ensures !OnlyStores(rows, RunPass(rows, ms, seen).rows)
  {
    var stored := LastPassKeepsTheRest(rows, ms, seen);
    var k := SomeMissing(stored, ms);
    var later := RunPass(rows, ms, seen).rows;
    if ms[k].id !in later {
      MissingSome(later, ms, k);
    }
    assert ms[k].id in later && ms[k].id !in rows && later[ms[k].id] == DeadLettered;
  }

  lemma {:induction false} MissingSome(rows: Rows, ms: seq<Msg>, k: nat)
    requires k < |ms| && ms[k].id !in rows
    ensures Missing(rows, ms) > 0
  {
    if k > 0 {
      MissingSome(rows, ms[1..], k - 1);
    }
  }

  /** And one that is larger is not: the last pass dead-letters some of it. */
  lemma {:induction false} TooLargeIsDeadLettered(rows: Rows, ms: seq<Msg>, seen: nat)
    requires AllClean(ms) && Steady(ms) && AllKept(ms)
    requires seen <= MAX_DEFERRALS && Missing(rows, ms) > Room(seen)
    ensures !OnlyStores(rows, Redelivered(rows, ms, seen).0)
    decreases MAX_DEFERRALS - seen
  {
    PassAccounts(rows, ms, seen);
    var p := RunPass(rows, ms, seen);
    if seen == MAX_DEFERRALS {
      LastPassAddsDeadLetter(rows, ms, seen);
    } else if p.answer == Acked {
      EarlyAckNeedsRoom(rows, ms, seen);
    } else {
      PassProgress(rows, ms, seen);
      TooLargeIsDeadLettered(p.rows, ms, seen + 1);
      NotOnlyStores(rows, p.rows, Redelivered(p.rows, ms, seen + 1).0);
    }
  }

  lemma NotOnlyStores(rows: Rows, next: Rows, later: Rows)
    requires Extends(rows, next) && !OnlyStores(next, later)
    ensures !OnlyStores(rows, later)
  {
    var id :| id in later && id !in next && later[id] != Stored;
    assert id !in rows;
  }

  /** A payload of distinct clean messages is stored without a dead letter if and only if it has at most MAX_INGEST new
      ones per remaining pass. */
  lemma StoredInFullIff(rows: Rows, ms: seq<Msg>, seen: nat)
    requires AllClean(ms) && Steady(ms) && AllKept(ms) && seen <= MAX_DEFERRALS
    ensures OnlyStores(rows, Redelivered(rows, ms, seen).0) <==> Missing(rows, ms) <= Room(seen)
  {
    if Missing(rows, ms) <= Room(seen) {
      SmallEnoughIsStored(rows, ms, seen);
    } else {
      TooLargeIsDeadLettered(rows, ms, seen);
    }
  }

  lemma OnePassSmallEnough(rows: Rows, ms: seq<Msg>, seen: nat)
    requires AllClean(ms) && Steady(ms)
    requires seen <= MAX_DEFERRALS && Missing(rows, ms) <= Room(seen)
    ensures var p := RunPass(rows, ms, seen);
            && OnlyStores(rows, p.rows)
            && (p.answer == Deferred ==> seen < MAX_DEFERRALS && Missing(p.rows, ms) <= Room(seen + 1))
  {
    PassAccounts(rows, ms, seen);
    PassProgress(rows, ms, seen);
    var p := RunPass(rows, ms, seen);
    if p.answer == Acked && seen < MAX_DEFERRALS {
      EarlyAckNeedsRoom(rows, ms, seen);
    }
  }

  /** A walk that reaches the end has not run out of room. */
  lemma EarlyAckNeedsRoom(rows: Rows, ms: seq<Msg>, seen: nat)
    requires AllClean(ms) && seen < MAX_DEFERRALS && RunPass(rows, ms, seen).answer == Acked
    ensures Missing(rows, ms) <= MAX_INGEST
  {
    WalkAccounts(rows, ms, 0);
    WalkProgress(rows, ms, 0);
    var w := Walk(rows, ms, 0);
    AllAccountedMeansNoneMissing(w.rows, ms, 0, rows);
  }

  lemma {:induction false} AllAccountedMeansNoneMissing(later: Rows, ms: seq<Msg>, ingested: nat, rows: Rows)
    requires AllClean(ms) && Walk(rows, ms, ingested) == Walked(later, [], false)
    ensures Missing(later, ms) == 0
  {
    if ms != [] {
      var m, next := ms[0], Ingest(rows, ms[0]);
      AllAccountedMeansNoneMissing(later, ms[1..], ingested + Counts(rows, m), next);
      WalkAccounts(next, ms[1..], ingested + Counts(rows, m));
    }
  }

  // ---- what blocks a payload ---------------------------------------------------------------------------

  /** Ingest would give this message a row. */
  predicate New(rows: Rows, m: Msg) {
    m.id !in rows && (m.verdict == Clean || (m.verdict == Poison && m.keeps))
  }

  predicate SomeNew(rows: Rows, ms: seq<Msg>) {
    exists k | 0 <= k < |ms| :: New(rows, ms[k])
  }

  /** How many of the messages count toward the cap. */
  function Counted(rows: Rows, ms: seq<Msg>): nat {
    if ms == [] then 0 else Counts(rows, ms[0]) + Counted(rows, ms[1..])
  }

  /** How many of those in front of the first new message do. */
  function Ahead(rows: Rows, ms: seq<Msg>): nat {
    if ms == [] || New(rows, ms[0]) then 0 else Counts(rows, ms[0]) + Ahead(rows, ms[1..])
  }

  predicate Added(rows: Rows, later: Rows) {
    exists id | id in later :: id !in rows
  }

  /** A walk adds nothing exactly when nothing is new, or the cap is used up in front of the first new message. */
  lemma {:induction false} WalkAddsNothingIff(rows: Rows, ms: seq<Msg>, ingested: nat)
    ensures Walk(rows, ms, ingested).rows == rows <==> !SomeNew(rows, ms) || ingested + Ahead(rows, ms) >= MAX_INGEST
    ensures Walk(rows, ms, ingested).rows != rows ==> Added(rows, Walk(rows, ms, ingested).rows)
    decreases |ms|
  {
    if ms != [] && ingested < MAX_INGEST {
      if New(rows, ms[0]) {
        WalkAccounts(Ingest(rows, ms[0]), ms[1..], ingested + Counts(rows, ms[0]));
        assert ms[0].id in Walk(rows, ms, ingested).rows;
      } else {
        WalkAddsNothingIff(rows, ms[1..], ingested + Counts(rows, ms[0]));
        assert SomeNew(rows, ms) <==> SomeNew(rows, ms[1..]) by {
          assert forall k | 0 < k < |ms| :: ms[k] == ms[1..][k - 1];
          assert forall k | 0 <= k < |ms[1..]| :: ms[1..][k] == ms[k + 1];
        }
      }
    }
  }

  /** The rows after `n` passes, all of them before the last one. */
  function AfterPasses(rows: Rows, ms: seq<Msg>, seen: nat, n: nat): Rows
    decreases n
  {
    if n == 0 then rows else AfterPasses(RunPass(rows, ms, seen).rows, ms, seen + 1, n - 1)
  }

  lemma {:induction false} PassesLoseNothing(rows: Rows, ms: seq<Msg>, seen: nat, n: nat)
    ensures forall id | id in rows :: id in AfterPasses(rows, ms, seen, n)
    decreases n
  {
    if n > 0 {
      PassAccounts(rows, ms, seen);
      PassesLoseNothing(RunPass(rows, ms, seen).rows, ms, seen + 1, n - 1);
    }
  }

  /** While something is new, any number of passes before the last one adds nothing exactly when MAX_INGEST messages
      that count stand in front of the first new one: each pass then stops at the same place. */
  lemma {:induction false} BlockedIff(rows: Rows, ms: seq<Msg>, seen: nat, n: nat)
    requires SomeNew(rows, ms) && 0 < n <= MAX_DEFERRALS - seen
    ensures AfterPasses(rows, ms, seen, n) == rows <==> Ahead(rows, ms) >= MAX_INGEST
    decreases n
  {
    WalkAddsNothingIff(rows, ms, 0);
    var next := RunPass(rows, ms, seen).rows;
    if Ahead(rows, ms) < MAX_INGEST {
      PassesLoseNothing(next, ms, seen + 1, n - 1);
      assert Added(rows, next);
    } else if n > 1 {
      BlockedIff(rows, ms, seen + 1, n - 1);
    }
  }

  lemma {:induction false} BlockedIsNotFinished(rows: Rows, ms: seq<Msg>, ingested: nat)
    requires SomeNew(rows, ms) && ingested + Ahead(rows, ms) >= MAX_INGEST
    ensures Walk(rows, ms, ingested).rest != []
    decreases |ms|
  {
    if ingested < MAX_INGEST {
      assert forall k | 0 < k < |ms| :: ms[k] == ms[1..][k - 1];
      BlockedIsNotFinished(rows, ms[1..], ingested + Counts(rows, ms[0]));
    }
  }

  /** A blocked payload is deferred until the last pass, which dead-letters what stands behind the cap: nothing of it
      is ever stored. */
  lemma {:induction false} BlockedIsDeadLettered(rows: Rows, ms: seq<Msg>, seen: nat)
    requires Steady(ms) && SomeNew(rows, ms) && Ahead(rows, ms) >= MAX_INGEST && seen <= MAX_DEFERRALS
    ensures Redelivered(rows, ms, seen) == (KeepAll(rows, Walk(rows, ms, 0).rest), MAX_DEFERRALS + 1 - seen)
    ensures var later := Redelivered(rows, ms, seen).0;
            forall id | id in later && id !in rows :: later[id] == DeadLettered
    decreases MAX_DEFERRALS - seen
  {
    WalkAddsNothingIff(rows, ms, 0);
    BlockedIsNotFinished(rows, ms, 0);
    WalkAccounts(rows, ms, 0);
    if seen < MAX_DEFERRALS {
      BlockedIsDeadLettered(rows, ms, seen + 1);
    } else {
      KeepAllDeadLetters(rows, Walk(rows, ms, 0).rest);
    }
  }

  lemma {:induction false} KeepAllDeadLetters(rows: Rows, ms: seq<Msg>)
    ensures var later := KeepAll(rows, ms); forall id | id in later && id !in rows :: later[id] == DeadLettered
    decreases |ms|
  {
    if ms != [] {
      KeepAllDeadLetters(Keep(rows, ms[0]), ms[1..]);
      KeepAllAccounts(Keep(rows, ms[0]), ms[1..]);
    }
  }

  /** MAX_INGEST filtered messages at the head are such a case: they leave no row, so they count on every pass. */
  lemma {:induction false} FilteredHeadBlocks(rows: Rows, head: seq<Msg>, rest: seq<Msg>, ingested: nat)
    requires forall k | 0 <= k < |head| :: head[k].verdict == Filtered && head[k].id !in rows
    requires ingested + |head| == MAX_INGEST
    ensures Ahead(rows, head + rest) >= |head|
    ensures Walk(rows, head + rest, ingested) == Walked(rows, rest, false)
  {
    if head == [] {
      assert head + rest == rest;
    } else {
      FilteredHeadBlocks(rows, head[1..], rest, ingested + 1);
      assert (head + rest)[1..] == head[1..] + rest;
    }
  }

  // ---- what a walk does to each message ----------------------------------------------------------------

  /** The two tables agree about `id`. */
  predicate SameAt(a: Rows, b: Rows, id: string) {
    (id in a <==> id in b) && (id in a ==> a[id] == b[id])
  }

  /** Of distinct messages, whatever their verdicts, a walk ingests exactly those with fewer than MAX_INGEST counted
      ones in front of them: the clean ones among them are stored, the others left for a later pass. */
  lemma {:induction false} WalkExactly(rows: Rows, ms: seq<Msg>, ingested: nat, k: nat)
    requires Distinct(ms) && k < |ms|
    ensures SameAt(Walk(rows, ms, ingested).rows,
              if ingested + Counted(rows, ms[..k]) < MAX_INGEST then Ingest(rows, ms[k]) else rows, ms[k].id)
    decreases |ms|
  {
    if ingested < MAX_INGEST {
      var next, count := Ingest(rows, ms[0]), Counts(rows, ms[0]);
      if k == 0 {
        WalkLeavesOthers(next, ms[1..], ingested + count, ms[0].id);
      } else {
        WalkExactly(next, ms[1..], ingested + count, k - 1);
        assert ms[..k][1..] == ms[1..][..k - 1];
        CountedIgnoresOthers(rows, ms[0], ms[1..][..k - 1]);
      }
    }
  }

  /** A pass asks for the whole payload again, as a failure, exactly when it met a new message with a transient
      error. */
  lemma FailingIff(rows: Rows, ms: seq<Msg>, seen: nat)
    requires Distinct(ms)
    ensures RunPass(rows, ms, seen).answer == Failing <==>
              exists k :: 0 <= k < |ms| && MeetsTransient(rows, ms, 0, k)
  {
    TransientIff(rows, ms, 0);
  }

  /** Message `k` is reached, new, and ends in a transient error. */
  predicate MeetsTransient(rows: Rows, ms: seq<Msg>, ingested: nat, k: nat)
    requires k < |ms|
  {
    ms[k].verdict == Transient && ms[k].id !in rows && ingested + Counted(rows, ms[..k]) < MAX_INGEST
  }

  lemma {:induction false} TransientIff(rows: Rows, ms: seq<Msg>, ingested: nat)
    requires Distinct(ms)
    ensures Walk(rows, ms, ingested).transient <==>
              exists k :: 0 <= k < |ms| && MeetsTransient(rows, ms, ingested, k)
    decreases |ms|
  {
    if ms != [] && ingested < MAX_INGEST {
      var next, n, rest := Ingest(rows, ms[0]), ingested + Counts(rows, ms[0]), ms[1..];
      TransientIff(next, rest, n);
      forall k | 0 < k < |ms|
        ensures MeetsTransient(rows, ms, ingested, k) <==> MeetsTransient(next, rest, n, k - 1)
      {
        assert ms[..k][1..] == rest[..k - 1] && ms[k] == rest[k - 1];
        CountedIgnoresOthers(rows, ms[0], rest[..k - 1]);
      }
      assert MeetsTransient(rows, ms, ingested, 0) <==> ms[0].verdict == Transient && ms[0].id !in rows;
      if k :| 0 <= k < |rest| && MeetsTransient(next, rest, n, k) {
        assert MeetsTransient(rows, ms, ingested, k + 1);
      }
    }
  }

  /** Rows of no message of the payload are not touched. */
  lemma {:induction false} WalkLeavesOthers(rows: Rows, ms: seq<Msg>, ingested: nat, id: string)
    requires forall k | 0 <= k < |ms| :: ms[k].id != id
    ensures SameAt(Walk(rows, ms, ingested).rows, rows, id)
    decreases |ms|
  {
    if ms != [] && ingested < MAX_INGEST {
      WalkLeavesOthers(Ingest(rows, ms[0]), ms[1..], ingested + Counts(rows, ms[0]), id);
    }
  }

  lemma {:induction false} CountedIgnoresOthers(rows: Rows, m: Msg, ms: seq<Msg>)
    requires forall k | 0 <= k < |ms| :: ms[k].id != m.id
    ensures Counted(Ingest(rows, m), ms) == Counted(rows, ms)
  {
    if ms != [] {
      CountedIgnoresOthers(rows, m, ms[1..]);
    }
  }
}
