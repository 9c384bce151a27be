/**
 The event table over time: deliveries, dead letters, row actions and the passing of time in any
 interleaving, and what holds in every run.
 */
module GatewayRuns {
  import opened Options
  import opened GatewayEvent
  import opened GatewayOutcomes
  import opened GatewayTimed
  import opened GatewayReplies

  /** The clock, the rows by name, and the idempotency key of each row. */
  datatype World = World(now: int, keys: map<nat, string>, rows: map<nat, Row>)

  /** A dead letter of a message that has a row already is marked by that row's `RemarkReads` and `RemarkWrites`.
      How one delivery of a message ends: routed (a deterministic failure dead-letters it), cut off after its row was
      committed, or rolled back by a transient error. */
  datatype Fate = Ingested(outcome: Outcome) | Crashed | RolledBack

  datatype Event =
    | Tick(to: int)
    | Deliver(key: string, name: nat, fate: Fate)
    | StoreDeadLetter(key: string, name: nat)
    | On(name: nat, action: Action)

  const EMPTY := World(0, map[], map[])

  ghost predicate HasKey(w: World, key: string) {
    exists n :: n in w.keys && w.keys[n] == key
  }

  /** Time passes only while every live job is within its limit: a job that reaches it has been killed. */
  ghost predicate Possible(w: World, e: Event) {
    match e
    case Tick(to) => w.now <= to && forall n | n in w.rows :: MayWait(w.rows[n], w.now, to)
    case Deliver(_, name, _) => name !in w.rows
    case StoreDeadLetter(_, name) => name !in w.rows
    case On(name, a) => name in w.rows && Can(w.rows[name], a, w.now)
  }

  function Insert(w: World, key: string, name: nat, row: Row): World {
    w.(keys := w.keys[name := key], rows := w.rows[name := row])
  }

  ghost function Next(w: World, e: Event): World
    requires Possible(w, e)
  {
    match e
    case Tick(to) => w.(now := to)
    case Deliver(key, name, fate) =>
      if HasKey(w, key) || fate.RolledBack? then w
      else Insert(w, key, name, if fate.Crashed? then Inserted(w.now) else Routed(Inserted(w.now), fate.outcome, w.now))
    case StoreDeadLetter(key, name) =>
      if HasKey(w, key) then w else Insert(w, key, name, Written(Inserted(w.now), Failed, DeadLetter, w.now))
    case On(name, a) => w.(rows := w.rows[name := Do(w.rows[name], a, w.now)])
  }

  /** Nothing stale lands, and only clean dead letters are replayed. */
  ghost predicate CarefulEvent(w: World, e: Event)
    requires Possible(w, e)
  {
    e.On? ==> Careful(w.rows[e.name], e.action, w.now)
  }

  /** No replay and no late requeue makes an event claimable without credit. */
  ghost predicate GuardedEvent(w: World, e: Event)
    requires Possible(w, e)
  {
    e.On? ==> KeepsBound(w.rows[e.name], e.action)
  }

  ghost predicate Run(w: World, es: seq<Event>)
    decreases |es|
  {
    es == [] || (Possible(w, es[0]) && Run(Next(w, es[0]), es[1..]))
  }

  ghost predicate CarefulRun(w: World, es: seq<Event>)
    decreases |es|
  {
    es == [] || (Possible(w, es[0]) && CarefulEvent(w, es[0]) && CarefulRun(Next(w, es[0]), es[1..]))
  }

  ghost predicate GuardedRun(w: World, es: seq<Event>)
    decreases |es|
  {
    es == [] || (Possible(w, es[0]) && GuardedEvent(w, es[0]) && GuardedRun(Next(w, es[0]), es[1..]))
  }

  ghost function Final(w: World, es: seq<Event>): World
    requires Run(w, es)
    decreases |es|
  {
    if es == [] then w else Final(Next(w, es[0]), es[1..])
  }

  // ---- invariants of every run ------------------------------------------------------------------------

  /** Rows and keys agree, no key is used twice, and every row is within its budgets. */
  ghost predicate Sound(w: World) {
    && w.keys.Keys == w.rows.Keys
    && (forall m, n | m in w.keys && n in w.keys && w.keys[m] == w.keys[n] :: m == n)
    && (forall n | n in w.rows :: Bounded(w.rows[n], w.now))
  }

  /** What no event undoes: rows are never removed or rekeyed, and each keeps what `Preserves` lists. */
  ghost predicate Grows(w: World, later: World) {
    && w.now <= later.now
    && (forall n | n in w.rows :: n in later.rows && Preserves(w.rows[n], later.rows[n], later.now))
    && (forall n | n in w.keys :: n in later.keys && later.keys[n] == w.keys[n])
  }

  lemma InsertStaysSound(w: World, key: string, name: nat, row: Row)
    requires Sound(w) && !HasKey(w, key) && name !in w.rows && Bounded(row, w.now)
    ensures Sound(Insert(w, key, name, row)) && Grows(w, Insert(w, key, name, row))
  {
  }

  lemma ActStaysSound(w: World, name: nat, a: Action)
    requires Sound(w) && name in w.rows && Can(w.rows[name], a, w.now)
    ensures var after := w.(rows := w.rows[name := Do(w.rows[name], a, w.now)]); Sound(after) && Grows(w, after)
  {
    StaysBounded(w.rows[name], a, w.now);
    NeverUndone(w.rows[name], a, w.now);
  }

  lemma NextStaysSound(w: World, e: Event)
    requires Sound(w) && Possible(w, e)
    ensures Sound(Next(w, e)) && Grows(w, Next(w, e))
  {
    match e {
      case Tick(_) =>
      case Deliver(key, name, fate) =>
        if !HasKey(w, key) && !fate.RolledBack? {
          if fate.Ingested? {
            RoutedStaysBounded(Inserted(w.now), fate.outcome, w.now);
          }
          InsertStaysSound(w, key, name, if fate.Crashed? then Inserted(w.now)
            else Routed(Inserted(w.now), fate.outcome, w.now));
        }
      case StoreDeadLetter(key, name) =>
        if !HasKey(w, key) {
          InsertStaysSound(w, key, name, Written(Inserted(w.now), Failed, DeadLetter, w.now));
        }
      case On(name, a) => ActStaysSound(w, name, a);
    }
  }

  lemma GrowsTransitive(a: World, b: World, c: World)
    requires Grows(a, b) && Grows(b, c)
    ensures Grows(a, c)
  {
    forall n | n in a.rows
      ensures n in c.rows && Preserves(a.rows[n], c.rows[n], c.now)
    {
      assert Preserves(a.rows[n], b.rows[n], b.now) && Preserves(b.rows[n], c.rows[n], c.now);
    }
  }

  /** At most one row per (gateway, provider event id) at any time; budgets and markers hold for good: at most
      RECOVERY_MAX_ATTEMPTS recoveries, one Flow Run and one menu prompt per event, replays included. */
  lemma {:induction false} EveryRunIsSound(w: World, es: seq<Event>)
    requires Sound(w) && Run(w, es)
    ensures Sound(Final(w, es)) && Grows(w, Final(w, es))
    decreases |es|
  {
    if es != [] {
      NextStaysSound(w, es[0]);
      EveryRunIsSound(Next(w, es[0]), es[1..]);
      GrowsTransitive(w, Next(w, es[0]), Final(w, es));
    }
  }

  /** The budgets spelled out for one event of any run from an empty table. */
  lemma EventBudgets(es: seq<Event>, name: nat)
    requires Run(EMPTY, es) && name in Final(EMPTY, es).rows
    ensures var row := Final(EMPTY, es).rows[name];
            && row.log.recoveries <= RECOVERY_MAX_ATTEMPTS && row.log.runs <= 1 && row.log.prompts <= 1
            && row.requeues <= REQUEUE_MAX
  {
    EveryRunIsSound(EMPTY, es);
  }

  /** Whether an event stores a new row for `key`. */
  ghost predicate Stores(w: World, e: Event, key: string)
    requires Possible(w, e)
  {
    !HasKey(w, key) && HasKey(Next(w, e), key)
  }

  ghost function TimesStored(w: World, es: seq<Event>, key: string): nat
    requires Run(w, es)
    decreases |es|
  {
    if es == [] then 0 else (if Stores(w, es[0], key) then 1 else 0) + TimesStored(Next(w, es[0]), es[1..], key)
  }

  /** Exactly once: over any run a message is stored, and so routed as new, at most once, and once it is stored
      no delivery of it stores anything again. */
  lemma {:induction false} StoredAtMostOnce(w: World, es: seq<Event>, key: string)
    requires Sound(w) && Run(w, es)
    ensures TimesStored(w, es, key) == (if !HasKey(w, key) && HasKey(Final(w, es), key) then 1 else 0)
    ensures HasKey(w, key) ==> HasKey(Final(w, es), key)
    decreases |es|
  {
    if es != [] {
      var next := Next(w, es[0]);
      NextStaysSound(w, es[0]);
      StoredAtMostOnce(next, es[1..], key);
      if HasKey(w, key) {
        var n :| n in w.keys && w.keys[n] == key;
        assert n in next.keys && next.keys[n] == key;
      }
    }
  }

  /** Of any number of reapers holding the same listing, one at most acts: after it, the version is gone for good. */
  lemma ListingActsOnce(w: World, name: nat, first: Action, es: seq<Event>, second: Action)
    requires Sound(w) && Run(w, [On(name, first)] + es)
    requires first.Recover? && SameVersion(w.rows[name], first.listedStatus, first.listedModified)
    requires second.Recover? && second.listedModified == first.listedModified
    ensures name in Final(w, [On(name, first)] + es).rows
    ensures !SameVersion(Final(w, [On(name, first)] + es).rows[name], second.listedStatus, second.listedModified)
  {
    var next := Next(w, On(name, first));
    assert ([On(name, first)] + es)[1..] == es;
    ActingOutdatesListing(w.rows[name], first, w.now);
    NextStaysSound(w, On(name, first));
    EveryRunIsSound(next, es);
    assert Preserves(next.rows[name], Final(next, es).rows[name], Final(next, es).now);
  }

  // ---- no message is lost -----------------------------------------------------------------------------

  /** A first delivery stores the message and leaves it where the rules say, or Received when it is cut off; a transient
      error leaves nothing.  A dead letter of a message that has no row is a Failed row.  Later ones change nothing. */
  lemma DeliveryLands(w: World, e: Event)
    requires Possible(w, e) && (e.Deliver? || e.StoreDeadLetter?)
    ensures var next := Next(w, e);
            if HasKey(w, e.key) || (e.Deliver? && e.fate.RolledBack?) then next == w
            else
              && e.name in next.rows && next.keys == w.keys[e.name := e.key]
              && next.rows == w.rows[e.name := next.rows[e.name]]
              && (e.StoreDeadLetter? ==> PutBy(next.rows[e.name], Raise))
              && (e.Deliver? && e.fate.Ingested? ==> PutBy(next.rows[e.name], e.fate.outcome))
              && (e.Deliver? && e.fate.Crashed? ==> next.rows[e.name] == Inserted(w.now))
  {
  }

  ghost predicate FreshWorld(w: World) {
    forall n | n in w.rows :: ReceivedIsFresh(w.rows[n])
  }

  lemma NextStaysFresh(w: World, e: Event)
    requires FreshWorld(w) && Possible(w, e)
    ensures FreshWorld(Next(w, e))
  {
    match e {
      case On(name, a) => StaysFresh(w.rows[name], a, w.now);
      case Deliver(_, _, fate) =>
        if fate.Ingested? {
          RoutedIsFresh(w.now, fate.outcome);
        }
      case _ =>
    }
  }

  lemma RoutedIsFresh(now: int, o: Outcome)
    ensures ReceivedIsFresh(Routed(Inserted(now), o, now))
  {
  }

  lemma {:induction false} RunStaysFresh(w: World, es: seq<Event>)
    requires FreshWorld(w) && Run(w, es)
    ensures FreshWorld(Final(w, es))
    decreases |es|
  {
    if es != [] {
      NextStaysFresh(w, es[0]);
      RunStaysFresh(Next(w, es[0]), es[1..]);
    }
  }

  /** After any run, a delivery that was cut off after its insert is made up for: recovery within budget leaves the
      message in the status, and with the cause and target, that an uncut delivery now would give it. */
  lemma OrphanIsDelivered(es: seq<Event>, name: nat, listedAt: int, o: Outcome, parts: bool)
    requires Run(EMPTY, es)
    requires var w := Final(EMPTY, es);
             && name in w.rows && w.rows[name].status == Received && WithinBudget(w.rows[name], listedAt)
             && Can(w.rows[name], Recover(Received, w.rows[name].modified, listedAt, o, parts), w.now)
    ensures var w := Final(EMPTY, es);
            var after := Do(w.rows[name], Recover(Received, w.rows[name].modified, listedAt, o, parts), w.now);
            var delivered := Routed(Inserted(w.now), o, w.now);
            && PutBy(after, o) && after.status == delivered.status && after.cause == delivered.cause
            && after.target == delivered.target
  {
    RunStaysFresh(EMPTY, es);
    var w := Final(EMPTY, es);
    RecoveredAsDelivered(w.rows[name], listedAt, o, parts, w.now);
  }

  // ---- the timed invariant over careful runs ----------------------------------------------------------

  ghost predicate TimedWorld(w: World) {
    Sound(w) && forall n | n in w.rows :: Timed(w.rows[n], w.now)
  }

  lemma FreshRow(now: int, o: Outcome)
    ensures Timed(Inserted(now), now) && Timed(Routed(Inserted(now), o, now), now)
    ensures Timed(Written(Inserted(now), Failed, DeadLetter, now), now)
  {
  }

  lemma ActStaysTimed(w: World, name: nat, a: Action)
    requires TimedWorld(w) && name in w.rows && Can(w.rows[name], a, w.now) && Careful(w.rows[name], a, w.now)
    ensures TimedWorld(w.(rows := w.rows[name := Do(w.rows[name], a, w.now)]))
  {
    ActStaysSound(w, name, a);
    StaysTimed(w.rows[name], a, w.now);
  }

  lemma DeliverStaysTimed(w: World, e: Event)
    requires TimedWorld(w) && e.Deliver? && Possible(w, e)
    ensures TimedWorld(Next(w, e))
  {
    if !HasKey(w, e.key) && !e.fate.RolledBack? {
      var o := if e.fate.Ingested? then e.fate.outcome else Reject;
      FreshRow(w.now, o);
      RoutedStaysBounded(Inserted(w.now), o, w.now);
    }
  }

  lemma NextStaysTimed(w: World, e: Event)
    requires TimedWorld(w) && Possible(w, e) && CarefulEvent(w, e)
    ensures TimedWorld(Next(w, e))
  {
    match e {
      case Tick(to) =>
        NextStaysSound(w, e);
        forall n | n in w.rows
          ensures Timed(w.rows[n], to)
        {
          WaitingStaysTimed(w.rows[n], w.now, to);
        }
      case Deliver(_, _, _) => DeliverStaysTimed(w, e);
      case On(name, a) => ActStaysTimed(w, name, a);
      case StoreDeadLetter(_, _) =>
    }
  }

  lemma {:induction false} CarefulRunsAreRuns(w: World, es: seq<Event>)
    requires CarefulRun(w, es)
    ensures Run(w, es)
    decreases |es|
  {
    if es != [] {
      CarefulRunsAreRuns(Next(w, es[0]), es[1..]);
    }
  }

  /** Every careful run keeps the timed invariant; the empty table starts it. */
  lemma {:induction false} EveryCarefulRunIsTimed(w: World, es: seq<Event>)
    requires TimedWorld(w) && CarefulRun(w, es) && Run(w, es)
    ensures TimedWorld(Final(w, es))
    decreases |es|
  {
    if es != [] {
      NextStaysTimed(w, es[0]);
      EveryCarefulRunIsTimed(Next(w, es[0]), es[1..]);
    }
  }

  /** Whether an event takes row `name` out of the status it has. */
  ghost predicate Leaves(w: World, e: Event, name: nat)
    requires Possible(w, e) && name in w.rows && name in Next(w, e).rows
  {
    Next(w, e).rows[name].status != w.rows[name].status
  }

  /** Whether it is a stale write to that row. */
  ghost predicate WritesStale(w: World, e: Event, name: nat)
    requires Possible(w, e)
  {
    e.On? && e.name == name && StaleWrite(w.rows[name], e.action, w.now) && !e.action.RetryStarts?
  }

  /** In the timed model an absorbing status is left by an event exactly when that is a stale write. */
  lemma LeftIff(w: World, e: Event, name: nat)
    requires TimedWorld(w) && Possible(w, e) && name in w.rows && Absorbing(w.rows[name].status)
    ensures name in Next(w, e).rows && (Leaves(w, e, name) <==> WritesStale(w, e, name))
  {
    if e.On? && e.name == name {
      AbsorbingLeftIff(w.rows[name], e.action, w.now);
    }
  }

  /** Over every careful interleaving, Succeeded, Rejected, Recorded and Unrouted are absorbing. */
  lemma {:induction false} AbsorbingForGood(w: World, es: seq<Event>, name: nat)
    requires TimedWorld(w) && CarefulRun(w, es) && Run(w, es)
    requires name in w.rows && Absorbing(w.rows[name].status)
    ensures name in Final(w, es).rows && Final(w, es).rows[name].status == w.rows[name].status
    decreases |es|
  {
    if es != [] {
      LeftIff(w, es[0], name);
      NextStaysTimed(w, es[0]);
      AbsorbingForGood(Next(w, es[0]), es[1..], name);
    }
  }

  /** After any careful run whatever from the empty table, the next event, careful or not, takes an event out of an
      absorbing status if and only if it is a stale write to it. */
  lemma FirstBreakIsStale(es: seq<Event>, e: Event, name: nat)
    requires CarefulRun(EMPTY, es) && Run(EMPTY, es) && Possible(Final(EMPTY, es), e)
    requires name in Final(EMPTY, es).rows && Absorbing(Final(EMPTY, es).rows[name].status)
    ensures name in Next(Final(EMPTY, es), e).rows
    ensures Leaves(Final(EMPTY, es), e, name) <==> WritesStale(Final(EMPTY, es), e, name)
  {
    EveryCarefulRunIsTimed(EMPTY, es);
    LeftIff(Final(EMPTY, es), e, name);
  }

  /** And it takes one out of Failed if and only if it is one of the three exits or a stale write. */
  lemma FailedIsLeftIff(es: seq<Event>, e: Event, name: nat)
    requires CarefulRun(EMPTY, es) && Run(EMPTY, es) && Possible(Final(EMPTY, es), e)
    requires name in Final(EMPTY, es).rows && Final(EMPTY, es).rows[name].status == Failed
    ensures name in Next(Final(EMPTY, es), e).rows
    ensures var w := Final(EMPTY, es);
            Leaves(w, e, name) <==>
              (e.On? && e.name == name && FailedExit(w.rows[name], e.action)) || WritesStale(w, e, name)
  {
    EveryCarefulRunIsTimed(EMPTY, es);
    var w := Final(EMPTY, es);
    if e.On? && e.name == name {
      FailedLeftIff(w.rows[name], e.action, w.now);
    }
  }

  /** After any careful run an event the reaper may fail has no live worker. */
  lemma ReapableIsIdle(es: seq<Event>, name: nat)
    requires CarefulRun(EMPTY, es) && Run(EMPTY, es) && name in Final(EMPTY, es).rows
    requires Can(Final(EMPTY, es).rows[name], Reap, Final(EMPTY, es).now)
    ensures Final(EMPTY, es).rows[name].live == map[]
  {
    EveryCarefulRunIsTimed(EMPTY, es);
    ReapedHasNoWorker(Final(EMPTY, es).rows[name], Final(EMPTY, es).now);
  }

  // ---- Flow replies -----------------------------------------------------------------------------------

  ghost predicate PaidWorld(w: World) {
    forall n | n in w.rows :: Paid(w.rows[n])
  }

  lemma FreshIsPaid(now: int, o: Outcome)
    ensures Paid(Inserted(now)) && Paid(Routed(Inserted(now), o, now))
    ensures Paid(Written(Inserted(now), Failed, DeadLetter, now))
  {
    assert Unsent(Inserted(now)) == {};
  }

  lemma NextStaysPaid(w: World, e: Event)
    requires PaidWorld(w) && Possible(w, e) && GuardedEvent(w, e)
    ensures PaidWorld(Next(w, e))
  {
    match e {
      case Tick(_) =>
      case Deliver(_, _, fate) => FreshIsPaid(w.now, if fate.Ingested? then fate.outcome else Reject);
      case StoreDeadLetter(_, _) => FreshIsPaid(w.now, Reject);
      case On(name, a) => StaysPaid(w.rows[name], a, w.now);
    }
  }

  lemma {:induction false} EveryGuardedRunIsPaid(w: World, es: seq<Event>)
    requires PaidWorld(w) && GuardedRun(w, es) && Run(w, es)
    ensures PaidWorld(Final(w, es))
    decreases |es|
  {
    if es != [] {
      NextStaysPaid(w, es[0]);
      EveryGuardedRunIsPaid(Next(w, es[0]), es[1..]);
    }
  }

  /** In every guarded run, with any number of replayed or concurrent completions, stale writes and crashes, an event's
      Flow replies number at most one more than the times the reaper failed it while Replying. */
  lemma FlowRepliesBounded(es: seq<Event>, name: nat)
    requires GuardedRun(EMPTY, es) && Run(EMPTY, es) && name in Final(EMPTY, es).rows
    ensures Final(EMPTY, es).rows[name].log.replies <= 1 + Final(EMPTY, es).rows[name].log.reapedReplying
  {
    EveryGuardedRunIsPaid(EMPTY, es);
    assert Paid(Final(EMPTY, es).rows[name]);
  }

  // ---- the idempotency key ------------------------------------------------------------------------------

  /** The text that is hashed into the idempotency key (the hash itself is taken to be injective). */
  function KeyText(gateway: string, providerEventId: string): string {
    gateway + ":" + providerEventId
  }

  /** Two gateways can produce the same key text exactly when they are the same gateway or one name extends the
      other by a colon; so names without colons never clash. */
  lemma KeysClashIff(g: string, h: string)
    ensures (exists p, q :: p != "" && q != "" && KeyText(g, p) == KeyText(h, q))
            <==> g == h || g + ":" <= h || h + ":" <= g
  {
    if g == h {
      assert KeyText(g, "x") == KeyText(h, "x");
    } else if g + ":" <= h {
      assert KeyText(g, h[|g| + 1..] + ":x") == KeyText(h, "x");
    } else if h + ":" <= g {
      assert KeyText(g, "x") == KeyText(h, g[|h| + 1..] + ":x");
    }
    if p, q :| p != "" && q != "" && KeyText(g, p) == KeyText(h, q) {
      PrefixesCompare(g, p, h, q);
    }
  }

  lemma PrefixesCompare(g: string, p: string, h: string, q: string)
    requires KeyText(g, p) == KeyText(h, q)
    ensures g == h || g + ":" <= h || h + ":" <= g
  {
    var t := KeyText(g, p);
    assert t[..|g| + 1] == g + ":" && t[..|h| + 1] == h + ":";
    if |g| < |h| {
      assert t[..|h|] == h && t[..|g| + 1] <= t[..|h|];
    } else if |h| < |g| {
      assert t[..|g|] == g && t[..|h| + 1] <= t[..|g|];
    } else {
      assert g == t[..|g|] == h;
    }
  }

  lemma ColonOf(g: string, h: string)
    ensures g + ":" <= h ==> ':' in h
  {
    if g + ":" <= h {
      assert h[|g|] == (g + ":")[|g|];
    }
  }

  /** For gateway names without a colon the key text determines both parts. */
  lemma KeyTextInjective(g: string, p: string, h: string, q: string)
    requires ':' !in g && ':' !in h && KeyText(g, p) == KeyText(h, q)
    ensures g == h && p == q
  {
    PrefixesCompare(g, p, h, q);
    ColonOf(g, h);
    ColonOf(h, g);
    assert p == KeyText(g, p)[|g| + 1..] && q == KeyText(h, q)[|h| + 1..];
  }
}
