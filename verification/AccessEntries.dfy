/**
 Access entries of one gateway: who may write to it, who asked, who was refused, who opted out.

 An opted-out entry remembers where START should put it back.  Admin decisions taken meanwhile change
 what is remembered, never the opt-out itself.  Each action is one step; a pairing request is also
 split into its check and its insert, which hold no common lock (`Overlap`).  Times are minutes;
 `serial` orders the saves of live entries the way `modified desc` does.
 */
module AccessEntries {
  import opened Options

  datatype State = Pending | Approved | Revoked | Blocked | OptedOut | Expired

  datatype Entry = Entry(
    sender: string, state: State, previous: Option<State>, created: int, modified: int, serial: nat,
    expires: Option<int>, revokedAt: Option<int>, sentAt: Option<int>)

  /** A pairing request that was issued: for whom, when, and under which entry. */
  datatype Issue = Issue(sender: string, time: int, entry: nat)

  datatype Registry = Registry(entries: map<nat, Entry>, serial: nat, issued: seq<Issue>)

  /** A pairing request comes with the settings it reads: the lifetime of a code, whether replies are on, and the limit
      on open requests, which is off at 0 or below. */
  datatype Op =
    | Approve(id: nat)
    | Revoke(id: nat)
    | Block(id: nat)
    | Unblock(id: nat)
    | Restore(id: nat)
    | Add(sender: string, newId: nat)
    | Stop(sender: string, newId: nat)
    | Start(sender: string)
    | Pair(sender: string, newId: nat, ttl: nat, replies: bool, limit: int)
    | Cleanup

  const DAY := 1440
  const RETENTION := 7 * DAY
  const RESEND_COOLDOWN := 10
  const MAX_REQUESTS_PER_DAY := 3

  predicate Restorable(s: State) {
    s in {Approved, Revoked, Blocked}
  }

  predicate Live(s: State) {
    s != Expired
  }

  /** Where START puts an entry that remembers `previous`. */
  function Landing(previous: Option<State>): State {
    if previous.Some? && Restorable(previous.value) then previous.value else Expired
  }

  /** The live entry of a sender that was saved last. */
  predicate IsLatestLive(reg: Registry, sender: string, id: nat) {
    && id in reg.entries && reg.entries[id].sender == sender && Live(reg.entries[id].state)
    && forall n | n in reg.entries && reg.entries[n].sender == sender && Live(reg.entries[n].state) ::
         reg.entries[n].serial <= reg.entries[id].serial
  }

  ghost function LatestLive(reg: Registry, sender: string): Option<nat> {
    if id :| IsLatestLive(reg, sender, id) then Some(id) else None
  }

  function Saved(reg: Registry, id: nat, e: Entry, now: int): Registry {
    reg.(entries := reg.entries[id := e.(modified := now, serial := reg.serial)], serial := reg.serial + 1)
  }

  function NewEntry(sender: string, state: State, now: int): Entry {
    Entry(sender, state, None, now, now, 0, None, None, None)
  }

  predicate PastDue(e: Entry, now: int) {
    e.state == Pending && e.expires.Some? && e.expires.value < now
  }

  function Expiring(e: Entry, now: int): Entry {
    if PastDue(e, now) then e.(state := Expired, modified := now) else e
  }

  predicate Open(reg: Registry, sender: string, id: nat, now: int) {
    && id in reg.entries && reg.entries[id].sender == sender && reg.entries[id].state == Pending
    && !PastDue(reg.entries[id], now)
  }

  /** The sender's open request that was saved last. */
  predicate FirstOpen(reg: Registry, sender: string, id: nat, now: int) {
    && Open(reg, sender, id, now)
    && forall n | n in reg.entries && Open(reg, sender, n, now) :: reg.entries[n].serial <= reg.entries[id].serial
  }

  /** No open request of the sender was saved after this one. */
  predicate Reached(reg: Registry, sender: string, id: nat, now: int)
    requires id in reg.entries
  {
    forall n | n in reg.entries && Open(reg, sender, n, now) :: reg.entries[n].serial < reg.entries[id].serial
  }

  /** The sender's requests are walked, last saved first, up to the first open one: the overdue ones expire. */
  function ExpireOverdue(reg: Registry, sender: string, now: int): Registry {
    reg.(entries := map id | id in reg.entries ::
           if reg.entries[id].sender == sender && Reached(reg, sender, id, now) then Expiring(reg.entries[id], now)
           else reg.entries[id])
  }

  function PendingOf(reg: Registry, sender: string): set<nat> {
    set id | id in reg.entries && reg.entries[id].sender == sender && reg.entries[id].state == Pending
  }

  function AllPending(reg: Registry): set<nat> {
    set id | id in reg.entries && reg.entries[id].state == Pending
  }

  predicate CoolingDown(reg: Registry, sender: string, now: int) {
    exists id | id in reg.entries ::
      && reg.entries[id].sender == sender && reg.entries[id].state != Expired
      && reg.entries[id].sentAt.Some? && reg.entries[id].sentAt.value > now - RESEND_COOLDOWN
  }

  /** The sender's entries of the last day, whatever their state. */
  function RecentOf(reg: Registry, sender: string, now: int): set<nat> {
    set id | id in reg.entries && reg.entries[id].sender == sender && reg.entries[id].created > now - DAY
  }

  predicate Capped(reg: Registry, sender: string, limit: int, now: int) {
    || (limit > 0 && |AllPending(reg)| >= limit)
    || |RecentOf(reg, sender, now)| >= MAX_REQUESTS_PER_DAY
  }

  type Ask = op: Op | op.Pair? witness Pair("", 0, 0, false, 0)

  /** A request that is open is answered now if it never was. */
  function Answered(reg: Registry, op: Ask, now: int): Registry {
    reg.(entries := map id | id in reg.entries ::
           var e := reg.entries[id];
           if FirstOpen(reg, op.sender, id, now) && e.sentAt.None? && op.replies then e.(sentAt := Some(now)) else e)
  }

  /** What a pairing request leaves when it issues nothing. */
  function PairCheck(reg: Registry, op: Ask, now: int): Registry {
    if op.sender == "" then reg else Answered(ExpireOverdue(reg, op.sender, now), op, now)
  }

  /** The three guards of a new request: none is open, no cooldown, no cap. */
  predicate MayIssue(reg: Registry, op: Ask, now: int) {
    var due := ExpireOverdue(reg, op.sender, now);
    && op.sender != "" && (forall id | id in reg.entries :: !Open(reg, op.sender, id, now))
    && !CoolingDown(due, op.sender, now) && !Capped(due, op.sender, op.limit, now)
  }

  /** The entry of a new request that was checked at `asked`. */
  function Request(op: Ask, asked: int, now: int): Entry {
    NewEntry(op.sender, Pending, now).(
      expires := Some(asked + op.ttl), sentAt := if op.replies then Some(asked) else None)
  }

  function Issued(reg: Registry, op: Ask, asked: int, now: int): Registry {
    Saved(reg, op.newId, Request(op, asked, now), now).(issued := reg.issued + [Issue(op.sender, now, op.newId)])
  }

  /** A pairing request: the open one again, or a new one unless the cooldown or a cap forbids it. */
  function Paired(reg: Registry, op: Ask, now: int): Registry {
    if MayIssue(reg, op, now) then Issued(PairCheck(reg, op, now), op, now, now) else PairCheck(reg, op, now)
  }

  function Cleaned(reg: Registry, now: int): Registry {
    reg.(entries := map id | id in reg.entries &&
           !(reg.entries[id].state == Expired && reg.entries[id].modified < now - RETENTION) ::
           Expiring(reg.entries[id], now))
  }

  /** The states of a sender's live entries. */
  function LiveStates(reg: Registry, sender: string): set<State> {
    set id | id in reg.entries && reg.entries[id].sender == sender && Live(reg.entries[id].state) ::
      reg.entries[id].state
  }

  function Approving(e: Entry): Entry {
    e.(state := Approved, expires := None, revokedAt := None)
  }

  ghost predicate Fits(reg: Registry, op: Op) {
    match op
    case Approve(id) => id in reg.entries
    case Revoke(id) => id in reg.entries
    case Block(id) => id in reg.entries
    case Unblock(id) => id in reg.entries
    case Restore(id) => id in reg.entries
    case Add(_, newId) => Unused(reg, newId)
    case Stop(_, newId) => Unused(reg, newId)
    case Pair(_, newId, _, _, _) => Unused(reg, newId)
    case _ => true
  }

  ghost predicate Unused(reg: Registry, id: nat) {
    id !in reg.entries && forall k | 0 <= k < |reg.issued| :: reg.issued[k].entry != id
  }

  /** The one entry an action saves, if it saves any. */
  datatype Save = Refused | SaveAs(id: nat, entry: Entry)

  ghost function Changed(reg: Registry, op: Op, now: int): Save
    requires Fits(reg, op) && !op.Pair? && !op.Cleanup?
  {
    match op
    case Approve(id) =>
      var e := reg.entries[id];
      if e.state != Pending || PastDue(e, now) then Refused else SaveAs(id, e.(state := Approved, expires := None))
    case Revoke(id) =>
      var e := reg.entries[id].(revokedAt := Some(now));
      SaveAs(id, if e.state == OptedOut then e.(previous := Some(Revoked))
                 else if e.state == Blocked then e else e.(state := Revoked))
    case Block(id) =>
      var e := reg.entries[id].(revokedAt := Some(now));
      SaveAs(id, if e.state == OptedOut then e.(previous := Some(Blocked)) else e.(state := Blocked))
    case Unblock(id) =>
      var e := reg.entries[id];
      if e.state != Blocked then Refused else SaveAs(id, e.(state := Revoked, revokedAt := None))
    case Restore(id) =>
      var e := reg.entries[id];
      if e.state != Revoked then Refused else SaveAs(id, Approving(e))
    case Add(sender, newId) =>
      if sender == "" || LiveStates(reg, sender) * {Approved, Blocked, OptedOut} != {} then Refused
      else
        (match LatestLive(reg, sender)
         case Some(id) => SaveAs(id, Approving(reg.entries[id]))
         case None => SaveAs(newId, NewEntry(sender, Approved, now)))
    case Stop(sender, newId) =>
      (match LatestLive(reg, sender)
       case Some(id) => SaveAs(id, reg.entries[id].(state := OptedOut, previous := Some(reg.entries[id].state)))
       case None => SaveAs(newId, NewEntry(sender, OptedOut, now)))
    case Start(sender) =>
      (match LatestLive(reg, sender)
       case Some(id) =>
         var e := reg.entries[id];
         if e.state != OptedOut then Refused else SaveAs(id, e.(state := Landing(e.previous), previous := None))
       case None => Refused)
  }

  /** What each action makes of the registry; refused actions leave it alone. */
  ghost function Apply(reg: Registry, op: Op, now: int): Registry
    requires Fits(reg, op)
  {
    if op.Pair? then Paired(reg, op, now)
    else if op.Cleanup? then Cleaned(reg, now)
    else
      match Changed(reg, op, now)
      case Refused => reg
      case SaveAs(id, e) => Saved(reg, id, e, now)
  }

  /** An action saves no entry as pending, keeps an entry's sender and creation time, and takes no entry out of its
      opt-out unless it is a START of that sender. */
  lemma ChangeIsTame(reg: Registry, op: Op, now: int)
    requires Fits(reg, op) && !op.Pair? && !op.Cleanup? && Changed(reg, op, now).SaveAs?
    ensures var (id, e) := (Changed(reg, op, now).id, Changed(reg, op, now).entry);
            && e.state != Pending
            && (id !in reg.entries ==> e.created == now)
            && (id in reg.entries ==> e.created == reg.entries[id].created && e.sender == reg.entries[id].sender)
            && (OptedOutEntry(reg, id) && op != Start(reg.entries[id].sender) ==> e.state == OptedOut)
  {
    if op.Add? && LatestLive(reg, op.sender).Some? {
      var id := LatestLive(reg, op.sender).value;
      assert reg.entries[id].state !in LiveStates(reg, op.sender) * {Approved, Blocked, OptedOut};
    }
  }

  // ---- runs --------------------------------------------------------------------------------------------

  datatype Call = Call(op: Op, now: int)

  ghost predicate Run(reg: Registry, calls: seq<Call>, from: int)
    decreases |calls|
  {
    calls == [] || (from <= calls[0].now && Fits(reg, calls[0].op)
      && Run(Apply(reg, calls[0].op, calls[0].now), calls[1..], calls[0].now))
  }

  ghost function After(reg: Registry, calls: seq<Call>, from: int): Registry
    requires Run(reg, calls, from)
    decreases |calls|
  {
    if calls == [] then reg else After(Apply(reg, calls[0].op, calls[0].now), calls[1..], calls[0].now)
  }

  /** Entries are told apart by their serials. */
  ghost predicate Ordered(reg: Registry) {
    && (forall n | n in reg.entries :: reg.entries[n].serial < reg.serial)
    && (forall m, n | m in reg.entries && n in reg.entries && reg.entries[m].serial == reg.entries[n].serial :: m == n)
  }

  lemma LatestIsUnique(reg: Registry, sender: string, id: nat)
    requires Ordered(reg) && IsLatestLive(reg, sender, id)
    ensures LatestLive(reg, sender) == Some(id)
  {
  }

  lemma SaveStaysOrdered(reg: Registry, id: nat, e: Entry, now: int)
    requires Ordered(reg)
    ensures Ordered(Saved(reg, id, e, now))
  {
  }

  lemma StaysOrdered(reg: Registry, op: Op, now: int)
    requires Ordered(reg) && Fits(reg, op)
    ensures Ordered(Apply(reg, op, now))
  {
    if op.Pair? {
      PairStaysOrdered(reg, op, now);
    } else if op.Cleanup? {
      CleanupStaysOrdered(reg, now);
    } else if Changed(reg, op, now).SaveAs? {
      SaveStaysOrdered(reg, Changed(reg, op, now).id, Changed(reg, op, now).entry, now);
    }
  }

  lemma PairStaysOrdered(reg: Registry, op: Ask, now: int)
    requires Ordered(reg)
    ensures Ordered(Paired(reg, op, now))
  {
    PairCheckKeeps(reg, op, now);
    var checked := PairCheck(reg, op, now);
    assert Ordered(checked) by {
      assert forall n | n in checked.entries :: checked.entries[n].serial == reg.entries[n].serial;
    }
    if MayIssue(reg, op, now) {
      SaveStaysOrdered(checked, op.newId, Request(op, now, now), now);
    }
  }

  lemma CleanupStaysOrdered(reg: Registry, now: int)
    requires Ordered(reg)
    ensures Ordered(Cleaned(reg, now))
  {
    var after := Cleaned(reg, now).entries;
    assert forall n | n in after :: n in reg.entries && after[n].serial == reg.entries[n].serial;
  }

  /** An entry after it may have expired and been answered. */
  predicate Kept(e: Entry, after: Entry, now: int) {
    && after.sender == e.sender && after.serial == e.serial && after.created == e.created
    && after.previous == e.previous && after.expires == e.expires && after.revokedAt == e.revokedAt
    && (after.state == e.state || (PastDue(e, now) && after.state == Expired))
    && (after.modified == e.modified || after.modified == now)
  }

  /** Short of issuing, a pairing request lets entries of its sender expire and answers one; it adds and saves none. */
  lemma PairCheckKeeps(reg: Registry, op: Ask, now: int)
    ensures var after := PairCheck(reg, op, now);
            && after.(entries := reg.entries) == reg && after.entries.Keys == reg.entries.Keys
            && forall n | n in reg.entries :: Kept(reg.entries[n], after.entries[n], now)
  {
    if op.sender != "" {
      var due := ExpireOverdue(reg, op.sender, now);
      assert due.entries.Keys == reg.entries.Keys;
      assert forall n | n in reg.entries :: Kept(reg.entries[n], due.entries[n], now);
    }
  }

  /** No sender has two pending requests. */
  ghost predicate Single(reg: Registry) {
    forall m, n | m in reg.entries && n in reg.entries && reg.entries[m].state == reg.entries[n].state == Pending
                  && reg.entries[m].sender == reg.entries[n].sender :: m == n
  }

  lemma NothingPending(reg: Registry, op: Ask, now: int)
    requires MayIssue(reg, op, now)
    ensures PendingOf(PairCheck(reg, op, now), op.sender) == {}
  {
    PairCheckKeeps(reg, op, now);
    var due := ExpireOverdue(reg, op.sender, now);
    forall n | n in due.entries && due.entries[n].sender == op.sender
      ensures due.entries[n].state != Pending
    {
      assert !Open(reg, op.sender, n, now);
    }
  }

  /** While actions are taken one at a time that stays so. */
  lemma StaysSingle(reg: Registry, op: Op, now: int)
    requires Single(reg) && Fits(reg, op)
    ensures Single(Apply(reg, op, now))
  {
    if op.Pair? {
      PairStaysSingle(reg, op, now);
    } else if op.Cleanup? {
      FewerStaySingle(reg, Cleaned(reg, now));
    } else if Changed(reg, op, now).SaveAs? {
      ChangeIsTame(reg, op, now);
      SaveStaysSingle(reg, Changed(reg, op, now).id, Changed(reg, op, now).entry, now);
    }
  }

  lemma FewerStaySingle(reg: Registry, after: Registry)
    requires Single(reg)
    requires forall n | n in after.entries && after.entries[n].state == Pending ::
               n in reg.entries && reg.entries[n].state == Pending && reg.entries[n].sender == after.entries[n].sender
    ensures Single(after)
  {
  }

  lemma SaveStaysSingle(reg: Registry, id: nat, e: Entry, now: int)
    requires Single(reg) && (e.state == Pending ==> PendingOf(reg, e.sender) == {})
    ensures Single(Saved(reg, id, e, now))
  {
    assert forall n | n in reg.entries && reg.entries[n].state == Pending :: n in PendingOf(reg, reg.entries[n].sender);
  }

  lemma PairStaysSingle(reg: Registry, op: Ask, now: int)
    requires Single(reg)
    ensures Single(Paired(reg, op, now))
  {
    PairCheckKeeps(reg, op, now);
    FewerStaySingle(reg, PairCheck(reg, op, now));
    if MayIssue(reg, op, now) {
      NothingPending(reg, op, now);
      SaveStaysSingle(PairCheck(reg, op, now), op.newId, Request(op, now, now), now);
    }
  }

  // ---- where each action puts an entry -----------------------------------------------------------------

  /** The action brings entry `id` into state `s`, whether it was there before or not. */
  ghost predicate Enters(reg: Registry, op: Op, now: int, id: nat, s: State)
    requires Fits(reg, op)
  {
    var after := Apply(reg, op, now).entries;
    id in after && after[id].state == s && (id in reg.entries ==> reg.entries[id].state != s)
  }

  /** The entry was in that state. */
  predicate Was(reg: Registry, id: nat, s: State) {
    id in reg.entries && reg.entries[id].state == s
  }

  ghost predicate NoLiveEntry(reg: Registry, sender: string) {
    forall n | n in reg.entries && reg.entries[n].sender == sender :: reg.entries[n].state == Expired
  }

  /** The entry that STOP, START and an admin's Add of the sender act on: the live one saved last, or a new one. */
  ghost predicate ActsOn(reg: Registry, sender: string, newId: nat, id: nat) {
    IsLatestLive(reg, sender, id) || (NoLiveEntry(reg, sender) && id == newId)
  }

  /** An action other than a request and the daily job changes the state of the one entry it saves. */
  lemma SavedState(reg: Registry, op: Op, now: int, id: nat)
    requires Fits(reg, op) && !op.Pair? && !op.Cleanup?
    ensures var change, after := Changed(reg, op, now), Apply(reg, op, now).entries;
            var saved := change.SaveAs? && change.id == id;
            && (id in after <==> id in reg.entries || saved)
            && (saved ==> after[id].state == change.entry.state && after[id].sender == change.entry.sender)
            && (!saved && id in reg.entries ==> after[id] == reg.entries[id])
  {
  }

  lemma ActsOnIs(reg: Registry, sender: string, newId: nat, id: nat)
    requires Ordered(reg)
    ensures LatestLive(reg, sender) == None <==> NoLiveEntry(reg, sender)
    ensures LatestLive(reg, sender) == Some(id) <==> IsLatestLive(reg, sender, id)
    ensures ActsOn(reg, sender, newId, id) <==> id == StoppedEntry(reg, sender, newId)
  {
    if !NoLiveEntry(reg, sender) {
      var last := SomeLatest(reg, sender, reg.entries.Keys);
      LatestIsUnique(reg, sender, last);
    }
    if IsLatestLive(reg, sender, id) {
      LatestIsUnique(reg, sender, id);
    }
  }

  lemma SomeLatest(reg: Registry, sender: string, among: set<nat>) returns (last: nat)
    requires among <= reg.entries.Keys
    requires exists n :: n in among && reg.entries[n].sender == sender && Live(reg.entries[n].state)
    ensures last in among && reg.entries[last].sender == sender && Live(reg.entries[last].state)
    ensures forall n | n in among && reg.entries[n].sender == sender && Live(reg.entries[n].state) ::
              reg.entries[n].serial <= reg.entries[last].serial
  {
    last :| last in among && reg.entries[last].sender == sender && Live(reg.entries[last].state);
    var rest := among - {last};
    if n :| n in rest && reg.entries[n].sender == sender && Live(reg.entries[n].state) {
      var other := SomeLatest(reg, sender, rest);
      if reg.entries[last].serial < reg.entries[other].serial {
        last := other;
      }
    }
  }

  /** Blocking blocks: every entry but an opted-out one, which stays and will come back blocked. */
  lemma BlockBlocks(reg: Registry, id: nat, now: int)
    requires id in reg.entries
    ensures var e := Apply(reg, Block(id), now).entries[id];
            && e.revokedAt == Some(now)
            && if reg.entries[id].state == OptedOut then e.state == OptedOut && e.previous == Some(Blocked)
               else e.state == Blocked
  {
  }

  /** Revoking revokes, unless the entry is blocked or opted out. */
  lemma RevokeRevokes(reg: Registry, id: nat, now: int)
    requires id in reg.entries
    ensures var e := Apply(reg, Revoke(id), now).entries[id];
            && e.revokedAt == Some(now)
            && match reg.entries[id].state
               case OptedOut => e.state == OptedOut && e.previous == Some(Revoked)
               case Blocked => e.state == Blocked
               case _ => e.state == Revoked
  {
  }

  /** An entry that is approved no longer expires; one that is unblocked, restored or added has no decision against
      it. */
  lemma DecisionsTakenBack(reg: Registry, op: Op, now: int, id: nat)
    requires Ordered(reg) && Fits(reg, op) && id in reg.entries
    ensures op.Approve? && Enters(reg, op, now, id, Approved) ==> Apply(reg, op, now).entries[id].expires.None?
    ensures (op.Restore? || op.Add?) && Enters(reg, op, now, id, Approved) ==>
              Apply(reg, op, now).entries[id].expires.None? && Apply(reg, op, now).entries[id].revokedAt.None?
    ensures op.Unblock? && Enters(reg, op, now, id, Revoked) ==> Apply(reg, op, now).entries[id].revokedAt.None?
  {
  }

  /** An entry becomes approved exactly when its pending request is approved in time, it is restored from Revoked, its
      sender is added and has nothing but revoked and pending entries, or START takes it back to that. */
  lemma ApprovedIff(reg: Registry, op: Op, now: int, id: nat)
    requires Ordered(reg) && Fits(reg, op)
    ensures Enters(reg, op, now, id, Approved) <==>
              || (op == Approve(id) && Was(reg, id, Pending)
                  && (reg.entries[id].expires.None? || reg.entries[id].expires.value >= now))
              || (op == Restore(id) && Was(reg, id, Revoked))
              || (op.Add? && op.sender != "" && ActsOn(reg, op.sender, op.newId, id) && MayAdd(reg, op.sender))
              || TakesBackTo(reg, op, id, Approved)
  {
    if op.Pair? {
      PairedStates(reg, op, now, id);
    } else if !op.Cleanup? {
      SavedState(reg, op, now, id);
      if op.Add? || op.Stop? || op.Start? {
        ActsOnIs(reg, op.sender, if op.Start? then id else op.newId, id);
        if op.Add? {
          MayAddIff(reg, op.sender);
        }
      }
    }
  }

  /** No entry of the sender is approved, blocked or opted out. */
  ghost predicate MayAdd(reg: Registry, sender: string) {
    forall n | n in reg.entries && reg.entries[n].sender == sender ::
      reg.entries[n].state in {Pending, Revoked, Expired}
  }

  lemma MayAddIff(reg: Registry, sender: string)
    ensures MayAdd(reg, sender) <==> LiveStates(reg, sender) * {Approved, Blocked, OptedOut} == {}
  {
    if !MayAdd(reg, sender) {
      var n :| n in reg.entries && reg.entries[n].sender == sender
        && reg.entries[n].state !in {Pending, Revoked, Expired};
      var s := reg.entries[n].state;
      assert s in LiveStates(reg, sender) && s in {Approved, Blocked, OptedOut};
      assert s in LiveStates(reg, sender) * {Approved, Blocked, OptedOut};
    }
  }

  /** START brings the sender's opted-out entry back to what it remembers. */
  ghost predicate TakesBackTo(reg: Registry, op: Op, id: nat, s: State) {
    op.Start? && IsLatestLive(reg, op.sender, id) && Was(reg, id, OptedOut)
      && if s == Expired then reg.entries[id].previous !in {Some(Approved), Some(Revoked), Some(Blocked)}
         else s in {Approved, Revoked, Blocked} && reg.entries[id].previous == Some(s)
  }

  /** What a pairing request does to states: an overdue request expires, and a new one is pending. */
  lemma PairedStates(reg: Registry, op: Ask, now: int, id: nat)
    requires Unused(reg, op.newId)
    ensures var after := Paired(reg, op, now).entries;
            && (id in after <==> id in reg.entries || (MayIssue(reg, op, now) && id == op.newId))
            && (id in reg.entries ==>
                  && after[id].previous == reg.entries[id].previous
                  && (after[id].state == reg.entries[id].state
                      || (PastDue(reg.entries[id], now) && after[id].state == Expired)))
            && (id !in reg.entries && id in after ==> after[id].state == Pending)
  {
    PairCheckKeeps(reg, op, now);
    if id in reg.entries {
      assert Kept(reg.entries[id], PairCheck(reg, op, now).entries[id], now);
    }
  }

  /** It becomes revoked exactly when it is revoked while neither blocked nor opted out, unblocked, or taken back. */
  lemma RevokedIff(reg: Registry, op: Op, now: int, id: nat)
    requires Ordered(reg) && Fits(reg, op)
    ensures Enters(reg, op, now, id, Revoked) <==>
              || (op == Revoke(id) && reg.entries[id].state in {Pending, Approved, Expired})
              || (op == Unblock(id) && Was(reg, id, Blocked))
              || TakesBackTo(reg, op, id, Revoked)
  {
    if op.Pair? {
      PairedStates(reg, op, now, id);
    } else if !op.Cleanup? {
      SavedState(reg, op, now, id);
      if op.Add? || op.Stop? || op.Start? {
        ActsOnIs(reg, op.sender, if op.Start? then id else op.newId, id);
      }
    }
  }

  lemma BlockedIff(reg: Registry, op: Op, now: int, id: nat)
    requires Ordered(reg) && Fits(reg, op)
    ensures Enters(reg, op, now, id, Blocked) <==>
              || (op == Block(id) && reg.entries[id].state !in {OptedOut, Blocked})
              || TakesBackTo(reg, op, id, Blocked)
  {
    if op.Pair? {
      PairedStates(reg, op, now, id);
    } else if !op.Cleanup? {
      SavedState(reg, op, now, id);
      if op.Add? || op.Stop? || op.Start? {
        ActsOnIs(reg, op.sender, if op.Start? then id else op.newId, id);
      }
    }
  }

  /** It becomes opted out exactly by its sender's STOP. */
  lemma OptedOutIff(reg: Registry, op: Op, now: int, id: nat)
    requires Ordered(reg) && Fits(reg, op)
    ensures Enters(reg, op, now, id, OptedOut) <==>
              op.Stop? && ActsOn(reg, op.sender, op.newId, id) && !Was(reg, id, OptedOut)
  {
    if op.Pair? {
      PairedStates(reg, op, now, id);
    } else if !op.Cleanup? {
      SavedState(reg, op, now, id);
      if op.Add? || op.Stop? || op.Start? {
        ActsOnIs(reg, op.sender, if op.Start? then id else op.newId, id);
      }
    }
  }

  /** It becomes pending exactly as the entry of a new request, which runs for `ttl` minutes. */
  lemma PendingIff(reg: Registry, op: Op, now: int, id: nat)
    requires Ordered(reg) && Fits(reg, op)
    ensures Enters(reg, op, now, id, Pending) <==> op.Pair? && id == op.newId && MayIssue(reg, op, now)
    ensures Enters(reg, op, now, id, Pending) ==>
              var e := Apply(reg, op, now).entries[id];
              && e.sender == op.sender && e.created == now && e.expires == Some(now + op.ttl)
              && e.sentAt == (if op.replies then Some(now) else None)
  {
    if op.Pair? {
      PairedStates(reg, op, now, id);
    } else if !op.Cleanup? && Changed(reg, op, now).SaveAs? {
      ChangeIsTame(reg, op, now);
    }
  }

  /** It expires exactly when the daily job or a request of its sender finds it overdue, or START has nothing to take it
      back to. */
  lemma ExpiredIff(reg: Registry, op: Op, now: int, id: nat)
    requires Ordered(reg) && Fits(reg, op)
    ensures Enters(reg, op, now, id, Expired) <==>
              || (id in reg.entries && PastDue(reg.entries[id], now)
                  && (op.Cleanup? || (op.Pair? && op.sender != "" && op.sender == reg.entries[id].sender
                                      && Reached(reg, op.sender, id, now))))
              || TakesBackTo(reg, op, id, Expired)
  {
    if op.Pair? {
      PairedStates(reg, op, now, id);
    } else if !op.Cleanup? {
      SavedState(reg, op, now, id);
      if op.Add? || op.Stop? || op.Start? {
        ActsOnIs(reg, op.sender, if op.Start? then id else op.newId, id);
      }
    }
  }

  /** The daily job lets every overdue request expire and deletes exactly what has been expired for more than a week. */
  lemma CleanupIs(reg: Registry, now: int, id: nat)
    requires id in reg.entries
    ensures var e, after := reg.entries[id], Apply(reg, Cleanup, now).entries;
            && (id !in after <==> e.state == Expired && e.modified < now - 7 * 24 * 60)
            && (id in after ==>
                  if e.state == Pending && e.expires.Some? && e.expires.value < now
                  then after[id].state == Expired && after[id].modified == now
                  else after[id] == e)
  {
  }

  /** A request is issued exactly when the sender has no request open, was sent no code in the last ten minutes that is
      not expired, has fewer than three entries of the last day, and the limit on open requests leaves room. */
  lemma MayIssueIff(reg: Registry, op: Ask, now: int)
    ensures MayIssue(reg, op, now) <==>
              && op.sender != ""
              && (forall n | n in reg.entries && reg.entries[n].sender == op.sender :: AllowsNew(reg.entries[n], now))
              && (op.limit > 0 ==> |OthersPending(reg, op.sender)| < op.limit)
              && |(set n | n in reg.entries && reg.entries[n].sender == op.sender
                           && reg.entries[n].created > now - 24 * 60)| < 3
  {
    var due := ExpireOverdue(reg, op.sender, now);
    assert (set n | n in reg.entries && reg.entries[n].sender == op.sender && reg.entries[n].created > now - 24 * 60)
        == RecentOf(due, op.sender, now);
    if forall id | id in reg.entries :: !Open(reg, op.sender, id, now) {
      NoneOpenLeaves(reg, op.sender, now);
    } else {
      var n :| n in reg.entries && Open(reg, op.sender, n, now);
      assert !AllowsNew(reg.entries[n], now);
    }
  }

  /** An entry of the sender that keeps it from no new request. */
  predicate AllowsNew(e: Entry, now: int) {
    && (e.state == Pending ==> e.expires.Some? && e.expires.value < now)
    && (e.state !in {Pending, Expired} ==> e.sentAt.None? || e.sentAt.value <= now - 10)
  }

  function OthersPending(reg: Registry, sender: string): set<nat> {
    set n | n in reg.entries && reg.entries[n].state == Pending && reg.entries[n].sender != sender
  }

  /** When nothing of the sender is open, all its pending requests expire. */
  lemma NoneOpenLeaves(reg: Registry, sender: string, now: int)
    requires forall id | id in reg.entries :: !Open(reg, sender, id, now)
    ensures var due := ExpireOverdue(reg, sender, now);
            && AllPending(due) == OthersPending(reg, sender)
            && (!CoolingDown(due, sender, now) <==>
                  forall n | n in reg.entries && reg.entries[n].sender == sender :: AllowsNew(reg.entries[n], now))
  {
    var due := ExpireOverdue(reg, sender, now);
    assert forall n | n in reg.entries && reg.entries[n].sender == sender ::
        due.entries[n] == Expiring(reg.entries[n], now);
    forall n | n in reg.entries && reg.entries[n].sender == sender && reg.entries[n].state == Pending
      ensures PastDue(reg.entries[n], now)
    {
      assert !Open(reg, sender, n, now);
    }
  }

  /** A request that is open is kept, the one saved last: its code is sent now if it never was and replies are on. */
  lemma OpenIsAnswered(reg: Registry, op: Ask, now: int, id: nat)
    requires op.sender != "" && FirstOpen(reg, op.sender, id, now)
    ensures !MayIssue(reg, op, now)
    ensures Paired(reg, op, now).entries[id] ==
              if reg.entries[id].sentAt.None? && op.replies then reg.entries[id].(sentAt := Some(now))
              else reg.entries[id]
    ensures Paired(reg, op, now).issued == reg.issued
  {
    PairCheckKeeps(reg, op, now);
    var due := ExpireOverdue(reg, op.sender, now);
    assert due.entries[id] == reg.entries[id];
    forall n | n in due.entries && Open(due, op.sender, n, now)
      ensures due.entries[n].serial <= due.entries[id].serial
    {
      assert Open(reg, op.sender, n, now);
    }
    assert FirstOpen(due, op.sender, id, now);
  }

  /** A blocked entry stays blocked under every action but its unblocking and, if it is the sender's last saved live
      one, the sender's own STOP. */
  lemma BlockedIsLeftIff(reg: Registry, op: Op, now: int, id: nat)
    requires Ordered(reg) && Fits(reg, op) && Was(reg, id, Blocked)
    ensures id in Apply(reg, op, now).entries
    ensures Apply(reg, op, now).entries[id].sender == reg.entries[id].sender
    ensures Apply(reg, op, now).entries[id].state != Blocked <==>
              op == Unblock(id) || (op.Stop? && IsLatestLive(reg, op.sender, id))
    ensures op.Stop? && IsLatestLive(reg, op.sender, id) ==> Apply(reg, op, now).entries[id].state == OptedOut
  {
    if op.Pair? {
      PairCheckKeeps(reg, op, now);
      PairedStates(reg, op, now, id);
    } else if !op.Cleanup? {
      SavedState(reg, op, now, id);
      if op.Add? || op.Stop? || op.Start? {
        ActsOnIs(reg, op.sender, if op.Start? then id else op.newId, id);
        MayAddIff(reg, op.sender);
      }
    }
  }

  /** Over every run, a blocked entry becomes approved only with its unblocking in between, or a STOP and a later
      START of its sender. */
  lemma {:induction false} BlockedToApproved(reg: Registry, calls: seq<Call>, from: int, id: nat)
    returns (j: nat, k: nat)
    requires Ordered(reg) && Run(reg, calls, from)
    requires Was(reg, id, Blocked) && Was(After(reg, calls, from), id, Approved)
    ensures j < |calls| && (calls[j].op == Unblock(id) ||
              (j < k < |calls| && calls[j].op.Stop? && calls[j].op.sender == reg.entries[id].sender
               && calls[k].op == Start(reg.entries[id].sender)))
    decreases |calls|
  {
    var op, now := calls[0].op, calls[0].now;
    var next := Apply(reg, op, now);
    BlockedIsLeftIff(reg, op, now, id);
    StaysOrdered(reg, op, now);
    j, k := 0, 0;
    if next.entries[id].state == Blocked {
      j, k := BlockedToApproved(next, calls[1..], now, id);
      j, k := j + 1, k + 1;
    } else if op != Unblock(id) {
      k := OptedOutToApproved(next, calls[1..], now, id);
      k := k + 1;
    }
  }

  lemma {:induction false} OptedOutToApproved(reg: Registry, calls: seq<Call>, from: int, id: nat) returns (k: nat)
    requires Run(reg, calls, from) && Was(reg, id, OptedOut) && Was(After(reg, calls, from), id, Approved)
    ensures k < |calls| && calls[k].op == Start(reg.entries[id].sender)
    decreases |calls|
  {
    k := 0;
    if calls[0].op != Start(reg.entries[id].sender) {
      OptOutIsLeftOnlyByStart(reg, calls[0].op, calls[0].now, id);
      k := OptedOutToApproved(Apply(reg, calls[0].op, calls[0].now), calls[1..], calls[0].now, id);
      k := k + 1;
    }
  }

  // ---- consent -----------------------------------------------------------------------------------------

  ghost predicate OptedOutEntry(reg: Registry, id: nat) {
    id in reg.entries && reg.entries[id].state == OptedOut
  }

  /** An opted-out entry stays opted out, and stays, under every action but a START of its own sender. */
  lemma OptOutIsLeftOnlyByStart(reg: Registry, op: Op, now: int, id: nat)
    requires Fits(reg, op) && OptedOutEntry(reg, id) && op != Start(reg.entries[id].sender)
    ensures OptedOutEntry(Apply(reg, op, now), id)
    ensures Apply(reg, op, now).entries[id].sender == reg.entries[id].sender
  {
    if op.Pair? {
      PairCheckKeeps(reg, op, now);
    } else if !op.Cleanup? && Changed(reg, op, now).SaveAs? {
      ChangeIsTame(reg, op, now);
    }
  }

  /** And START does take it back exactly when it is the sender's last saved live entry. */
  lemma StartTakesBackIff(reg: Registry, now: int, id: nat)
    requires Ordered(reg) && OptedOutEntry(reg, id)
    ensures var e := reg.entries[id]; var after := Apply(reg, Start(e.sender), now);
            && (!OptedOutEntry(after, id) <==> IsLatestLive(reg, e.sender, id))
            && (IsLatestLive(reg, e.sender, id) ==> after.entries[id].state == Landing(e.previous))
            && (!IsLatestLive(reg, e.sender, id) ==> after.entries[id] == e)
  {
    var e := reg.entries[id];
    if IsLatestLive(reg, e.sender, id) {
      LatestIsUnique(reg, e.sender, id);
    }
  }

  /** The last admin decision among `calls` about entry `id`, or what was remembered before when there is none. */
  function LastDecision(calls: seq<Call>, id: nat, before: Option<State>): Option<State> {
    if calls == [] then before
    else Remembered(calls[|calls| - 1].op, id, LastDecision(calls[..|calls| - 1], id, before))
  }

  /** What one action does to the memory of an opted-out entry. */
  function Remembered(op: Op, id: nat, before: Option<State>): Option<State> {
    if op == Revoke(id) then Some(Revoked) else if op == Block(id) then Some(Blocked) else before
  }

  lemma MemoryStep(reg: Registry, op: Op, now: int, id: nat)
    requires Fits(reg, op) && OptedOutEntry(reg, id)
    requires !op.Start? || op.sender != reg.entries[id].sender
    requires !op.Stop? || op.sender != reg.entries[id].sender
    ensures OptedOutEntry(Apply(reg, op, now), id) && Apply(reg, op, now).entries[id].sender == reg.entries[id].sender
    ensures Apply(reg, op, now).entries[id].previous == Remembered(op, id, reg.entries[id].previous)
  {
    OptOutIsLeftOnlyByStart(reg, op, now, id);
  }

  lemma {:induction false} LastDecisionFromFront(calls: seq<Call>, id: nat, before: Option<State>)
    requires calls != []
    ensures LastDecision(calls, id, before) == LastDecision(calls[1..], id, Remembered(calls[0].op, id, before))
    decreases |calls|
  {
    if |calls| == 1 {
      assert calls[..0] == [] && calls[1..] == [];
    } else {
      LastDecisionFromFront(calls[..|calls| - 1], id, before);
      assert calls[1..][..|calls| - 2] == calls[..|calls| - 1][1..];
    }
  }

  /** Between a STOP and a START of the same sender, an opted-out entry remembers the last admin decision, and what STOP
      found before any. */
  lemma {:induction false} OptOutRemembers(reg: Registry, calls: seq<Call>, from: int, id: nat)
    requires Run(reg, calls, from) && OptedOutEntry(reg, id)
    requires forall k | 0 <= k < |calls| ::
               calls[k].op.Start? || calls[k].op.Stop? ==> calls[k].op.sender != reg.entries[id].sender
    ensures OptedOutEntry(After(reg, calls, from), id)
    ensures After(reg, calls, from).entries[id].sender == reg.entries[id].sender
    ensures After(reg, calls, from).entries[id].previous == LastDecision(calls, id, reg.entries[id].previous)
    decreases |calls|
  {
    if calls != [] {
      MemoryStep(reg, calls[0].op, calls[0].now, id);
      LastDecisionFromFront(calls, id, reg.entries[id].previous);
      OptOutRemembers(Apply(reg, calls[0].op, calls[0].now), calls[1..], calls[0].now, id);
    }
  }

  lemma {:induction false} RunStaysOrdered(reg: Registry, calls: seq<Call>, from: int)
    requires Ordered(reg) && Run(reg, calls, from)
    ensures Ordered(After(reg, calls, from))
    decreases |calls|
  {
    if calls != [] {
      StaysOrdered(reg, calls[0].op, calls[0].now);
      RunStaysOrdered(Apply(reg, calls[0].op, calls[0].now), calls[1..], calls[0].now);
    }
  }

  /** The entry a STOP opts out: the sender's last saved live one, or a new one. */
  ghost function StoppedEntry(reg: Registry, sender: string, newId: nat): nat {
    if LatestLive(reg, sender).Some? then LatestLive(reg, sender).value else newId
  }

  /** The state it had, if there was one. */
  ghost function StateAtStop(reg: Registry, sender: string): Option<State> {
    match LatestLive(reg, sender)
    case Some(id) => Some(reg.entries[id].state)
    case None => None
  }

  /** STOP, then anything but this sender's STOP or START, then START: the entry lands on the last admin decision taken
      in between, else on the state it had at STOP, else (when that is not restorable, or there was no live entry) on
      Expired, provided it is still the sender's last saved live entry; otherwise START leaves it opted out. */
  lemma StopToStart(
    reg: Registry, sender: string, newId: nat, stopped: Registry, calls: seq<Call>, stopAt: int, startAt: int)
    requires Ordered(reg) && Fits(reg, Stop(sender, newId)) && stopped == Apply(reg, Stop(sender, newId), stopAt)
    requires Run(stopped, calls, stopAt)
    requires forall k | 0 <= k < |calls| ::
               calls[k].op.Start? || calls[k].op.Stop? ==> calls[k].op.sender != sender
    ensures var id, before := StoppedEntry(reg, sender, newId), After(stopped, calls, stopAt);
            var after := Apply(before, Start(sender), startAt);
            && OptedOutEntry(before, id) && id in after.entries
            && after.entries[id].state ==
               if IsLatestLive(before, sender, id) then Landing(LastDecision(calls, id, StateAtStop(reg, sender)))
               else OptedOut
  {
    var id := StoppedEntry(reg, sender, newId);
    StopRecords(reg, sender, newId, stopped, stopAt);
    OptOutRemembers(stopped, calls, stopAt, id);
    RunStaysOrdered(stopped, calls, stopAt);
    StartTakesBackIff(After(stopped, calls, stopAt), startAt, id);
  }

  lemma StopRecords(reg: Registry, sender: string, newId: nat, stopped: Registry, now: int)
    requires Ordered(reg) && Fits(reg, Stop(sender, newId)) && stopped == Apply(reg, Stop(sender, newId), now)
    ensures var id := StoppedEntry(reg, sender, newId);
            && Ordered(stopped) && OptedOutEntry(stopped, id) && stopped.entries[id].sender == sender
            && stopped.entries[id].previous == StateAtStop(reg, sender)
  {
    StaysOrdered(reg, Stop(sender, newId), now);
  }

  /** An opted-out entry that is its sender's only one. */
  ghost predicate SoleOptedOut(reg: Registry, id: nat) {
    OptedOutEntry(reg, id) && forall n | n in reg.entries && reg.entries[n].sender == reg.entries[id].sender :: n == id
  }

  /** The actions of other people: anything but this sender's own STOP, START or pairing request. */
  predicate ByOthers(op: Op, sender: string) {
    op.Start? || op.Stop? || op.Pair? ==> op.sender != sender
  }

  /** Entries keep their sender, and a new one belongs to the sender the action names. */
  ghost predicate SendersKept(reg: Registry, after: Registry, op: Op) {
    forall n | n in after.entries ::
      if n in reg.entries then after.entries[n].sender == reg.entries[n].sender
      else (op.Add? || op.Stop? || op.Pair?) && after.entries[n].sender == op.sender
  }

  lemma ApplyKeepsSenders(reg: Registry, op: Op, now: int)
    requires Fits(reg, op)
    ensures SendersKept(reg, Apply(reg, op, now), op)
  {
    if op.Pair? {
      PairCheckKeeps(reg, op, now);
    } else if !op.Cleanup? && Changed(reg, op, now).SaveAs? {
      ChangeIsTame(reg, op, now);
      assert Changed(reg, op, now).id !in reg.entries ==>
          (op.Add? || op.Stop?) && Changed(reg, op, now).entry.sender == op.sender;
    }
  }

  lemma AddRefusesOptedOut(reg: Registry, op: Op, now: int, id: nat)
    requires op.Add? && Fits(reg, op) && OptedOutEntry(reg, id) && reg.entries[id].sender == op.sender
    ensures Apply(reg, op, now) == reg
  {
    assert OptedOut in LiveStates(reg, op.sender) * {Approved, Blocked, OptedOut};
  }

  lemma SoleStays(reg: Registry, op: Op, now: int, id: nat)
    requires Fits(reg, op) && SoleOptedOut(reg, id) && ByOthers(op, reg.entries[id].sender)
    ensures SoleOptedOut(Apply(reg, op, now), id)
    ensures Apply(reg, op, now).entries[id].sender == reg.entries[id].sender
  {
    if op.Add? && op.sender == reg.entries[id].sender {
      AddRefusesOptedOut(reg, op, now, id);
    } else {
      OptOutIsLeftOnlyByStart(reg, op, now, id);
      ApplyKeepsSenders(reg, op, now);
    }
  }

  lemma {:induction false} SoleRun(reg: Registry, calls: seq<Call>, from: int, id: nat)
    requires Run(reg, calls, from) && SoleOptedOut(reg, id)
    requires forall k | 0 <= k < |calls| :: ByOthers(calls[k].op, reg.entries[id].sender)
    ensures SoleOptedOut(After(reg, calls, from), id)
    ensures After(reg, calls, from).entries[id].sender == reg.entries[id].sender
    decreases |calls|
  {
    if calls != [] {
      SoleStays(reg, calls[0].op, calls[0].now, id);
      SoleRun(Apply(reg, calls[0].op, calls[0].now), calls[1..], calls[0].now, id);
    }
  }

  /** A sender with at most one entry, and that one live, who makes no request of their own in between is always taken
      back by START. */
  lemma SoleStopToStart(
    reg: Registry, sender: string, newId: nat, stopped: Registry, calls: seq<Call>, stopAt: int, startAt: int)
    requires Ordered(reg) && Fits(reg, Stop(sender, newId)) && stopped == Apply(reg, Stop(sender, newId), stopAt)
    requires forall n | n in reg.entries && reg.entries[n].sender == sender :: n == StoppedEntry(reg, sender, newId)
    requires Run(stopped, calls, stopAt)
    requires forall k | 0 <= k < |calls| :: ByOthers(calls[k].op, sender)
    ensures var id := StoppedEntry(reg, sender, newId);
            var after := Apply(After(stopped, calls, stopAt), Start(sender), startAt);
            id in after.entries && after.entries[id].state == Landing(LastDecision(calls, id, StateAtStop(reg, sender)))
  {
    var id := StoppedEntry(reg, sender, newId);
    StopOnSole(reg, sender, newId, stopped, stopAt);
    SoleRun(stopped, calls, stopAt, id);
    StopToStart(reg, sender, newId, stopped, calls, stopAt, startAt);
  }

  lemma StopOnSole(reg: Registry, sender: string, newId: nat, stopped: Registry, now: int)
    requires Ordered(reg) && Fits(reg, Stop(sender, newId)) && stopped == Apply(reg, Stop(sender, newId), now)
    requires forall n | n in reg.entries && reg.entries[n].sender == sender :: n == StoppedEntry(reg, sender, newId)
    ensures var id := StoppedEntry(reg, sender, newId);
            SoleOptedOut(stopped, id) && stopped.entries[id].sender == sender
  {
    StopRecords(reg, sender, newId, stopped, now);
  }

  /** A second STOP forgets: an entry stopped while already opted out comes back Expired, whatever it was. */
  lemma SecondStopForgets(reg: Registry, id: nat, newId: nat, stopAt: int, startAt: int)
    requires Ordered(reg) && OptedOutEntry(reg, id) && IsLatestLive(reg, reg.entries[id].sender, id)
    requires Fits(reg, Stop(reg.entries[id].sender, newId))
    ensures var sender := reg.entries[id].sender;
            var after := Apply(Apply(reg, Stop(sender, newId), stopAt), Start(sender), startAt);
            id in after.entries && after.entries[id].state == Expired
  {
    var sender := reg.entries[id].sender;
    LatestIsUnique(reg, sender, id);
    StaysOrdered(reg, Stop(sender, newId), stopAt);
    var stopped := Apply(reg, Stop(sender, newId), stopAt);
    assert IsLatestLive(stopped, sender, id);
    StartTakesBackIff(stopped, startAt, id);
  }

  /** START can be lost: restoring an older entry of the same sender after the STOP makes that one the last saved, and
      START then changes nothing. */
  lemma StartIsLost(reg: Registry, older: nat, stopped: nat, now: int)
    requires Ordered(reg) && OptedOutEntry(reg, stopped) && older in reg.entries && older != stopped
    requires reg.entries[older].sender == reg.entries[stopped].sender && reg.entries[older].state == Revoked
    ensures var restored := Apply(reg, Restore(older), now);
            && OptedOutEntry(restored, stopped)
            && forall later :: Apply(restored, Start(reg.entries[stopped].sender), later) == restored
  {
  }

  // ---- the pairing cap ---------------------------------------------------------------------------------

  /** Every issued request is still on record until it is too old to count; issues are listed in order. */
  ghost predicate Accounted(reg: Registry, now: int) {
    && (forall n | n in reg.entries :: reg.entries[n].created <= reg.entries[n].modified <= now)
    && (forall k | 0 <= k < |reg.issued| :: OnRecord(reg, reg.issued[k], now))
    && InOrder(reg.issued)
  }

  predicate InOrder(issued: seq<Issue>) {
    forall j, k | 0 <= j < k < |issued| :: issued[j].entry != issued[k].entry && issued[j].time <= issued[k].time
  }

  ghost predicate OnRecord(reg: Registry, issue: Issue, now: int) {
    && issue.time <= now
    && (issue.time < now - RETENTION
        || (issue.entry in reg.entries && reg.entries[issue.entry].sender == issue.sender
          && reg.entries[issue.entry].created == issue.time))
  }

  lemma SaveStaysAccounted(reg: Registry, id: nat, e: Entry, from: int, now: int)
    requires Accounted(reg, from) && from <= now
    requires e.created <= now
    requires id in reg.entries ==> e.created == reg.entries[id].created && e.sender == reg.entries[id].sender
    ensures Accounted(Saved(reg, id, e, now), now)
  {
    forall k | 0 <= k < |reg.issued|
      ensures OnRecord(Saved(reg, id, e, now), reg.issued[k], now)
    {
      assert OnRecord(reg, reg.issued[k], from);
    }
  }

  lemma ExpiryStaysAccounted(reg: Registry, after: map<nat, Entry>, from: int, now: int)
    requires Accounted(reg, from) && from <= now
    requires forall n | n in after :: n in reg.entries && Kept(reg.entries[n], after[n], now)
    requires forall n | n in reg.entries && n !in after :: reg.entries[n].modified < now - RETENTION
    ensures Accounted(reg.(entries := after), now)
  {
    forall k | 0 <= k < |reg.issued|
      ensures OnRecord(reg.(entries := after), reg.issued[k], now)
    {
      assert OnRecord(reg, reg.issued[k], from);
    }
  }

  lemma IssueStaysAccounted(reg: Registry, op: Ask, asked: int, now: int)
    requires Unused(reg, op.newId) && Accounted(reg, now)
    ensures Accounted(Issued(reg, op, asked, now), now)
  {
    var saved, after := Saved(reg, op.newId, Request(op, asked, now), now), Issued(reg, op, asked, now);
    SaveStaysAccounted(reg, op.newId, Request(op, asked, now), now, now);
    forall k | 0 <= k < |after.issued|
      ensures OnRecord(after, after.issued[k], now)
    {
      if k < |reg.issued| {
        assert OnRecord(saved, reg.issued[k], now);
      }
    }
    assert forall k | 0 <= k < |reg.issued| :: OnRecord(reg, reg.issued[k], now);
  }

  lemma PairCheckStaysAccounted(reg: Registry, op: Ask, from: int, now: int)
    requires Accounted(reg, from) && from <= now
    ensures Accounted(PairCheck(reg, op, now), now)
  {
    PairCheckKeeps(reg, op, now);
    var after := PairCheck(reg, op, now);
    ExpiryStaysAccounted(reg, after.entries, from, now);
    assert reg.(entries := after.entries) == after;
  }

  lemma WaitingStaysAccounted(reg: Registry, from: int, now: int)
    requires Accounted(reg, from) && from <= now
    ensures Accounted(reg, now)
  {
    ExpiryStaysAccounted(reg, reg.entries, from, now);
    assert reg.(entries := reg.entries) == reg;
  }

  /** An action other than a pairing request issues nothing and keeps the record. */
  lemma OtherStaysAccounted(reg: Registry, op: Op, from: int, now: int)
    requires Fits(reg, op) && !op.Pair? && Accounted(reg, from) && from <= now
    ensures Accounted(Apply(reg, op, now), now) && Apply(reg, op, now).issued == reg.issued
  {
    if op.Cleanup? {
      ExpiryStaysAccounted(reg, Cleaned(reg, now).entries, from, now);
      assert reg.(entries := Cleaned(reg, now).entries) == Cleaned(reg, now);
    } else if Changed(reg, op, now).SaveAs? {
      ChangeIsTame(reg, op, now);
      SaveStaysAccounted(reg, Changed(reg, op, now).id, Changed(reg, op, now).entry, from, now);
    } else {
      WaitingStaysAccounted(reg, from, now);
    }
  }

  lemma StaysAccounted(reg: Registry, op: Op, from: int, now: int)
    requires Fits(reg, op) && Accounted(reg, from) && from <= now
    ensures Accounted(Apply(reg, op, now), now)
  {
    if op.Pair? {
      PairCheckStaysAccounted(reg, op, from, now);
      PairCheckKeeps(reg, op, now);
      if MayIssue(reg, op, now) {
        IssueStaysAccounted(PairCheck(reg, op, now), op, now, now);
      }
    } else {
      OtherStaysAccounted(reg, op, from, now);
    }
  }

  /** How many requests were issued to a sender after a time. */
  function Since(issued: seq<Issue>, sender: string, after: int): nat {
    if issued == [] then 0
    else
      var front, last := issued[..|issued| - 1], issued[|issued| - 1];
      Since(front, sender, after) + if last.sender == sender && last.time > after then 1 else 0
  }

  /** Every window of a day that ends with a request issued to the sender has at most `most` of them. */
  ghost predicate Held(issued: seq<Issue>, sender: string, most: int) {
    forall l | 0 <= l < |issued| && issued[l].sender == sender :: HeldAt(issued, sender, most, l)
  }

  predicate HeldAt(issued: seq<Issue>, sender: string, most: int, l: nat)
    requires l < |issued|
  {
    Since(issued[..l + 1], sender, issued[l].time - DAY) <= most
  }

  lemma {:induction false} SinceLater(issued: seq<Issue>, sender: string, after: int, later: int)
    requires after <= later
    ensures Since(issued, sender, later) <= Since(issued, sender, after)
  {
    if issued != [] {
      SinceLater(issued[..|issued| - 1], sender, after, later);
    }
  }

  /** The entries of those requests. */
  function EntriesSince(issued: seq<Issue>, sender: string, after: int): set<nat> {
    if issued == [] then {}
    else
      var front, last := issued[..|issued| - 1], issued[|issued| - 1];
      EntriesSince(front, sender, after) + if last.sender == sender && last.time > after then {last.entry} else {}
  }

  predicate IsSince(issue: Issue, sender: string, after: int, id: nat) {
    issue.entry == id && issue.sender == sender && issue.time > after
  }

  lemma {:induction false} EntriesSinceAre(issued: seq<Issue>, sender: string, after: int, id: nat)
    requires id in EntriesSince(issued, sender, after)
    ensures exists k :: 0 <= k < |issued| && IsSince(issued[k], sender, after, id)
  {
    var n := |issued| - 1;
    if id in EntriesSince(issued[..n], sender, after) {
      EntriesSinceAre(issued[..n], sender, after, id);
      var k :| 0 <= k < n && IsSince(issued[..n][k], sender, after, id);
      assert IsSince(issued[k], sender, after, id);
    } else {
      assert IsSince(issued[n], sender, after, id);
    }
  }

  lemma {:induction false} EntriesSinceCount(issued: seq<Issue>, sender: string, after: int)
    requires InOrder(issued)
    ensures |EntriesSince(issued, sender, after)| == Since(issued, sender, after)
  {
    if issued != [] {
      var front, last := issued[..|issued| - 1], issued[|issued| - 1];
      EntriesSinceCount(front, sender, after);
      if last.entry in EntriesSince(front, sender, after) {
        EntriesSinceAre(front, sender, after, last.entry);
      }
    }
  }

  lemma {:induction false} SubsetSize(a: set<nat>, b: set<nat>)
    requires a <= b
    ensures |a| <= |b|
    decreases |a|
  {
    if a != {} {
      var x :| x in a;
      SubsetSize(a - {x}, b - {x});
    }
  }

  /** The requests issued in the last day are recent entries, so the cap counts them all. */
  lemma IssuesAreRecent(reg: Registry, sender: string, now: int)
    requires Accounted(reg, now)
    ensures Since(reg.issued, sender, now - DAY) <= |RecentOf(reg, sender, now)|
  {
    EntriesSinceCount(reg.issued, sender, now - DAY);
    forall id | id in EntriesSince(reg.issued, sender, now - DAY)
      ensures id in RecentOf(reg, sender, now)
    {
      EntriesSinceAre(reg.issued, sender, now - DAY, id);
      var k :| 0 <= k < |reg.issued| && IsSince(reg.issued[k], sender, now - DAY, id);
      assert OnRecord(reg, reg.issued[k], now);
    }
    SubsetSize(EntriesSince(reg.issued, sender, now - DAY), RecentOf(reg, sender, now));
  }

  /** A request that passes the check finds less than the cap issued in the last day. */
  lemma PassedFindsRoom(reg: Registry, op: Ask, from: int, now: int)
    requires Accounted(reg, from) && from <= now && MayIssue(reg, op, now)
    ensures Since(reg.issued, op.sender, now - DAY) < MAX_REQUESTS_PER_DAY
  {
    WaitingStaysAccounted(reg, from, now);
    IssuesAreRecent(reg, op.sender, now);
    var due := ExpireOverdue(reg, op.sender, now);
    assert RecentOf(due, op.sender, now) == RecentOf(reg, op.sender, now);
  }

  lemma SinceSnoc(issued: seq<Issue>, last: Issue, sender: string, after: int)
    ensures Since(issued + [last], sender, after) ==
              Since(issued, sender, after) + if last.sender == sender && last.time > after then 1 else 0
  {
    assert (issued + [last])[..|issued|] == issued;
  }

  lemma HeldSnoc(issued: seq<Issue>, last: Issue, sender: string, most: int)
    requires Held(issued, sender, most)
    requires last.sender == sender ==> Since(issued, sender, last.time - DAY) < most
    ensures Held(issued + [last], sender, most)
  {
    var all := issued + [last];
    SinceSnoc(issued, last, sender, last.time - DAY);
    forall l | 0 <= l < |all| && all[l].sender == sender
      ensures HeldAt(all, sender, most, l)
    {
      if l < |issued| {
        assert HeldAt(issued, sender, most, l);
        assert all[..l + 1] == issued[..l + 1];
      } else {
        assert all[..l + 1] == all;
      }
    }
  }

  lemma {:induction false} RunStaysHeld(reg: Registry, calls: seq<Call>, from: int, sender: string)
    requires Run(reg, calls, from) && Accounted(reg, from) && Held(reg.issued, sender, MAX_REQUESTS_PER_DAY)
    ensures Held(After(reg, calls, from).issued, sender, MAX_REQUESTS_PER_DAY)
    ensures InOrder(After(reg, calls, from).issued)
    decreases |calls|
  {
    if calls != [] {
      var op, now := calls[0].op, calls[0].now;
      StaysAccounted(reg, op, from, now);
      if op.Pair? {
        PairCheckKeeps(reg, op, now);
        if MayIssue(reg, op, now) {
          PassedFindsRoom(reg, op, from, now);
          HeldSnoc(reg.issued, Issue(op.sender, now, op.newId), sender, MAX_REQUESTS_PER_DAY);
        }
      } else {
        OtherStaysAccounted(reg, op, from, now);
      }
      RunStaysHeld(Apply(reg, op, now), calls[1..], now, sender);
    }
  }

  /** Some of the requests issued to the sender, in order. */
  predicate Picks(issued: seq<Issue>, sender: string, ps: seq<nat>) {
    && (forall i | 0 <= i < |ps| :: ps[i] < |issued| && issued[ps[i]].sender == sender)
    && (forall i, j | 0 <= i < j < |ps| :: ps[i] < ps[j])
  }

  lemma {:induction false} PicksCount(issued: seq<Issue>, sender: string, ps: seq<nat>, after: int)
    requires Picks(issued, sender, ps) && forall i | 0 <= i < |ps| :: issued[ps[i]].time > after
    ensures Since(issued, sender, after) >= |ps|
  {
    if ps != [] {
      assert ps[0] < |issued|;
      var front, last := issued[..|issued| - 1], |ps| - 1;
      if ps[last] == |issued| - 1 {
        PicksCount(front, sender, ps[..last], after);
      } else {
        assert forall i | 0 <= i < last :: ps[i] < ps[last];
        PicksCount(front, sender, ps, after);
      }
    }
  }

  /** So more than `most` requests of one sender span at least a day. */
  lemma HeldSpans(issued: seq<Issue>, sender: string, most: nat, ps: seq<nat>)
    requires InOrder(issued) && Held(issued, sender, most) && Picks(issued, sender, ps) && |ps| > most
    ensures issued[ps[|ps| - 1]].time >= issued[ps[0]].time + DAY
  {
    var l := ps[|ps| - 1];
    assert HeldAt(issued, sender, most, l);
    assert forall i | 0 <= i < |ps| - 1 :: ps[i] < l;
    if issued[l].time < issued[ps[0]].time + DAY {
      assert forall i | 0 < i < |ps| :: issued[ps[0]].time <= issued[ps[i]].time;
      PicksCount(issued[..l + 1], sender, ps, issued[l].time - DAY);
    }
  }

  const NOBODY := Registry(map[], 0, [])

  /** The cap, over every run of whole actions: any four pairing requests issued to one sender span at least a day, with
      expiry and cleanup running all along. */
  lemma PairingCap(calls: seq<Call>, from: int, sender: string, ps: seq<nat>)
    requires Run(NOBODY, calls, from)
    requires Picks(After(NOBODY, calls, from).issued, sender, ps) && |ps| > MAX_REQUESTS_PER_DAY
    ensures var issued := After(NOBODY, calls, from).issued;
            issued[ps[|ps| - 1]].time >= issued[ps[0]].time + DAY
  {
    RunStaysHeld(NOBODY, calls, from, sender);
    HeldSpans(After(NOBODY, calls, from).issued, sender, MAX_REQUESTS_PER_DAY, ps);
  }

  // ---- overlapping pairing requests --------------------------------------------------------------------

  /** A request that has passed the check at some time and is not inserted yet. */
  datatype Passed = Passed(op: Ask, at: int)

  datatype Overlap = Overlap(reg: Registry, checked: seq<Passed>)

  datatype Part = Checks(op: Ask) | Inserts(j: nat) | Others(action: Op)

  datatype Turn = Turn(part: Part, now: int)

  /** How many requests of a sender are under way. */
  function UnderWay(checked: seq<Passed>, sender: string): nat {
    if checked == [] then 0
    else UnderWay(checked[..|checked| - 1], sender) + if checked[|checked| - 1].op.sender == sender then 1 else 0
  }

  /** At most `k` requests of the sender are under way at a time; other senders, and all other actions, do as they
      like. */
  ghost predicate CanTake(o: Overlap, sender: string, k: nat, t: Turn) {
    match t.part
    case Checks(op) => op.sender == sender && MayIssue(o.reg, op, t.now) ==> UnderWay(o.checked, sender) < k
    case Inserts(j) => j < |o.checked| && Unused(o.reg, o.checked[j].op.newId)
    case Others(op) => !op.Pair? && Fits(o.reg, op)
  }

  ghost function Take(o: Overlap, sender: string, k: nat, t: Turn): Overlap
    requires CanTake(o, sender, k, t)
  {
    match t.part
    case Checks(op) =>
      Overlap(PairCheck(o.reg, op, t.now),
              if MayIssue(o.reg, op, t.now) then o.checked + [Passed(op, t.now)] else o.checked)
    case Inserts(j) =>
      Overlap(Issued(o.reg, o.checked[j].op, o.checked[j].at, t.now), o.checked[..j] + o.checked[j + 1..])
    case Others(op) => o.(reg := Apply(o.reg, op, t.now))
  }

  ghost predicate Possible(o: Overlap, sender: string, k: nat, turns: seq<Turn>, from: int)
    decreases |turns|
  {
    turns == [] ||
    (from <= turns[0].now && CanTake(o, sender, k, turns[0])
     && Possible(Take(o, sender, k, turns[0]), sender, k, turns[1..], turns[0].now))
  }

  ghost function Finally(o: Overlap, sender: string, k: nat, turns: seq<Turn>, from: int): Overlap
    requires Possible(o, sender, k, turns, from)
    decreases |turns|
  {
    if turns == [] then o else Finally(Take(o, sender, k, turns[0]), sender, k, turns[1..], turns[0].now)
  }

  /** A whole request is its check with its insert right behind. */
  lemma PairIsCheckThenInsert(reg: Registry, op: Ask, now: int)
    requires Fits(reg, op)
    ensures var o := Overlap(reg, []);
            && CanTake(o, op.sender, 1, Turn(Checks(op), now))
            && var c := Take(o, op.sender, 1, Turn(Checks(op), now));
            && (c.checked == [] ==> Paired(reg, op, now) == c.reg)
            && (c.checked != [] ==>
                  CanTake(c, op.sender, 1, Turn(Inserts(0), now))
                  && Take(c, op.sender, 1, Turn(Inserts(0), now)) == Overlap(Paired(reg, op, now), []))
  {
    PairCheckKeeps(reg, op, now);
  }

  lemma {:induction false} UnderWayWithout(checked: seq<Passed>, j: nat, sender: string)
    requires j < |checked|
    ensures UnderWay(checked, sender) ==
              UnderWay(checked[..j] + checked[j + 1..], sender) + if checked[j].op.sender == sender then 1 else 0
  {
    var left, n := checked[..j] + checked[j + 1..], |checked| - 1;
    if j == n {
      assert left == checked[..n];
    } else {
      UnderWayWithout(checked[..n], j, sender);
      assert left[..|left| - 1] == checked[..n][..j] + checked[..n][j + 1..];
    }
  }

  /** Requests under way and requests issued in the last day are together at most `most`. */
  ghost predicate Within(o: Overlap, sender: string, most: int, now: int) {
    && Accounted(o.reg, now) && Held(o.reg.issued, sender, most)
    && UnderWay(o.checked, sender) + Since(o.reg.issued, sender, now - DAY) <= most
  }

  lemma CheckStaysWithin(o: Overlap, sender: string, k: nat, op: Ask, from: int, now: int)
    requires Within(o, sender, MAX_REQUESTS_PER_DAY - 1 + k, from) && from <= now
    requires CanTake(o, sender, k, Turn(Checks(op), now))
    ensures Within(Take(o, sender, k, Turn(Checks(op), now)), sender, MAX_REQUESTS_PER_DAY - 1 + k, now)
  {
    PairCheckKeeps(o.reg, op, now);
    PairCheckStaysAccounted(o.reg, op, from, now);
    SinceLater(o.reg.issued, sender, from - DAY, now - DAY);
    if MayIssue(o.reg, op, now) {
      PassedFindsRoom(o.reg, op, from, now);
      assert (o.checked + [Passed(op, now)])[..|o.checked|] == o.checked;
    }
  }

  lemma InsertStaysWithin(o: Overlap, sender: string, k: nat, j: nat, from: int, now: int)
    requires Within(o, sender, MAX_REQUESTS_PER_DAY - 1 + k, from) && from <= now
    requires CanTake(o, sender, k, Turn(Inserts(j), now))
    ensures Within(Take(o, sender, k, Turn(Inserts(j), now)), sender, MAX_REQUESTS_PER_DAY - 1 + k, now)
  {
    var p := o.checked[j];
    var issue := Issue(p.op.sender, now, p.op.newId);
    WaitingStaysAccounted(o.reg, from, now);
    IssueStaysAccounted(o.reg, p.op, p.at, now);
    InsertCounts(o.reg.issued, o.checked, j, issue, sender, MAX_REQUESTS_PER_DAY - 1 + k, from - DAY);
  }

  /** What is inserted is no longer under way: the two counts together stay as they are. */
  lemma InsertCounts(
    issued: seq<Issue>, checked: seq<Passed>, j: nat, issue: Issue, sender: string, most: int, after: int)
    requires j < |checked| && issue.sender == checked[j].op.sender && after <= issue.time - DAY
    requires UnderWay(checked, sender) + Since(issued, sender, after) <= most && Held(issued, sender, most)
    ensures UnderWay(checked[..j] + checked[j + 1..], sender)
              + Since(issued + [issue], sender, issue.time - DAY) <= most
    ensures Held(issued + [issue], sender, most)
  {
    UnderWayWithout(checked, j, sender);
    SinceLater(issued, sender, after, issue.time - DAY);
    SinceSnoc(issued, issue, sender, issue.time - DAY);
    HeldSnoc(issued, issue, sender, most);
  }

  lemma {:induction false} TurnsStayWithin(o: Overlap, sender: string, k: nat, turns: seq<Turn>, from: int)
    requires Within(o, sender, MAX_REQUESTS_PER_DAY - 1 + k, from) && Possible(o, sender, k, turns, from)
    ensures var issued := Finally(o, sender, k, turns, from).reg.issued;
            Held(issued, sender, MAX_REQUESTS_PER_DAY - 1 + k) && InOrder(issued)
    decreases |turns|
  {
    if turns != [] {
      var now := turns[0].now;
      match turns[0].part {
        case Checks(op) => CheckStaysWithin(o, sender, k, op, from, now);
        case Inserts(j) => InsertStaysWithin(o, sender, k, j, from, now);
        case Others(op) =>
          OtherStaysAccounted(o.reg, op, from, now);
          SinceLater(o.reg.issued, sender, from - DAY, now - DAY);
      }
      TurnsStayWithin(Take(o, sender, k, turns[0]), sender, k, turns[1..], now);
    }
  }

  const START_EMPTY := Overlap(NOBODY, [])

  /** With at most k requests of a sender under way at a time, however long each takes from its check to its insert, any
      3 + k that are issued span at least a day. */
  lemma OverlappingRequestsSpan(sender: string, k: nat, turns: seq<Turn>, from: int, ps: seq<nat>)
    requires k > 0 && Possible(START_EMPTY, sender, k, turns, from)
    requires Picks(Finally(START_EMPTY, sender, k, turns, from).reg.issued, sender, ps)
    requires |ps| >= MAX_REQUESTS_PER_DAY + k
    ensures var issued := Finally(START_EMPTY, sender, k, turns, from).reg.issued;
            issued[ps[|ps| - 1]].time >= issued[ps[0]].time + DAY
  {
    TurnsStayWithin(START_EMPTY, sender, k, turns, from);
    HeldSpans(Finally(START_EMPTY, sender, k, turns, from).reg.issued, sender, MAX_REQUESTS_PER_DAY - 1 + k, ps);
  }

  // ---- the excess is reached ---------------------------------------------------------------------------

  const TTL := 60

  function Question(sender: string, id: nat, limit: int): Ask {
    Pair(sender, id, TTL, false, limit)
  }

  lemma Before(o: Overlap, sender: string, k: nat, first: Turn, rest: seq<Turn>, from: int) returns (turns: seq<Turn>)
    requires from <= first.now && CanTake(o, sender, k, first)
    requires Possible(Take(o, sender, k, first), sender, k, rest, first.now)
    ensures Possible(o, sender, k, turns, from)
    ensures Finally(o, sender, k, turns, from) == Finally(Take(o, sender, k, first), sender, k, rest, first.now)
  {
    turns := [first] + rest;
    assert turns[1..] == rest;
  }

  /** All that was issued went to the sender, between two times. */
  predicate AllIssued(issued: seq<Issue>, sender: string, from: int, to: int) {
    forall i | 0 <= i < |issued| :: issued[i].sender == sender && from <= issued[i].time <= to
  }

  lemma {:induction false} SinceAll(issued: seq<Issue>, sender: string, from: int, to: int, after: int)
    requires AllIssued(issued, sender, from, to) && after < from
    ensures Since(issued, sender, after) == |issued|
  {
    if issued != [] {
      SinceAll(issued[..|issued| - 1], sender, from, to, after);
    }
  }

  /** Entries and issues use only ids below `n`. */
  predicate Below(reg: Registry, n: nat) {
    (forall id | id in reg.entries :: id < n) && forall i | 0 <= i < |reg.issued| :: reg.issued[i].entry < n
  }

  /** Ids from `n` on, one for each request under way. */
  predicate Numbered(checked: seq<Passed>, sender: string, n: nat, limit: int, at: int) {
    forall i | 0 <= i < |checked| :: checked[i] == Passed(Question(sender, n + i, limit), at)
  }

  lemma InsertFirst(o: Overlap, sender: string, k: nat, n: nat, limit: int, from: int, now: int)
    requires from <= now && Below(o.reg, n) && AllIssued(o.reg.issued, sender, from, now)
    requires Numbered(o.checked, sender, n, limit, now) && o.checked != []
    ensures CanTake(o, sender, k, Turn(Inserts(0), now))
    ensures var next := Take(o, sender, k, Turn(Inserts(0), now));
            && next.checked == o.checked[1..] && Numbered(next.checked, sender, n + 1, limit, now)
            && next.reg.issued == o.reg.issued + [Issue(sender, now, n)]
            && Below(next.reg, n + 1) && AllIssued(next.reg.issued, sender, from, now)
  {
    assert o.checked[0] == Passed(Question(sender, n + 0, limit), now);
    assert o.checked[..0] + o.checked[1..] == o.checked[1..];
    forall i | 0 <= i < |o.checked[1..]|
      ensures o.checked[1..][i] == Passed(Question(sender, n + 1 + i, limit), now)
    {
      assert o.checked[1..][i] == o.checked[i + 1];
    }
  }

  /** The requests under way are all inserted. */
  lemma {:induction false} InsertAll(o: Overlap, sender: string, k: nat, n: nat, limit: int, from: int, now: int)
    returns (turns: seq<Turn>)
    requires from <= now && Below(o.reg, n) && AllIssued(o.reg.issued, sender, from, now)
    requires Numbered(o.checked, sender, n, limit, now)
    ensures Possible(o, sender, k, turns, now)
    ensures var issued := Finally(o, sender, k, turns, now).reg.issued;
            |issued| == |o.reg.issued| + |o.checked| && AllIssued(issued, sender, from, now)
    decreases |o.checked|
  {
    turns := [];
    if o.checked != [] {
      var first := Turn(Inserts(0), now);
      InsertFirst(o, sender, k, n, limit, from, now);
      turns := InsertAll(Take(o, sender, k, first), sender, k, n + 1, limit, from, now);
      turns := Before(o, sender, k, first, turns, now);
    }
  }

  /** Nothing is open, and at most two entries are there. */
  predicate Spent(reg: Registry) {
    forall id | id in reg.entries :: id < 2 && reg.entries[id].state == Expired
  }

  lemma SpentMayIssue(reg: Registry, sender: string, id: nat, limit: int, now: int)
    requires Spent(reg) && sender != ""
    ensures MayIssue(reg, Question(sender, id, limit), now) && PairCheck(reg, Question(sender, id, limit), now) == reg
  {
    var due := ExpireOverdue(reg, sender, now);
    assert due.entries == reg.entries && due == reg;
    assert AllPending(reg) == {};
    SubsetSize(RecentOf(reg, sender, now), {0, 1});
    assert PairCheck(reg, Question(sender, id, limit), now).entries == reg.entries;
  }

  lemma {:induction false} UnderWayAtMost(checked: seq<Passed>, sender: string)
    ensures UnderWay(checked, sender) <= |checked|
  {
    if checked != [] {
      UnderWayAtMost(checked[..|checked| - 1], sender);
    }
  }

  lemma CheckOne(o: Overlap, sender: string, k: nat, limit: int, now: int)
    requires sender != "" && Spent(o.reg) && |o.checked| < k && Numbered(o.checked, sender, 2, limit, now)
    ensures var check := Turn(Checks(Question(sender, 2 + |o.checked|, limit)), now);
            && CanTake(o, sender, k, check) && Take(o, sender, k, check).reg == o.reg
            && |Take(o, sender, k, check).checked| == |o.checked| + 1
            && Numbered(Take(o, sender, k, check).checked, sender, 2, limit, now)
  {
    SpentMayIssue(o.reg, sender, 2 + |o.checked|, limit, now);
    UnderWayAtMost(o.checked, sender);
  }

  /** Requests are checked, none of which sees the others, until k are under way; then all are inserted. */
  lemma {:induction false} CheckAll(o: Overlap, sender: string, k: nat, limit: int, from: int, now: int)
    returns (turns: seq<Turn>)
    requires sender != "" && k > 0 && Spent(o.reg) && |o.checked| <= k && from <= now && Below(o.reg, 2)
    requires AllIssued(o.reg.issued, sender, from, now) && Numbered(o.checked, sender, 2, limit, now)
    ensures Possible(o, sender, k, turns, now)
    ensures var issued := Finally(o, sender, k, turns, now).reg.issued;
            |issued| == |o.reg.issued| + k && AllIssued(issued, sender, from, now)
    decreases k - |o.checked|
  {
    if |o.checked| == k {
      turns := InsertAll(o, sender, k, 2, limit, from, now);
    } else {
      var first := Turn(Checks(Question(sender, 2 + |o.checked|, limit)), now);
      CheckOne(o, sender, k, limit, now);
      turns := CheckAll(Take(o, sender, k, first), sender, k, limit, from, now);
      turns := Before(o, sender, k, first, turns, now);
    }
  }

  /** A round: a request is checked, inserted, and left to expire. */
  lemma OneRound(o: Overlap, sender: string, k: nat, limit: int, n: nat, from: int, now: int)
    returns (checked: Overlap, inserted: Overlap, cleaned: Overlap)
    requires sender != "" && k > 0 && n < 2 && o.checked == [] && Spent(o.reg) && Below(o.reg, n)
    requires |o.reg.issued| == n && AllIssued(o.reg.issued, sender, from, now) && from <= now
    ensures var t := Turn(Checks(Question(sender, n, limit)), now);
            CanTake(o, sender, k, t) && checked == Take(o, sender, k, t)
    ensures var t := Turn(Inserts(0), now); CanTake(checked, sender, k, t) && inserted == Take(checked, sender, k, t)
    ensures var t := Turn(Others(Cleanup), now + TTL + 1);
            CanTake(inserted, sender, k, t) && cleaned == Take(inserted, sender, k, t)
    ensures cleaned.checked == [] && Spent(cleaned.reg) && Below(cleaned.reg, n + 1)
    ensures |cleaned.reg.issued| == n + 1 && AllIssued(cleaned.reg.issued, sender, from, now + TTL + 1)
  {
    var op := Question(sender, n, limit);
    SpentMayIssue(o.reg, sender, n, limit, now);
    checked := Take(o, sender, k, Turn(Checks(op), now));
    assert checked == Overlap(o.reg, [Passed(op, now)]);
    inserted := Take(checked, sender, k, Turn(Inserts(0), now));
    assert inserted == Overlap(Issued(o.reg, op, now, now), []);
    cleaned := Take(inserted, sender, k, Turn(Others(Cleanup), now + TTL + 1));
    IssuedExpires(o.reg, sender, limit, n, now);
  }

  lemma IssuedExpires(reg: Registry, sender: string, limit: int, n: nat, now: int)
    requires n < 2 && Spent(reg) && Below(reg, n)
    ensures var after := Cleaned(Issued(reg, Question(sender, n, limit), now, now), now + TTL + 1);
            Spent(after) && Below(after, n + 1)
  {
  }

  /** Two requests one after the other, each issued and left to expire; then k at once. */
  lemma {:induction false} RoundsThenCheck(
    o: Overlap, sender: string, k: nat, limit: int, n: nat, from: int, now: int) returns (turns: seq<Turn>)
    requires sender != "" && k > 0 && n <= 2 && o.checked == [] && Spent(o.reg) && Below(o.reg, n)
    requires |o.reg.issued| == n && AllIssued(o.reg.issued, sender, from, now) && from <= now
    ensures Possible(o, sender, k, turns, now)
    ensures var issued := Finally(o, sender, k, turns, now).reg.issued;
            |issued| == 2 + k && AllIssued(issued, sender, from, now + (2 - n) * (TTL + 1))
    decreases 2 - n
  {
    if n == 2 {
      turns := CheckAll(o, sender, k, limit, from, now);
    } else {
      var check, insert := Turn(Checks(Question(sender, n, limit)), now), Turn(Inserts(0), now);
      var clean := Turn(Others(Cleanup), now + TTL + 1);
      var checked, inserted, cleaned := OneRound(o, sender, k, limit, n, from, now);
      turns := RoundsThenCheck(cleaned, sender, k, limit, n + 1, from, now + TTL + 1);
      turns := Before(inserted, sender, k, clean, turns, now);
      turns := Before(checked, sender, k, insert, turns, now);
      turns := Before(o, sender, k, check, turns, now);
    }
  }

  /** Whatever the limit on open requests: 2 + k requests are issued within two hours and two minutes. */
  lemma OverlapExceeds(sender: string, k: nat, limit: int, from: int) returns (turns: seq<Turn>)
    requires sender != "" && k > 0
    ensures Possible(START_EMPTY, sender, k, turns, from)
    ensures var issued := Finally(START_EMPTY, sender, k, turns, from).reg.issued;
            && |issued| == MAX_REQUESTS_PER_DAY - 1 + k && AllIssued(issued, sender, from, from + 2 * (TTL + 1))
            && !Held(issued, sender, MAX_REQUESTS_PER_DAY - 2 + k)
  {
    turns := RoundsThenCheck(START_EMPTY, sender, k, limit, 0, from, from);
    var issued, to := Finally(START_EMPTY, sender, k, turns, from).reg.issued, from + 2 * (TTL + 1);
    var last := |issued| - 1;
    SinceAll(issued, sender, from, to, issued[last].time - DAY);
    assert issued[..last + 1] == issued && !HeldAt(issued, sender, MAX_REQUESTS_PER_DAY - 2 + k, last);
  }

  /** Whether the cap holds for a sender over every schedule with at most k of its requests under way. */
  ghost predicate CapHolds(sender: string, k: nat, from: int) {
    forall turns | Possible(START_EMPTY, sender, k, turns, from) ::
      Held(Finally(START_EMPTY, sender, k, turns, from).reg.issued, sender, MAX_REQUESTS_PER_DAY)
  }

  /** The cap holds exactly when requests of a sender do not overlap. */
  lemma CapHoldsIff(sender: string, k: nat, limit: int, from: int)
    requires sender != "" && k > 0
    ensures CapHolds(sender, k, from) <==> k == 1
  {
    if k == 1 {
      forall turns | Possible(START_EMPTY, sender, k, turns, from)
        ensures Held(Finally(START_EMPTY, sender, k, turns, from).reg.issued, sender, MAX_REQUESTS_PER_DAY)
      {
        TurnsStayWithin(START_EMPTY, sender, k, turns, from);
      }
    } else {
      var turns := OverlapExceeds(sender, k, limit, from);
      var issued := Finally(START_EMPTY, sender, k, turns, from).reg.issued;
      if Held(issued, sender, MAX_REQUESTS_PER_DAY) {
        HeldMore(issued, sender, MAX_REQUESTS_PER_DAY, MAX_REQUESTS_PER_DAY - 2 + k);
      }
    }
  }

  lemma HeldMore(issued: seq<Issue>, sender: string, few: int, more: int)
    requires Held(issued, sender, few) && few <= more
    ensures Held(issued, sender, more)
  {
    assert forall l | 0 <= l < |issued| && issued[l].sender == sender :: HeldAt(issued, sender, few, l);
  }
}
