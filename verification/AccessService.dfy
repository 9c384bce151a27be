/**
 The access actions as they are written: entries read, updated and saved one at a time.
 Each method leaves exactly the registry that `AccessEntries.Apply` describes.
 */
module AccessService {
  import opened Options
  import opened AccessEntries

  class AccessTable {
    var entries: map<nat, Entry>
    var serial: nat
    ghost var issued: seq<Issue>

    constructor ()
      ensures Contents() == Registry(map[], 0, [])
    {
      entries, serial, issued := map[], 0, [];
    }

    ghost function Contents(): Registry
      reads this
    {
      Registry(entries, serial, issued)
    }

    /** Save one entry; every save is stamped. */
    method SaveEntry(id: nat, e: Entry, now: int)
      modifies this
      ensures Contents() == Saved(old(Contents()), id, e, now)
    {
      entries := entries[id := e.(modified := now, serial := serial)];
      serial := serial + 1;
    }

    /** The sender's live entry that was saved last. */
    method LiveSenderEntry(sender: string) returns (found: Option<nat>)
      requires Ordered(Contents())
      ensures found == LatestLive(Contents(), sender)
    {
      found := None;
      var left := entries.Keys;
      while left != {}
        invariant left <= entries.Keys
        invariant found.Some? ==> found.value in entries && found.value !in left
                                  && entries[found.value].sender == sender && Live(entries[found.value].state)
        invariant forall n | n in entries && n !in left && entries[n].sender == sender && Live(entries[n].state) ::
                    found.Some? && entries[n].serial <= entries[found.value].serial
        decreases left
      {
        var id :| id in left;
        left := left - {id};
        var e := entries[id];
        if e.sender == sender && Live(e.state) {
          if found.None? || entries[found.value].serial < e.serial {
            found := Some(id);
          }
        }
      }
      if found.Some? {
        LatestIsUnique(Contents(), sender, found.value);
      }
    }

    method ApprovePairing(id: nat, now: int) returns (approved: bool)
      requires id in entries
      modifies this
      ensures Contents() == Apply(old(Contents()), Approve(id), now)
      ensures approved == (old(entries[id]).state == Pending && !PastDue(old(entries[id]), now))
    {
      var e := entries[id];
      if e.state != Pending || (e.expires.Some? && e.expires.value < now) {
        return false;
      }
      SaveEntry(id, e.(state := Approved, expires := None), now);
      return true;
    }

    method RevokeEntry(id: nat, now: int)
      requires id in entries
      modifies this
      ensures Contents() == Apply(old(Contents()), Revoke(id), now)
    {
      var e := entries[id].(revokedAt := Some(now));
      if e.state == OptedOut {
        e := e.(previous := Some(Revoked));
      } else if e.state != Blocked {
        e := e.(state := Revoked);
      }
      SaveEntry(id, e, now);
    }

    method BlockEntry(id: nat, now: int)
      requires id in entries
      modifies this
      ensures Contents() == Apply(old(Contents()), Block(id), now)
    {
      var e := entries[id].(revokedAt := Some(now));
      if e.state == OptedOut {
        e := e.(previous := Some(Blocked));
      } else {
        e := e.(state := Blocked);
      }
      SaveEntry(id, e, now);
    }

    method UnblockEntry(id: nat, now: int) returns (done: bool)
      requires id in entries
      modifies this
      ensures Contents() == Apply(old(Contents()), Unblock(id), now) && done == (old(entries[id]).state == Blocked)
    {
      if entries[id].state != Blocked {
        return false;
      }
      SaveEntry(id, entries[id].(state := Revoked, revokedAt := None), now);
      return true;
    }

    method RestoreEntry(id: nat, now: int) returns (done: bool)
      requires id in entries
      modifies this
      ensures Contents() == Apply(old(Contents()), Restore(id), now) && done == (old(entries[id]).state == Revoked)
    {
      if entries[id].state != Revoked {
        return false;
      }
      SaveEntry(id, entries[id].(state := Approved, expires := None, revokedAt := None), now);
      return true;
    }

    method AddEntry(sender: string, newId: nat, now: int)
      requires Ordered(Contents()) && Unused(Contents(), newId)
      modifies this
      ensures Contents() == Apply(old(Contents()), Add(sender, newId), now)
    {
      ghost var reg := Contents();
      if sender == "" {
        return;
      }
      var states := set id | id in entries && entries[id].sender == sender && Live(entries[id].state) ::
        entries[id].state;
      assert states == LiveStates(reg, sender);
      assert forall s | s in {Approved, Blocked, OptedOut} && s in states ::
          s in states * {Approved, Blocked, OptedOut};
      if Approved in states || Blocked in states || OptedOut in states {
        return;
      }
      assert states * {Approved, Blocked, OptedOut} == {};
      var found := LiveSenderEntry(sender);
      match found {
        case Some(id) => SaveEntry(id, Approving(entries[id]), now);
        case None => SaveEntry(newId, NewEntry(sender, Approved, now), now);
      }
    }

    method RecordOptOut(sender: string, newId: nat, now: int)
      requires Ordered(Contents()) && Unused(Contents(), newId)
      modifies this
      ensures Contents() == Apply(old(Contents()), Stop(sender, newId), now)
    {
      var found := LiveSenderEntry(sender);
      match found {
        case Some(id) => SaveEntry(id, entries[id].(state := OptedOut, previous := Some(entries[id].state)), now);
        case None => SaveEntry(newId, NewEntry(sender, OptedOut, now), now);
      }
    }

    method RecordOptIn(sender: string, now: int)
      requires Ordered(Contents())
      modifies this
      ensures Contents() == Apply(old(Contents()), Start(sender), now)
    {
      var found := LiveSenderEntry(sender);
      if found.None? || entries[found.value].state != OptedOut {
        return;
      }
      var e := entries[found.value];
      var restored := if e.previous.Some? && Restorable(e.previous.value) then e.previous.value else Expired;
      SaveEntry(found.value, e.(state := restored, previous := None), now);
    }

    /** Issue a pairing request, or find the one that is still open. */
    method CreatePairingRequest(sender: string, newId: nat, ttl: nat, replies: bool, limit: int, now: int)
      requires Ordered(Contents()) && Unused(Contents(), newId)
      modifies this
      ensures Contents() == Apply(old(Contents()), Pair(sender, newId, ttl, replies, limit), now)
    {
      var op: Ask := Pair(sender, newId, ttl, replies, limit);
      PairCheckKeeps(Contents(), op, now);
      var passed := CheckPairing(op, now);
      if passed {
        InsertRequest(op, now, now);
      }
    }

    /** Everything up to the insert: the sender's open request answered, or the cooldown and the caps consulted. */
    method CheckPairing(op: Ask, now: int) returns (passed: bool)
      requires Ordered(Contents())
      modifies this
      ensures Contents() == PairCheck(old(Contents()), op, now) && passed == MayIssue(old(Contents()), op, now)
    {
      if op.sender == "" {
        return false;
      }
      ghost var reg := Contents();
      var open := ExpireOrFind(op.sender, now);
      ExpiryOpensNone(reg, op.sender, now);
      if open.Some? {
        AnswersOne(Contents(), op, open.value, now);
        var e := entries[open.value];
        if e.sentAt.None? && op.replies {
          entries := entries[open.value := e.(sentAt := Some(now))];
        }
        return false;
      }
      AnswersNone(Contents(), op, now);
      GuardsReadEntries(Contents(), Registry(entries, serial, []), op, now);
      var table := Registry(entries, serial, []);
      passed := !CoolingDown(table, op.sender, now) && !Capped(table, op.sender, op.limit, now);
    }

    static lemma AnswersOne(due: Registry, op: Ask, id: nat, now: int)
      requires Ordered(due) && FirstOpen(due, op.sender, id, now)
      ensures Answered(due, op, now).entries ==
                if due.entries[id].sentAt.None? && op.replies
                then due.entries[id := due.entries[id].(sentAt := Some(now))] else due.entries
    {
      assert forall n | n in due.entries :: FirstOpen(due, op.sender, n, now) <==> n == id;
    }

    static lemma AnswersNone(due: Registry, op: Ask, now: int)
      requires forall n | n in due.entries :: !Open(due, op.sender, n, now)
      ensures Answered(due, op, now) == due
    {
      assert Answered(due, op, now).entries == due.entries;
    }

    static lemma GuardsReadEntries(due: Registry, table: Registry, op: Ask, now: int)
      requires table.entries == due.entries
      ensures CoolingDown(table, op.sender, now) == CoolingDown(due, op.sender, now)
      ensures Capped(table, op.sender, op.limit, now) == Capped(due, op.sender, op.limit, now)
    {
      assert AllPending(table) == AllPending(due) && RecentOf(table, op.sender, now) == RecentOf(due, op.sender, now);
    }

    /** The insert of a request that passed the check at `asked`. */
    method InsertRequest(op: Ask, asked: int, now: int)
      modifies this
      ensures Contents() == Issued(old(Contents()), op, asked, now)
    {
      var request := NewEntry(op.sender, Pending, now)
                     .(expires := Some(asked + op.ttl), sentAt := if op.replies then Some(asked) else None);
      SaveEntry(op.newId, request, now);
      issued := issued + [Issue(op.sender, now, op.newId)];
    }

    method PickLastSaved(waiting: set<nat>) returns (id: nat)
      requires waiting != {} && waiting <= entries.Keys
      ensures id in waiting && forall w | w in waiting :: entries[w].serial <= entries[id].serial
    {
      ghost var last := LastSaved(entries, waiting);
      assert last in waiting && forall w | w in waiting :: entries[w].serial <= entries[last].serial;
      id :| id in waiting && forall w | w in waiting :: entries[w].serial <= entries[id].serial;
    }

    /** One turn of the walk. */
    method MeetLast(sender: string, waiting: set<nat>, now: int, ghost reg: Registry)
      returns (left: set<nat>, open: Option<nat>)
      requires Ordered(reg) && Midway(reg, sender, waiting, None, now) && waiting != {}
      requires entries == Walked(reg, sender, waiting, None, now)
      modifies `entries
      ensures left < waiting && Midway(reg, sender, left, open, now) && entries == Walked(reg, sender, left, open, now)
    {
      assert forall w | w in waiting :: Met(reg, sender, {}, w);
      var id := PickLastSaved(waiting);
      WalkMeets(reg, sender, waiting, id, now);
      WalkWrites(reg, sender, waiting, id, now);
      left := waiting - {id};
      var overdue := ExpireIfOverdue(id, now);
      open := if overdue then None else Some(id);
    }

    method ExpireIfOverdue(id: nat, now: int) returns (overdue: bool)
      requires id in entries && entries[id].state == Pending
      modifies `entries
      ensures overdue == PastDue(old(entries)[id], now)
      ensures entries == if overdue then old(entries)[id := Expiring(old(entries)[id], now)] else old(entries)
    {
      var e := entries[id];
      overdue := e.expires.Some? && e.expires.value < now;
      if overdue {
        entries := entries[id := e.(state := Expired, modified := now)];
      }
    }

    /** Walk the sender's pending requests, last saved first: overdue ones expire, one that is open ends the walk. */
    method ExpireOrFind(sender: string, now: int) returns (open: Option<nat>)
      requires Ordered(Contents())
      modifies this
      ensures Contents() == ExpireOverdue(old(Contents()), sender, now) && Ordered(Contents())
      ensures open.Some? ==> FirstOpen(old(Contents()), sender, open.value, now)
      ensures open.None? ==> forall n | n in old(entries) :: !Open(old(Contents()), sender, n, now)
    {
      ghost var reg := Contents();
      var waiting := PendingOf(Registry(entries, serial, []), sender);
      WalkStarts(reg, sender, waiting, now);
      ghost var left;
      open, left := WalkRequests(sender, waiting, now, reg);
      WalkEnds(reg, sender, left, open, now);
      WalkFinds(reg, sender, left, open, now);
      ExpiryStaysOrdered(reg, sender, now);
    }

    method WalkRequests(sender: string, all: set<nat>, now: int, ghost reg: Registry)
      returns (open: Option<nat>, ghost left: set<nat>)
      requires Ordered(reg) && Midway(reg, sender, all, None, now) && entries == Walked(reg, sender, all, None, now)
      modifies `entries
      ensures Midway(reg, sender, left, open, now) && entries == Walked(reg, sender, left, open, now)
      ensures left == {} || open.Some?
    {
      var waiting := all;
      open := None;
      while waiting != {} && open.None?
        invariant Midway(reg, sender, waiting, open, now) && entries == Walked(reg, sender, waiting, open, now)
        decreases waiting
      {
        waiting, open := MeetLast(sender, waiting, now, reg);
      }
      left := waiting;
    }

    /** A pending request of the sender that the walk has met. */
    static predicate Met(reg: Registry, sender: string, waiting: set<nat>, n: nat) {
      n in reg.entries && reg.entries[n].sender == sender && reg.entries[n].state == Pending && n !in waiting
    }

    /** All requests but the waiting ones, which were saved earlier, have been met, and nothing open but the last. */
    static ghost predicate Midway(reg: Registry, sender: string, waiting: set<nat>, open: Option<nat>, now: int) {
      && (forall w | w in waiting :: Met(reg, sender, {}, w))
      && (forall n, w | n in reg.entries && Met(reg, sender, waiting, n) && w in waiting ::
            reg.entries[w].serial < reg.entries[n].serial)
      && (forall n | n in reg.entries && Met(reg, sender, waiting, n) && Open(reg, sender, n, now) :: open == Some(n))
      && (open.Some? ==> LastMet(reg, sender, waiting, open.value, now))
    }

    static ghost predicate LastMet(reg: Registry, sender: string, waiting: set<nat>, id: nat, now: int) {
      && Met(reg, sender, waiting, id) && Open(reg, sender, id, now)
      && forall n | n in reg.entries && Met(reg, sender, waiting, n) :: reg.entries[id].serial <= reg.entries[n].serial
    }

    /** The entries at that point. */
    static function Walked(reg: Registry, sender: string, waiting: set<nat>, open: Option<nat>, now: int)
      : map<nat, Entry>
    {
      map id | id in reg.entries ::
        if Met(reg, sender, waiting, id) && open != Some(id) then Expiring(reg.entries[id], now) else reg.entries[id]
    }

    static lemma WalkStarts(reg: Registry, sender: string, waiting: set<nat>, now: int)
      requires waiting == PendingOf(reg.(issued := []), sender)
      ensures Midway(reg, sender, waiting, None, now) && Walked(reg, sender, waiting, None, now) == reg.entries
    {
      assert forall n :: !Met(reg, sender, waiting, n);
    }

    static lemma WalkMeets(reg: Registry, sender: string, waiting: set<nat>, id: nat, now: int)
      requires Ordered(reg) && Midway(reg, sender, waiting, None, now) && id in waiting
      requires forall w | w in waiting :: w in reg.entries && reg.entries[w].serial <= reg.entries[id].serial
      ensures Midway(reg, sender, waiting - {id}, if PastDue(reg.entries[id], now) then None else Some(id), now)
    {
      assert Met(reg, sender, {}, id);
      assert forall n :: Met(reg, sender, waiting - {id}, n) <==> Met(reg, sender, waiting, n) || n == id;
    }

    static lemma WalkWrites(reg: Registry, sender: string, waiting: set<nat>, id: nat, now: int)
      requires Met(reg, sender, {}, id) && id in waiting
      ensures var before := Walked(reg, sender, waiting, None, now);
              && before[id] == reg.entries[id]
              && (PastDue(reg.entries[id], now) ==>
                    Walked(reg, sender, waiting - {id}, None, now) == before[id := Expiring(reg.entries[id], now)])
              && (!PastDue(reg.entries[id], now) ==> Walked(reg, sender, waiting - {id}, Some(id), now) == before)
    {
      assert forall n :: Met(reg, sender, waiting - {id}, n) <==> Met(reg, sender, waiting, n) || n == id;
    }

    /** An overdue request is met exactly when no open one was saved after it. */
    static lemma MetIffReached(reg: Registry, sender: string, waiting: set<nat>, open: Option<nat>, now: int, id: nat)
      requires Midway(reg, sender, waiting, open, now) && (waiting == {} || open.Some?) && Ordered(reg)
      requires Met(reg, sender, {}, id) && PastDue(reg.entries[id], now)
      ensures Met(reg, sender, waiting, id) <==> Reached(reg, sender, id, now)
    {
      forall n | n in reg.entries && Open(reg, sender, n, now) && id !in waiting
        ensures reg.entries[n].serial < reg.entries[id].serial
      {
        assert n in waiting || Met(reg, sender, waiting, n);
      }
      if id in waiting {
        assert reg.entries[id].serial < reg.entries[open.value].serial;
      }
    }

    static lemma WalkEnds(reg: Registry, sender: string, waiting: set<nat>, open: Option<nat>, now: int)
      requires Midway(reg, sender, waiting, open, now) && (waiting == {} || open.Some?) && Ordered(reg)
      ensures Walked(reg, sender, waiting, open, now) == ExpireOverdue(reg, sender, now).entries
    {
      forall id | id in reg.entries
        ensures Walked(reg, sender, waiting, open, now)[id] == ExpireOverdue(reg, sender, now).entries[id]
      {
        if Met(reg, sender, {}, id) && PastDue(reg.entries[id], now) {
          MetIffReached(reg, sender, waiting, open, now, id);
        }
      }
    }

    static lemma WalkFinds(reg: Registry, sender: string, waiting: set<nat>, open: Option<nat>, now: int)
      requires Midway(reg, sender, waiting, open, now) && (waiting == {} || open.Some?) && Ordered(reg)
      ensures open.Some? ==> FirstOpen(reg, sender, open.value, now)
      ensures open.None? ==> forall n | n in reg.entries :: !Open(reg, sender, n, now)
    {
      forall n | n in reg.entries && Open(reg, sender, n, now)
        ensures open.Some? && reg.entries[n].serial <= reg.entries[open.value].serial
      {
        assert n in waiting || Met(reg, sender, waiting, n);
      }
    }

    static lemma ExpiryStaysOrdered(reg: Registry, sender: string, now: int)
      requires Ordered(reg)
      ensures Ordered(ExpireOverdue(reg, sender, now))
    {
      var due := ExpireOverdue(reg, sender, now);
      assert forall n | n in due.entries :: n in reg.entries && due.entries[n].serial == reg.entries[n].serial;
    }

    static lemma LastSaved(entries: map<nat, Entry>, waiting: set<nat>) returns (last: nat)
      requires waiting != {} && waiting <= entries.Keys
      ensures last in waiting && forall w | w in waiting :: entries[w].serial <= entries[last].serial
    {
      last :| last in waiting;
      var rest := waiting - {last};
      if rest != {} {
        var other := LastSaved(entries, rest);
        assert forall w | w in waiting :: w == last || w in rest;
        if entries[last].serial < entries[other].serial {
          last := other;
        }
      } else {
        assert waiting == {last};
      }
    }

    /** Expiry opens nothing and closes nothing that is open. */
    static lemma ExpiryOpensNone(reg: Registry, sender: string, now: int)
      ensures forall n :: Open(ExpireOverdue(reg, sender, now), sender, n, now) <==> Open(reg, sender, n, now)
      ensures forall n :: FirstOpen(ExpireOverdue(reg, sender, now), sender, n, now) <==> FirstOpen(reg, sender, n, now)
    {
    }

    /** The daily job: overdue requests expire, entries expired for a week go. */
    method CleanupStale(now: int)
      modifies this
      ensures Contents() == Apply(old(Contents()), Cleanup, now)
    {
      ghost var before := entries;
      var overdue := set id | id in entries && PastDue(entries[id], now);
      while overdue != {}
        invariant entries.Keys == before.Keys && overdue <= before.Keys
        invariant forall n | n in before :: entries[n] == if n in overdue then before[n] else Expiring(before[n], now)
        invariant serial == old(serial) && issued == old(issued)
        decreases overdue
      {
        var id :| id in overdue;
        overdue := overdue - {id};
        entries := entries[id := Expiring(entries[id], now)];
      }
      var stale := set id | id in entries && entries[id].state == Expired && entries[id].modified < now - RETENTION;
      entries := entries - stale;
      assert entries == Cleaned(old(Contents()), now).entries;
    }
  }
}
