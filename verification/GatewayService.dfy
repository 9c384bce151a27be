/**
 The gateway event sections as they are written: a document whose fields are assigned step by step.
 Each method leaves the row that `GatewayEvent.Do` describes, or leaves it alone; `Perform` runs any
 one of them, and `Play` a whole schedule, so that what is proved of rows holds of the document.
 */
module GatewayService {
  import opened Options
  import opened GatewayEvent
  import opened GatewayTimed
  import opened GatewayReplies

  class EventDoc {
    var status: Status
    var cause: Cause
    var modified: int
    var retrying: bool
    var attempts: nat
    var deadline: Option<int>
    var target: Target
    var flow: Option<FlowRun>
    var claimedUntil: int
    var promptMarked: bool
    var requeues: nat
    var live: map<nat, Token>
    var pending: map<nat, Pending>
    var log: Log

    function Snapshot(): Row
      reads this
    {
      Row(status, cause, modified, retrying, attempts, deadline, target, flow, claimedUntil, promptMarked, requeues,
          live, pending, log)
    }

    /** A fresh row, as ingest inserts it. */
    constructor (now: int)
      ensures Snapshot() == Inserted(now)
    {
      status, cause, modified, retrying := Received, NoError, now, false;
      attempts, deadline, target, flow := 0, None, Agent, None;
      claimedUntil, promptMarked, requeues := now, false, 0;
      live, pending, log := map[], map[], Log(0, 0, 0, 0, 0);
    }

    method DbSet(newStatus: Status, newCause: Cause, now: int)
      modifies this
      ensures Snapshot() == Written(old(Snapshot()), newStatus, newCause, now)
    {
      status, cause, modified := newStatus, newCause, now;
    }

    /** Received -> Recorded for one caller only, and the once-per-event marker; true only when both are won. */
    method TriageCas(now: int) returns (won: bool)
      modifies this
      ensures won == (old(status) == Received && !old(promptMarked))
      ensures old(status) != Received ==> Snapshot() == old(Snapshot())
      ensures old(status) == Received ==>
                Snapshot() == Written(old(Snapshot()), Recorded, OtherError, now).(promptMarked := true)
    {
      if status != Received {
        return false;
      }
      DbSet(Recorded, OtherError, now);
      won := !promptMarked;
      promptMarked := true;
    }

    /** The end of the ingest rules, whatever they decided. */
    method ContinueIngest(outcome: Outcome, now: int)
      modifies this
      ensures Snapshot() == Routed(old(Snapshot()), outcome, now)
    {
      match outcome {
        case Reject => DbSet(Rejected, OtherError, now);
        case Record => DbSet(Recorded, OtherError, now);
        case Unroute => DbSet(Unrouted, OtherError, now);
        case Raise => DbSet(Failed, DeadLetter, now);
        case Enqueue(to) =>
          DbSet(Queued, cause, now);
          target := to;
        case Prompt(optedOut) =>
          var won := TriageCas(now);
          if won && !optedOut {
            log := log.(prompts := log.prompts + 1);
          }
      }
    }

    /** Persist one more recovery attempt, unless the row is no longer the listed one or the budget is gone. */
    method SpendRecoveryAttempt(listedStatus: Status, listedModified: int, listedAt: int, now: int)
      returns (raced: bool, spent: bool)
      modifies this
      ensures raced == !SameVersion(old(Snapshot()), listedStatus, listedModified)
      ensures spent == (!raced && !BudgetSpent(old(Snapshot()), listedAt))
      ensures Snapshot() == if spent then Spent(old(Snapshot()), listedAt, now) else old(Snapshot())
    {
      if status != listedStatus || modified != listedModified {
        return true, false;
      }
      if attempts >= RECOVERY_MAX_ATTEMPTS {
        return false, false;
      }
      if deadline.Some? && listedAt > deadline.value {
        return false, false;
      }
      attempts := attempts + 1;
      log := log.(recoveries := log.recoveries + 1);
      if deadline.None? {
        deadline := Some(listedAt + RECOVERY_DEADLINE);
      }
      modified := now;
      return false, true;
    }

    /** One listed orphan: re-enqueue, replay its ingest, re-enqueue its reply, or give up on it. */
    method RecoverOrphan(
      listedStatus: Status, listedModified: int, listedAt: int, outcome: Outcome, parts: bool, now: int)
      requires Can(Snapshot(), Recover(listedStatus, listedModified, listedAt, outcome, parts), now)
      modifies this
      ensures Snapshot() == Do(old(Snapshot()), Recover(listedStatus, listedModified, listedAt, outcome, parts), now)
    {
      var raced, spent := SpendRecoveryAttempt(listedStatus, listedModified, listedAt, now);
      if raced {
        return;
      }
      if !spent {
        DbSet(Failed, OtherError, now);
      } else if listedStatus == Received {
        ContinueIngest(outcome, now);
      } else if listedStatus == Running && !parts {
        DbSet(Failed, OtherError, now);
      }
    }

    /** Fail one stuck event, unless it moved on since it was listed. */
    method ReapOneStuck(now: int) returns (reaped: bool)
      modifies this
      ensures reaped == Can(old(Snapshot()), Reap, now)
      ensures Snapshot() == if reaped then Do(old(Snapshot()), Reap, now) else old(Snapshot())
    {
      if status !in {Running, Replying} || retrying || modified >= now - STUCK_RUNNING {
        return false;
      }
      if flow.Some? && !flow.value.finished {
        return false;
      }
      if status == Replying {
        log := log.(reapedReplying := log.reapedReplying + 1);
      }
      DbSet(Failed, Reaped, now);
      return true;
    }

    /** Start the routed Flow once per event; an event that already has a run only goes back to Running. */
    method StartFlowForEvent(take: Take, now: int)
      requires take.StartRun? || take.SkipToAgent? || take.SkipUnrouted?
      modifies this
      ensures Snapshot() == Taken(old(Snapshot()), take, 0, now)
    {
      if flow.Some? {
        DbSet(Running, cause, now);
        return;
      }
      match take {
        case SkipToAgent =>
          DbSet(Queued, OtherError, now);
          target := Agent;
        case SkipUnrouted => DbSet(Unrouted, OtherError, now);
        case StartRun(id) =>
          flow := Some(FlowRun(id, false));
          log := log.(runs := log.runs + 1);
          DbSet(Running, cause, now);
        case _ =>
      }
    }

    /** A busy end: back to Queued with one more requeue counted, until REQUEUE_MAX are used up. */
    method RequeueBusyEvent(now: int)
      modifies this
      ensures Snapshot() == Requeued(old(Snapshot()), now)
    {
      var count := requeues + 1;
      if count > REQUEUE_MAX {
        DbSet(Failed, OtherError, now);
      } else {
        requeues := count;
        DbSet(Queued, OtherError, now);
      }
    }

    /** A worker's turn with a job for this event; every status but Queued makes it a no-op. */
    method ProcessGatewayEvent(take: Take, token: nat, now: int)
      requires token !in live && (status == Queued ==> TakeFits(Snapshot(), take))
      modifies this
      ensures old(status) != Queued ==> Snapshot() == old(Snapshot())
      ensures old(status) == Queued ==> Snapshot() == Do(old(Snapshot()), WorkerTakes(take, token), now)
    {
      if status != Queued {
        return;
      }
      match take {
        case TakeReject => DbSet(Rejected, OtherError, now);
        case TakeAgent =>
          DbSet(Running, cause, now);
          live := live[token := Token(AgentRun, now)];
        case _ => StartFlowForEvent(take, now);
      }
    }

    /** How an agent run leaves the event. */
    method FinishAgentRun(token: nat, end: AgentEnd, now: int)
      requires Can(Snapshot(), AgentEnds(token, end), now)
      modifies this
      ensures Snapshot() == Do(old(Snapshot()), AgentEnds(token, end), now)
    {
      match end {
        case AgentSucceeded =>
          DbSet(Succeeded, cause, now);
          retrying := false;
        case AgentFailed => DbSet(Failed, OtherError, now);
        case AgentBusy => RequeueBusyEvent(now);
        case RetryLater =>
          DbSet(Running, cause, now);
          retrying := true;
      }
      live := live - {token};
    }

    /** A Flow Run reports its end: at most one completion claims the reply, the others are ignored; one that raises
        fails the event whatever its status. */
    method FinishFlowEvent(ok: bool, raises: bool, token: nat, now: int) returns (claimed: bool)
      requires flow.Some? && token !in live
      modifies this
      ensures raises ==> Snapshot() == Do(old(Snapshot()), CompletionRaises, now)
      ensures !raises ==> Snapshot() == Do(old(Snapshot()), FlowCompletes(ok, token), now)
      ensures claimed == (!raises && ok && !CompletionIgnored(old(Snapshot())))
    {
      if raises {
        DbSet(Failed, OtherError, now);
        return false;
      }
      var reaped := status == Failed && cause == Reaped;
      if status in {Succeeded, Rejected, Replying} || (status == Failed && !reaped) {
        return false;
      }
      if !ok {
        DbSet(Failed, OtherError, now);
        return false;
      }
      DbSet(Replying, NoError, now);
      live := live[token := Token(FlowReply(false), now)];
      return true;
    }

    /** The claimed reply goes out, and its sender reports back. */
    method SendFlowReply(token: nat, now: int)
      requires Can(Snapshot(), FlowReplySent(token), now)
      modifies this
      ensures Snapshot() == Do(old(Snapshot()), FlowReplySent(token), now)
    {
      live := live[token := live[token].(job := FlowReply(true))];
      log := log.(replies := log.replies + 1);
    }

    method FinishFlowReply(token: nat, delivered: bool, now: int)
      requires Can(Snapshot(), FlowReplyEnds(token, delivered), now)
      modifies this
      ensures Snapshot() == Do(old(Snapshot()), FlowReplyEnds(token, delivered), now)
    {
      if delivered {
        DbSet(Succeeded, cause, now);
      } else {
        DbSet(Failed, OtherError, now);
      }
      live := live - {token};
    }

    /** The admin replay; only a Failed dead letter is replayed. */
    method RetryGatewayEvent(outcome: Outcome, now: int) returns (replayed: bool)
      modifies this
      ensures replayed == (Can(old(Snapshot()), Replay(outcome), now) && !outcome.Raise?)
      ensures Snapshot() ==
              if Can(old(Snapshot()), Replay(outcome), now) then Do(old(Snapshot()), Replay(outcome), now)
              else old(Snapshot())
    {
      if status != Failed || cause != DeadLetter {
        return false;
      }
      DbSet(Received, NoError, now);
      ContinueIngest(outcome, now);
      return !outcome.Raise?;
    }

    /** A send-only reply retry that passed its guard takes the claim if it is free. */
    method ClaimReplyRetry(token: nat, now: int) returns (claimed: bool)
      requires token in pending && pending[token].RetryDue? && token !in live
      modifies this
      ensures claimed == Can(old(Snapshot()), RetryStarts(token), now)
      ensures Snapshot() ==
              if claimed then Do(old(Snapshot()), RetryStarts(token), now)
              else Do(old(Snapshot()), Unlocked(token, Drops), now)
    {
      pending := pending - {token};
      if claimedUntil > now {
        return false;
      }
      claimedUntil := now + RETRY_CLAIM;
      live := live[token := Token(ReplyRetry, now)];
      return true;
    }

    /** It gives the claim back, and what it wrote is committed afterwards. */
    method ReleaseReplyRetry(token: nat, end: RetryEnd, now: int)
      requires Can(Snapshot(), RetryReleases(token, end), now)
      modifies this
      ensures Snapshot() == Do(old(Snapshot()), RetryReleases(token, end), now)
    {
      live := live[token := live[token].(job := ReplyClosing(end))];
      claimedUntil := now;
    }

    method CommitReplyRetry(token: nat, now: int)
      requires Can(Snapshot(), RetryCommits(token), now)
      modifies this
      ensures Snapshot() == Do(old(Snapshot()), RetryCommits(token), now)
    {
      match live[token].job.end {
        case RetrySent =>
          DbSet(Succeeded, cause, now);
          retrying := false;
        case RetryGaveUp =>
          DbSet(Failed, OtherError, now);
          retrying := false;
        case RetryAgain =>
          DbSet(Running, cause, now);
          retrying := true;
      }
      live := live - {token};
    }

    /** What a section remembers of its unlocked read; nothing is written. */
    method ReadUnlocked(id: nat, h: Half, now: int)
      requires CanHalf(Snapshot(), id, h)
      requires h.MarkReads? || h.RemarkReads? || h.WorkerBacksOff? || h.JobReturns? || h.RetryChecks?
      modifies `pending
      ensures Snapshot() == DoHalf(old(Snapshot()), id, h, now)
    {
      match h {
        case MarkReads(revoke) => pending := pending[id := Marking(revoke && (status == Received || status == Queued))];
        case RemarkReads => pending := pending[id := Remarking];
        case WorkerBacksOff(busy) => pending := pending[id := BackingOff(busy)];
        case JobReturns => pending := pending[id := Returned(status == Succeeded)];
        case RetryChecks => pending := pending[id := RetryDue];
      }
    }

    /** What it writes later, whatever the row has become. */
    method WriteUnlocked(id: nat, h: Half, now: int)
      requires CanHalf(Snapshot(), id, h)
      requires h.MarkWrites? || h.RemarkWrites? || h.BackOffWrites? || h.PersistReads? || h.PersistWrites?
               || h.RetryDefers? || h.Drops?
      modifies this
      ensures Snapshot() == DoHalf(old(Snapshot()), id, h, now)
    {
      var read := pending[id];
      pending := pending - {id};
      match h {
        case MarkWrites =>
          if read.rejects {
            DbSet(Rejected, OtherError, now);
          } else {
            modified := now;
          }
        case RemarkWrites => DbSet(Failed, DeadLetter, now);
        case BackOffWrites =>
          if read.busy {
            RequeueBusyEvent(now);
          } else {
            DbSet(Failed, OtherError, now);
          }
        case PersistReads(lost, replyLost) =>
          if status != (if read.ok then Succeeded else Failed) || lost || replyLost {
            pending := pending[id := Repairing(read.ok, replyLost)];
          }
        case PersistWrites =>
          status, modified := if read.ok then Succeeded else Failed, now;
          if read.ok && read.replyLost {
            retrying := false;
          }
        case RetryDefers => modified := now;
        case Drops =>
      }
    }

    /** Any one section, as it is written. */
    method Perform(a: Action, now: int)
      requires Can(Snapshot(), a, now)
      modifies this
      ensures Snapshot() == Do(old(Snapshot()), a, now)
    {
      match a {
        case WorkerTakes(take, token) => ProcessGatewayEvent(take, token, now);
        case AgentEnds(token, end) => FinishAgentRun(token, end, now);
        case FlowRunEnds => flow := Some(flow.value.(finished := true));
        case FlowCompletes(ok, token) => var _ := FinishFlowEvent(ok, false, token, now);
        case CompletionRaises =>
          DbSet(Failed, OtherError, now);
        case FlowReplySent(token) => SendFlowReply(token, now);
        case FlowReplyEnds(token, delivered) => FinishFlowReply(token, delivered, now);
        case RetryStarts(token) => var _ := ClaimReplyRetry(token, now);
        case RetryReleases(token, end) => ReleaseReplyRetry(token, end, now);
        case RetryCommits(token) => CommitReplyRetry(token, now);
        case Dies(token) => live := live - {token};
        case Reap => var _ := ReapOneStuck(now);
        case Recover(listed, at, listedAt, o, parts) => RecoverOrphan(listed, at, listedAt, o, parts, now);
        case Replay(o) => var _ := RetryGatewayEvent(o, now);
        case Unlocked(id, h) =>
          if h.MarkReads? || h.RemarkReads? || h.WorkerBacksOff? || h.JobReturns? || h.RetryChecks? {
            ReadUnlocked(id, h, now);
          } else {
            WriteUnlocked(id, h, now);
          }
      }
    }

    /** A whole schedule.  Whatever it is, its budgets hold at the end; a careful one never leaves an absorbing status,
        and one within the reply guard stays within the reply bound. */
    method Play(moves: seq<Move>, from: int)
      requires Legal(Snapshot(), moves, from)
      modifies this
      ensures Snapshot() == After(old(Snapshot()), moves, from)
      ensures old(Timed(Snapshot(), from)) && old(modified) <= from && CarefulMoves(old(Snapshot()), moves, from) ==>
                !LeavesFinal(old(Snapshot()), moves, from) && (Absorbing(old(status)) ==> status == old(status))
      ensures old(Paid(Snapshot())) && Guarded(old(Snapshot()), moves, from) ==> !Exceeded(Snapshot())
    {
      ghost var start := Snapshot();
      ghost var at := from;
      for k := 0 to |moves|
        invariant Legal(Snapshot(), moves[k..], at)
        invariant After(start, moves, from) == After(Snapshot(), moves[k..], at)
      {
        assert moves[k..][0] == moves[k] && moves[k..][1..] == moves[k + 1..];
        Perform(moves[k].action, moves[k].at);
        at := moves[k].at;
      }
      if Timed(start, from) && start.modified <= from && CarefulMoves(start, moves, from) {
        CarefulNeverLeaves(start, moves, from);
        NeverLeftMeansKept(start, moves, from);
      }
      if Paid(start) && Guarded(start, moves, from) {
        GuardedStaysPaid(start, moves, from);
      }
    }
  }

  lemma {:induction false} NeverLeftMeansKept(row: Row, moves: seq<Move>, from: int)
    requires Legal(row, moves, from) && !LeavesFinal(row, moves, from)
    ensures Absorbing(row.status) ==> After(row, moves, from).status == row.status
    decreases |moves|
  {
    if moves != [] {
      NeverLeftMeansKept(Do(row, moves[0].action, moves[0].at), moves[1..], moves[0].at);
    }
  }
}
