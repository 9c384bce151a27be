/**
 The status machine of an event under the clock: which statuses are final, how Failed is left, and
 exactly which writes and which replays break that.
 */
module GatewayTimed {
  import opened Options
  import opened GatewayEvent

  predicate Absorbing(status: Status) {
    status in {Succeeded, Rejected, Recorded, Unrouted}
  }

  // ---- stale writes -----------------------------------------------------------------------------------

  predicate Closing(row: Row) {
    exists t | t in row.live :: row.live[t].job.ReplyClosing?
  }

  /** The second half of an unlocked section lands on a row whose status its first half would not have let pass. */
  predicate StaleHalf(row: Row, id: nat, h: Half)
    requires CanHalf(row, id, h)
  {
    match h
    case MarkWrites => row.pending[id].rejects && row.status !in {Received, Queued, Rejected}
    case RemarkWrites => row.status !in {Received, Failed}
    case BackOffWrites =>
      row.status != Queued && !(row.status == Failed && (row.pending[id].busy ==> row.requeues + 1 > REQUEUE_MAX))
    case PersistWrites => row.status != Terminal(row.pending[id].ok)
    case _ => false
  }

  /** A stale write; a completion that raises on an event it would have left alone; a claim of a reply retry whose guard
      no longer holds, or that a retry which is just closing has freed before its result was committed. */
  predicate StaleWrite(row: Row, a: Action, now: int)
    requires Can(row, a, now)
  {
    match a
    case CompletionRaises => row.status in {Succeeded, Rejected, Replying}
    case RetryStarts(_) => row.status != Running || !row.retrying || Closing(row)
    case Unlocked(id, h) => StaleHalf(row, id, h)
    case _ => false
  }

  /** Whether a dead letter can be replayed as if it were fresh: it has no Flow Run and no reply retry pending. */
  predicate Clean(row: Row) {
    row.flow.None? && !row.retrying
  }

  /** Nothing stale lands, and only clean dead letters are replayed. */
  predicate Careful(row: Row, a: Action, now: int)
    requires Can(row, a, now)
  {
    !StaleWrite(row, a, now) && (a.Replay? ==> Clean(row))
  }

  // ---- the timed invariant ----------------------------------------------------------------------------

  /** A token belongs to the row as it stands, and its job has not passed the job limit. */
  ghost predicate TokenFits(row: Row, t: Token, now: int) {
    && t.started <= now <= t.started + JOB_LIMIT
    && (t.job.AgentRun? ==> row.status == Running && !row.retrying && row.flow.None? && t.started <= row.modified)
    && (t.job.FlowReply? ==> row.status == Replying && t.started <= row.modified)
    && (t.job.ReplyRetry? ==> row.retrying && row.claimedUntil == t.started + RETRY_CLAIM)
    && (t.job.ReplyClosing? ==> row.retrying)
  }

  ghost predicate Timed(row: Row, now: int) {
    && (forall t | t in row.live :: TokenFits(row, row.live[t], now))
    && (forall t, u | t in row.live && u in row.live :: t == u)
    && (row.flow.Some? ==> row.status in {Running, Replying, Succeeded, Failed} && !row.retrying)
    && (row.status == Replying ==> row.flow.Some?)
    && (row.retrying ==> row.status == Running || (row.status == Failed && row.cause != Reaped))
  }

  /** Reaping finds no live worker: 300 seconds of job are less than 15 minutes of silence. */
  lemma ReapedHasNoWorker(row: Row, now: int)
    requires Timed(row, now) && Can(row, Reap, now)
    ensures row.live == map[]
  {
    assert forall t | t in row.live :: TokenFits(row, row.live[t], now);
  }

  /** A reply retry whose claim is not stale finds no other in flight: the claim outlives the job that holds it. */
  lemma RetryIsAlone(row: Row, token: nat, now: int)
    requires Timed(row, now) && Can(row, RetryStarts(token), now) && !StaleWrite(row, RetryStarts(token), now)
    ensures row.live == map[]
  {
    assert forall t | t in row.live :: TokenFits(row, row.live[t], now);
  }

  /** A completion that is not ignored finds no reply being sent and no agent at work. */
  lemma CompletionIsAlone(row: Row, now: int)
    requires Timed(row, now) && row.flow.Some? && !CompletionIgnored(row)
    ensures row.live == map[]
  {
    assert forall t | t in row.live :: TokenFits(row, row.live[t], now);
  }

  /** Nothing but a reply retry is live on a Failed event, and only while it is retrying. */
  lemma FailedIsIdle(row: Row, now: int)
    requires Timed(row, now) && row.status == Failed
    ensures forall t | t in row.live :: row.retrying && (row.live[t].job.ReplyRetry? || row.live[t].job.ReplyClosing?)
    ensures !row.retrying ==> row.live == map[]
  {
    assert forall t | t in row.live :: TokenFits(row, row.live[t], now);
  }

  lemma OnlyToken(row: Row, token: nat, now: int)
    requires Timed(row, now) && token in row.live
    ensures row.live == map[token := row.live[token]] && row.live - {token} == map[]
    ensures TokenFits(row, row.live[token], now)
  {
  }

  lemma RecoveredStaysTimed(row: Row, o: Outcome, parts: bool, listedAt: int, now: int)
    requires Timed(row, now) && (row.status in {Queued, Received} || (row.status == Running && row.retrying))
    ensures Timed(Recovered(row, o, parts, listedAt, now), now)
  {
    if row.status == Running {
      assert forall t | t in row.live :: TokenFits(row, row.live[t], now);
    }
  }

  lemma TokenEndStaysTimed(row: Row, a: Action, now: int)
    requires Timed(row, now) && Can(row, a, now)
    requires a.AgentEnds? || a.FlowReplyEnds? || a.RetryCommits? || a.Dies?
    ensures Timed(Do(row, a, now), now)
  {
    OnlyToken(row, a.token, now);
  }

  lemma TokenBeginStaysTimed(row: Row, a: Action, now: int)
    requires Timed(row, now) && Can(row, a, now) && Careful(row, a, now)
    requires a.FlowCompletes? || a.RetryStarts?
    ensures Timed(Do(row, a, now), now)
  {
    match a {
      case FlowCompletes(_, _) =>
        if !CompletionIgnored(row) {
          CompletionIsAlone(row, now);
        }
      case RetryStarts(token) => RetryIsAlone(row, token, now);
    }
  }

  /** A write that keeps the status, or moves an idle event to a status without work. */
  predicate Rests(row: Row, after: Row, now: int) {
    && after.live == row.live && after.flow == row.flow && after.claimedUntil == row.claimedUntil
    && (after.modified == row.modified || after.modified == now)
    && (after.status == row.status || row.status in {Received, Queued})
    && (after.retrying == row.retrying || (row.status == Succeeded && !after.retrying))
    && after.status in {row.status, Queued, Failed, Rejected}
    && (after.status == Failed ==> after.cause == row.cause || after.cause != Reaped)
  }

  lemma HalfRests(row: Row, id: nat, h: Half, now: int)
    requires Timed(row, now) && CanHalf(row, id, h) && !StaleHalf(row, id, h)
    ensures Rests(row, DoHalf(row, id, h, now), now)
  {
  }

  lemma ReplayStaysTimed(row: Row, o: Outcome, now: int)
    requires Timed(row, now) && Can(row, Replay(o), now) && Clean(row)
    ensures Timed(Do(row, Replay(o), now), now)
  {
    FailedIsIdle(row, now);
  }

  /** Every careful action keeps the timed invariant. */
  lemma StaysTimed(row: Row, a: Action, now: int)
    requires Timed(row, now) && row.modified <= now && Can(row, a, now) && Careful(row, a, now)
    ensures Timed(Do(row, a, now), now)
  {
    match a {
      case AgentEnds(_, _) => TokenEndStaysTimed(row, a, now);
      case FlowReplyEnds(_, _) => TokenEndStaysTimed(row, a, now);
      case RetryCommits(_) => TokenEndStaysTimed(row, a, now);
      case Dies(_) => TokenEndStaysTimed(row, a, now);
      case FlowCompletes(_, _) => TokenBeginStaysTimed(row, a, now);
      case RetryStarts(_) => TokenBeginStaysTimed(row, a, now);
      case Reap => ReapedHasNoWorker(row, now);
      case Recover(status, modified, at, o, parts) =>
        if SameVersion(row, status, modified) {
          RecoveredStaysTimed(row, o, parts, at, now);
        }
      case Replay(o) => ReplayStaysTimed(row, o, now);
      case Unlocked(id, h) => HalfRests(row, id, h, now);
      case _ =>
    }
  }

  lemma WaitingStaysTimed(row: Row, from: int, to: int)
    requires Timed(row, from) && MayWait(row, from, to)
    ensures Timed(row, to)
  {
    forall t | t in row.live
      ensures TokenFits(row, row.live[t], to)
    {
      assert TokenFits(row, row.live[t], from);
    }
  }

  // ---- the status machine -----------------------------------------------------------------------------

  /** Of everything that can happen to an event in an absorbing status, exactly the stale writes take it out. */
  lemma AbsorbingLeftIff(row: Row, a: Action, now: int)
    requires Timed(row, now) && Absorbing(row.status) && Can(row, a, now)
    ensures Do(row, a, now).status != row.status <==> StaleWrite(row, a, now) && !a.RetryStarts?
  {
  }

  /** The ways out of Failed that need no stale write: an admin replays a dead letter; a completion arrives late for a
      reaped event; a reply retry that was in flight when recovery gave up finishes after all. */
  predicate FailedExit(row: Row, a: Action) {
    match a
    case Replay(o) => !o.Raise?
    case FlowCompletes(ok, _) => ok && row.cause == Reaped
    case RetryCommits(token) => token in row.live && row.live[token].job != ReplyClosing(RetryGaveUp)
    case _ => false
  }

  /** Failed is left exactly through these three, or by a stale write. */
  lemma FailedLeftIff(row: Row, a: Action, now: int)
    requires Timed(row, now) && row.status == Failed && Can(row, a, now)
    ensures Do(row, a, now).status != Failed <==>
              FailedExit(row, a) || (StaleWrite(row, a, now) && !a.RetryStarts?)
  {
    FailedIsIdle(row, now);
  }

  /** A completion acts on a Failed event exactly when the reaper failed it: a successful one revives it, a failing one
      fails it anew under its own reason, after which no completion acts. */
  lemma LateCompletionIff(row: Row, ok: bool, token: nat, now: int)
    requires row.status == Failed && Can(row, FlowCompletes(ok, token), now)
    ensures Do(row, FlowCompletes(ok, token), now) != row <==> row.cause == Reaped
    ensures var after := Do(row, FlowCompletes(ok, token), now);
            row.cause == Reaped ==>
              if ok then after.status == Replying else after.status == Failed && CompletionIgnored(after)
  {
  }

  // ---- schedules --------------------------------------------------------------------------------------

  predicate CarefulMoves(row: Row, moves: seq<Move>, from: int)
    requires Legal(row, moves, from)
    decreases |moves|
  {
    moves == [] ||
    (Careful(row, moves[0].action, moves[0].at)
     && CarefulMoves(Do(row, moves[0].action, moves[0].at), moves[1..], moves[0].at))
  }

  /** Somewhere along the moves the event leaves an absorbing status. */
  predicate LeavesFinal(row: Row, moves: seq<Move>, from: int)
    requires Legal(row, moves, from)
    decreases |moves|
  {
    moves != [] &&
    var next := Do(row, moves[0].action, moves[0].at);
    (Absorbing(row.status) && next.status != row.status) || LeavesFinal(next, moves[1..], moves[0].at)
  }

  lemma {:induction false} CarefulNeverLeaves(row: Row, moves: seq<Move>, from: int)
    requires Timed(row, from) && row.modified <= from && Legal(row, moves, from) && CarefulMoves(row, moves, from)
    ensures !LeavesFinal(row, moves, from)
    ensures moves != [] ==> Timed(After(row, moves, from), moves[|moves| - 1].at)
    decreases |moves|
  {
    if moves != [] {
      var a, at := moves[0].action, moves[0].at;
      WaitingStaysTimed(row, from, at);
      if Absorbing(row.status) {
        AbsorbingLeftIff(row, a, at);
      }
      StaysTimed(row, a, at);
      NeverUndone(row, a, at);
      CarefulNeverLeaves(Do(row, a, at), moves[1..], at);
      assert |moves| > 1 ==> moves[1..][|moves| - 2] == moves[|moves| - 1];
    }
  }

  /** One more move in front. */
  lemma Prepend(row: Row, m: Move, rest: seq<Move>, from: int)
    requires MayWait(row, from, m.at) && Can(row, m.action, m.at) && Careful(row, m.action, m.at)
    requires var next := Do(row, m.action, m.at);
             Legal(next, rest, m.at) && CarefulMoves(next, rest, m.at) && LeavesFinal(next, rest, m.at)
    ensures Legal(row, [m] + rest, from) && CarefulMoves(row, [m] + rest, from) && LeavesFinal(row, [m] + rest, from)
  {
    assert ([m] + rest)[1..] == rest;
  }

  // ---- which dead letters may be replayed -------------------------------------------------------------

  /** Some replay of the dead letter and some careful moves after it make the event leave an absorbing status. */
  ghost predicate ReplayBreaks(row: Row, now: int) {
    exists o, moves :: BreaksAfter(row, o, moves, now)
  }

  ghost predicate BreaksAfter(row: Row, o: Outcome, moves: seq<Move>, now: int) {
    && Can(row, Replay(o), now)
    && var replayed := Do(row, Replay(o), now);
       Legal(replayed, moves, now) && CarefulMoves(replayed, moves, now) && LeavesFinal(replayed, moves, now)
  }

  /** Replaying a dead letter that already has a Flow Run breaks absorption: its routing may end Unrouted,
      and a completion of the old run then fails it. */
  lemma ReplayWithFlowRunBreaks(row: Row, token: nat, now: int) returns (unrouted: Row, moves: seq<Move>)
    requires Can(row, Replay(Unroute), now) && row.flow.Some? && row.live == map[]
    ensures unrouted == Do(row, Replay(Unroute), now) && moves == [Move(now, FlowCompletes(false, token))]
    ensures BreaksAfter(row, Unroute, moves, now)
  {
    unrouted := Do(row, Replay(Unroute), now);
    moves := [Move(now, FlowCompletes(false, token))];
    assert moves[1..] == [];
  }

  /** A retrying event whose retry can be claimed: an agent run and the leftover retry both answer, and the run's
      failure overwrites the retry's success. */
  lemma BothAnswer(row: Row, from: int, at: int, p: nat) returns (moves: seq<Move>)
    requires row.status == Queued && row.target == Agent && row.retrying && row.live == map[]
    requires p !in row.pending && from <= at && row.claimedUntil <= at
    ensures Legal(row, moves, from) && CarefulMoves(row, moves, from) && LeavesFinal(row, moves, from)
  {
    var agent := p + 1;
    var running := Do(row, WorkerTakes(TakeAgent, agent), at);
    var checked := Do(running, Unlocked(p, RetryChecks), at);
    moves := RetryAnswersFirst(checked, agent, p, at);
    Prepend(running, Move(at, Unlocked(p, RetryChecks)), moves, at);
    moves := [Move(at, Unlocked(p, RetryChecks))] + moves;
    Prepend(row, Move(at, WorkerTakes(TakeAgent, agent)), moves, from);
    moves := [Move(at, WorkerTakes(TakeAgent, agent))] + moves;
  }

  lemma RetryAnswersFirst(row: Row, agent: nat, p: nat, at: int) returns (moves: seq<Move>)
    requires row.status == Running && row.retrying && row.live == map[agent := Token(AgentRun, at)]
    requires p != agent && p in row.pending && row.pending[p].RetryDue? && row.claimedUntil <= at
    ensures Legal(row, moves, at) && CarefulMoves(row, moves, at) && LeavesFinal(row, moves, at)
  {
    var claimed := Do(row, RetryStarts(p), at);
    var closing := Do(claimed, RetryReleases(p, RetrySent), at);
    assert MayWait(closing, at, at) && MayWait(claimed, at, at);
    moves := RunFailsLast(closing, agent, p, at);
    Prepend(claimed, Move(at, RetryReleases(p, RetrySent)), moves, at);
    moves := [Move(at, RetryReleases(p, RetrySent))] + moves;
    Prepend(row, Move(at, RetryStarts(p)), moves, at);
    moves := [Move(at, RetryStarts(p))] + moves;
  }

  lemma RunFailsLast(row: Row, agent: nat, p: nat, at: int) returns (moves: seq<Move>)
    requires Runs(row, agent, AgentRun) && Runs(row, p, ReplyClosing(RetrySent)) && p != agent && MayWait(row, at, at)
    ensures Legal(row, moves, at) && CarefulMoves(row, moves, at) && LeavesFinal(row, moves, at)
  {
    var answered := Do(row, RetryCommits(p), at);
    moves := [Move(at, AgentEnds(agent, AgentFailed))];
    assert moves[1..] == [];
    Prepend(row, Move(at, RetryCommits(p)), moves, at);
    moves := [Move(at, RetryCommits(p))] + moves;
  }

  /** So does replaying one still marked as retrying, whether a retry is in flight, claimed or only left over. */
  lemma ReplayWhileRetryingBreaks(row: Row, now: int) returns (moves: seq<Move>)
    requires Timed(row, now) && Can(row, Replay(Enqueue(Agent)), now) && row.retrying
    ensures BreaksAfter(row, Enqueue(Agent), moves, now)
  {
    var queued := Do(row, Replay(Enqueue(Agent)), now);
    var at := if queued.claimedUntil > now then queued.claimedUntil else now;
    var p := Fresh(queued.pending.Keys);
    if queued.live == map[] {
      moves := BothAnswer(queued, now, at, p);
    } else {
      var t := AnyToken(row, now);
      OnlyToken(row, t, now);
      assert TokenFits(row, row.live[t], now);
      moves := BothAnswer(End(queued, t), now, at, p);
      Prepend(queued, Move(now, Dies(t)), moves, now);
      moves := [Move(now, Dies(t))] + moves;
    }
  }

  lemma AnyToken(row: Row, now: int) returns (t: nat)
    requires row.live != map[]
    ensures t in row.live
  {
    assert (forall u :: u !in row.live) ==> row.live == map[];
    t :| t in row.live;
  }

  /** The exact rule for replays: in the timed model a dead letter is clean if and only if no replay of it, followed by
      any careful moves whatever, ever makes the event leave an absorbing status. */
  lemma ReplayBreaksIff(row: Row, now: int)
    requires Timed(row, now) && row.modified <= now && row.status == Failed && row.cause == DeadLetter
    ensures ReplayBreaks(row, now) <==> !Clean(row)
  {
    if Clean(row) {
      forall o, moves | BreaksAfter(row, o, moves, now)
        ensures false
      {
        ReplayStaysTimed(row, o, now);
        CarefulNeverLeaves(Do(row, Replay(o), now), moves, now);
      }
    } else if row.flow.Some? {
      FailedIsIdle(row, now);
      var _, moves := ReplayWithFlowRunBreaks(row, 0, now);
      assert BreaksAfter(row, Unroute, moves, now);
    } else {
      var moves := ReplayWhileRetryingBreaks(row, now);
      assert BreaksAfter(row, Enqueue(Agent), moves, now);
    }
  }

  // ---- what stale writes lead to ----------------------------------------------------------------------

  /** A revoke that read Queued lands while the agent runs: the event is Rejected, and then Succeeded after all. */
  lemma StaleRevokeIsOverwritten(row: Row, revoke: nat, agent: nat, now: int) returns (rejected: Row, answered: Row)
    requires revoke in row.pending && row.pending[revoke] == Marking(true) && Runs(row, agent, AgentRun)
    ensures Step(row, Unlocked(revoke, MarkWrites), rejected, now)
    ensures Step(rejected, AgentEnds(agent, AgentSucceeded), answered, now)
    ensures rejected.status == Rejected && answered.status == Succeeded
  {
    rejected := Do(row, Unlocked(revoke, MarkWrites), now);
    answered := Do(rejected, AgentEnds(agent, AgentSucceeded), now);
  }

  /** A job that saw Failed repairs an event that has been replayed to an end in the meantime back to Failed. */
  lemma StaleRepairUndoesReplay(row: Row, job: nat, o: Outcome, now: int)
    returns (seen: Row, replayed: Row, found: Row, failed: Row)
    requires Can(row, Replay(o), now) && job !in row.pending && o in {Reject, Record, Unroute}
    ensures Step(row, Unlocked(job, JobReturns), seen, now) && Step(seen, Replay(o), replayed, now)
    ensures Step(replayed, Unlocked(job, PersistReads(false, false)), found, now)
    ensures Step(found, Unlocked(job, PersistWrites), failed, now)
    ensures Absorbing(replayed.status) && failed.status == Failed
  {
    seen := Do(row, Unlocked(job, JobReturns), now);
    replayed := Do(seen, Replay(o), now);
    found, failed := RepairLands(replayed, job, now);
  }

  lemma RepairLands(row: Row, job: nat, now: int) returns (found: Row, failed: Row)
    requires Absorbing(row.status) && job in row.pending && row.pending[job] == Returned(false)
    ensures Step(row, Unlocked(job, PersistReads(false, false)), found, now)
    ensures Step(found, Unlocked(job, PersistWrites), failed, now) && failed.status == Failed
  {
    found := Do(row, Unlocked(job, PersistReads(false, false)), now);
    failed := Do(found, Unlocked(job, PersistWrites), now);
  }

  /** A retry that passed the guard before another one finished claims afterwards and overwrites its success. */
  lemma StaleClaimOverwrites(row: Row, late: nat, now: int) returns (claimed: Row, closing: Row, failed: Row)
    requires row.status == Succeeded && late in row.pending && row.pending[late].RetryDue?
    requires row.claimedUntil <= now && late !in row.live
    ensures Step(row, RetryStarts(late), claimed, now) && Step(claimed, RetryReleases(late, RetryGaveUp), closing, now)
    ensures Step(closing, RetryCommits(late), failed, now) && failed.status == Failed
  {
    claimed := Do(row, RetryStarts(late), now);
    closing := Do(claimed, RetryReleases(late, RetryGaveUp), now);
    failed := Do(closing, RetryCommits(late), now);
  }

  /** The third exit from Failed is real: recovery gives up on a stale retrying reply whose retry job is at work. */
  lemma RecoveryDuringRetryExample()
    returns (row: Row, due: Row, claimed: Row, failed: Row, closing: Row, revived: Row)
    ensures Timed(row, 700) && row.status == Running
    ensures Step(row, Unlocked(0, RetryChecks), due, 700) && Step(due, RetryStarts(0), claimed, 700)
    ensures !StaleWrite(due, RetryStarts(0), 700)
    ensures Step(claimed, Recover(Running, 0, 700, Reject, false), failed, 700) && failed.status == Failed
    ensures Step(failed, RetryReleases(0, RetrySent), closing, 700)
    ensures Step(closing, RetryCommits(0), revived, 700) && revived.status == Succeeded
  {
    row := Inserted(0).(status := Running, retrying := true);
    due := Do(row, Unlocked(0, RetryChecks), 700);
    claimed := Do(due, RetryStarts(0), 700);
    failed := GivesUp(claimed, 700);
    closing, revived := FinishesAfterAll(failed, 0, 700);
  }

  lemma GivesUp(row: Row, now: int) returns (failed: Row)
    requires row.status == Running && row.retrying && Stale(row.modified, now, RETRYING_STUCK)
    ensures Step(row, Recover(Running, row.modified, now, Reject, false), failed, now)
    ensures failed.status == Failed && failed.live == row.live
  {
    failed := Do(row, Recover(Running, row.modified, now, Reject, false), now);
  }

  lemma FinishesAfterAll(row: Row, retry: nat, now: int) returns (closing: Row, revived: Row)
    requires Runs(row, retry, ReplyRetry)
    ensures Step(row, RetryReleases(retry, RetrySent), closing, now)
    ensures Step(closing, RetryCommits(retry), revived, now) && revived.status == Succeeded
  {
    closing := Do(row, RetryReleases(retry, RetrySent), now);
    revived := Do(closing, RetryCommits(retry), now);
  }
}
