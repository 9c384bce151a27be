/**
 What becomes of an event, in plain statuses: where each outcome of the ingest rules puts it, however
 they come to run, what recovery makes of each kind of orphan, and which actions write each status.
 */
module GatewayOutcomes {
  import opened Options
  import opened GatewayEvent

  /** Where the rules put an event. */
  predicate PutBy(after: Row, o: Outcome) {
    match o
    case Enqueue(target) => after.status == Queued && after.target == target
    case Reject => after.status == Rejected
    case Record => after.status == Recorded
    case Unroute => after.status == Unrouted
    case Raise => after.status == Failed && after.cause == DeadLetter
    case Prompt(_) => after.status == Recorded && after.promptMarked
  }

  /** Nothing has happened to a Received event but its insert and, if it was orphaned, spent attempts. */
  predicate ReceivedIsFresh(row: Row) {
    row.status == Received ==> row.cause == NoError && row.target == Agent && row.flow.None? && !row.promptMarked
  }

  /** Replays write their outcome in the step that resets the event, so that stays so. */
  lemma StaysFresh(row: Row, a: Action, now: int)
    requires ReceivedIsFresh(row) && Can(row, a, now)
    ensures ReceivedIsFresh(Do(row, a, now)) && (Do(row, a, now).status == Received ==> row.status == Received)
  {
    StatusIs(row, a, now);
    if row.status == Received && StatusAfter(row, a) == Received {
      match a {
        case Unlocked(id, h) => HalfLeavesFresh(row, id, h, now);
        case _ =>
      }
    }
  }

  lemma HalfLeavesFresh(row: Row, id: nat, h: Half, now: int)
    requires CanHalf(row, id, h) && row.status == Received && HalfStatusAfter(row, id, h) == Received
    ensures var after := DoHalf(row, id, h, now);
            && after.cause == row.cause && after.target == row.target && after.flow == row.flow
            && after.promptMarked == row.promptMarked
  {
  }

  predicate WithinBudget(row: Row, listedAt: int) {
    row.attempts < 3 && (row.deadline.None? || listedAt <= row.deadline.value)
  }

  /** A Received orphan within budget ends where a delivery that was never cut off would have put it; the menu prompt,
      which goes out with the marker, is sent just then. */
  lemma RecoveredAsDelivered(row: Row, listedAt: int, o: Outcome, parts: bool, now: int)
    requires ReceivedIsFresh(row) && row.status == Received && WithinBudget(row, listedAt)
    requires Can(row, Recover(Received, row.modified, listedAt, o, parts), now)
    ensures var after := Do(row, Recover(Received, row.modified, listedAt, o, parts), now);
            var delivered := Routed(Inserted(now), o, now);
            && PutBy(after, o) && PutBy(delivered, o) && after.attempts == row.attempts + 1
            && after.status == delivered.status && after.cause == delivered.cause && after.target == delivered.target
            && after.log.prompts - row.log.prompts == (if o == Prompt(false) then 1 else 0)
  {
  }

  /** A Queued orphan within budget stays Queued for its worker, with one more attempt; a reply retry stays Running and
      retrying, if its parts can be rebuilt, and fails otherwise. */
  lemma RecoveredInPlace(row: Row, listedAt: int, o: Outcome, parts: bool, now: int)
    requires row.status in {Queued, Running} && WithinBudget(row, listedAt)
    requires Can(row, Recover(row.status, row.modified, listedAt, o, parts), now)
    ensures var after := Do(row, Recover(row.status, row.modified, listedAt, o, parts), now);
            && after.attempts == row.attempts + 1 && after.target == row.target && after.flow == row.flow
            && after.status == (if row.status == Queued || parts then row.status else Failed)
            && after.retrying == row.retrying
  {
  }

  /** The hour for recovery begins when the first orphaning is listed, and is never moved. */
  lemma DeadlineIsAnHour(row: Row, listedAt: int, o: Outcome, parts: bool, now: int)
    requires row.status in {Received, Queued, Running} && WithinBudget(row, listedAt)
    requires Can(row, Recover(row.status, row.modified, listedAt, o, parts), now)
    ensures var after := Do(row, Recover(row.status, row.modified, listedAt, o, parts), now);
            after.deadline == if row.deadline.Some? then row.deadline else Some(listedAt + 60 * 60)
  {
  }

  /** An orphan out of budget fails, and one that is not as listed is left alone. */
  lemma RecoveryGivesUpIff(row: Row, listed: Status, at: int, listedAt: int, o: Outcome, parts: bool, now: int)
    requires Can(row, Recover(listed, at, listedAt, o, parts), now)
    ensures var after := Do(row, Recover(listed, at, listedAt, o, parts), now);
            && (row.status != listed || row.modified != at ==> after == row)
            && (row.status == listed && row.modified == at && !WithinBudget(row, listedAt) ==>
                  after.status == Failed && after.cause == OtherError && after.attempts == row.attempts)
  {
  }

  /** A replayed dead letter ends where its outcome says, with no attempt spent. */
  lemma ReplayedAsDelivered(row: Row, o: Outcome, now: int)
    requires Can(row, Replay(o), now)
    ensures var after := Do(row, Replay(o), now);
            && PutBy(after, o) && after.attempts == row.attempts && after.flow == row.flow
            && after.log.prompts - row.log.prompts == (if o == Prompt(false) && !row.promptMarked then 1 else 0)
  {
  }

  // ---- who writes each status -------------------------------------------------------------------------

  /** The status each outcome of the rules stands for. */
  function ByRules(o: Outcome): Status {
    match o
    case Enqueue(_) => Queued
    case Reject => Rejected
    case Record => Recorded
    case Prompt(_) => Recorded
    case Unroute => Unrouted
    case Raise => Failed
  }

  function AgentEndsAs(row: Row, end: AgentEnd): Status {
    match end
    case AgentSucceeded => Succeeded
    case AgentFailed => Failed
    case AgentBusy => if row.requeues < 25 then Queued else Failed
    case RetryLater => Running
  }

  function RetryEndsAs(end: RetryEnd): Status {
    match end
    case RetrySent => Succeeded
    case RetryGaveUp => Failed
    case RetryAgain => Running
  }

  function TakenAs(row: Row, take: Take): Status {
    match take
    case TakeReject => Rejected
    case TakeAgent => Running
    case StartRun(_) => Running
    case SkipToAgent => if row.flow.Some? then Running else Queued
    case SkipUnrouted => if row.flow.Some? then Running else Unrouted
  }

  function RecoveredAs(row: Row, listedAt: int, o: Outcome, parts: bool): Status {
    if !WithinBudget(row, listedAt) then Failed
    else if row.status == Received then ByRules(o)
    else if row.status == Running && !parts then Failed
    else row.status
  }

  function HalfStatusAfter(row: Row, id: nat, h: Half): Status
    requires CanHalf(row, id, h)
  {
    match h
    case MarkWrites => if row.pending[id].rejects then Rejected else row.status
    case RemarkWrites => Failed
    case BackOffWrites => if row.pending[id].busy && row.requeues < 25 then Queued else Failed
    case PersistWrites => if row.pending[id].ok then Succeeded else Failed
    case _ => row.status
  }

  /** The status every action leaves, whenever it can happen. */
  function StatusAfter(row: Row, a: Action): Status
    requires a.Unlocked? ==> CanHalf(row, a.id, a.half)
    requires a.RetryCommits? ==> a.token in row.live && row.live[a.token].job.ReplyClosing?
  {
    match a
    case WorkerTakes(take, _) => TakenAs(row, take)
    case AgentEnds(_, end) => AgentEndsAs(row, end)
    case FlowCompletes(ok, _) =>
      if row.status in {Succeeded, Rejected, Replying} || (row.status == Failed && row.cause != Reaped) then row.status
      else if ok then Replying else Failed
    case CompletionRaises => Failed
    case FlowReplyEnds(_, delivered) => if delivered then Succeeded else Failed
    case RetryCommits(token) => RetryEndsAs(row.live[token].job.end)
    case Reap => Failed
    case Recover(listed, at, listedAt, o, parts) =>
      if row.status == listed && row.modified == at then RecoveredAs(row, listedAt, o, parts) else row.status
    case Replay(o) => ByRules(o)
    case Unlocked(id, h) => HalfStatusAfter(row, id, h)
    case _ => row.status
  }

  lemma StatusIs(row: Row, a: Action, now: int)
    requires Can(row, a, now)
    ensures Do(row, a, now).status == StatusAfter(row, a)
  {
    match a {
      case WorkerTakes(take, token) => assert Taken(row, take, token, now).status == TakenAs(row, take);
      case AgentEnds(_, end) => assert AgentEnded(row, end, now).status == AgentEndsAs(row, end);
      case RetryCommits(token) =>
        assert RetryEnded(row, row.live[token].job.end, now).status == RetryEndsAs(row.live[token].job.end);
      case Recover(_, _, at, o, parts) => RecoveredStatusIs(row, at, o, parts, now);
      case Replay(o) => RoutedStatusIs(Written(row, Received, NoError, now), o, now);
      case Unlocked(id, h) => assert DoHalf(row, id, h, now).status == HalfStatusAfter(row, id, h);
      case _ =>
    }
  }

  lemma RoutedStatusIs(row: Row, o: Outcome, now: int)
    requires row.status == Received
    ensures Routed(row, o, now).status == ByRules(o)
  {
  }

  lemma RecoveredStatusIs(row: Row, listedAt: int, o: Outcome, parts: bool, now: int)
    ensures Recovered(row, o, parts, listedAt, now).status == RecoveredAs(row, listedAt, o, parts)
  {
    RoutedStatusIs(Spent(row, listedAt, now).(status := Received), o, now);
  }

  /** The action runs the ingest rules and they end so. */
  predicate Routes(row: Row, a: Action, o: Outcome) {
    match a
    case Replay(outcome) => outcome == o
    case Recover(listed, at, listedAt, outcome, _) =>
      && listed == Received && row.status == Received && row.modified == at && WithinBudget(row, listedAt)
      && outcome == o
    case _ => false
  }

  predicate Writes(row: Row, a: Action, half: Half) {
    a.Unlocked? && a.half == half && a.id in row.pending
  }

  /** An event succeeds exactly when its agent did, its Flow's reply was delivered, its retried reply was sent, or a job
      that saw it Succeeded writes that back. */
  lemma SucceedsIff(row: Row, a: Action, now: int)
    requires Can(row, a, now) && row.status != Succeeded
    ensures Do(row, a, now).status == Succeeded <==>
              || (a.AgentEnds? && a.agentEnd == AgentSucceeded)
              || (a.FlowReplyEnds? && a.delivered)
              || (a.RetryCommits? && row.live[a.token].job.end == RetrySent)
              || (Writes(row, a, PersistWrites) && row.pending[a.id].Repairing? && row.pending[a.id].ok)
  {
    StatusIs(row, a, now);
  }

  /** It is rejected exactly when the rules or its worker reject it, or a revocation that found it waiting lands. */
  lemma RejectedIff(row: Row, a: Action, now: int)
    requires Can(row, a, now) && row.status != Rejected
    ensures Do(row, a, now).status == Rejected <==>
              || Routes(row, a, Reject) || (a.WorkerTakes? && a.take == TakeReject)
              || (Writes(row, a, MarkWrites) && row.pending[a.id].Marking? && row.pending[a.id].rejects)
  {
    StatusIs(row, a, now);
  }

  /** A revocation rejects the events it finds Received or Queued. */
  lemma RevocationSees(row: Row, id: nat, revoke: bool, now: int)
    requires Can(row, Unlocked(id, MarkReads(revoke)), now)
    ensures var after := Do(row, Unlocked(id, MarkReads(revoke)), now);
            && after.pending[id] == Marking(revoke && (row.status == Received || row.status == Queued))
            && after.status == row.status
  {
  }

  /** It is recorded, or left unrouted, exactly when the rules say so, or its Flow is gone and no agent is there. */
  lemma RecordedIff(row: Row, a: Action, now: int)
    requires Can(row, a, now) && row.status != Recorded
    ensures Do(row, a, now).status == Recorded <==>
              Routes(row, a, Record) || Routes(row, a, Prompt(true)) || Routes(row, a, Prompt(false))
  {
    StatusIs(row, a, now);
  }

  lemma UnroutedIff(row: Row, a: Action, now: int)
    requires Can(row, a, now) && row.status != Unrouted
    ensures Do(row, a, now).status == Unrouted <==>
              Routes(row, a, Unroute) || (a.WorkerTakes? && a.take == SkipUnrouted && row.flow.None?)
  {
    StatusIs(row, a, now);
  }

  /** It is queued exactly when the rules enqueue it, or it goes back there: from a Flow to the agent, or from a busy
      conversation at most 25 times. */
  lemma QueuedIff(row: Row, a: Action, now: int)
    requires Can(row, a, now) && row.status != Queued
    ensures Do(row, a, now).status == Queued <==>
              || Routes(row, a, Enqueue(Agent)) || Routes(row, a, Enqueue(Flow))
              || (a.AgentEnds? && a.agentEnd == AgentBusy && row.requeues < 25)
              || (Writes(row, a, BackOffWrites) && row.pending[a.id].BackingOff? && row.pending[a.id].busy
                  && row.requeues < 25)
  {
    StatusIs(row, a, now);
    match a {
      case Replay(o) => TwoTargets(o);
      case Recover(_, _, _, o, _) => TwoTargets(o);
      case _ =>
    }
  }

  lemma TwoTargets(o: Outcome)
    ensures o.Enqueue? ==> o == Enqueue(Agent) || o == Enqueue(Flow)
  {
    if o.Enqueue? {
      match o.target
      case Agent =>
      case Flow =>
    }
  }

  /** A worker finds the event Queued and leaves it with the job it starts. */
  lemma WorkerStarts(row: Row, take: Take, token: nat, now: int)
    requires Can(row, WorkerTakes(take, token), now)
    ensures var after := Do(row, WorkerTakes(take, token), now);
            match take
            case TakeReject => after.status == Rejected && after.live == row.live
            case TakeAgent => after.status == Running && after.live == row.live[token := Token(AgentRun, now)]
            case _ =>
              && after.live == row.live
              && (row.flow.Some? ==> after.status == Running && after.flow == row.flow)
              && (row.flow.None? ==>
                    match take
                    case StartRun(run) => after.status == Running && after.flow == Some(FlowRun(run, false))
                    case SkipToAgent => after.status == Queued && after.target == Agent && after.flow.None?
                    case _ => after.status == Unrouted && after.flow.None?)
  {
  }

  /** It starts Running only under a worker; a reply retry that has to go on writes Running back. */
  lemma RunningIff(row: Row, a: Action, now: int)
    requires Can(row, a, now) && row.status != Running
    ensures Do(row, a, now).status == Running <==>
              || (a.WorkerTakes? && (a.take == TakeAgent || a.take.StartRun?))
              || (a.WorkerTakes? && a.take != TakeReject && row.flow.Some?)
              || (a.AgentEnds? && a.agentEnd == RetryLater)
              || (a.RetryCommits? && row.live[a.token].job.end == RetryAgain)
  {
    StatusIs(row, a, now);
  }

  /** A Flow's completion claims the reply exactly when it succeeded and nothing has ended the event, the reaper
      apart. */
  lemma ReplyingIff(row: Row, a: Action, now: int)
    requires Can(row, a, now) && row.status != Replying
    ensures Do(row, a, now).status == Replying <==>
              a.FlowCompletes? && a.ok && row.status != Succeeded && row.status != Rejected
              && (row.status == Failed ==> row.cause == Reaped)
  {
    StatusIs(row, a, now);
  }

  /** It fails exactly when a job says so, the reaper, an exhausted recovery or an exhausted requeue gives it up, it is
      dead-lettered, or a completion raises. */
  lemma FailsIff(row: Row, a: Action, now: int)
    requires Can(row, a, now) && row.status != Failed
    ensures Do(row, a, now).status == Failed <==>
              || (a.AgentEnds? && (a.agentEnd == AgentFailed || (a.agentEnd == AgentBusy && row.requeues >= 25)))
              || (a.FlowCompletes? && !a.ok && row.status !in {Succeeded, Rejected, Replying})
              || a.CompletionRaises? || (a.FlowReplyEnds? && !a.delivered)
              || (a.RetryCommits? && row.live[a.token].job.end == RetryGaveUp)
              || a.Reap? || Routes(row, a, Raise) || RecoveryFails(row, a)
              || Writes(row, a, RemarkWrites) || BackOffFails(row, a)
              || (Writes(row, a, PersistWrites) && row.pending[a.id].Repairing? && !row.pending[a.id].ok)
  {
    StatusIs(row, a, now);
  }

  /** A listed orphan that is out of budget, or whose reply cannot be rebuilt. */
  predicate RecoveryFails(row: Row, a: Action) {
    a.Recover? && row.status == a.listedStatus && row.modified == a.listedModified
      && (!WithinBudget(row, a.listedAt) || (row.status == Running && !a.parts))
  }

  predicate BackOffFails(row: Row, a: Action) {
    Writes(row, a, BackOffWrites) && row.pending[a.id].BackingOff?
      && (!row.pending[a.id].busy || row.requeues >= 25)
  }

  /** Why it failed, as far as that is read back. */
  lemma FailureCauses(row: Row, a: Action, now: int)
    requires Can(row, a, now) && row.status != Failed && Do(row, a, now).status == Failed
    ensures Do(row, a, now).cause == Reaped <==> a.Reap? || (Writes(row, a, PersistWrites) && row.cause == Reaped)
    ensures Do(row, a, now).cause == DeadLetter <==>
              || Routes(row, a, Raise) || Writes(row, a, RemarkWrites)
              || (Writes(row, a, PersistWrites) && row.cause == DeadLetter)
  {
    StatusIs(row, a, now);
    match a {
      case AgentEnds(_, end) => assert AgentEnded(row, end, now).cause == OtherError;
      case RetryCommits(token) => assert RetryEnded(row, row.live[token].job.end, now).cause == OtherError;
      case Recover(_, _, at, o, parts) => RecoveredCause(row, at, o, parts, now);
      case Unlocked(id, h) => FailedHalfCause(row, id, h, now);
      case _ =>
    }
  }

  lemma FailedHalfCause(row: Row, id: nat, h: Half, now: int)
    requires CanHalf(row, id, h) && row.status != Failed && DoHalf(row, id, h, now).status == Failed
    ensures DoHalf(row, id, h, now).cause ==
              if h == RemarkWrites then DeadLetter else if h == PersistWrites then row.cause else OtherError
  {
  }

  lemma RecoveredCause(row: Row, listedAt: int, o: Outcome, parts: bool, now: int)
    requires row.status != Failed && Recovered(row, o, parts, listedAt, now).status == Failed
    ensures Recovered(row, o, parts, listedAt, now).cause ==
              if row.status == Received && WithinBudget(row, listedAt) then DeadLetter else OtherError
    ensures row.status == Received && WithinBudget(row, listedAt) ==> o == Raise
  {
    RoutedStatusIs(Spent(row, listedAt, now).(status := Received), o, now);
  }

  /** An event asks for a reply retry exactly when its agent's reply, or a retry of it, was not all sent; it stops when
      the reply is all sent or given up, or a job that saw it lost writes so. */
  lemma RetryingChanges(row: Row, a: Action, now: int)
    requires Can(row, a, now)
    ensures !row.retrying ==>
              (Do(row, a, now).retrying <==>
                (a.AgentEnds? && a.agentEnd == RetryLater)
                || (a.RetryCommits? && row.live[a.token].job.end == RetryAgain))
    ensures row.retrying ==>
              (!Do(row, a, now).retrying <==>
                || (a.AgentEnds? && a.agentEnd == AgentSucceeded)
                || (a.RetryCommits? && row.live[a.token].job.end in {RetrySent, RetryGaveUp})
                || (Writes(row, a, PersistWrites) && row.pending[a.id].Repairing? && row.pending[a.id].ok
                    && row.pending[a.id].replyLost))
  {
  }

  /** The count of Flow replies grows by one exactly when one is sent. */
  lemma RepliesAreCounted(row: Row, a: Action, now: int)
    requires Can(row, a, now)
    ensures Do(row, a, now).log.replies == row.log.replies + (if a.FlowReplySent? then 1 else 0)
    ensures Do(row, a, now).log.reapedReplying ==
              row.log.reapedReplying + (if a.Reap? && row.status == Replying then 1 else 0)
  {
    match a {
      case WorkerTakes(take, token) => TakenSendsNone(row, take, token, now);
      case AgentEnds(_, end) => AgentEndSendsNone(row, end, now);
      case RetryCommits(token) => RetryEndSendsNone(row, row.live[token].job.end, now);
      case Recover(_, _, at, o, parts) => RecoverySendsNone(row, at, o, parts, now);
      case Replay(o) => RulesSendNone(Written(row, Received, NoError, now), o, now);
      case Unlocked(id, h) => HalfSendsNone(row, id, h, now);
      case _ =>
    }
  }

  lemma TakenSendsNone(row: Row, take: Take, token: nat, now: int)
    ensures SameReplies(row, Taken(row, take, token, now))
  {
  }

  lemma AgentEndSendsNone(row: Row, end: AgentEnd, now: int)
    ensures SameReplies(row, AgentEnded(row, end, now))
  {
  }

  lemma RetryEndSendsNone(row: Row, end: RetryEnd, now: int)
    ensures SameReplies(row, RetryEnded(row, end, now))
  {
  }

  lemma RulesSendNone(row: Row, o: Outcome, now: int)
    ensures SameReplies(row, Routed(row, o, now))
  {
  }

  lemma RecoverySendsNone(row: Row, listedAt: int, o: Outcome, parts: bool, now: int)
    ensures SameReplies(row, Recovered(row, o, parts, listedAt, now))
  {
    RulesSendNone(Spent(row, listedAt, now), o, now);
  }

  lemma HalfSendsNone(row: Row, id: nat, h: Half, now: int)
    requires CanHalf(row, id, h)
    ensures SameReplies(row, DoHalf(row, id, h, now))
  {
  }

  predicate SameReplies(row: Row, after: Row) {
    after.log.replies == row.log.replies && after.log.reapedReplying == row.log.reapedReplying
  }

  /** The reaper fails an event exactly when it has been running, or sending its reply, for more than a quarter of
      an hour without a write, waits for no reply retry, and has no Flow Run still going. */
  lemma ReapsIff(row: Row, now: int)
    ensures Can(row, Reap, now) <==>
              && (row.status == Running || row.status == Replying) && !row.retrying
              && row.modified < now - 15 * 60 && (row.flow.Some? ==> row.flow.value.finished)
  {
  }

  /** Recovery lists what has been Queued for ten minutes, Received for five, or retrying for ten. */
  lemma ListedIff(row: Row, listedAt: int, o: Outcome, parts: bool, now: int)
    requires row.status in {Queued, Received, Running} && listedAt <= now
    ensures Can(row, Recover(row.status, row.modified, listedAt, o, parts), now) <==>
              && row.modified < listedAt - (if row.status == Received then 5 else 10) * 60
              && (row.status == Running ==> row.retrying)
  {
  }

  /** A Flow Run that ends keeps its place, and frees its event for the reaper. */
  lemma FlowRunFinishes(row: Row, now: int)
    requires Can(row, FlowRunEnds, now)
    ensures Do(row, FlowRunEnds, now) == row.(flow := Some(FlowRun(row.flow.value.id, true)))
  {
  }

  /** The actions that write to the event, so that it no longer counts as untouched. */
  predicate Touches(row: Row, a: Action) {
    match a
    case FlowRunEnds => false
    case FlowCompletes(_, _) =>
      row.status !in {Succeeded, Rejected, Replying} && (row.status == Failed ==> row.cause == Reaped)
    case FlowReplySent(_) => false
    case RetryStarts(_) => false
    case RetryReleases(_, _) => false
    case Dies(_) => false
    case Recover(listed, at, _, _, _) => row.status == listed && row.modified == at
    case Unlocked(_, h) => h in {MarkWrites, RemarkWrites, BackOffWrites, PersistWrites, RetryDefers}
    case _ => true
  }

  lemma ModifiedIs(row: Row, a: Action, now: int)
    requires Can(row, a, now)
    ensures Do(row, a, now).modified == if Touches(row, a) then now else row.modified
  {
    match a {
      case WorkerTakes(take, token) => assert Taken(row, take, token, now).modified == now;
      case AgentEnds(_, end) => assert AgentEnded(row, end, now).modified == now;
      case RetryCommits(token) => assert RetryEnded(row, row.live[token].job.end, now).modified == now;
      case Recover(_, _, at, o, parts) => RecoveryTouches(row, at, o, parts, now);
      case Replay(o) => assert Routed(Written(row, Received, NoError, now), o, now).modified == now;
      case Unlocked(id, h) => HalfTouches(row, id, h, now);
      case _ =>
    }
  }

  lemma RecoveryTouches(row: Row, listedAt: int, o: Outcome, parts: bool, now: int)
    ensures Recovered(row, o, parts, listedAt, now).modified == now
  {
    assert Routed(Spent(row, listedAt, now), o, now).modified == now;
  }

  lemma HalfTouches(row: Row, id: nat, h: Half, now: int)
    requires CanHalf(row, id, h)
    ensures DoHalf(row, id, h, now).modified ==
              if h in {MarkWrites, RemarkWrites, BackOffWrites, PersistWrites, RetryDefers} then now else row.modified
  {
  }

  // ---- unlocked sections ------------------------------------------------------------------------------

  /** The check of a finished job repairs the status exactly when it is not the one the job saw, or a delivery was lost;
      a dead-letter mark only goes for Received and Failed events, a back-off for Queued ones. */
  lemma RepairStartsIff(row: Row, id: nat, lost: bool, replyLost: bool, now: int)
    requires Can(row, Unlocked(id, PersistReads(lost, replyLost)), now)
    ensures var after := Do(row, Unlocked(id, PersistReads(lost, replyLost)), now);
            var seen := if row.pending[id].ok then Succeeded else Failed;
            && after.status == row.status
            && (id in after.pending <==> row.status != seen || lost || replyLost)
            && (id in after.pending ==> after.pending[id] == Repairing(row.pending[id].ok, replyLost))
  {
  }

  lemma JobSees(row: Row, id: nat, now: int)
    requires Can(row, Unlocked(id, JobReturns), now)
    ensures row.status in {Succeeded, Failed}
    ensures Do(row, Unlocked(id, JobReturns), now).pending[id] == Returned(row.status == Succeeded)
  {
  }

  /** A claimed reply retry keeps every other one out for ten minutes, unless it gives the claim back. */
  lemma ClaimKeepsOthersOut(row: Row, token: nat, other: nat, now: int, later: int)
    requires Can(row, RetryStarts(token), now)
    ensures var held := Do(row, RetryStarts(token), now);
            && Runs(held, token, ReplyRetry)
            && (Can(held, RetryStarts(other), later) ==> later >= now + 10 * 60)
  {
  }

  lemma ReleaseLetsOthersIn(row: Row, token: nat, end: RetryEnd, now: int)
    requires Can(row, RetryReleases(token, end), now)
    ensures var after := Do(row, RetryReleases(token, end), now);
            && after.claimedUntil <= now && after.status == row.status && Runs(after, token, ReplyClosing(end))
  {
  }
}
