/**
 One Gateway Event row and everything that may write it: ingest, queued workers, the stuck-event
 reaper, orphan recovery, revocation, dead-lettering and replay, Flow completion, send-only reply
 retry, and the check of a finished job's terminal state.

 Each action is one committed section of the source.  A section that reads under a row lock is one
 action.  Where the source reads without a lock and writes later, the read and the write are two
 actions: what was read waits in `pending`, and the write then lands whatever the row has become.
 Work that outlives a section (an agent run, a Flow reply being sent, a reply retry) is a token in
 `live`; a killed job loses its token without writing.  Jobs are not counted: any job may run at any
 time, any number of times, which only adds behaviours.
 */
module GatewayEvent {
  import opened Options

  datatype Status = Received | Queued | Running | Replying | Succeeded | Failed | Rejected | Recorded | Unrouted

  /** What the error message says, as far as the code reads it back. */
  datatype Cause = NoError | DeadLetter | Reaped | OtherError

  datatype Target = Agent | Flow

  datatype RetryEnd = RetrySent | RetryGaveUp | RetryAgain

  /** A closing retry has given its claim back and not committed its result yet. */
  datatype Job = AgentRun | FlowReply(sent: bool) | ReplyRetry | ReplyClosing(end: RetryEnd)

  datatype Token = Token(job: Job, started: int)

  datatype FlowRun = FlowRun(id: nat, finished: bool)

  /** A section between its unlocked read and its write. */
  datatype Pending =
    | Marking(rejects: bool)
    | Remarking
    | BackingOff(busy: bool)
    | Returned(ok: bool)
    | Repairing(ok: bool, replyLost: bool)
    | RetryDue

  /** What has happened to an event so far: recoveries, Flow Runs created, menu prompts, Flow replies sent,
      and how often the reaper failed it while Replying. */
  datatype Log = Log(recoveries: nat, runs: nat, prompts: nat, replies: nat, reapedReplying: nat)

  datatype Row = Row(
    status: Status, cause: Cause, modified: int, retrying: bool, attempts: nat, deadline: Option<int>,
    target: Target, flow: Option<FlowRun>, claimedUntil: int, promptMarked: bool, requeues: nat,
    live: map<nat, Token>, pending: map<nat, Pending>, log: Log)

  // Seconds.
  const STUCK_RUNNING := 900
  const QUEUED_STUCK := 600
  const RECEIVED_STUCK := 300
  const RETRYING_STUCK := 600
  const RECOVERY_MAX_ATTEMPTS := 3
  const RECOVERY_DEADLINE := 3600
  const JOB_LIMIT := 300
  const RETRY_CLAIM := 600
  const REQUEUE_MAX := 25

  /** How the ingest rules end for an event. */
  datatype Outcome = Reject | Record | Unroute | Prompt(optedOut: bool) | Enqueue(target: Target) | Raise

  /** How a worker takes a Queued event. */
  datatype Take = TakeReject | TakeAgent | StartRun(run: nat) | SkipToAgent | SkipUnrouted

  datatype AgentEnd = AgentSucceeded | AgentFailed | AgentBusy | RetryLater

  /** The halves of the sections that do not hold the row lock between their read and their write. */
  datatype Half =
    | MarkReads(revoke: bool)
    | MarkWrites
    | RemarkReads
    | RemarkWrites
    | WorkerBacksOff(busy: bool)
    | BackOffWrites
    | JobReturns
    | PersistReads(lost: bool, replyLost: bool)
    | PersistWrites
    | RetryChecks
    | RetryDefers
    | Drops

  datatype Action =
    | WorkerTakes(take: Take, token: nat)
    | AgentEnds(token: nat, agentEnd: AgentEnd)
    | FlowRunEnds
    | FlowCompletes(ok: bool, token: nat)
    | CompletionRaises
    | FlowReplySent(token: nat)
    | FlowReplyEnds(token: nat, delivered: bool)
    | RetryStarts(token: nat)
    | RetryReleases(token: nat, retryEnd: RetryEnd)
    | RetryCommits(token: nat)
    | Dies(token: nat)
    | Reap
    | Recover(listedStatus: Status, listedModified: int, listedAt: int, outcome: Outcome, parts: bool)
    | Replay(outcome: Outcome)
    | Unlocked(id: nat, half: Half)

  // ---- guards ---------------------------------------------------------------------------------------

  function StaleAfter(status: Status): int {
    match status
    case Queued => QUEUED_STUCK
    case Received => RECEIVED_STUCK
    case _ => RETRYING_STUCK
  }

  predicate Stale(modified: int, now: int, limit: int) {
    modified < now - limit
  }

  /** The row is still the version that was listed. */
  predicate SameVersion(row: Row, listedStatus: Status, listedModified: int) {
    row.status == listedStatus && row.modified == listedModified
  }

  predicate Runs(row: Row, token: nat, job: Job) {
    token in row.live && row.live[token].job == job
  }

  predicate CompletionIgnored(row: Row) {
    || row.status in {Succeeded, Rejected, Replying}
    || (row.status == Failed && row.cause != Reaped)
  }

  predicate TakeFits(row: Row, take: Take) {
    match take
    case TakeReject => true
    case TakeAgent => row.target == Agent
    case _ => row.target == Flow
  }

  /** A read starts a new pending section; a write, or a crash, ends the one it belongs to. */
  predicate CanHalf(row: Row, id: nat, h: Half) {
    match h
    case MarkReads(_) => id !in row.pending
    case MarkWrites => id in row.pending && row.pending[id].Marking?
    case RemarkReads => id !in row.pending && row.status in {Received, Failed}
    case RemarkWrites => id in row.pending && row.pending[id].Remarking?
    case WorkerBacksOff(busy) => id !in row.pending && row.status == Queued && (busy ==> row.target == Flow)
    case BackOffWrites => id in row.pending && row.pending[id].BackingOff?
    case JobReturns => id !in row.pending && row.status in {Succeeded, Failed}
    case PersistReads(_, replyLost) =>
      id in row.pending && row.pending[id].Returned? && (replyLost ==> row.pending[id].ok)
    case PersistWrites => id in row.pending && row.pending[id].Repairing?
    case RetryChecks => id !in row.pending && row.retrying && row.status == Running
    case RetryDefers => id in row.pending && row.pending[id].RetryDue?
    case Drops => id in row.pending
  }

  /** When an action can happen.  Unguarded writes have no condition but their own token or read. */
  predicate Can(row: Row, a: Action, now: int) {
    match a
    case WorkerTakes(take, token) => row.status == Queued && token !in row.live && TakeFits(row, take)
    case AgentEnds(token, _) => Runs(row, token, AgentRun)
    case FlowRunEnds => row.flow.Some?
    case FlowCompletes(_, token) => row.flow.Some? && token !in row.live
    case CompletionRaises => row.flow.Some?
    case FlowReplySent(token) => Runs(row, token, FlowReply(false))
    case FlowReplyEnds(token, _) => token in row.live && row.live[token].job.FlowReply?
    case RetryStarts(token) =>
      token in row.pending && row.pending[token].RetryDue? && row.claimedUntil <= now && token !in row.live
    case RetryReleases(token, _) => Runs(row, token, ReplyRetry)
    case RetryCommits(token) => token in row.live && row.live[token].job.ReplyClosing?
    case Dies(token) => token in row.live
    case Reap =>
      && row.status in {Running, Replying} && !row.retrying && Stale(row.modified, now, STUCK_RUNNING)
      && (row.flow.Some? ==> row.flow.value.finished)
    case Recover(status, modified, at, _, _) =>
      && status in {Queued, Received, Running} && at <= now && Stale(modified, at, StaleAfter(status))
      && (status == Running && SameVersion(row, status, modified) ==> row.retrying)
    case Replay(_) => row.status == Failed && row.cause == DeadLetter
    case Unlocked(id, h) => CanHalf(row, id, h)
  }

  // ---- effects --------------------------------------------------------------------------------------

  function Written(row: Row, status: Status, cause: Cause, now: int): Row {
    row.(status := status, cause := cause, modified := now)
  }

  /** The ingest rules applied to an event whose row is Received. */
  function Routed(row: Row, o: Outcome, now: int): Row {
    match o
    case Reject => Written(row, Rejected, OtherError, now)
    case Record => Written(row, Recorded, OtherError, now)
    case Unroute => Written(row, Unrouted, OtherError, now)
    case Enqueue(t) => Written(row, Queued, row.cause, now).(target := t)
    case Raise => Written(row, Failed, DeadLetter, now)
    case Prompt(optedOut) =>
      if row.status != Received then row
      else
        var won := Written(row, Recorded, OtherError, now);
        if row.promptMarked then won
        else
          var sent := if optedOut then 0 else 1;
          won.(promptMarked := true, log := row.log.(prompts := row.log.prompts + sent))
  }

  function Begin(row: Row, token: nat, job: Job, now: int): Row {
    row.(live := row.live[token := Token(job, now)])
  }

  function End(row: Row, token: nat): Row {
    row.(live := row.live - {token})
  }

  function Turned(row: Row, token: nat, job: Job): Row
    requires token in row.live
  {
    row.(live := row.live[token := row.live[token].(job := job)])
  }

  function Wait(row: Row, id: nat, p: Pending): Row {
    row.(pending := row.pending[id := p])
  }

  function Settle(row: Row, id: nat): Row {
    row.(pending := row.pending - {id})
  }

  function Taken(row: Row, take: Take, token: nat, now: int): Row {
    match take
    case TakeReject => Written(row, Rejected, OtherError, now)
    case TakeAgent => Begin(Written(row, Running, row.cause, now), token, AgentRun, now)
    case StartRun(id) => if row.flow.Some? then Written(row, Running, row.cause, now) else Started(row, id, now)
    case SkipToAgent =>
      if row.flow.Some? then Written(row, Running, row.cause, now)
      else Written(row, Queued, OtherError, now).(target := Agent)
    case SkipUnrouted =>
      if row.flow.Some? then Written(row, Running, row.cause, now) else Written(row, Unrouted, OtherError, now)
  }

  /** A Flow Run created for the event. */
  function Started(row: Row, id: nat, now: int): Row {
    Written(row, Running, row.cause, now).(flow := Some(FlowRun(id, false)), log := row.log.(runs := row.log.runs + 1))
  }

  /** A busy end: back to Queued, unless the requeues are used up. */
  function Requeued(row: Row, now: int): Row {
    if row.requeues + 1 > REQUEUE_MAX then Written(row, Failed, OtherError, now)
    else Written(row, Queued, OtherError, now).(requeues := row.requeues + 1)
  }

  function AgentEnded(row: Row, end: AgentEnd, now: int): Row {
    match end
    case AgentSucceeded => Written(row, Succeeded, row.cause, now).(retrying := false)
    case AgentFailed => Written(row, Failed, OtherError, now)
    case AgentBusy => Requeued(row, now)
    case RetryLater => Written(row, Running, row.cause, now).(retrying := true)
  }

  function RetryEnded(row: Row, end: RetryEnd, now: int): Row {
    match end
    case RetrySent => Written(row, Succeeded, row.cause, now).(retrying := false)
    case RetryGaveUp => Written(row, Failed, OtherError, now).(retrying := false)
    case RetryAgain => Written(row, Running, row.cause, now).(retrying := true)
  }

  /** Attempts, or time, are used up; the clock is the one read when the orphans were listed. */
  predicate BudgetSpent(row: Row, listedAt: int) {
    row.attempts >= RECOVERY_MAX_ATTEMPTS || (row.deadline.Some? && listedAt > row.deadline.value)
  }

  /** One more persisted recovery attempt. */
  function Spent(row: Row, listedAt: int, now: int): Row {
    row.(attempts := row.attempts + 1, modified := now,
         deadline := if row.deadline.None? then Some(listedAt + RECOVERY_DEADLINE) else row.deadline,
         log := row.log.(recoveries := row.log.recoveries + 1))
  }

  function Recovered(row: Row, o: Outcome, parts: bool, listedAt: int, now: int): Row {
    if BudgetSpent(row, listedAt) then Written(row, Failed, OtherError, now)
    else
      var spent := Spent(row, listedAt, now);
      match row.status
      case Received => Routed(spent, o, now)
      case Running => if parts then spent else Written(spent, Failed, OtherError, now)
      case _ => spent
  }

  function ReapedRow(row: Row, now: int): Row {
    var counted := if row.status == Replying then row.log.reapedReplying + 1 else row.log.reapedReplying;
    Written(row, Failed, Reaped, now).(log := row.log.(reapedReplying := counted))
  }

  function Completed(row: Row, ok: bool, token: nat, now: int): Row {
    if CompletionIgnored(row) then row
    else if !ok then Written(row, Failed, OtherError, now)
    else Begin(Written(row, Replying, NoError, now), token, FlowReply(false), now)
  }

  function SentReply(row: Row, token: nat): Row
    requires token in row.live
  {
    Turned(row, token, FlowReply(true)).(log := row.log.(replies := row.log.replies + 1))
  }

  function Terminal(ok: bool): Status {
    if ok then Succeeded else Failed
  }

  /** The end of a back-off: the write that follows a worker's rollback. */
  function BackedOff(row: Row, busy: bool, now: int): Row {
    if busy then Requeued(row, now) else Written(row, Failed, OtherError, now)
  }

  function DoHalf(row: Row, id: nat, h: Half, now: int): Row
    requires CanHalf(row, id, h)
  {
    match h
    case MarkReads(revoke) => Wait(row, id, Marking(revoke && row.status in {Received, Queued}))
    case MarkWrites =>
      if row.pending[id].rejects then Written(Settle(row, id), Rejected, OtherError, now)
      else Settle(row, id).(modified := now)
    case RemarkReads => Wait(row, id, Remarking)
    case RemarkWrites => Written(Settle(row, id), Failed, DeadLetter, now)
    case WorkerBacksOff(busy) => Wait(row, id, BackingOff(busy))
    case BackOffWrites => BackedOff(Settle(row, id), row.pending[id].busy, now)
    case JobReturns => Wait(row, id, Returned(row.status == Succeeded))
    case PersistReads(lost, replyLost) =>
      if row.status == Terminal(row.pending[id].ok) && !lost && !replyLost then Settle(row, id)
      else Wait(row, id, Repairing(row.pending[id].ok, replyLost))
    case PersistWrites =>
      Settle(row, id).(status := Terminal(row.pending[id].ok), modified := now,
                       retrying := row.retrying && !(row.pending[id].ok && row.pending[id].replyLost))
    case RetryChecks => Wait(row, id, RetryDue)
    case RetryDefers => Settle(row, id).(modified := now)
    case Drops => Settle(row, id)
  }

  function Do(row: Row, a: Action, now: int): Row
    requires Can(row, a, now)
  {
    match a
    case WorkerTakes(take, token) => Taken(row, take, token, now)
    case AgentEnds(token, end) => End(AgentEnded(row, end, now), token)
    case FlowRunEnds => row.(flow := Some(row.flow.value.(finished := true)))
    case FlowCompletes(ok, token) => Completed(row, ok, token, now)
    case CompletionRaises => Written(row, Failed, OtherError, now)
    case FlowReplySent(token) => SentReply(row, token)
    case FlowReplyEnds(token, delivered) =>
      End(if delivered then Written(row, Succeeded, row.cause, now) else Written(row, Failed, OtherError, now), token)
    case RetryStarts(token) => Begin(Settle(row, token), token, ReplyRetry, now).(claimedUntil := now + RETRY_CLAIM)
    case RetryReleases(token, end) => Turned(row, token, ReplyClosing(end)).(claimedUntil := now)
    case RetryCommits(token) => End(RetryEnded(row, row.live[token].job.end, now), token)
    case Dies(token) => End(row, token)
    case Reap => ReapedRow(row, now)
    case Recover(status, modified, at, o, parts) =>
      if SameVersion(row, status, modified) then Recovered(row, o, parts, at, now) else row
    case Replay(o) => Routed(Written(row, Received, NoError, now), o, now)
    case Unlocked(id, h) => DoHalf(row, id, h, now)
  }

  /** `next` is what `a` makes of `row`. */
  predicate Step(row: Row, a: Action, next: Row, now: int) {
    Can(row, a, now) && next == Do(row, a, now)
  }

  /** A row as a delivery inserts it. */
  function Inserted(now: int): Row {
    Row(Received, NoError, now, false, 0, None, Agent, None, now, false, 0, map[], map[], Log(0, 0, 0, 0, 0))
  }

  // ---- schedules of one row ---------------------------------------------------------------------------

  datatype Move = Move(at: int, action: Action)

  /** Time goes on while every live job is within its limit: a job that reaches it has been killed. */
  predicate MayWait(row: Row, from: int, to: int) {
    from <= to && forall t | t in row.live :: to <= row.live[t].started + JOB_LIMIT
  }

  predicate Legal(row: Row, moves: seq<Move>, from: int)
    decreases |moves|
  {
    moves == [] ||
    (MayWait(row, from, moves[0].at) && Can(row, moves[0].action, moves[0].at)
     && Legal(Do(row, moves[0].action, moves[0].at), moves[1..], moves[0].at))
  }

  function After(row: Row, moves: seq<Move>, from: int): Row
    requires Legal(row, moves, from)
    decreases |moves|
  {
    if moves == [] then row else After(Do(row, moves[0].action, moves[0].at), moves[1..], moves[0].at)
  }

  /** A number none of these is. */
  lemma Fresh(ids: set<nat>) returns (id: nat)
    ensures forall i | i in ids :: i < id
    ensures id !in ids
    decreases |ids|
  {
    id := 0;
    if some :| some in ids {
      var above := Fresh(ids - {some});
      id := if some < above then above else some + 1;
      forall i | i in ids
        ensures i < id
      {
        assert i == some || i in ids - {some};
      }
    }
  }

  // ---- facts about every run -------------------------------------------------------------------------

  /** Budgets and once-only markers.  These hold in every run. */
  ghost predicate Bounded(row: Row, now: int) {
    && row.modified <= now
    && row.log.recoveries == row.attempts <= RECOVERY_MAX_ATTEMPTS
    && row.log.runs == (if row.flow.Some? then 1 else 0)
    && row.log.prompts <= (if row.promptMarked then 1 else 0)
    && row.requeues <= REQUEUE_MAX
  }

  lemma StaysBounded(row: Row, a: Action, now: int)
    requires Bounded(row, now) && Can(row, a, now)
    ensures Bounded(Do(row, a, now), now)
  {
    match a {
      case WorkerTakes(take, token) => TakenStaysBounded(row, take, token, now);
      case Recover(_, _, at, o, parts) => RecoveredStaysBounded(row, o, parts, at, now);
      case Replay(o) => RoutedStaysBounded(Written(row, Received, NoError, now), o, now);
      case AgentEnds(_, end) => AgentEndStaysBounded(row, end, now);
      case RetryCommits(token) => RetryEndStaysBounded(row, row.live[token].job.end, now);
      case Unlocked(id, h) => HalfStaysBounded(row, id, h, now);
      case _ =>
    }
  }

  lemma AgentEndStaysBounded(row: Row, end: AgentEnd, now: int)
    requires Bounded(row, now)
    ensures Bounded(AgentEnded(row, end, now), now)
  {
  }

  lemma RetryEndStaysBounded(row: Row, end: RetryEnd, now: int)
    requires Bounded(row, now)
    ensures Bounded(RetryEnded(row, end, now), now)
  {
  }

  lemma HalfStaysBounded(row: Row, id: nat, h: Half, now: int)
    requires Bounded(row, now) && CanHalf(row, id, h)
    ensures Bounded(DoHalf(row, id, h, now), now)
  {
  }

  lemma RoutedStaysBounded(row: Row, o: Outcome, now: int)
    requires Bounded(row, now)
    ensures Bounded(Routed(row, o, now), now)
  {
  }

  lemma TakenStaysBounded(row: Row, take: Take, token: nat, now: int)
    requires Bounded(row, now)
    ensures Bounded(Taken(row, take, token, now), now)
  {
  }

  lemma RecoveredStaysBounded(row: Row, o: Outcome, parts: bool, listedAt: int, now: int)
    requires Bounded(row, now)
    ensures Bounded(Recovered(row, o, parts, listedAt, now), now)
  {
    if !BudgetSpent(row, listedAt) {
      assert Bounded(Spent(row, listedAt, now), now);
      RoutedStaysBounded(Spent(row, listedAt, now), o, now);
    }
  }

  /** What no write undoes. */
  predicate Preserves(row: Row, after: Row, now: int) {
    && row.modified <= after.modified <= now
    && row.attempts <= after.attempts && row.requeues <= after.requeues
    && (row.flow.Some? ==> after.flow.Some? && after.flow.value.id == row.flow.value.id)
    && (row.promptMarked ==> after.promptMarked)
  }

  /** Writes never move `modified` back, spent attempts are never refunded, and a Flow Run is never replaced. */
  lemma NeverUndone(row: Row, a: Action, now: int)
    requires row.modified <= now && Can(row, a, now)
    ensures Preserves(row, Do(row, a, now), now)
  {
    match a {
      case WorkerTakes(take, token) => TakenPreserves(row, take, token, now);
      case Recover(_, _, at, o, parts) => RecoveredPreserves(row, o, parts, at, now);
      case Replay(o) => RoutedPreserves(Written(row, Received, NoError, now), o, now);
      case AgentEnds(_, end) => AgentEndPreserves(row, end, now);
      case RetryCommits(token) => RetryEndPreserves(row, row.live[token].job.end, now);
      case Unlocked(id, h) => HalfPreserves(row, id, h, now);
      case _ =>
    }
  }

  lemma AgentEndPreserves(row: Row, end: AgentEnd, now: int)
    requires row.modified <= now
    ensures Preserves(row, AgentEnded(row, end, now), now)
  {
  }

  lemma RetryEndPreserves(row: Row, end: RetryEnd, now: int)
    requires row.modified <= now
    ensures Preserves(row, RetryEnded(row, end, now), now)
  {
  }

  lemma HalfPreserves(row: Row, id: nat, h: Half, now: int)
    requires row.modified <= now && CanHalf(row, id, h)
    ensures Preserves(row, DoHalf(row, id, h, now), now)
  {
  }

  lemma RoutedPreserves(row: Row, o: Outcome, now: int)
    requires row.modified <= now
    ensures Preserves(row, Routed(row, o, now), now)
  {
  }

  lemma TakenPreserves(row: Row, take: Take, token: nat, now: int)
    requires row.modified <= now
    ensures Preserves(row, Taken(row, take, token, now), now)
  {
  }

  lemma RecoveredPreserves(row: Row, o: Outcome, parts: bool, listedAt: int, now: int)
    requires row.modified <= now
    ensures Preserves(row, Recovered(row, o, parts, listedAt, now), now)
  {
    if !BudgetSpent(row, listedAt) {
      assert Preserves(row, Spent(row, listedAt, now), now);
      RoutedPreserves(Spent(row, listedAt, now), o, now);
    }
  }

  // ---- recovery and requeues --------------------------------------------------------------------------

  /** A recovery that acts makes its own listing out of date, for good: `modified` is now past the listed one. */
  lemma ActingOutdatesListing(row: Row, a: Action, now: int)
    requires a.Recover? && Can(row, a, now) && SameVersion(row, a.listedStatus, a.listedModified)
    ensures Do(row, a, now).modified == now > a.listedModified
  {
  }

  /** One pass of recovery over a row nobody else touches, listed and acted on at time `t`. */
  function Pass(row: Row, t: int): Row {
    var a := Recover(row.status, row.modified, t, Reject, false);
    if row.status == Queued && Can(row, a, t) then Do(row, a, t) else row
  }

  function Passes(row: Row, times: seq<int>): Row
    decreases |times|
  {
    if times == [] then row else Passes(Pass(row, times[0]), times[1..])
  }

  /** Passes far enough apart that an orphan is stale at each. */
  predicate Spaced(from: int, times: seq<int>)
    decreases |times|
  {
    times == [] || (Stale(from, times[0], QUEUED_STUCK) && Spaced(times[0], times[1..]))
  }

  /** A Queued orphan is failed once the passes outnumber the attempts it has left. */
  lemma {:induction false} OrphanFails(row: Row, times: seq<int>)
    requires row.status == Queued && Spaced(row.modified, times)
    requires |times| > RECOVERY_MAX_ATTEMPTS - row.attempts && |times| > 0
    ensures Passes(row, times).status == Failed
    decreases |times|
  {
    var next := Pass(row, times[0]);
    if next.status == Failed {
      FailedUnderPasses(next, times[1..]);
    } else {
      assert next.attempts == row.attempts + 1 && next.modified == times[0];
      OrphanFails(next, times[1..]);
    }
  }

  lemma {:induction false} FailedUnderPasses(row: Row, times: seq<int>)
    requires row.status == Failed
    ensures Passes(row, times) == row
    decreases |times|
  {
    if times != [] {
      FailedUnderPasses(row, times[1..]);
    }
  }

  /** A worker takes the event at time `t` and finds its conversation busy. */
  function BusyRound(row: Row, t: int): Row {
    if row.status != Queued || row.target != Agent || row.live != map[] then row
    else Do(Do(row, WorkerTakes(TakeAgent, 0), t), AgentEnds(0, AgentBusy), t)
  }

  function BusyRounds(row: Row, times: seq<int>): Row
    decreases |times|
  {
    if times == [] then row else BusyRounds(BusyRound(row, times[0]), times[1..])
  }

  /** An event whose conversation stays busy is failed by its 26th busy end and not before: counted over its whole life,
      it goes back to the queue exactly REQUEUE_MAX times. */
  lemma {:induction false} BusyRoundsFailIff(row: Row, times: seq<int>)
    requires row.status == Queued && row.target == Agent && row.live == map[] && row.requeues <= REQUEUE_MAX
    ensures BusyRounds(row, times).status == Failed <==> row.requeues + |times| > REQUEUE_MAX
    ensures row.requeues + |times| <= REQUEUE_MAX ==>
              BusyRounds(row, times).status == Queued && BusyRounds(row, times).requeues == row.requeues + |times|
    decreases |times|
  {
    if times != [] {
      var next := BusyRound(row, times[0]);
      assert next.live == map[];
      if next.status == Failed {
        FailedUnderRounds(next, times[1..]);
      } else {
        BusyRoundsFailIff(next, times[1..]);
      }
    }
  }

  lemma {:induction false} FailedUnderRounds(row: Row, times: seq<int>)
    requires row.status == Failed
    ensures BusyRounds(row, times) == row
    decreases |times|
  {
    if times != [] {
      FailedUnderRounds(row, times[1..]);
    }
  }
}
