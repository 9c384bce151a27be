/**
 How many Flow replies one event can get: at most one more than the times the reaper failed it while
 Replying, in every schedule, stale writes and crashes included, as long as nothing makes the event
 claimable again without credit; and exactly which replays and late requeues do.
 */
module GatewayReplies {
  import opened Options
  import opened GatewayEvent

  /** The claimed replies not sent yet. */
  function Unsent(row: Row): set<nat> {
    set t | t in row.live && row.live[t].job == FlowReply(false)
  }

  /** The replies that may still be claimed. */
  function Credit(row: Row): int {
    row.log.reapedReplying + 1 - row.log.replies - |Unsent(row)|
  }

  predicate Exceeded(row: Row) {
    row.log.replies > row.log.reapedReplying + 1
  }

  /** A completion can claim the reply, or could after a repair of its status. */
  predicate Claimable(row: Row) {
    row.flow.Some? && (!CompletionIgnored(row) || row.cause == Reaped)
  }

  /** The job may still put the event back to Running. */
  predicate Reopens(job: Job) {
    job in {AgentRun, ReplyRetry, ReplyClosing(RetryAgain)}
  }

  predicate Reopenable(row: Row) {
    || row.retrying
    || (exists t | t in row.live :: Reopens(row.live[t].job))
    || (exists p | p in row.pending :: row.pending[p].RetryDue?)
  }

  ghost predicate Paid(row: Row) {
    && Credit(row) >= 0 && (Claimable(row) || row.flow.None? ==> Credit(row) >= 1)
    && (row.flow.Some? ==> row.target == Flow)
    && (row.target == Flow ==> !Reopenable(row))
    && (row.status == Received ==> row.flow.None? && !Reopenable(row))
  }

  // ---- the guard --------------------------------------------------------------------------------------

  /** The weakest rule for replays: what may follow depends on where the dead letter is routed. */
  predicate ReplayKeepsBound(row: Row, o: Outcome) {
    match o
    case Reject => true
    case Raise => true
    case Enqueue(to) =>
      if to == Agent then row.flow.None? else !Reopenable(row) && (row.flow.Some? ==> Credit(row) >= 1)
    case _ => row.flow.Some? ==> Credit(row) >= 1
  }

  /** A worker that found the conversation busy puts the event back to Queued. */
  predicate RequeuesLate(row: Row, a: Action) {
    a.Unlocked? && a.half.BackOffWrites? && a.id in row.pending && row.pending[a.id] == BackingOff(true)
    && row.requeues + 1 <= REQUEUE_MAX
  }

  predicate KeepsBound(row: Row, a: Action) {
    && (a.Replay? ==> ReplayKeepsBound(row, a.outcome))
    && (RequeuesLate(row, a) && row.flow.Some? ==> Credit(row) >= 1)
  }

  // ---- counting ---------------------------------------------------------------------------------------

  lemma UnsentBegins(row: Row, token: nat, job: Job, now: int)
    requires token !in row.live
    ensures Unsent(Begin(row, token, job, now)) == Unsent(row) + if job == FlowReply(false) then {token} else {}
    ensures |Unsent(Begin(row, token, job, now))| == |Unsent(row)| + if job == FlowReply(false) then 1 else 0
  {
    var after := Begin(row, token, job, now);
    assert Unsent(after) == Unsent(row) + if job == FlowReply(false) then {token} else {};
  }

  lemma UnsentEnds(row: Row, token: nat)
    ensures |Unsent(End(row, token))| <= |Unsent(row)|
    ensures token !in Unsent(row) ==> |Unsent(End(row, token))| == |Unsent(row)|
  {
    assert Unsent(End(row, token)) == Unsent(row) - {token};
  }

  lemma UnsentTurns(row: Row, token: nat, job: Job)
    requires token in row.live && job != FlowReply(false)
    ensures |Unsent(Turned(row, token, job))| == |Unsent(row)| - if token in Unsent(row) then 1 else 0
  {
    assert Unsent(Turned(row, token, job)) == Unsent(row) - {token};
  }

  // ---- the invariant ----------------------------------------------------------------------------------

  /** Changes that touch neither the live jobs nor the counts, and reopen nothing. */
  predicate Quiet(row: Row, after: Row) {
    && after.live == row.live && after.log.replies == row.log.replies
    && after.log.reapedReplying == row.log.reapedReplying && after.flow.Some? == row.flow.Some?
    && (Reopenable(after) ==> Reopenable(row))
  }

  lemma ReplayStaysPaid(row: Row, o: Outcome, now: int)
    requires Paid(row) && Can(row, Replay(o), now) && ReplayKeepsBound(row, o)
    ensures Paid(Do(row, Replay(o), now))
  {
  }

  lemma TakenStaysPaid(row: Row, take: Take, token: nat, now: int)
    requires Paid(row) && Can(row, WorkerTakes(take, token), now)
    ensures Paid(Taken(row, take, token, now))
  {
    var after := Taken(row, take, token, now);
    if take.TakeAgent? {
      UnsentBegins(Written(row, Running, row.cause, now), token, AgentRun, now);
    } else if take.StartRun? && row.flow.None? {
      assert Unsent(after) == Unsent(row);
      assert Reopenable(after) == Reopenable(row);
    }
  }

  lemma RecoveredStaysPaid(row: Row, o: Outcome, parts: bool, listedAt: int, now: int)
    requires Paid(row) && row.status in {Queued, Received, Running}
    ensures Paid(Recovered(row, o, parts, listedAt, now))
  {
  }

  lemma CompletedStaysPaid(row: Row, ok: bool, token: nat, now: int)
    requires Paid(row) && Can(row, FlowCompletes(ok, token), now)
    ensures Paid(Completed(row, ok, token, now))
  {
    if !CompletionIgnored(row) {
      if ok {
        var claimed := Written(row, Replying, NoError, now);
        UnsentBegins(claimed, token, FlowReply(false), now);
        BeginReopens(claimed, token, FlowReply(false), now);
      }
    }
  }

  lemma BeginReopens(row: Row, token: nat, job: Job, now: int)
    requires token !in row.live
    ensures Reopenable(Begin(row, token, job, now)) <==> Reopenable(row) || Reopens(job)
  {
    var after := Begin(row, token, job, now);
    assert after.live[token].job == job;
    if t :| t in row.live && Reopens(row.live[t].job) {
      assert after.live[t] == row.live[t];
    }
  }

  lemma SentStaysPaid(row: Row, token: nat, now: int)
    requires Paid(row) && Can(row, FlowReplySent(token), now)
    ensures Paid(SentReply(row, token)) && Credit(SentReply(row, token)) == Credit(row)
  {
    var turned := Turned(row, token, FlowReply(true));
    UnsentTurns(row, token, FlowReply(true));
    assert Unsent(SentReply(row, token)) == Unsent(turned);
    assert Reopenable(SentReply(row, token)) == Reopenable(turned);
  }

  /** A job that ends on an event without a Flow: nothing about replies changes. */
  lemma EndStaysPaid(row: Row, written: Row, token: nat)
    requires Paid(written)
    ensures Paid(End(written, token))
  {
    UnsentEnds(written, token);
  }

  lemma ReplyEndStaysPaid(row: Row, token: nat, delivered: bool, now: int)
    requires Paid(row) && Can(row, FlowReplyEnds(token, delivered), now)
    ensures Paid(Do(row, FlowReplyEnds(token, delivered), now))
  {
    var written := if delivered then Written(row, Succeeded, row.cause, now) else Written(row, Failed, OtherError, now);
    EndStaysPaid(row, written, token);
  }

  lemma AgentEndStaysPaid(row: Row, token: nat, end: AgentEnd, now: int)
    requires Paid(row) && Can(row, AgentEnds(token, end), now)
    ensures Paid(Do(row, AgentEnds(token, end), now))
  {
    var written := AgentEnded(row, end, now);
    assert Unsent(written) == Unsent(row);
    EndStaysPaid(row, written, token);
  }

  lemma RetryStartStaysPaid(row: Row, token: nat, now: int)
    requires Paid(row) && Can(row, RetryStarts(token), now)
    ensures Paid(Do(row, RetryStarts(token), now))
  {
    assert Reopenable(row) by {
      assert row.pending[token].RetryDue?;
    }
    UnsentBegins(Settle(row, token), token, ReplyRetry, now);
    assert Unsent(Settle(row, token)) == Unsent(row);
    assert Unsent(Do(row, RetryStarts(token), now)) == Unsent(Begin(Settle(row, token), token, ReplyRetry, now));
  }

  lemma RetryReleaseStaysPaid(row: Row, token: nat, end: RetryEnd, now: int)
    requires Paid(row) && Can(row, RetryReleases(token, end), now)
    ensures Paid(Do(row, RetryReleases(token, end), now))
  {
    UnsentTurns(row, token, ReplyClosing(end));
    assert Unsent(Do(row, RetryReleases(token, end), now)) == Unsent(Turned(row, token, ReplyClosing(end)));
  }

  lemma RetryCommitStaysPaid(row: Row, token: nat, now: int)
    requires Paid(row) && Can(row, RetryCommits(token), now)
    ensures Paid(Do(row, RetryCommits(token), now))
  {
    var end := row.live[token].job.end;
    var written := RetryEnded(row, end, now);
    if end.RetryAgain? {
      assert Unsent(written) == Unsent(row);
    }
    EndStaysPaid(row, written, token);
  }

  lemma HalfIsQuiet(row: Row, id: nat, h: Half, now: int)
    requires CanHalf(row, id, h)
    ensures Quiet(row, DoHalf(row, id, h, now))
  {
  }

  lemma HalfStaysPaid(row: Row, id: nat, h: Half, now: int)
    requires Paid(row) && CanHalf(row, id, h) && KeepsBound(row, Unlocked(id, h))
    ensures Paid(DoHalf(row, id, h, now))
  {
    HalfIsQuiet(row, id, h, now);
  }

  /** Every action within the guard keeps the invariant, stale or not. */
  lemma StaysPaid(row: Row, a: Action, now: int)
    requires Paid(row) && Can(row, a, now) && KeepsBound(row, a)
    ensures Paid(Do(row, a, now))
  {
    match a {
      case WorkerTakes(take, token) => TakenStaysPaid(row, take, token, now);
      case AgentEnds(token, end) => AgentEndStaysPaid(row, token, end, now);
      case FlowCompletes(ok, token) => CompletedStaysPaid(row, ok, token, now);
      case FlowReplySent(token) => SentStaysPaid(row, token, now);
      case FlowReplyEnds(token, delivered) => ReplyEndStaysPaid(row, token, delivered, now);
      case RetryStarts(token) => RetryStartStaysPaid(row, token, now);
      case RetryReleases(token, end) => RetryReleaseStaysPaid(row, token, end, now);
      case RetryCommits(token) => RetryCommitStaysPaid(row, token, now);
      case Dies(token) => EndStaysPaid(row, row, token);
      case Recover(status, modified, at, o, parts) =>
        if SameVersion(row, status, modified) {
          RecoveredStaysPaid(row, o, parts, at, now);
        }
      case Replay(o) => ReplayStaysPaid(row, o, now);
      case Unlocked(id, h) => HalfStaysPaid(row, id, h, now);
      case _ =>
    }
  }

  predicate Guarded(row: Row, moves: seq<Move>, from: int)
    requires Legal(row, moves, from)
    decreases |moves|
  {
    moves == [] ||
    (KeepsBound(row, moves[0].action) && Guarded(Do(row, moves[0].action, moves[0].at), moves[1..], moves[0].at))
  }

  lemma {:induction false} GuardedStaysPaid(row: Row, moves: seq<Move>, from: int)
    requires Paid(row) && Legal(row, moves, from) && Guarded(row, moves, from)
    ensures Paid(After(row, moves, from)) && !Exceeded(After(row, moves, from))
    decreases |moves|
  {
    if moves != [] {
      StaysPaid(row, moves[0].action, moves[0].at);
      GuardedStaysPaid(Do(row, moves[0].action, moves[0].at), moves[1..], moves[0].at);
    }
  }

  // ---- the guard is exact -----------------------------------------------------------------------------

  /** The moves are within the guard and end beyond the bound. */
  ghost predicate ExceedsAfter(row: Row, moves: seq<Move>, from: int) {
    Legal(row, moves, from) && Guarded(row, moves, from) && Exceeded(After(row, moves, from))
  }

  ghost predicate BoundBreaks(row: Row, from: int) {
    exists moves :: ExceedsAfter(row, moves, from)
  }

  /** One more move in front. */
  lemma Before(row: Row, from: int, at: int, a: Action, rest: seq<Move>) returns (moves: seq<Move>)
    requires MayWait(row, from, at) && Can(row, a, at) && KeepsBound(row, a) && ExceedsAfter(Do(row, a, at), rest, at)
    ensures ExceedsAfter(row, moves, from)
  {
    moves := [Move(at, a)] + rest;
    assert moves[1..] == rest;
  }

  /** Sending everything claimed, once more has been claimed than there is credit for. */
  lemma {:induction false} SendAll(row: Row, at: int) returns (moves: seq<Move>)
    requires MayWait(row, at, at) && Credit(row) < 0
    ensures ExceedsAfter(row, moves, at)
    decreases |Unsent(row)|
  {
    moves := [];
    if t :| t in Unsent(row) {
      UnsentTurns(row, t, FlowReply(true));
      assert Unsent(SentReply(row, t)) == Unsent(Turned(row, t, FlowReply(true)));
      moves := SendAll(SentReply(row, t), at);
      moves := Before(row, at, at, FlowReplySent(t), moves);
    } else {
      assert Unsent(row) == {};
    }
  }

  /** An event that can be claimed without credit gets a reply too many. */
  lemma ClaimExceeds(row: Row, at: int) returns (moves: seq<Move>)
    requires MayWait(row, at, at) && row.flow.Some? && !CompletionIgnored(row) && Credit(row) <= 0
    ensures ExceedsAfter(row, moves, at)
  {
    var t := Fresh(row.live.Keys);
    var claimed := Written(row, Replying, NoError, at);
    UnsentBegins(claimed, t, FlowReply(false), at);
    assert Unsent(claimed) == Unsent(row);
    moves := SendAll(Do(row, FlowCompletes(true, t), at), at);
    moves := Before(row, at, at, FlowCompletes(true, t), moves);
  }

  /** Whatever follows once every job has died can follow. */
  lemma {:induction false} KillThen(row: Row, at: int, rest: seq<Move>) returns (moves: seq<Move>)
    requires MayWait(row, at, at) && ExceedsAfter(row.(live := map[]), rest, at)
    ensures ExceedsAfter(row, moves, at)
    decreases |row.live.Keys|
  {
    moves := rest;
    if t :| t in row.live.Keys {
      assert End(row, t).live.Keys == row.live.Keys - {t};
      moves := KillThen(End(row, t), at, rest);
      moves := Before(row, at, at, Dies(t), moves);
    } else {
      assert row.live == map[];
    }
  }

  /** A Flow event that a retry keeps putting back to Running is answered again and again. */
  lemma {:induction false} RetryingExceeds(row: Row, from: int, at: int) returns (moves: seq<Move>)
    requires row.status == Running && row.flow.Some? && row.retrying && row.live == map[]
    requires from <= at && row.claimedUntil <= at
    ensures ExceedsAfter(row, moves, from)
    decreases if Credit(row) > 0 then Credit(row) else 0, 2, 0
  {
    if Credit(row) <= 0 {
      moves := ClaimExceeds(row, from);
    } else {
      var p := Fresh(row.pending.Keys);
      var due := Do(row, Unlocked(p, RetryChecks), at);
      var held := Do(due, RetryStarts(p), at);
      assert Unsent(row) == {} && Unsent(held) == {};
      moves := HeldExceeds(held, p, at);
      moves := Before(due, at, at, RetryStarts(p), moves);
      moves := Before(row, from, at, Unlocked(p, RetryChecks), moves);
    }
  }

  /** With a retry at work the completion claims one reply. */
  lemma {:induction false} HeldExceeds(row: Row, p: nat, at: int) returns (moves: seq<Move>)
    requires row.status == Running && row.flow.Some? && row.live == map[p := Token(ReplyRetry, at)] && Credit(row) >= 1
    ensures ExceedsAfter(row, moves, at)
    decreases Credit(row), 1
  {
    var q := p + 1;
    var claimed := Do(row, FlowCompletes(true, q), at);
    assert Unsent(row) == {} && Unsent(claimed) == {q};
    moves := ClaimedExceeds(claimed, p, q, at);
    moves := Before(row, at, at, FlowCompletes(true, q), moves);
  }

  /** Sends it. */
  lemma {:induction false} ClaimedExceeds(row: Row, p: nat, q: nat, at: int) returns (moves: seq<Move>)
    requires row.flow.Some? && p != q && row.live == map[p := Token(ReplyRetry, at), q := Token(FlowReply(false), at)]
    ensures ExceedsAfter(row, moves, at)
    decreases if Credit(row) > 0 then Credit(row) else 0, 5
  {
    var sent := Do(row, FlowReplySent(q), at);
    assert Unsent(row) == {q} && Unsent(sent) == {};
    moves := SentExceeds(sent, p, q, at);
    moves := Before(row, at, at, FlowReplySent(q), moves);
  }

  /** And is done. */
  lemma {:induction false} SentExceeds(row: Row, p: nat, q: nat, at: int) returns (moves: seq<Move>)
    requires row.flow.Some? && p != q && row.live == map[p := Token(ReplyRetry, at), q := Token(FlowReply(true), at)]
    ensures ExceedsAfter(row, moves, at)
    decreases if Credit(row) > 0 then Credit(row) else 0, 4
  {
    var ended := Do(row, FlowReplyEnds(q, true), at);
    assert ended.live == map[p := Token(ReplyRetry, at)];
    assert Unsent(row) == {} && Unsent(ended) == {};
    moves := BackToRunning(ended, p, at);
    moves := Before(row, at, at, FlowReplyEnds(q, true), moves);
  }

  /** Then the retry puts the event back to Running. */
  lemma {:induction false} BackToRunning(row: Row, p: nat, at: int) returns (moves: seq<Move>)
    requires row.flow.Some? && row.live == map[p := Token(ReplyRetry, at)]
    ensures ExceedsAfter(row, moves, at)
    decreases if Credit(row) > 0 then Credit(row) else 0, 3
  {
    var closing := Do(row, RetryReleases(p, RetryAgain), at);
    assert Unsent(row) == {} && Unsent(closing) == {};
    moves := CommittedExceeds(closing, p, at);
    moves := Before(row, at, at, RetryReleases(p, RetryAgain), moves);
  }

  lemma {:induction false} CommittedExceeds(row: Row, p: nat, at: int) returns (moves: seq<Move>)
    requires row.flow.Some? && row.claimedUntil <= at && row.live == map[p := Token(ReplyClosing(RetryAgain), at)]
    ensures ExceedsAfter(row, moves, at)
    decreases if Credit(row) > 0 then Credit(row) else 0, 2, 1
  {
    var running := Do(row, RetryCommits(p), at);
    assert running.live == map[] && Unsent(row) == {} && Unsent(running) == {};
    moves := RetryingExceeds(running, at, at);
    moves := Before(row, at, at, RetryCommits(p), moves);
  }

  lemma RunningExceeds(row: Row, from: int) returns (moves: seq<Move>)
    requires row.status == Running && row.flow.Some? && row.retrying && MayWait(row, from, from)
    ensures ExceedsAfter(row, moves, from)
  {
    var at := if row.claimedUntil > from then row.claimedUntil else from;
    moves := RetryingExceeds(row.(live := map[]), from, at);
    moves := KillThen(row, from, moves);
  }

  /** An agent run of an event that has a Flow Run can leave it Running with a retry. */
  lemma AgentExceeds(row: Row, now: int) returns (moves: seq<Move>)
    requires row.status == Queued && row.target == Agent && row.flow.Some? && MayWait(row, now, now)
    ensures ExceedsAfter(row, moves, now)
  {
    var t := Fresh(row.live.Keys);
    var running := Do(row, WorkerTakes(TakeAgent, t), now);
    var later := Do(running, AgentEnds(t, RetryLater), now);
    moves := RunningExceeds(later, now);
    moves := Before(running, now, now, AgentEnds(t, RetryLater), moves);
    moves := Before(row, now, now, WorkerTakes(TakeAgent, t), moves);
  }

  /** So can whatever may reopen an event, once that starts a Flow Run. */
  lemma StartedExceeds(row: Row, now: int) returns (moves: seq<Move>)
    requires row.status == Running && row.flow.Some? && Reopenable(row) && MayWait(row, now, now)
    ensures ExceedsAfter(row, moves, now)
  {
    if row.retrying {
      moves := RunningExceeds(row, now);
    } else if t :| t in row.live && Reopens(row.live[t].job) {
      moves := JobExceeds(row, t, now);
    } else {
      var p :| p in row.pending && row.pending[p].RetryDue?;
      moves := DueExceeds(row.(live := map[]), p, now);
      moves := KillThen(row, now, moves);
    }
  }

  lemma JobExceeds(row: Row, t: nat, now: int) returns (moves: seq<Move>)
    requires row.status == Running && row.flow.Some? && MayWait(row, now, now)
    requires t in row.live && Reopens(row.live[t].job)
    ensures ExceedsAfter(row, moves, now)
  {
    if row.live[t].job == AgentRun {
      moves := RunningExceeds(Do(row, AgentEnds(t, RetryLater), now), now);
      moves := Before(row, now, now, AgentEnds(t, RetryLater), moves);
    } else if row.live[t].job == ReplyRetry {
      var closing := Do(row, RetryReleases(t, RetryAgain), now);
      moves := ClosingExceeds(closing, t, now);
      moves := Before(row, now, now, RetryReleases(t, RetryAgain), moves);
    } else {
      moves := ClosingExceeds(row, t, now);
    }
  }

  lemma ClosingExceeds(row: Row, t: nat, now: int) returns (moves: seq<Move>)
    requires row.flow.Some? && MayWait(row, now, now) && Runs(row, t, ReplyClosing(RetryAgain))
    ensures ExceedsAfter(row, moves, now)
  {
    moves := RunningExceeds(Do(row, RetryCommits(t), now), now);
    moves := Before(row, now, now, RetryCommits(t), moves);
  }

  lemma DueExceeds(row: Row, p: nat, from: int) returns (moves: seq<Move>)
    requires row.status == Running && row.flow.Some? && row.live == map[]
    requires p in row.pending && row.pending[p].RetryDue?
    ensures ExceedsAfter(row, moves, from)
  {
    var at := if row.claimedUntil > from then row.claimedUntil else from;
    var claimed := Do(row, RetryStarts(p), at);
    moves := JobExceeds(claimed, p, at);
    moves := Before(row, from, at, RetryStarts(p), moves);
  }

  /** An action outside the guard can be followed by moves within it that end beyond the bound. */
  lemma OutsideExceeds(row: Row, a: Action, now: int)
    requires Paid(row) && Can(row, a, now) && MayWait(row, now, now) && !KeepsBound(row, a)
    ensures BoundBreaks(Do(row, a, now), now)
  {
    var next := Do(row, a, now);
    var moves;
    if a.Replay? && a.outcome == Enqueue(Agent) {
      moves := AgentExceeds(next, now);
    } else if a == Replay(Enqueue(Flow)) && row.flow.None? {
      moves := FlowExceeds(row, now);
    } else {
      moves := ClaimExceeds(next, now);
    }
    assert ExceedsAfter(next, moves, now);
  }

  lemma FlowExceeds(row: Row, now: int) returns (moves: seq<Move>)
    requires Can(row, Replay(Enqueue(Flow)), now) && MayWait(row, now, now) && row.flow.None? && Reopenable(row)
    ensures ExceedsAfter(Do(row, Replay(Enqueue(Flow)), now), moves, now)
  {
    var queued := Do(row, Replay(Enqueue(Flow)), now);
    var t := Fresh(queued.live.Keys);
    var started := Do(queued, WorkerTakes(StartRun(0), t), now);
    assert Reopenable(started) == Reopenable(row);
    moves := StartedExceeds(started, now);
    moves := Before(queued, now, now, WorkerTakes(StartRun(0), t), moves);
  }

  /** The exact condition: of everything that can happen to an event whose replies are paid for, exactly the actions
      outside the guard open a way beyond the bound that itself stays within the guard. */
  lemma BoundBreaksIff(row: Row, a: Action, now: int)
    requires Paid(row) && Can(row, a, now) && MayWait(row, now, now)
    ensures BoundBreaks(Do(row, a, now), now) <==> !KeepsBound(row, a)
  {
    if KeepsBound(row, a) {
      StaysPaid(row, a, now);
      forall moves | ExceedsAfter(Do(row, a, now), moves, now)
        ensures false
      {
        GuardedStaysPaid(Do(row, a, now), moves, now);
      }
    } else {
      OutsideExceeds(row, a, now);
    }
  }

  // ---- a run beyond the bound -------------------------------------------------------------------------

  /** The first reply is delivered but its send raises, so the event fails with no credit left. */
  lemma FirstReplyRaises() returns (started: Row, claimed: Row, sent: Row, failed: Row)
    ensures Step(Inserted(0).(status := Queued, target := Flow), WorkerTakes(StartRun(1), 0), started, 0)
    ensures Step(started, FlowCompletes(true, 0), claimed, 0) && Step(claimed, FlowReplySent(0), sent, 0)
    ensures Step(sent, FlowReplyEnds(0, false), failed, 0)
    ensures failed.status == Failed && failed.flow.Some? && failed.live == map[] && failed.pending == map[]
    ensures Credit(failed) == 0
  {
    started := Do(Inserted(0).(status := Queued, target := Flow), WorkerTakes(StartRun(1), 0), 0);
    claimed := Do(started, FlowCompletes(true, 0), 0);
    sent, failed := SendRaises(claimed, 0);
  }

  lemma SendRaises(row: Row, now: int) returns (sent: Row, failed: Row)
    requires row.flow.Some? && row.live == map[0 := Token(FlowReply(false), now)] && row.pending == map[]
    requires row.log.replies == row.log.reapedReplying
    ensures Step(row, FlowReplySent(0), sent, now) && Step(sent, FlowReplyEnds(0, false), failed, now)
    ensures failed.status == Failed && failed.flow.Some? && failed.live == map[] && failed.pending == map[]
    ensures Credit(failed) == 0
  {
    sent := Do(row, FlowReplySent(0), now);
    failed := Do(sent, FlowReplyEnds(0, false), now);
    assert failed.live == map[] && Unsent(failed) == {};
  }

  /** Such an event is dead-lettered and replayed into the queue, and a repeated completion answers again: two replies
      with nothing reaped. */
  lemma UncleanReplayRepliesTwice(row: Row, id: nat, now: int)
    returns (read: Row, dead: Row, queued: Row, claimed: Row, sent: Row)
    requires row.status == Failed && row.flow.Some? && row.live == map[] && id !in row.pending && Credit(row) == 0
    ensures Step(row, Unlocked(id, RemarkReads), read, now) && Step(read, Unlocked(id, RemarkWrites), dead, now)
    ensures Step(dead, Replay(Enqueue(Flow)), queued, now) && Step(queued, FlowCompletes(true, 0), claimed, now)
    ensures Step(claimed, FlowReplySent(0), sent, now) && Exceeded(sent)
  {
    read := Do(row, Unlocked(id, RemarkReads), now);
    dead := Do(read, Unlocked(id, RemarkWrites), now);
    queued := Do(dead, Replay(Enqueue(Flow)), now);
    assert Unsent(row) == {} && queued.log == row.log && queued.live == map[];
    claimed, sent := AnswersAgain(queued, now);
  }

  lemma AnswersAgain(row: Row, now: int) returns (claimed: Row, sent: Row)
    requires row.status == Queued && row.flow.Some? && row.live == map[]
    ensures Step(row, FlowCompletes(true, 0), claimed, now) && Step(claimed, FlowReplySent(0), sent, now)
    ensures sent.log == row.log.(replies := row.log.replies + 1)
  {
    claimed := Do(row, FlowCompletes(true, 0), now);
    sent := Do(claimed, FlowReplySent(0), now);
  }
}
