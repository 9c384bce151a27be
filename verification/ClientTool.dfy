/**
 The hand-off of a browser tool call: the waiting agent (`client_side_function`) and any number of
 submitting browsers (`submit_client_tool_result`) meet over three keys of one fresh correlation id:
 the request stash, the result list and the "already recorded" marker.  One step is one cache
 command; the steps of all parties interleave freely, and any command may fail.
 */
module ClientTool {

  const ERROR_LIMIT := 140

  /** What a browser submits: a result, and an error text that is empty when there is none. */
  datatype Submission = Submission(result: string, error: string)

  datatype Payload = Error(text: string) | Result(value: string)

  /** How the wait ended. */
  datatype Wait = Got(payload: Payload) | TimedOut | Lost

  /** The waiter: `Leaving` before it deletes the stash, `Emptying` before it deletes the result list. */
  datatype Waiter = Idle | Refused | Waiting | Leaving(wait: Wait) | Emptying(wait: Wait) | Finished(wait: Wait)

  datatype Answer = Unreachable | Expired | NotPermitted | AlreadyRecorded | Undelivered | Recorded

  /** A submitter: past the stash, past the marker check, past its push, or answered. */
  datatype Submitter =
    | Authorized(sub: Submission)
    | Unrecorded(sub: Submission)
    | Pushed(sub: Submission)
    | Answered(answer: Answer)

  datatype Push = Push(author: nat, sub: Submission)

  /** The keys, the parties, and the history: all pushes in order, the submitters whose marker check came before the
      first marker write, and those whose check failed on the cache after it. */
  datatype Channel = Channel(stash: bool, results: seq<Payload>, done: bool, waiter: Waiter, subs: map<nat, Submitter>,
                             pushes: seq<Push>, early: set<nat>, blind: set<nat>)

  datatype Action =
    | Open(ok: bool)
    | Pop
    | TimeOut
    | LoseConnection
    | Close(ok: bool)
    | Empty(ok: bool)
    | ReadStash(id: nat, sub: Submission, permitted: bool, ok: bool)
    | CheckMarker(id: nat, ok: bool)
    | PushResult(id: nat, ok: bool)
    | MarkRecorded(id: nat, ok: bool)

  const FRESH := Channel(false, [], false, Idle, map[], [], {}, {})

  function Cut(text: string): string {
    if |text| <= ERROR_LIMIT then text else text[..ERROR_LIMIT]
  }

  function Encode(sub: Submission): Payload {
    if sub.error != "" then Error(Cut(sub.error)) else Result(sub.result)
  }

  // ---- the waiter's and the submitters' steps ----------------------------------------------------------

  function WaiterStep(c: Channel, a: Action): Channel {
    match a
    case Open(ok) => if !c.waiter.Idle? then c else if ok then c.(stash := true, waiter := Waiting)
      else c.(waiter := Refused)
    case Pop => if c.waiter.Waiting? && c.results != []
                then c.(results := c.results[1..], waiter := Leaving(Got(c.results[0]))) else c
    case TimeOut => if c.waiter.Waiting? && c.results == [] then c.(waiter := Leaving(TimedOut)) else c
    case LoseConnection => if c.waiter.Waiting? then c.(waiter := Leaving(Lost)) else c
    case Close(ok) => if !c.waiter.Leaving? then c else
      c.(stash := c.stash && !ok, waiter := if c.waiter.wait.Got? then Emptying(c.waiter.wait)
        else Finished(c.waiter.wait))
    case Empty(ok) => if !c.waiter.Emptying? then c else
      c.(results := if ok then [] else c.results, waiter := Finished(c.waiter.wait))
    case _ => c
  }

  function Read(c: Channel, id: nat, sub: Submission, permitted: bool, ok: bool): Channel {
    if id in c.subs then c
    else c.(subs := c.subs[id := if !ok then Answered(Unreachable) else if !c.stash then Answered(Expired)
                                 else if !permitted then Answered(NotPermitted) else Authorized(sub)])
  }

  function Check(c: Channel, id: nat, ok: bool): Channel {
    if id !in c.subs || !c.subs[id].Authorized? then c
    else if ok && c.done then c.(subs := c.subs[id := Answered(AlreadyRecorded)])
    else c.(subs := c.subs[id := Unrecorded(c.subs[id].sub)],
            early := c.early + (if c.done then {} else {id}), blind := c.blind + (if c.done then {id} else {}))
  }

  function Deliver(c: Channel, id: nat, ok: bool): Channel {
    if id !in c.subs || !c.subs[id].Unrecorded? then c
    else if !ok then c.(subs := c.subs[id := Answered(Undelivered)])
    else c.(results := c.results + [Encode(c.subs[id].sub)], pushes := c.pushes + [Push(id, c.subs[id].sub)],
            subs := c.subs[id := Pushed(c.subs[id].sub)])
  }

  function Mark(c: Channel, id: nat, ok: bool): Channel {
    if id !in c.subs || !c.subs[id].Pushed? then c
    else c.(done := c.done || ok, subs := c.subs[id := Answered(if ok then Recorded else Undelivered)])
  }

  function Step(c: Channel, a: Action): Channel {
    match a
    case ReadStash(id, sub, permitted, ok) => Read(c, id, sub, permitted, ok)
    case CheckMarker(id, ok) => Check(c, id, ok)
    case PushResult(id, ok) => Deliver(c, id, ok)
    case MarkRecorded(id, ok) => Mark(c, id, ok)
    case _ => WaiterStep(c, a)
  }

  function Run(c: Channel, actions: seq<Action>): Channel
    decreases |actions|
  {
    if actions == [] then c else Run(Step(c, actions[0]), actions[1..])
  }

  /** One submitter that runs without interruption on a working cache. */
  function Submit(c: Channel, id: nat, sub: Submission, permitted: bool): Channel {
    Mark(Deliver(Check(Read(c, id, sub, permitted, true), id, true), id, true), id, true)
  }

  // ---- the commands as the two functions issue them ----------------------------------------------------

  /** The shared keys, with the control points of the waiter and the submitters. */
  class Handoff {
    var stash: bool
    var results: seq<Payload>
    var done: bool
    var waiter: Waiter
    var subs: map<nat, Submitter>
    ghost var pushes: seq<Push>
    ghost var early: set<nat>
    ghost var blind: set<nat>

    ghost function Snapshot(): Channel
      reads this
    {
      Channel(stash, results, done, waiter, subs, pushes, early, blind)
    }

    constructor ()
      ensures Snapshot() == FRESH
    {
      stash, results, done, waiter, subs := false, [], false, Idle, map[];
      pushes, early, blind := [], {}, {};
    }

    method StashRequest(ok: bool)
      requires waiter.Idle?
      modifies this
      ensures Snapshot() == Step(old(Snapshot()), Open(ok))
    {
      if ok {
        stash := true;
        waiter := Waiting;
      } else {
        waiter := Refused;
      }
    }

    /** What `blpop` returned; the caller names the timeout, which needs an empty list, or a lost connection. */
    method BlockingPop(a: Action)
      requires waiter.Waiting? && (a.Pop? || a.TimeOut? || a.LoseConnection?)
      requires a.Pop? <==> results != [] && !a.LoseConnection?
      modifies this
      ensures Snapshot() == Step(old(Snapshot()), a)
    {
      if a.Pop? {
        waiter := Leaving(Got(results[0]));
        results := results[1..];
      } else {
        waiter := Leaving(if a.TimeOut? then TimedOut else Lost);
      }
    }

    method CleanUp(stashDeleted: bool, listDeleted: bool) returns (report: Wait)
      requires waiter.Leaving?
      modifies this
      ensures Snapshot() == Step(Step(old(Snapshot()), Close(stashDeleted)), Empty(listDeleted))
      ensures waiter == Finished(report)
    {
      report := waiter.wait;
      if stashDeleted {
        stash := false;
      }
      if report.Got? && listDeleted {
        results := [];
      }
      waiter := Finished(report);
    }

    /** The whole of `submit_client_tool_result`, uninterrupted. */
    method SubmitClientToolResult(id: nat, sub: Submission, permitted: bool) returns (answer: Answer)
      requires id !in subs
      modifies this
      ensures Snapshot() == Submit(old(Snapshot()), id, sub, permitted)
      ensures subs[id] == Answered(answer)
    {
      if !stash {
        answer := Expired;
      } else if !permitted {
        answer := NotPermitted;
      } else if done {
        answer := AlreadyRecorded;
      } else {
        var payload := if sub.error != "" then Error(Cut(sub.error)) else Result(sub.result);
        results := results + [payload];
        done := true;
        answer := Recorded;
        pushes, early := pushes + [Push(id, sub)], early + {id};
      }
      subs := subs[id := Answered(answer)];
    }
  }

  // ---- invariants --------------------------------------------------------------------------------------

  function Payloads(pushes: seq<Push>): seq<Payload> {
    seq(|pushes|, k requires 0 <= k < |pushes| => Encode(pushes[k].sub))
  }

  /** Until the waiter pops, the list is what was pushed; what it pops is the first push. */
  ghost predicate Ordered(c: Channel) {
    match c.waiter
    case Idle => c.results == Payloads(c.pushes)
    case Refused => true
    case Waiting => c.results == Payloads(c.pushes)
    case Leaving(w) => First(w, c.pushes)
    case Emptying(w) => First(w, c.pushes)
    case Finished(w) => First(w, c.pushes)
  }

  ghost predicate First(w: Wait, pushes: seq<Push>) {
    w.Got? ==> pushes != [] && w.payload == Encode(pushes[0].sub)
  }

  /** Who pushed is past the push and had passed the marker check. */
  predicate AuthorSettled(c: Channel, p: Push) {
    p.author in c.subs && (c.subs[p.author].Pushed? || c.subs[p.author].Answered?) && p.author in c.early + c.blind
  }

  /** Who is past the marker check is counted. */
  predicate CheckCounted(c: Channel, id: nat) {
    id in c.subs && c.subs[id].Unrecorded? ==> id in c.early + c.blind
  }

  ghost predicate Authored(c: Channel) {
    && (forall p | p in c.pushes :: AuthorSettled(c, p))
    && (forall j, k | 0 <= j < k < |c.pushes| :: c.pushes[j].author != c.pushes[k].author)
    && (forall id :: CheckCounted(c, id))
  }

  lemma StepStaysAuthored(c: Channel, a: Action)
    requires Authored(c)
    ensures Authored(Step(c, a))
  {
    var next := Step(c, a);
    forall p | p in next.pushes
      ensures AuthorSettled(next, p)
    {
      SettlingStays(c, a, p);
    }
    forall id
      ensures CheckCounted(next, id)
    {
      assert CheckCounted(c, id);
    }
    DistinctAuthors(c, a);
  }

  lemma SettlingStays(c: Channel, a: Action, p: Push)
    requires Authored(c) && p in Step(c, a).pushes
    ensures AuthorSettled(Step(c, a), p)
  {
    assert p in c.pushes ==> AuthorSettled(c, p);
    assert CheckCounted(c, p.author);
  }

  lemma DistinctAuthors(c: Channel, a: Action)
    requires Authored(c)
    ensures var next := Step(c, a);
            forall j, k | 0 <= j < k < |next.pushes| :: next.pushes[j].author != next.pushes[k].author
  {
    var next := Step(c, a);
    if next.pushes != c.pushes {
      forall j | 0 <= j < |c.pushes|
        ensures c.pushes[j].author != a.id
      {
        assert AuthorSettled(c, c.pushes[j]);
      }
    }
  }

  /** Both invariants hold after every run. */
  lemma {:induction false} RunStaysSound(c: Channel, actions: seq<Action>)
    requires Ordered(c) && Authored(c)
    ensures Ordered(Run(c, actions)) && Authored(Run(c, actions))
    decreases |actions|
  {
    if actions != [] {
      StepStaysAuthored(c, actions[0]);
      RunStaysSound(Step(c, actions[0]), actions[1..]);
    }
  }

  // ---- who may push ------------------------------------------------------------------------------------

  /** The submitter read the stash while it was there, permitted, at some step of the run. */
  ghost predicate ReadPermitted(c: Channel, actions: seq<Action>, id: nat, sub: Submission) {
    exists k :: 0 <= k < |actions| && actions[k] == ReadStash(id, sub, true, true) && Run(c, actions[..k]).stash
  }

  /** What the submitter is about to push, or has pushed. */
  predicate Holds(c: Channel, id: nat, sub: Submission) {
    || (id in c.subs && c.subs[id] in {Authorized(sub), Unrecorded(sub), Pushed(sub)})
    || Push(id, sub) in c.pushes
  }

  lemma ReadLater(c: Channel, actions: seq<Action>, id: nat, sub: Submission)
    requires actions != [] && ReadPermitted(Step(c, actions[0]), actions[1..], id, sub)
    ensures ReadPermitted(c, actions, id, sub)
  {
    var rest := actions[1..];
    var k :| 0 <= k < |rest| && rest[k] == ReadStash(id, sub, true, true) && Run(Step(c, actions[0]), rest[..k]).stash;
    assert actions[..k + 1][1..] == rest[..k] && actions[k + 1] == rest[k];
  }

  lemma StepHolds(c: Channel, a: Action, id: nat, sub: Submission)
    requires Holds(Step(c, a), id, sub)
    ensures Holds(c, id, sub) || (a == ReadStash(id, sub, true, true) && c.stash)
  {
  }

  lemma {:induction false} HoldsWasRead(c: Channel, actions: seq<Action>, id: nat, sub: Submission)
    requires Holds(Run(c, actions), id, sub)
    ensures Holds(c, id, sub) || ReadPermitted(c, actions, id, sub)
    decreases |actions|
  {
    if actions != [] {
      HoldsWasRead(Step(c, actions[0]), actions[1..], id, sub);
      if Holds(Step(c, actions[0]), id, sub) {
        StepHolds(c, actions[0], id, sub);
        assert actions[..0] == [];
      } else {
        ReadLater(c, actions, id, sub);
      }
    }
  }

  /** Every push, of any run, is what a submitter brought that was permitted and found the stash. */
  lemma PushesArePermitted(actions: seq<Action>, p: Push)
    requires p in Run(FRESH, actions).pushes
    ensures ReadPermitted(FRESH, actions, p.author, p.sub)
  {
    assert Holds(Run(FRESH, actions), p.author, p.sub);
    HoldsWasRead(FRESH, actions, p.author, p.sub);
  }

  /** What a submitter has been told: "recorded" only after its push, with the marker written, and every refusal only
      without one. */
  predicate ToldTruly(c: Channel, id: nat) {
    && (HasPushed(c, id) ==> id in c.subs)
    && (id in c.subs ==>
          && (c.subs[id] == Answered(Recorded) || c.subs[id].Pushed? ==> HasPushed(c, id))
          && (c.subs[id] == Answered(Recorded) ==> c.done)
          && (Refusal(c.subs[id]) || c.subs[id].Authorized? || c.subs[id].Unrecorded? ==> !HasPushed(c, id)))
  }

  predicate Refusal(s: Submitter) {
    s in {Answered(Unreachable), Answered(Expired), Answered(NotPermitted), Answered(AlreadyRecorded)}
  }

  predicate HasPushed(c: Channel, id: nat) {
    exists k | 0 <= k < |c.pushes| :: c.pushes[k].author == id
  }

  lemma PushSeen(c: Channel, a: Action, id: nat)
    ensures HasPushed(Step(c, a), id) <==>
              HasPushed(c, id) || (a == PushResult(id, true) && id in c.subs && c.subs[id].Unrecorded?)
  {
    var next := Step(c, a);
    if next.pushes != c.pushes {
      assert next.pushes[|c.pushes|].author == a.id;
      assert forall k | 0 <= k < |c.pushes| :: next.pushes[k] == c.pushes[k];
    }
  }

  lemma {:induction false} StaysTrue(c: Channel, actions: seq<Action>, id: nat)
    requires ToldTruly(c, id)
    ensures ToldTruly(Run(c, actions), id)
    decreases |actions|
  {
    if actions != [] {
      PushSeen(c, actions[0], id);
      StaysTrue(Step(c, actions[0]), actions[1..], id);
    }
  }

  /** So it is in every run. */
  lemma AnswersAreTrue(actions: seq<Action>, id: nat)
    ensures var c := Run(FRESH, actions);
            id in c.subs ==>
              && (c.subs[id] == Answered(Recorded) ==> HasPushed(c, id) && c.done)
              && (Refusal(c.subs[id]) ==> !HasPushed(c, id))
  {
    StaysTrue(FRESH, actions, id);
  }

  /** A submitter is turned away as expired exactly when the stash is gone, and as not permitted only when it is
      there. */
  lemma TurnedAwayIff(c: Channel, id: nat, sub: Submission, permitted: bool, ok: bool)
    requires id !in c.subs
    ensures var told := Step(c, ReadStash(id, sub, permitted, ok)).subs[id];
            && (told == Answered(Unreachable) <==> !ok)
            && (told == Answered(Expired) <==> ok && !c.stash)
            && (told == Answered(NotPermitted) <==> ok && c.stash && !permitted)
            && (told == Authorized(sub) <==> ok && c.stash && permitted)
  {
  }

  /** How a submitter that was let in goes on: it stops at a marker it can read, tells a failing push or mark, and
      otherwise delivers its own result and writes the marker. */
  lemma SubmitterGoesOn(c: Channel, id: nat, ok: bool)
    requires id in c.subs
    ensures c.subs[id].Authorized? ==>
              Step(c, CheckMarker(id, ok)).subs[id] ==
                if ok && c.done then Answered(AlreadyRecorded) else Unrecorded(c.subs[id].sub)
    ensures c.subs[id].Unrecorded? ==>
              var next := Step(c, PushResult(id, ok));
              && next.subs[id] == (if ok then Pushed(c.subs[id].sub) else Answered(Undelivered))
              && next.pushes == c.pushes + (if ok then [Push(id, c.subs[id].sub)] else [])
    ensures c.subs[id].Pushed? ==>
              var next := Step(c, MarkRecorded(id, ok));
              next.subs[id] == Answered(if ok then Recorded else Undelivered) && next.done == (c.done || ok)
  {
  }

  /** How a wait ends: with the oldest result, with a timeout when there is none, or with the connection. */
  lemma WaitEnds(c: Channel)
    requires c.waiter.Waiting?
    ensures c.results != [] ==> Step(c, Pop).waiter == Leaving(Got(c.results[0])) && Step(c, TimeOut) == c
    ensures c.results == [] ==> Step(c, TimeOut).waiter == Leaving(TimedOut) && Step(c, Pop) == c
    ensures Step(c, LoseConnection).waiter == Leaving(Lost)
  {
  }

  // ---- the first result wins ---------------------------------------------------------------------------

  /** After any run, a waiter that reports a payload reports that of the first push; and a waiter that can still time
      out has had no push at all. */
  lemma FirstResultWins(actions: seq<Action>)
    ensures var c := Run(FRESH, actions);
            && (c.waiter.Finished? && c.waiter.wait.Got? ==>
                  c.pushes != [] && c.waiter.wait.payload == Encode(c.pushes[0].sub))
            && (Step(c, TimeOut) != c ==> c.pushes == [])
  {
    assert Payloads(FRESH.pushes) == [];
    RunStaysSound(FRESH, actions);
    var c := Run(FRESH, actions);
    assert |Payloads(c.pushes)| == |c.pushes|;
  }

  /** A waiter that could not leave its request does not wait: it gives up at once, for good, and nobody finds a
      stash. */
  lemma {:induction false} UnstashedNeverWaits(c: Channel, actions: seq<Action>)
    requires c.waiter == Refused && !c.stash
    ensures Run(c, actions).waiter == Refused && !Run(c, actions).stash
    ensures Step(FRESH, Open(false)).waiter == Refused && !Step(FRESH, Open(false)).stash
    decreases |actions|
  {
    if actions != [] {
      UnstashedNeverWaits(Step(c, actions[0]), actions[1..]);
    }
  }

  /** A waiter that got its result empties the list behind it, if the command gets through. */
  lemma ResultListEmptied(c: Channel, ok: bool)
    requires c.waiter.Emptying?
    ensures Step(c, Empty(ok)).waiter == Finished(c.waiter.wait)
    ensures Step(c, Empty(ok)).results == if ok then [] else c.results
  {
  }

  // ---- late submitters ---------------------------------------------------------------------------------

  /** The waiter has left and its stash is gone. */
  predicate Gone(c: Channel) {
    !c.stash && !c.waiter.Idle? && !c.waiter.Waiting?
  }

  /** The submitter will not push any more. */
  predicate Silent(c: Channel, id: nat) {
    (id in c.subs ==> c.subs[id].Answered?) && forall p | p in c.pushes :: p.author != id
  }

  /** A submitter that first reads the stash after the waiter deleted it never pushes, whatever happens later. */
  lemma {:induction false} LateSubmitterPushesNothing(c: Channel, actions: seq<Action>, id: nat)
    requires Gone(c) && Silent(c, id)
    ensures Silent(Run(c, actions), id)
    decreases |actions|
  {
    if actions != [] {
      var next := Step(c, actions[0]);
      assert Gone(next) && Silent(next, id);
      LateSubmitterPushesNothing(next, actions[1..], id);
    }
  }

  /** When its delete succeeds, the leaving waiter does close the door. */
  lemma LeavingCloses(c: Channel)
    requires c.waiter.Leaving?
    ensures Gone(Step(c, Close(true)))
    ensures Gone(Step(c, Close(false))) <==> !c.stash
  {
  }

  // ---- how many pushes ---------------------------------------------------------------------------------

  /** Once the marker is written, no further submitter counts as early. */
  lemma {:induction false} MarkerEndsEarly(c: Channel, actions: seq<Action>)
    requires c.done
    ensures Run(c, actions).done && Run(c, actions).early == c.early
    decreases |actions|
  {
    if actions != [] {
      assert Step(c, actions[0]).done && Step(c, actions[0]).early == c.early;
      MarkerEndsEarly(Step(c, actions[0]), actions[1..]);
    }
  }

  lemma {:induction false} DistinctFit(pushes: seq<Push>, ids: set<nat>)
    requires forall p | p in pushes :: p.author in ids
    requires forall j, k | 0 <= j < k < |pushes| :: pushes[j].author != pushes[k].author
    ensures |pushes| <= |ids|
  {
    if pushes != [] {
      var front, last := pushes[..|pushes| - 1], pushes[|pushes| - 1];
      DistinctFit(front, ids - {last.author});
    }
  }

  /** There are at most as many pushes as submitters whose marker check came before the first marker write, plus those
      whose check the cache refused later. */
  lemma PushesBounded(actions: seq<Action>)
    ensures var c := Run(FRESH, actions); |c.pushes| <= |c.early| + |c.blind|
  {
    assert Payloads(FRESH.pushes) == [];
    RunStaysSound(FRESH, actions);
    var c := Run(FRESH, actions);
    forall p | p in c.pushes
      ensures p.author in c.early + c.blind
    {
      assert AuthorSettled(c, p);
    }
    DistinctFit(c.pushes, c.early + c.blind);
    assert |c.early + c.blind| <= |c.early| + |c.blind|;
  }

  lemma RunSnoc(c: Channel, actions: seq<Action>, a: Action)
    ensures Run(c, actions + [a]) == Step(Run(c, actions), a)
    decreases |actions|
  {
    if actions == [] {
      assert [a][1..] == [];
    } else {
      assert (actions + [a])[1..] == actions[1..] + [a];
      RunSnoc(Step(c, actions[0]), actions[1..], a);
    }
  }

  /** Two overlapping submitters that have both read the stash can both push: the bound is met. */
  lemma BothPushExample(a: Submission, b: Submission) returns (actions: seq<Action>)
    ensures Run(FRESH, actions).pushes == [Push(0, a), Push(1, b)]
  {
    var before := BothAuthorized(a, b);
    RunSnoc(FRESH, before, CheckMarker(0, true));
    actions := before + [CheckMarker(0, true)];
    RunSnoc(FRESH, actions, CheckMarker(1, true));
    actions := actions + [CheckMarker(1, true)];
    RunSnoc(FRESH, actions, PushResult(0, true));
    actions := actions + [PushResult(0, true)];
    RunSnoc(FRESH, actions, PushResult(1, true));
    actions := actions + [PushResult(1, true)];
  }

  lemma BothAuthorized(a: Submission, b: Submission) returns (before: seq<Action>)
    ensures var c := Run(FRESH, before);
            && !c.done && c.pushes == [] && 0 in c.subs && 1 in c.subs
            && c.subs[0] == Authorized(a) && c.subs[1] == Authorized(b)
  {
    RunSnoc(FRESH, [], Open(true));
    before := [] + [Open(true)];
    RunSnoc(FRESH, before, ReadStash(0, a, true, true));
    before := before + [ReadStash(0, a, true, true)];
    RunSnoc(FRESH, before, ReadStash(1, b, true, true));
    before := before + [ReadStash(1, b, true, true)];
  }

  /** Between submissions that do not overlap, the marker is there exactly when something was pushed. */
  predicate AtRest(c: Channel) {
    && (c.pushes == [] <==> !c.done) && |c.pushes| <= 1
    && forall id | id in c.subs :: c.subs[id].Answered?
  }

  /** Submissions one after the other, with any waiter steps between them. */
  datatype Turn = Browser(id: nat, sub: Submission, permitted: bool) | Agent(action: Action)

  function TakeTurn(c: Channel, t: Turn): Channel {
    match t
    case Browser(id, sub, permitted) => Submit(c, id, sub, permitted)
    case Agent(a) => WaiterStep(c, a)
  }

  function TakeTurns(c: Channel, turns: seq<Turn>): Channel
    decreases |turns|
  {
    if turns == [] then c else TakeTurns(TakeTurn(c, turns[0]), turns[1..])
  }

  /** Submitters that do not overlap push at most one result between them. */
  lemma {:induction false} OneAtATimePushesOnce(c: Channel, turns: seq<Turn>)
    requires AtRest(c)
    ensures AtRest(TakeTurns(c, turns)) && |TakeTurns(c, turns).pushes| <= 1
    decreases |turns|
  {
    if turns != [] {
      OneAtATimePushesOnce(TakeTurn(c, turns[0]), turns[1..]);
    }
  }

  // ---- what the agent reports --------------------------------------------------------------------------

  datatype CallRow = Completed(output: string) | Failed(error: string)

  function Reported(w: Wait): CallRow {
    match w
    case Got(Error(text)) => if text != "" then Failed(text) else Completed("")
    case Got(Result(value)) => Completed(value)
    case TimedOut => Failed("Timed out")
    case Lost => Failed("Lost connection")
  }

  /** Without a result the call has failed. */
  lemma NoResultFails(w: Wait)
    requires w.TimedOut? || w.Lost?
    ensures Reported(w).Failed? && Reported(w).error != ""
  {
  }

  /** The call row ends as the first pusher said: failed with its error text cut at the limit if it gave one, else
      completed with its result. */
  lemma ReportedAsSubmitted(actions: seq<Action>)
    requires var c := Run(FRESH, actions); c.waiter.Finished? && c.waiter.wait.Got?
    ensures var c := Run(FRESH, actions);
            c.pushes != [] && var sub := c.pushes[0].sub;
            Reported(c.waiter.wait) ==
              if sub.error == "" then Completed(sub.result)
              else if |sub.error| <= ERROR_LIMIT then Failed(sub.error) else Failed(sub.error[..ERROR_LIMIT])
  {
    FirstResultWins(actions);
  }
}
