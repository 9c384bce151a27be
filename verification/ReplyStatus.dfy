/**
 The delivery status of a sent reply, merged from provider webhooks that may come late, twice or out
 of order (`_reply_status_wins`, `_update_reply_status`).
 */
module ReplyStatus {

  datatype Status = Unset | Sent | FailedDelivery | Delivered | Read | Played

  /** One status webhook: the message it is about, its status (none for a word the code does not know), its error
      text. */
  datatype Webhook = Webhook(messageId: string, status: Status, error: string)

  /** The event that sent the reply. */
  datatype Reply = Reply(status: Status, error: string)

  const DELIVERED := {Delivered, Read, Played}

  function Rank(s: Status): nat {
    match s
    case Sent => 1
    case Delivered => 2
    case Read => 3
    case Played => 4
    case _ => 0
  }

  /** Whether an incoming status may replace the stored one. */
  predicate Wins(current: Status, state: Status) {
    if state == FailedDelivery then current !in DELIVERED
    else if current == FailedDelivery then state in DELIVERED
    else Rank(state) >= Rank(current)
  }

  /** The position in the one chain behind `Wins`: unset < sent < failed < delivered < read < played. */
  function Height(s: Status): nat {
    match s
    case Unset => 0
    case Sent => 1
    case FailedDelivery => 2
    case Delivered => 3
    case Read => 4
    case Played => 5
  }

  function Merge(r: Reply, w: Webhook): Reply {
    if w.status == Unset || !Wins(r.status, w.status) then r
    else Reply(w.status, if w.status == FailedDelivery then w.error else if r.status == FailedDelivery then ""
      else r.error)
  }

  function MergeAll(r: Reply, ws: seq<Webhook>): Reply {
    if ws == [] then r else Merge(MergeAll(r, ws[..|ws| - 1]), ws[|ws| - 1])
  }

  class ReplyRow {
    const messageId: string
    var status: Status
    var error: string

    function Value(): Reply
      reads this
    {
      Reply(status, error)
    }

    constructor (messageId: string)
      ensures Value() == Reply(Unset, "") && this.messageId == messageId
    {
      this.messageId := messageId;
      status, error := Unset, "";
    }

    method UpdateReplyStatus(w: Webhook)
      modifies this
      ensures Value() == if w.messageId == messageId then Merge(old(Value()), w) else old(Value())
    {
      if w.status == Unset || w.messageId != messageId {
        return;
      }
      var current := status;
      if !Wins(current, w.status) {
        return;
      }
      status := w.status;
      if w.status == FailedDelivery {
        error := w.error;
      } else if current == FailedDelivery {
        error := "";
      }
    }

    method ApplyStatuses(ws: seq<Webhook>)
      requires forall k | 0 <= k < |ws| :: ws[k].messageId == messageId
      modifies this
      ensures Value() == MergeAll(old(Value()), ws)
    {
      for k := 0 to |ws|
        invariant Value() == MergeAll(old(Value()), ws[..k])
      {
        assert ws[..k + 1][..k] == ws[..k];
        UpdateReplyStatus(ws[k]);
      }
      assert ws[..|ws|] == ws;
    }
  }

  /** The rules of `Wins` are one total order. */
  lemma WinsIsTheChain(current: Status, state: Status)
    requires state != Unset
    ensures Wins(current, state) <==> Height(state) >= Height(current)
  {
  }

  /** What each incoming status replaces: "sent" and "failed" nothing that was delivered, "read" and "played" everything
      up to themselves. */
  lemma WinsTable(current: Status)
    ensures Wins(current, Sent) <==> current == Unset || current == Sent
    ensures Wins(current, FailedDelivery) <==> current == Unset || current == Sent || current == FailedDelivery
    ensures Wins(current, Delivered) <==> current != Read && current != Played
    ensures Wins(current, Read) <==> current != Played
    ensures Wins(current, Played)
  {
  }

  /** Some webhook of the run carries the status. */
  predicate Carries(ws: seq<Webhook>, s: Status) {
    exists k | 0 <= k < |ws| :: ws[k].status == s
  }

  /** The error texts are usable: a failed status comes with one. */
  predicate Explained(ws: seq<Webhook>) {
    forall k | 0 <= k < |ws| :: ws[k].status == FailedDelivery ==> ws[k].error != ""
  }

  /** The greatest of the status at the start and those carried. */
  ghost predicate IsGreatest(s: Status, start: Status, ws: seq<Webhook>) {
    && (s == start || Carries(ws, s))
    && Height(start) <= Height(s)
    && forall t | Carries(ws, t) :: Height(t) <= Height(s)
  }

  lemma CarriesSnoc(front: seq<Webhook>, last: Webhook, s: Status)
    ensures Carries(front + [last], s) <==> Carries(front, s) || last.status == s
  {
    var ws := front + [last];
    assert ws[|front|] == last;
    if Carries(front, s) {
      var k :| 0 <= k < |front| && front[k].status == s;
      assert ws[k].status == s;
    }
  }

  lemma GreatestSnoc(r: Reply, before: Reply, front: seq<Webhook>, last: Webhook)
    requires IsGreatest(before.status, r.status, front)
    ensures IsGreatest(Merge(before, last).status, r.status, front + [last])
  {
    var after := Merge(before, last).status;
    WinsIsTheChain(before.status, if last.status == Unset then Sent else last.status);
    CarriesSnoc(front, last, after);
    forall t | Carries(front + [last], t)
      ensures Height(t) <= Height(after)
    {
      CarriesSnoc(front, last, t);
    }
  }

  /** Any sequence of webhooks leaves the greatest status in the chain; with usable error texts, a reply whose error
      text is there exactly when its status is failed stays so. */
  lemma {:induction false} MergeIsMaximum(r: Reply, ws: seq<Webhook>)
    ensures IsGreatest(MergeAll(r, ws).status, r.status, ws)
    ensures Explained(ws) && (r.error != "" <==> r.status == FailedDelivery) ==>
              (MergeAll(r, ws).error != "" <==> MergeAll(r, ws).status == FailedDelivery)
  {
    if ws != [] {
      var front, last := ws[..|ws| - 1], ws[|ws| - 1];
      assert ws == front + [last];
      MergeIsMaximum(r, front);
      GreatestSnoc(r, MergeAll(r, front), front, last);
      assert Explained(ws) ==> Explained(front);
    }
  }

  /** A failed reply carries the error text of the last failure reported. */
  lemma {:induction false} LastFailureExplains(r: Reply, ws: seq<Webhook>, k: nat)
    requires k < |ws| && ws[k].status == FailedDelivery && MergeAll(r, ws).status == FailedDelivery
    requires forall j | k < j < |ws| :: ws[j].status != FailedDelivery
    ensures MergeAll(r, ws).error == ws[k].error
  {
    var front, last := ws[..|ws| - 1], ws[|ws| - 1];
    if k < |front| {
      WinsIsTheChain(MergeAll(r, front).status, if last.status == Unset then Sent else last.status);
      LastFailureExplains(r, front, k);
    }
  }

  /** Order and repetition do not matter: from any reply, two runs that carry the same statuses lead to the same one. */
  lemma OrderIndependent(r: Reply, ws: seq<Webhook>, vs: seq<Webhook>)
    requires forall s :: Carries(ws, s) <==> Carries(vs, s)
    ensures MergeAll(r, ws).status == MergeAll(r, vs).status
  {
    MergeIsMaximum(r, ws);
    MergeIsMaximum(r, vs);
    var a, b := MergeAll(r, ws).status, MergeAll(r, vs).status;
    assert Height(a) <= Height(b) by { assert a == r.status || Carries(vs, a); }
    assert Height(b) <= Height(a) by { assert b == r.status || Carries(ws, b); }
  }

  /** A permutation carries the same statuses. */
  lemma PermutationIsTheSame(r: Reply, ws: seq<Webhook>, vs: seq<Webhook>)
    requires multiset(ws) == multiset(vs)
    ensures MergeAll(r, ws).status == MergeAll(r, vs).status
  {
    forall s
      ensures Carries(ws, s) <==> Carries(vs, s)
    {
      if Carries(ws, s) {
        CarriedAcross(ws, vs, s);
      } else if Carries(vs, s) {
        CarriedAcross(vs, ws, s);
      }
    }
    OrderIndependent(r, ws, vs);
  }

  lemma CarriedAcross(ws: seq<Webhook>, vs: seq<Webhook>, s: Status)
    requires multiset(ws) == multiset(vs) && Carries(ws, s)
    ensures Carries(vs, s)
  {
    var k :| 0 <= k < |ws| && ws[k].status == s;
    assert ws[k] in multiset(ws);
    assert ws[k] in vs;
  }
}
