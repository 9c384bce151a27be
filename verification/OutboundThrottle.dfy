/**
 The per-gateway outbound throttle (`_throttle_outbound_send`).  Times are seconds as reals; the
 table of next allowed times is read and advanced under one lock, the waiting happens outside it.
 */
module OutboundThrottle {

  /** One throttled send: the gateway, its declared rate, and the clock when the lock was taken. */
  datatype Call = Call(gateway: string, rate: real, now: real)

  function Max(a: real, b: real): real {
    if a >= b then a else b
  }

  function NextAllowed(table: map<string, real>, gateway: string): real {
    if gateway in table then table[gateway] else 0.0
  }

  /** When a call's message goes out. */
  function SendTime(table: map<string, real>, c: Call): real {
    if c.rate <= 0.0 then c.now else Max(c.now, NextAllowed(table, c.gateway))
  }

  function Reserve(table: map<string, real>, c: Call): map<string, real> {
    if c.rate <= 0.0 then table else table[c.gateway := SendTime(table, c) + 1.0 / c.rate]
  }

  class Throttle {
    var nextAllowed: map<string, real>

    constructor ()
      ensures nextAllowed == map[]
    {
      nextAllowed := map[];
    }

    /** Returns how long the caller sleeps before it sends. */
    method ThrottleOutboundSend(c: Call) returns (wait: real)
      modifies this
      ensures nextAllowed == Reserve(old(nextAllowed), c)
      ensures wait >= 0.0 && c.now + wait == SendTime(old(nextAllowed), c)
    {
      if c.rate <= 0.0 {
        return 0.0;
      }
      var minInterval := 1.0 / c.rate;
      var next := if c.gateway in nextAllowed then nextAllowed[c.gateway] else 0.0;
      wait := Max(0.0, next - c.now);
      nextAllowed := nextAllowed[c.gateway := Max(c.now, next) + minInterval];
    }
  }

  /** The table after the first `n` calls, in lock order. */
  function TableAfter(calls: seq<Call>, n: nat): map<string, real>
    requires n <= |calls|
  {
    if n == 0 then map[] else Reserve(TableAfter(calls, n - 1), calls[n - 1])
  }

  function SentAt(calls: seq<Call>, k: nat): real
    requires k < |calls|
  {
    SendTime(TableAfter(calls, k), calls[k])
  }

  /** Calls of gateway `g`, all at its one positive rate; other gateways may do as they like. */
  predicate Declared(calls: seq<Call>, g: string, rate: real) {
    rate > 0.0 && forall k | 0 <= k < |calls| && calls[k].gateway == g :: calls[k].rate == rate
  }

  /** Any later send of the gateway finds its slot at least one interval after an earlier one. */
  lemma {:induction false} SlotMoves(calls: seq<Call>, g: string, rate: real, i: nat, n: nat)
    requires Declared(calls, g, rate) && i < n <= |calls| && calls[i].gateway == g
    ensures NextAllowed(TableAfter(calls, n), g) >= SentAt(calls, i) + 1.0 / rate
    decreases n
  {
    if n - 1 > i {
      SlotMoves(calls, g, rate, i, n - 1);
      assert 1.0 / rate > 0.0;
    }
  }

  /** Two sends of one gateway are at least 1/rate apart, whatever the clock readings and the other gateways' calls. */
  lemma SendsAreApart(calls: seq<Call>, g: string, rate: real, i: nat, j: nat)
    requires Declared(calls, g, rate) && i < j < |calls| && calls[i].gateway == calls[j].gateway == g
    ensures SentAt(calls, j) >= SentAt(calls, i) + 1.0 / rate
  {
    SlotMoves(calls, g, rate, i, j);
  }

  /** Increasing positions of calls of gateway `g`. */
  predicate CallsOf(calls: seq<Call>, g: string, ps: seq<nat>) {
    && (forall k | 0 <= k < |ps| :: ps[k] < |calls| && calls[ps[k]].gateway == g)
    && (forall a, b | 0 <= a < b < |ps| :: ps[a] < ps[b])
  }

  /** Times that are each at least one interval after the one before. */
  predicate Spaced(ts: seq<real>, rate: real) {
    rate > 0.0 && forall k | 0 < k < |ts| :: ts[k] >= ts[k - 1] + 1.0 / rate
  }

  /** The b-th time after the first is at least b intervals later. */
  lemma {:induction false} IntervalsAddUp(ts: seq<real>, rate: real, b: nat)
    requires Spaced(ts, rate) && b < |ts|
    ensures (ts[b] - ts[0]) * rate >= b as real
  {
    if b > 0 {
      IntervalsAddUp(ts, rate, b - 1);
      OneMoreInterval(ts[b], ts[b - 1], ts[0], rate, b as real);
    }
  }

  lemma OneMoreInterval(t: real, before: real, first: real, rate: real, b: real)
    requires rate > 0.0 && t >= before + 1.0 / rate && (before - first) * rate >= b - 1.0
    ensures (t - first) * rate >= b
  {
    assert (1.0 / rate) * rate == 1.0;
    assert (t - before - 1.0 / rate) * rate >= 0.0;
    assert (t - first) * rate == (t - before - 1.0 / rate) * rate + (1.0 / rate) * rate + (before - first) * rate;
  }

  lemma ScaleUp(a: real, b: real, rate: real)
    requires a <= b && rate > 0.0
    ensures a * rate <= b * rate
  {
    assert (b - a) * rate >= 0.0;
    assert (b - a) * rate == b * rate - a * rate;
  }

  /** A window of length `w` holds at most floor(w * rate) + 1 sends of a gateway. */
  lemma WindowBound(calls: seq<Call>, g: string, rate: real, ps: seq<nat>, from: real, w: real)
    requires Declared(calls, g, rate) && CallsOf(calls, g, ps) && w >= 0.0
    requires forall k | 0 <= k < |ps| :: from <= SentAt(calls, ps[k]) <= from + w
    ensures |ps| <= (w * rate).Floor + 1
  {
    var ts := seq(|ps|, k requires 0 <= k < |ps| => SentAt(calls, ps[k]));
    forall k | 0 < k < |ps|
      ensures ts[k] >= ts[k - 1] + 1.0 / rate
    {
      SendsAreApart(calls, g, rate, ps[k - 1], ps[k]);
    }
    SpacedWindow(ts, rate, from, w);
  }

  lemma SpacedWindow(ts: seq<real>, rate: real, from: real, w: real)
    requires Spaced(ts, rate) && w >= 0.0 && forall k | 0 <= k < |ts| :: from <= ts[k] <= from + w
    ensures |ts| <= (w * rate).Floor + 1
  {
    if ts == [] {
      ScaleUp(0.0, w, rate);
    } else {
      var last := |ts| - 1;
      IntervalsAddUp(ts, rate, last);
      ScaleUp(ts[last] - ts[0], w, rate);
      assert last as real <= w * rate;
      assert (last as real).Floor == last;
    }
  }

  /** A gateway that has been idle for an interval is not delayed, nor is its first send. */
  lemma {:induction false} SlotIsLastSend(calls: seq<Call>, g: string, rate: real, n: nat)
    requires Declared(calls, g, rate) && n <= |calls|
    ensures g !in TableAfter(calls, n) ==> forall k | 0 <= k < n :: calls[k].gateway != g
    ensures g in TableAfter(calls, n) ==>
              exists k :: 0 <= k < n && calls[k].gateway == g
                && TableAfter(calls, n)[g] == SentAt(calls, k) + 1.0 / rate
    decreases n
  {
    if n > 0 {
      SlotIsLastSend(calls, g, rate, n - 1);
      if calls[n - 1].gateway == g {
        assert TableAfter(calls, n)[g] == SentAt(calls, n - 1) + 1.0 / rate;
      } else if g in TableAfter(calls, n) {
        var k :| 0 <= k < n - 1 && calls[k].gateway == g
          && TableAfter(calls, n - 1)[g] == SentAt(calls, k) + 1.0 / rate;
      }
    }
  }

  /** A send goes out at its own time or one interval after the gateway's previous send, whichever is later. */
  lemma {:induction false} NextSlot(calls: seq<Call>, g: string, rate: real, k: nat, n: nat)
    requires Declared(calls, g, rate) && k < n <= |calls| && calls[k].gateway == g
    requires forall j | k < j < n :: calls[j].gateway != g
    ensures g in TableAfter(calls, n) && TableAfter(calls, n)[g] == SentAt(calls, k) + 1.0 / rate
    ensures n < |calls| && calls[n].gateway == g ==>
              var slot := SentAt(calls, k) + 1.0 / rate;
              SentAt(calls, n) == if calls[n].now >= slot then calls[n].now else slot
    decreases n
  {
    if k < n - 1 {
      NextSlot(calls, g, rate, k, n - 1);
    }
  }

  /** The first send of a gateway goes out at once, and so does any without a rate, which holds nobody up. */
  lemma {:induction false} FirstSendAndUnthrottled(calls: seq<Call>, n: nat)
    requires n < |calls| && calls[n].now >= 0.0
    ensures calls[n].rate <= 0.0 ==>
              SentAt(calls, n) == calls[n].now && TableAfter(calls, n + 1) == TableAfter(calls, n)
    ensures (forall k | 0 <= k < n :: calls[k].gateway != calls[n].gateway) ==> SentAt(calls, n) == calls[n].now
  {
    if forall k | 0 <= k < n :: calls[k].gateway != calls[n].gateway {
      NotInTable(calls, calls[n].gateway, n);
    }
  }

  lemma {:induction false} NotInTable(calls: seq<Call>, g: string, n: nat)
    requires n <= |calls| && forall k | 0 <= k < n :: calls[k].gateway != g
    ensures g !in TableAfter(calls, n)
  {
    if n > 0 {
      NotInTable(calls, g, n - 1);
    }
  }

  lemma IdleIsNotDelayed(calls: seq<Call>, g: string, rate: real, n: nat)
    requires Declared(calls, g, rate) && n < |calls| && calls[n].gateway == g && calls[n].now >= 0.0
    requires forall k | 0 <= k < n && calls[k].gateway == g :: calls[n].now >= SentAt(calls, k) + 1.0 / rate
    ensures SentAt(calls, n) == calls[n].now
  {
    SlotIsLastSend(calls, g, rate, n);
  }
}
