/**
 Any number of throttled response bodies that draw on one token bucket, as those of one client do.

 Polls happen one after the other; each sees the bucket at its own clock reading.
 */
module PacedStreams {
  import opened Common
  import opened ThrottledStream
  import opened TokenBuckets

  /** One poll of stream `k`: the clock, and what else the poll meets apart from the bucket. */
  datatype Visit = Visit(k: nat, now: nat, cancelled: bool, inner: InnerPoll, timerFired: bool)

  datatype Paced = Paced(streams: seq<Throttle>, bucket: Bucket)

  /** Every stream cuts its chunks to the burst of the shared bucket. */
  predicate Shares(x: Paced) {
    x.bucket.maxTokens > 0 && forall k :: 0 <= k < |x.streams| ==> x.streams[k].limit == Some(x.bucket.maxTokens)
  }

  /** What a poll asks the bucket for, if it asks. */
  function Asked(st: Throttle, v: Visit): Option<nat>
    requires st.limit.Some? && st.limit.value > 0
  {
    if v.cancelled || (st.waiting && st.timer && !v.timerFired) then None
    else if st.pending != [] then Some(|st.pending[0]|)
    else if st.waiting || !v.inner.InnerChunk? then None
    else Some(|Enqueue(st, v.inner.bytes).pending[0]|)
  }

  function Answer(x: Paced, v: Visit): (Bucket, bool)
    requires Shares(x) && v.k < |x.streams|
  {
    var asked := Asked(x.streams[v.k], v);
    if asked.Some? then TryConsume(x.bucket, v.now, asked.value) else (x.bucket, false)
  }

  function Visited(x: Paced, v: Visit): (Paced, Polled)
    requires Shares(x) && v.k < |x.streams|
  {
    var (bucket, ok) := Answer(x, v);
    var (st, r) := Poll(x.streams[v.k], Env(v.cancelled, v.inner, ok, v.timerFired));
    (Paced(x.streams[v.k := st], bucket), r)
  }

  lemma VisitKeepsShares(x: Paced, v: Visit)
    requires Shares(x) && v.k < |x.streams|
    ensures var y := Visited(x, v).0;
      Shares(y) && |y.streams| == |x.streams| && y.bucket.maxTokens == x.bucket.maxTokens
  {
  }

  predicate Visitable(x: Paced, visits: seq<Visit>) {
    forall i :: 0 <= i < |visits| ==> visits[i].k < |x.streams|
  }

  /** How many bytes all streams together hand to their clients. */
  function HandedOut(x: Paced, visits: seq<Visit>): nat
    requires Shares(x) && Visitable(x, visits)
    decreases |visits|
  {
    if visits == [] then 0
    else
      var (y, r) := Visited(x, visits[0]);
      VisitKeepsShares(x, visits[0]);
      (if r.Deliver? then |r.chunk| else 0) + HandedOut(y, visits[1..])
  }

  /** The requests the bucket sees. */
  function Requests(x: Paced, visits: seq<Visit>): seq<Call>
    requires Shares(x) && Visitable(x, visits)
    decreases |visits|
  {
    if visits == [] then []
    else
      var v := visits[0];
      var asked := Asked(x.streams[v.k], v);
      VisitKeepsShares(x, v);
      (if asked.Some? then [Call(v.now, asked.value)] else []) + Requests(Visited(x, v).0, visits[1..])
  }

  /** A poll hands out exactly what it asked for, if that was granted, and otherwise nothing. */
  lemma HandsOutWhatWasGranted(x: Paced, v: Visit)
    requires Shares(x) && v.k < |x.streams|
    ensures var r := Visited(x, v).1; var asked := Asked(x.streams[v.k], v);
      (if r.Deliver? then |r.chunk| else 0) == (if asked.Some? && Answer(x, v).1 then asked.value else 0)
  {
    var st := x.streams[v.k];
    if !v.cancelled && !st.waiting && st.pending == [] && v.inner.InnerChunk? {
      assert Enqueue(st, v.inner.bytes).pending != [];
    }
  }

  lemma {:induction false} HandedOutIsGranted(x: Paced, visits: seq<Visit>)
    requires Shares(x) && Visitable(x, visits)
    ensures HandedOut(x, visits) == AmountGranted(x.bucket, Requests(x, visits))
    decreases |visits|
  {
    if visits != [] {
      var v := visits[0];
      VisitKeepsShares(x, v);
      HandsOutWhatWasGranted(x, v);
      HandedOutIsGranted(Visited(x, v).0, visits[1..]);
      var asked, rest := Asked(x.streams[v.k], v), Requests(Visited(x, v).0, visits[1..]);
      if asked.Some? {
        assert Requests(x, visits)[1..] == rest;
      } else {
        assert Requests(x, visits) == rest;
      }
    }
  }

  /** The clock readings do not go back, and lie in [from, to]. */
  predicate Within(visits: seq<Visit>, from: nat, to: nat)
    decreases |visits|
  {
    visits == [] || (from <= visits[0].now <= to && Within(visits[1..], visits[0].now, to))
  }

  lemma WindowGrows(calls: seq<Call>, from: nat, earlier: nat, to: nat)
    requires InWindow(calls, from, to) && earlier <= from
    ensures InWindow(calls, earlier, to)
  {
  }

  lemma {:induction false} RequestsInWindow(x: Paced, visits: seq<Visit>, from: nat, to: nat)
    requires Shares(x) && Visitable(x, visits) && Within(visits, from, to)
    ensures InWindow(Requests(x, visits), from, to)
    decreases |visits|
  {
    if visits != [] {
      var v := visits[0];
      VisitKeepsShares(x, v);
      RequestsInWindow(Visited(x, v).0, visits[1..], v.now, to);
      var asked, rest := Asked(x.streams[v.k], v), Requests(Visited(x, v).0, visits[1..]);
      if asked.Some? {
        assert Requests(x, visits)[1..] == rest;
      } else {
        assert Requests(x, visits) == rest;
        WindowGrows(rest, v.now, from, to);
      }
    }
  }

  /**
   However many streams share the bucket, and whatever their inner streams, timers and clients do: in any
   window they hand out at most one burst and the refill of the window, which is less than twice the
   configured rate.
   */
  lemma SharedBucketPaces(x: Paced, visits: seq<Visit>, refillPerSec: nat, from: nat, length: nat)
    requires Shares(x) && Visitable(x, visits) && 1 <= refillPerSec <= 1_000_000_000
    requires x.bucket.refillRateNanos == RateNanos(refillPerSec)
    requires x.bucket.tokens <= x.bucket.maxTokens && x.bucket.lastRefill <= from
    requires Within(visits, from, from + length)
    ensures HandedOut(x, visits) <= x.bucket.maxTokens + length / (1_000_000_000 / refillPerSec)
    ensures length > 0 ==>
      (HandedOut(x, visits) - x.bucket.maxTokens) * 1_000_000_000 < 2 * refillPerSec * length
  {
    HandedOutIsGranted(x, visits);
    RequestsInWindow(x, visits, from, from + length);
    RateWithinTwice(refillPerSec, 1);
    WindowBound(x.bucket, Requests(x, visits), from, length);
    if length > 0 {
      RateWithinTwice(refillPerSec, length);
    }
  }
}
