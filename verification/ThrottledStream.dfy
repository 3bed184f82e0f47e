/**
 The poll-driven stream that paces a response body with a token bucket.

 `Poll` is one call of `poll_next`; everything the stream does not decide itself (the inner stream, the
 tokens, the timer, cancellation) is in `Env`, so the results hold for every behaviour of those.
 */
module ThrottledStream {
  import opened Common

  datatype InnerPoll = InnerPending | InnerEnd | InnerError | InnerChunk(bytes: seq<byte>)

  /** `tokens` is the bucket's answer to a request for more than nothing; a request for nothing is granted. */
  datatype Env = Env(cancelled: bool, inner: InnerPoll, tokens: bool, timerFired: bool)

  datatype Polled = Deliver(chunk: seq<byte>) | Failed | End | Pending

  /**
   `limit` is the burst size of the bucket, if there is one. `taken` and `delivered` are history: all bytes
   received from the inner stream, and all bytes handed on.
   */
  datatype Throttle = Throttle(
    limit: Option<nat>,
    waiting: bool,
    timer: bool,
    pending: seq<seq<byte>>,
    taken: seq<byte>,
    delivered: seq<byte>)

  function NewThrottle(limit: Option<nat>): Throttle {
    Throttle(limit, false, false, [], [], [])
  }

  /** A chunk cut into pieces of `max` bytes, the last one possibly shorter. */
  function Pieces(chunk: seq<byte>, max: nat): (r: seq<seq<byte>>)
    requires max > 0
    ensures |r| > 0 && Concat(r) == chunk
    ensures forall i :: 0 <= i < |r| ==> |r[i]| <= max && (chunk != [] ==> r[i] != [])
    ensures forall i :: 0 <= i < |r| - 1 ==> |r[i]| == max
    decreases |chunk|
  {
    if |chunk| <= max then
      assert Concat([chunk]) == chunk + [];
      [chunk]
    else
      var rest := Pieces(chunk[max..], max);
      assert ([chunk[..max]] + rest)[1..] == rest;
      [chunk[..max]] + rest
  }

  /** The pieces still to be cut once `offset` bytes are done. */
  function Remainder(chunk: seq<byte>, offset: nat, max: nat): seq<seq<byte>>
    requires max > 0 && offset <= |chunk|
  {
    if offset < |chunk| then Pieces(chunk[offset..], max) else []
  }

  lemma NextPiece(chunk: seq<byte>, offset: nat, max: nat)
    requires max > 0 && offset < |chunk|
    ensures var end := Min(offset + max, |chunk|);
      Remainder(chunk, offset, max) == [chunk[offset..end]] + Remainder(chunk, end, max)
  {
    var end := Min(offset + max, |chunk|);
    if end < |chunk| {
      assert chunk[offset..][..max] == chunk[offset..end];
      assert chunk[offset..][max..] == chunk[end..];
    } else {
      assert chunk[offset..end] == chunk[offset..];
    }
  }

  function Concat(chunks: seq<seq<byte>>): seq<byte> {
    if chunks == [] then [] else chunks[0] + Concat(chunks[1..])
  }

  lemma Assoc<T>(a: seq<T>, b: seq<T>, c: seq<T>)
    ensures a + (b + c) == (a + b) + c
  {
  }

  lemma {:induction false} ConcatAppend(a: seq<seq<byte>>, b: seq<seq<byte>>)
    ensures Concat(a + b) == Concat(a) + Concat(b)
  {
    if a == [] {
      assert a + b == b;
    } else {
      assert (a + b)[1..] == a[1..] + b;
      ConcatAppend(a[1..], b);
    }
  }

  function Enqueue(st: Throttle, chunk: seq<byte>): Throttle
    requires st.limit.Some? ==> st.limit.value > 0
  {
    var pieces := if st.limit.Some? then Pieces(chunk, st.limit.value) else [chunk];
    st.(pending := st.pending + pieces, taken := st.taken + chunk)
  }

  function PopFront(st: Throttle): Throttle
    requires st.pending != []
  {
    st.(pending := st.pending[1..], delivered := st.delivered + st.pending[0])
  }

  predicate Grants(st: Throttle, env: Env)
    requires st.pending != []
  {
    st.limit.None? || env.tokens || st.pending[0] == []
  }

  /** `try_deliver`: the front of the queue, if there is one and it is paid for. */
  function TryDeliver(st: Throttle, env: Env): (Throttle, Polled) {
    if st.pending != [] && Grants(st, env) then (PopFront(st), Deliver(st.pending[0])) else (st, Pending)
  }

  /** `schedule_wake`: no timer without a bucket, and none for nothing. */
  function ScheduleWake(st: Throttle): Throttle {
    if st.limit.Some? && |Concat(st.pending)| > 0 then st.(timer := true) else st
  }

  function Wait(st: Throttle): (Throttle, Polled) {
    (ScheduleWake(st.(waiting := true)), Pending)
  }

  function PollIdle(st: Throttle, env: Env): (Throttle, Polled)
    requires st.limit.Some? ==> st.limit.value > 0
  {
    if st.limit.Some? && st.pending != [] then
      var (st1, r) := TryDeliver(st, env);
      if r.Pending? then Wait(st1) else (st1, r)
    else
      match env.inner
      case InnerPending => if st.limit.Some? && st.pending != [] then Wait(st) else (st, Pending)
      case InnerEnd =>
        if st.pending == [] then (st, End)
        else if st.limit.None? then (PopFront(st), Deliver(st.pending[0]))
        else Wait(st)
      case InnerError => (st, Failed)
      case InnerChunk(bytes) =>
        var st1 := Enqueue(st, bytes);
        if st1.limit.None? && st1.pending != [] then (PopFront(st1), Deliver(st1.pending[0]))
        else
          var (st2, r) := TryDeliver(st1, env);
          if r.Pending? then Wait(st2) else (st2, r)
  }

  function PollWaiting(st: Throttle, env: Env): (Throttle, Polled) {
    if st.timer && !env.timerFired then (st, Pending)
    else
      var (st1, r) := TryDeliver(st.(timer := false), env);
      if !r.Pending? then (st1.(waiting := false), r)
      else if st1.pending == [] then (st1.(waiting := false), Pending)
      else (ScheduleWake(st1), Pending)
  }

  function Poll(st: Throttle, env: Env): (Throttle, Polled)
    requires st.limit.Some? ==> st.limit.value > 0
  {
    if env.cancelled then (st, End)
    else if st.waiting then PollWaiting(st, env)
    else PollIdle(st, env)
  }

  /** This poll looks at the inner stream. */
  predicate PollsInner(st: Throttle, env: Env) {
    !env.cancelled && !st.waiting && !(st.limit.Some? && st.pending != [])
  }

  /** Nothing is lost or reordered; whoever waits has bytes to wait for, a bucket, and a timer set. */
  ghost predicate Inv(st: Throttle) {
    && st.delivered + Concat(st.pending) == st.taken
    && (st.limit.Some? ==> st.limit.value > 0)
    && (st.limit.None? ==> st.pending == [])
    && (forall i :: 0 <= i < |st.pending| ==> 0 < |st.pending[i]| <= st.limit.value)
    && (st.waiting ==> st.limit.Some? && st.pending != [])
    && (st.timer <==> st.waiting)
  }

  lemma NonEmptyConcat(chunks: seq<seq<byte>>)
    requires chunks != [] && chunks[0] != []
    ensures |Concat(chunks)| > 0
  {
  }

  lemma PopKeeps(st: Throttle)
    requires st.pending != []
    ensures PopFront(st).delivered + Concat(PopFront(st).pending) == st.delivered + Concat(st.pending)
  {
  }

  lemma EnqueueKeeps(st: Throttle, chunk: seq<byte>)
    requires Inv(st) && st.pending == []
    ensures var st' := Enqueue(st, chunk);
      && st'.delivered + Concat(st'.pending) == st'.taken && st'.pending != []
      && (chunk == [] ==> st'.pending == [[]])
      && (chunk != [] && st.limit.Some? ==>
            forall i :: 0 <= i < |st'.pending| ==> 0 < |st'.pending[i]| <= st.limit.value)
      && (st.limit.None? ==> st'.pending == [chunk])
  {
    var pieces := if st.limit.Some? then Pieces(chunk, st.limit.value) else [chunk];
    assert st.pending + pieces == pieces;
    assert Concat([chunk]) == chunk + Concat([]);
    assert st.delivered + Concat([]) == st.delivered;
  }

  /** What a poll may do to the stream and what it may answer. */
  ghost predicate Sound(st: Throttle, env: Env, st': Throttle, r: Polled) {
    && Inv(st') && st'.limit == st.limit
    && st'.taken == st.taken + (if PollsInner(st, env) && env.inner.InnerChunk? then env.inner.bytes else [])
    && (PollsInner(st, env) ==> st.delivered == st.taken)
    && (env.cancelled ==> st' == st && r.End?)
    && (!env.cancelled && st.waiting && !env.timerFired ==> st' == st && r.Pending?)
    && match r
       case Deliver(chunk) =>
         && st'.delivered == st.delivered + chunk
         && (st.limit.Some? ==> |chunk| <= st.limit.value && (chunk == [] || env.tokens))
       case Failed => PollsInner(st, env) && env.inner.InnerError? && st'.delivered == st.delivered == st'.taken
       case End =>
         && st'.delivered == st.delivered
         && (env.cancelled || (PollsInner(st, env) && env.inner.InnerEnd? && st'.delivered == st'.taken))
       case Pending =>
         && st'.delivered == st.delivered
         && ((st'.waiting && st'.timer) || (PollsInner(st, env) && env.inner.InnerPending?))
  }

  lemma QueuedPoll(st: Throttle, env: Env)
    requires Inv(st) && !env.cancelled && st.limit.Some? && st.pending != []
    ensures var (st', r) := Poll(st, env); Sound(st, env, st', r)
  {
  }

  lemma InnerPollSound(st: Throttle, env: Env)
    requires Inv(st) && PollsInner(st, env) && !env.inner.InnerChunk?
    ensures var (st', r) := Poll(st, env); Sound(st, env, st', r)
  {
  }

  lemma ChunkPollSound(st: Throttle, env: Env)
    requires Inv(st) && PollsInner(st, env) && env.inner.InnerChunk?
    ensures var (st', r) := Poll(st, env); Sound(st, env, st', r)
  {
    assert st.pending == [] && Concat([]) == [];
    var st1 := Enqueue(st, env.inner.bytes);
    EnqueueKeeps(st, env.inner.bytes);
    PopKeeps(st1);
    if env.inner.bytes != [] {
      NonEmptyConcat(st1.pending);
    }
  }

  /** For every environment: no byte is lost, delayed behind an end, or left without a wake-up. */
  lemma PollKeeps(st: Throttle, env: Env)
    requires Inv(st)
    ensures var (st', r) := Poll(st, env); Sound(st, env, st', r)
  {
    if !env.cancelled {
      if !PollsInner(st, env) {
        QueuedPoll(st, env);
      } else if env.inner.InnerChunk? {
        ChunkPollSound(st, env);
      } else {
        InnerPollSound(st, env);
      }
    }
  }

  /** What is paid for is delivered as soon as it may be, and the inner stream's other answers are passed on. */
  lemma PollPassesOn(st: Throttle, env: Env)
    requires Inv(st) && !env.cancelled
    ensures var r := Poll(st, env).1;
      && (st.pending != [] && env.tokens && (st.waiting ==> env.timerFired) ==> r == Deliver(st.pending[0]))
      && (PollsInner(st, env) ==> match env.inner
            case InnerPending => r == Pending
            case InnerEnd => r == End
            case InnerError => r == Failed
            case InnerChunk(bytes) =>
              env.tokens || st.limit.None? || bytes == [] ==>
                r == Deliver(if st.limit.None? || |bytes| <= st.limit.value then bytes else bytes[..st.limit.value]))
  {
  }

  // ---- runs -------------------------------------------------------------------------------------

  function PollAll(st: Throttle, envs: seq<Env>): (Throttle, seq<Polled>)
    requires st.limit.Some? ==> st.limit.value > 0
    decreases |envs|
  {
    if envs == [] then (st, [])
    else
      var (st1, r) := Poll(st, envs[0]);
      assert st1.limit == st.limit;
      var (st2, rs) := PollAll(st1, envs[1..]);
      (st2, [r] + rs)
  }

  /** The bytes a client sees in a sequence of answers. */
  function Seen(rs: seq<Polled>): seq<byte> {
    if rs == [] then [] else (if rs[0].Deliver? then rs[0].chunk else []) + Seen(rs[1..])
  }

  lemma {:induction false} PollAllKeeps(st: Throttle, envs: seq<Env>)
    requires Inv(st)
    ensures var (st', rs) := PollAll(st, envs); Inv(st') && st'.delivered == st.delivered + Seen(rs)
    decreases |envs|
  {
    if envs != [] {
      var (st1, r) := Poll(st, envs[0]);
      PollKeeps(st, envs[0]);
      PollAllKeeps(st1, envs[1..]);
      var (st2, rs) := PollAll(st1, envs[1..]);
      assert ([r] + rs)[1..] == rs;
      assert st1.delivered == st.delivered + (if r.Deliver? then r.chunk else []);
    }
  }

  /** Over any run, what the client has seen plus what is queued is what the inner stream gave, in order. */
  lemma BytesInOrder(limit: Option<nat>, envs: seq<Env>)
    requires limit.Some? ==> limit.value > 0
    ensures var (st, rs) := PollAll(NewThrottle(limit), envs);
      Seen(rs) + Concat(st.pending) == st.taken
  {
    assert Inv(NewThrottle(limit));
    PollAllKeeps(NewThrottle(limit), envs);
  }

  // ---- the class --------------------------------------------------------------------------------

  class ThrottledPermitStream {
    const limit: Option<nat>
    var waiting: bool
    var timer: bool
    var pending: seq<seq<byte>>
    ghost var taken: seq<byte>
    ghost var delivered: seq<byte>

    ghost function View(): Throttle
      reads this
    {
      Throttle(limit, waiting, timer, pending, taken, delivered)
    }

    ghost predicate Valid()
      reads this
    {
      Inv(View())
    }

    constructor (limit: Option<nat>)
      requires limit.Some? ==> limit.value > 0
      ensures Valid() && View() == NewThrottle(limit)
    {
      this.limit := limit;
      waiting, timer, pending := false, false, [];
      taken, delivered := [], [];
    }

    method EnqueueChunk(chunk: seq<byte>)
      requires limit.Some? ==> limit.value > 0
      modifies this
      ensures View() == Enqueue(old(View()), chunk)
    {
      taken := taken + chunk;
      if limit.None? || |chunk| <= limit.value {
        pending := pending + [chunk];
        return;
      }
      var offset: nat := 0;
      ghost var rest := Pieces(chunk, limit.value);
      assert chunk[0..] == chunk;
      while offset < |chunk|
        invariant offset <= |chunk|
        invariant pending + rest == old(pending) + Pieces(chunk, limit.value)
        invariant rest == Remainder(chunk, offset, limit.value)
        invariant waiting == old(waiting) && timer == old(timer) && delivered == old(delivered)
        invariant taken == old(taken) + chunk
      {
        var end := Min(offset + limit.value, |chunk|);
        NextPiece(chunk, offset, limit.value);
        Assoc(pending, [chunk[offset..end]], Remainder(chunk, end, limit.value));
        pending := pending + [chunk[offset..end]];
        rest := Remainder(chunk, end, limit.value);
        offset := end;
      }
    }

    method TryDeliverFront(env: Env) returns (r: Polled)
      modifies this
      ensures (View(), r) == TryDeliver(old(View()), env)
    {
      if pending != [] && (limit.None? || env.tokens || pending[0] == []) {
        r := Deliver(pending[0]);
        delivered := delivered + pending[0];
        pending := pending[1..];
      } else {
        r := Pending;
      }
    }

    method SetTimer()
      modifies this`timer
      ensures View() == ScheduleWake(old(View()))
    {
      var remaining := 0;
      for i := 0 to |pending|
        invariant remaining == |Concat(pending[..i])| && timer == old(timer)
      {
        assert pending[..i + 1] == pending[..i] + [pending[i]];
        ConcatAppend(pending[..i], [pending[i]]);
        assert Concat([pending[i]]) == pending[i] + Concat([]);
        remaining := remaining + |pending[i]|;
      }
      assert pending[..|pending|] == pending;
      if limit.Some? && remaining > 0 {
        timer := true;
      }
    }

    /** One poll, as the source writes it; branches the guard above already excludes are left out. */
    method PollNext(env: Env) returns (r: Polled)
      requires limit.Some? ==> limit.value > 0
      modifies this
      ensures (View(), r) == Poll(old(View()), env)
      ensures old(Valid()) ==> Valid() && Sound(old(View()), env, View(), r)
    {
      if Inv(View()) {
        PollKeeps(View(), env);
      }
      if env.cancelled {
        return End;
      }
      if waiting {
        if timer && !env.timerFired {
          return Pending;
        }
        timer := false;
        r := TryDeliverFront(env);
        if !r.Pending? || pending == [] {
          waiting := false;
        } else {
          SetTimer();
        }
        return;
      }
      if limit.Some? && pending != [] {
        r := TryDeliverFront(env);
        if r.Pending? {
          waiting := true;
          SetTimer();
        }
        return;
      }
      match env.inner {
        case InnerPending => return Pending;
        case InnerError => return Failed;
        case InnerEnd =>
          if pending == [] {
            return End;
          }
          r := TryDeliverFront(env);
        case InnerChunk(bytes) =>
          EnqueueChunk(bytes);
          r := TryDeliverFront(env);
          if r.Pending? {
            waiting := true;
            SetTimer();
          }
      }
    }
  }
}
