/**
 What every reachable state of the download keeps, whatever the interleaving.

 `Inv` is the conjunction of seven predicates, each with its own preservation lemma; `InvRun` lifts the
 conjunction to runs of any length.
 */
module DownloadInvariant {
  import opened Common
  import opened Segments
  import opened DownloadSystem

  ghost predicate Disjoint(a0: int, a1: int, b0: int, b1: int) {
    a1 <= b0 || b1 <= a0
  }

  ghost predicate Registered(s: State, id: int) {
    0 <= id < |s.buf.segments|
  }

  ghost predicate IsWorker(s: State, w: int) {
    0 <= w < |s.workers|
  }

  ghost predicate PendingPush(s: State, w: int) {
    IsWorker(s, w) && s.workers[w].Claimed?
  }

  /** Offset `x` lies in a registered segment or in a range claimed but not yet registered. */
  ghost predicate Covered(s: State, x: int) {
    || (exists id :: Registered(s, id) && s.buf.segments[id].start <= x < s.buf.segments[id].end)
    || (exists w :: PendingPush(s, w) && s.workers[w].start <= x < s.workers[w].end)
  }

  /** Registered and pending ranges are non-empty, pairwise disjoint, and tile [0, next). */
  ghost predicate Tiling(cfg: Config, s: State) {
    && s.buf.total == cfg.total
    && s.buf.next <= cfg.total
    && (forall id :: Registered(s, id) ==> s.buf.segments[id].start < s.buf.segments[id].end <= s.buf.next)
    && (forall w :: PendingPush(s, w) ==> s.workers[w].start < s.workers[w].end <= s.buf.next)
    && (forall i, j :: Registered(s, i) && Registered(s, j) && i != j ==>
          Disjoint(s.buf.segments[i].start, s.buf.segments[i].end, s.buf.segments[j].start, s.buf.segments[j].end))
    && (forall i, w :: Registered(s, i) && PendingPush(s, w) ==>
          Disjoint(s.buf.segments[i].start, s.buf.segments[i].end, s.workers[w].start, s.workers[w].end))
    && (forall v, w :: PendingPush(s, v) && PendingPush(s, w) && v != w ==>
          Disjoint(s.workers[v].start, s.workers[v].end, s.workers[w].start, s.workers[w].end))
    && (forall x {:trigger Covered(s, x)} :: 0 <= x < s.buf.next ==> Covered(s, x))
    && (forall w :: IsWorker(s, w) && s.workers[w].Idle? ==>
          MIN_SEGMENT_SIZE <= s.workers[w].preferred <= MAX_SEGMENT_SIZE)
  }

  ghost predicate Holds(s: State, w: int) {
    IsWorker(s, w) && HeldBy(s.workers[w]).Some?
  }

  ghost predicate HoldsItsClaim(s: State, w: int)
    requires Holds(s, w)
  {
    var job := HeldBy(s.workers[w]).value;
    && Registered(s, job.id) && job.id < |s.log|
    && s.buf.segments[job.id].start == job.start && s.buf.segments[job.id].end == job.end
    && s.log[job.id].owner == w
    && job.id !in s.counted
    && (s.buf.segments[job.id].state == Ready <==> s.workers[w].Marked?)
  }

  /** Every segment is either counted as ready or in the hands of exactly the worker that claimed it. */
  ghost predicate Ownership(s: State) {
    && |s.log| == |s.buf.segments|
    && (forall w :: Holds(s, w) ==> HoldsItsClaim(s, w))
    && (forall id :: Registered(s, id) && id !in s.counted ==>
          Holds(s, s.log[id].owner) && HeldBy(s.workers[s.log[id].owner]).value.id == id)
    && (forall id :: id in s.counted ==> Registered(s, id) && s.buf.segments[id].state == Ready)
    && |s.counted| == s.buf.readyCount
  }

  /** The bytes a worker has written so far in the current attempt are those of its response. */
  ghost predicate WorkerData(file: seq<byte>, wk: Worker) {
    match wk
    case Streaming(job, src, base, got) =>
      && base == job.start && job.start + got < job.end
      && Agree(file, src.content, job.start, job.start + got)
    case Writing(job, src, base, got, data, done) =>
      && base == job.start && done < |data| && job.start + got + |data| <= job.end
      && job.start + got + |data| <= |src.content|
      && data == src.content[job.start + got..job.start + got + |data|]
      && Agree(file, src.content, job.start, job.start + got + done)
    case Received(job, src) => Agree(file, src.content, job.start, job.end)
    case _ => true
  }

  /** A Ready segment holds exactly the bytes one response of one generation carried for its range. */
  ghost predicate SegmentData(file: seq<byte>, seg: Segment, log: SegmentLog)
  {
    seg.state == Ready ==> log.origin.Some? && Agree(file, log.origin.value.content, seg.start, seg.end)
  }

  ghost predicate Data(cfg: Config, s: State) {
    && |s.log| == |s.buf.segments|
    && |s.buf.file| == cfg.total
    && (forall w :: IsWorker(s, w) ==> WorkerData(s.buf.file, s.workers[w]))
    && (forall id :: Registered(s, id) ==> SegmentData(s.buf.file, s.buf.segments[id], s.log[id]))
  }

  function SourceOf(wk: Worker): Option<Generation> {
    match wk
    case Streaming(_, src, _, _) => Some(src)
    case Writing(_, src, _, _, _, _) => Some(src)
    case Received(_, src) => Some(src)
    case _ => None
  }

  /** When upstream is pinned or frozen, every response and every Ready segment is of HEAD's generation. */
  ghost predicate Pinned(cfg: Config, s: State) {
    && PossibleGeneration(cfg, s.upstream)
    && (OneGeneration(cfg) ==>
          && (forall w :: IsWorker(s, w) && SourceOf(s.workers[w]).Some? ==>
                SourceOf(s.workers[w]).value.content == cfg.head.content)
          && (forall id :: 0 <= id < |s.log| && s.log[id].origin.Some? ==>
                s.log[id].origin.value.content == cfg.head.content))
  }

  ghost predicate GetsSoFar(log: seq<SegmentLog>, wk: Worker) {
    match wk
    case Fetching(job) => job.attempt <= MAX_SEGMENT_RETRIES && job.id < |log| && log[job.id].gets == job.attempt
    case Streaming(job, _, _, _) =>
      job.attempt <= MAX_SEGMENT_RETRIES && job.id < |log| && log[job.id].gets == job.attempt + 1
    case Writing(job, _, _, _, _, _) =>
      job.attempt <= MAX_SEGMENT_RETRIES && job.id < |log| && log[job.id].gets == job.attempt + 1
    case _ => true
  }

  /** No segment costs more than 1 + MAX_SEGMENT_RETRIES requests. */
  ghost predicate Requests(s: State) {
    && (forall w :: IsWorker(s, w) ==> GetsSoFar(s.log, s.workers[w]))
    && (forall id :: 0 <= id < |s.log| ==> s.log[id].gets <= MAX_SEGMENT_RETRIES + 1)
  }

  ghost function PendingPushes(s: State): set<int> {
    set w | 0 <= w < |s.workers| && PendingPush(s, w)
  }

  /** Each claim but the last took at least MIN_SEGMENT_SIZE bytes. */
  ghost predicate Counting(s: State) {
    && s.claims == |s.buf.segments| + |PendingPushes(s)|
    && (s.buf.next < s.buf.total ==> MIN_SEGMENT_SIZE * s.claims <= s.buf.next)
    && (s.claims > 0 ==> MIN_SEGMENT_SIZE * (s.claims - 1) < s.buf.total)
  }

  ghost function Running(s: State): set<int> {
    set w | 0 <= w < |s.workers| && !s.workers[w].Exited?
  }

  function OutcomeOf(wk: Worker): Option<Outcome> {
    match wk
    case Returned(_, outcome) => Some(outcome)
    case Exited(_, outcome) => Some(outcome)
    case _ => None
  }

  ghost predicate Failed(wk: Worker) {
    wk.Exited? && wk.outcome.Err? && wk.outcome.error != Cancelled
  }

  /** The worker's result and what it still holds agree. */
  ghost predicate WorkerOutcome(allAssigned: bool, cancelled: bool, wk: Worker) {
    match OutcomeOf(wk)
    case None => true
    case Some(Ok(_)) => HeldBy(wk) == None && allAssigned
    case Some(Err(e)) => if e == Cancelled then cancelled else HeldBy(wk).Some?
  }

  ghost predicate AllSucceeded(s: State) {
    forall w :: IsWorker(s, w) ==> s.workers[w].Exited? && s.workers[w].outcome.Ok?
  }

  /** What has become true by the time the supervisor returns `verdict`. */
  ghost predicate Justified(cfg: Config, s: State, verdict: Outcome) {
    match verdict
    case Ok(_) => cfg.connections > 0 && AllSucceeded(s) && AllCompleted(s.buf)
    case Err(e) =>
      && (e == BufferFailed || IsFatal(e))
      && (cfg.connections == 0 || exists w :: IsWorker(s, w) && Failed(s.workers[w]))
      && (IsFatal(e) ==> exists w :: IsWorker(s, w) && s.workers[w].Exited? && s.workers[w].outcome == Err(e))
  }

  /** Workers, join set and supervisor. */
  ghost predicate Control(cfg: Config, s: State) {
    && (if cfg.connections == 0 then s.workers == [] else 0 < |s.workers| <= cfg.connections)
    && s.active == |Running(s)|
    && (s.buf.allAssigned ==> s.buf.next >= s.buf.total && s.workers != [])
    && (forall w :: IsWorker(s, w) ==> WorkerOutcome(s.buf.allAssigned, s.cancelled, s.workers[w]))
    && (forall w :: w in s.joined ==> IsWorker(s, w) && s.workers[w].Exited?)
    && (s.cancelled ==> s.main.Finished?)
    && (s.main.Draining? ==> forall w :: IsWorker(s, w) ==> s.workers[w].Exited?)
    && (s.main.Finished? ==> Justified(cfg, s, s.main.verdict))
  }

  ghost predicate Inv(cfg: Config, s: State) {
    && Tiling(cfg, s)
    && Ownership(s)
    && Data(cfg, s)
    && Pinned(cfg, s)
    && Requests(s)
    && Counting(s)
    && Control(cfg, s)
  }

  lemma InitInv(cfg: Config, s: State)
    requires Init(cfg, s)
    ensures Inv(cfg, s)
  {
    assert PendingPushes(s) == {};
    if cfg.connections > 0 {
      assert Running(s) == {0};
    }
  }

  // ---- tiling -----------------------------------------------------------------------------------

  ghost predicate SameRanges(s: State, s': State) {
    && s'.buf.total == s.buf.total && s'.buf.next == s.buf.next
    && |s'.buf.segments| == |s.buf.segments|
    && (forall id :: Registered(s, id) ==>
          s'.buf.segments[id].start == s.buf.segments[id].start && s'.buf.segments[id].end == s.buf.segments[id].end)
  }

  /** Only worker `w` moves, and it neither starts nor finishes a claim. */
  ghost predicate Local(s: State, s': State, w: nat) {
    && IsWorker(s, w)
    && |s'.workers| == |s.workers|
    && s'.workers == s.workers[w := s'.workers[w]]
    && !s.workers[w].Claimed? && !s'.workers[w].Claimed?
    && (s'.workers[w].Idle? ==> MIN_SEGMENT_SIZE <= s'.workers[w].preferred <= MAX_SEGMENT_SIZE)
    && SameRanges(s, s')
  }

  predicate IsLocal(a: Action) {
    a.Exhaust? || a.SendFails? || a.Respond? || a.ChunkArrives? || a.WriteSome? || a.WriteFails? || a.StreamEnds?
    || a.StreamFails? || a.ReadTimesOut? || a.PublishReady? || a.Notify? || a.Abort? || a.Exit?
  }

  lemma LocalStep(cfg: Config, s: State, a: Action)
    requires IsLocal(a) && Enabled(cfg, s, a)
    ensures Local(s, Do(cfg, s, a), a.w)
  {
  }

  lemma TilingFrame(cfg: Config, s: State, s': State)
    requires Tiling(cfg, s) && SameRanges(s, s')
    requires forall w :: PendingPush(s', w) <==> PendingPush(s, w)
    requires forall w :: PendingPush(s, w) ==> IsWorker(s', w) && s'.workers[w] == s.workers[w]
    requires forall w :: IsWorker(s', w) && s'.workers[w].Idle? ==>
               MIN_SEGMENT_SIZE <= s'.workers[w].preferred <= MAX_SEGMENT_SIZE
    ensures Tiling(cfg, s')
  {
    forall x | 0 <= x < s'.buf.next
      ensures Covered(s', x)
    {
      assert Covered(s, x);
      if id :| Registered(s, id) && s.buf.segments[id].start <= x < s.buf.segments[id].end {
        assert Registered(s', id);
      } else {
        var w :| PendingPush(s, w) && s.workers[w].start <= x < s.workers[w].end;
        assert PendingPush(s', w);
      }
    }
  }

  lemma TilingClaim(cfg: Config, s: State, w: nat)
    requires Tiling(cfg, s) && Enabled(cfg, s, Claim(w))
    ensures Tiling(cfg, Do(cfg, s, Claim(w)))
  {
    var s' := Do(cfg, s, Claim(w));
    assert forall v :: PendingPush(s', v) <==> v == w || PendingPush(s, v);
    forall x | 0 <= x < s'.buf.next
      ensures Covered(s', x)
    {
      if x >= s.buf.next {
        assert PendingPush(s', w);
      } else {
        assert Covered(s, x);
        if id :| Registered(s, id) && s.buf.segments[id].start <= x < s.buf.segments[id].end {
          assert Registered(s', id);
        } else {
          var v :| PendingPush(s, v) && s.workers[v].start <= x < s.workers[v].end;
          assert PendingPush(s', v);
        }
      }
    }
  }

  lemma PushCovers(cfg: Config, s: State, w: nat, x: int)
    requires Enabled(cfg, s, Push(w)) && Covered(s, x)
    ensures Covered(Do(cfg, s, Push(w)), x)
  {
    var s' := Do(cfg, s, Push(w));
    var id0 := |s.buf.segments|;
    if id :| Registered(s, id) && s.buf.segments[id].start <= x < s.buf.segments[id].end {
      assert Registered(s', id) && s'.buf.segments[id] == s.buf.segments[id];
    } else {
      var v :| PendingPush(s, v) && s.workers[v].start <= x < s.workers[v].end;
      assert Registered(s', id0) && (v != w ==> PendingPush(s', v));
    }
  }

  lemma TilingPush(cfg: Config, s: State, w: nat)
    requires Tiling(cfg, s) && Enabled(cfg, s, Push(w))
    ensures Tiling(cfg, Do(cfg, s, Push(w)))
  {
    var s' := Do(cfg, s, Push(w));
    var id0 := |s.buf.segments|;
    assert PendingPush(s, w);
    assert forall v :: PendingPush(s', v) <==> v != w && PendingPush(s, v);
    assert forall id :: Registered(s', id) <==> id == id0 || Registered(s, id);
    assert forall id :: Registered(s, id) ==> s'.buf.segments[id] == s.buf.segments[id];
    forall x | 0 <= x < s'.buf.next
      ensures Covered(s', x)
    {
      assert Covered(s, x);
      PushCovers(cfg, s, w, x);
    }
  }

  lemma TilingStep(cfg: Config, s: State, a: Action)
    requires Tiling(cfg, s) && Enabled(cfg, s, a)
    ensures Tiling(cfg, Do(cfg, s, a))
  {
    if IsLocal(a) {
      LocalStep(cfg, s, a);
      TilingFrame(cfg, s, Do(cfg, s, a));
    } else if a.Claim? {
      TilingClaim(cfg, s, a.w);
    } else if a.Push? {
      TilingPush(cfg, s, a.w);
    } else {
      TilingFrame(cfg, s, Do(cfg, s, a));
    }
  }

  // ---- ownership --------------------------------------------------------------------------------

  /** Nobody's claim changes hands, and no segment becomes ready. */
  ghost predicate SameHoldings(s: State, s': State) {
    && s'.buf.segments == s.buf.segments && s'.buf.readyCount == s.buf.readyCount
    && s'.counted == s.counted
    && |s'.log| == |s.log| && (forall id :: 0 <= id < |s.log| ==> s'.log[id].owner == s.log[id].owner)
    && |s.workers| <= |s'.workers|
    && (forall w :: Holds(s', w) ==> Holds(s, w))
    && (forall w :: Holds(s, w) ==>
          && Holds(s', w)
          && HeldBy(s'.workers[w]).value == HeldBy(s.workers[w]).value.(attempt := HeldBy(s'.workers[w]).value.attempt)
          && (s'.workers[w].Marked? <==> s.workers[w].Marked?))
  }

  lemma OwnershipFrame(s: State, s': State)
    requires Ownership(s) && SameHoldings(s, s')
    ensures Ownership(s')
  {
  }

  lemma LocalHeld(cfg: Config, s: State, a: Action)
    requires IsLocal(a) && Enabled(cfg, s, a) && !a.PublishReady? && !a.Notify?
    ensures var s' := Do(cfg, s, a); var held, held' := HeldBy(s.workers[a.w]), HeldBy(s'.workers[a.w]);
      && (held'.Some? <==> held.Some?)
      && (held.Some? ==> held'.value == held.value.(attempt := held'.value.attempt))
      && (s'.workers[a.w].Marked? <==> s.workers[a.w].Marked?)
  {
  }

  lemma LocalLog(cfg: Config, s: State, a: Action)
    requires IsLocal(a) && Enabled(cfg, s, a) && !a.PublishReady? && !a.Notify?
    ensures var s' := Do(cfg, s, a);
      && s'.buf.segments == s.buf.segments && s'.buf.readyCount == s.buf.readyCount && s'.counted == s.counted
      && |s'.log| == |s.log| && (forall id :: 0 <= id < |s.log| ==> s'.log[id].owner == s.log[id].owner)
      && |s'.workers| == |s.workers| && (forall v :: IsWorker(s, v) && v != a.w ==> s'.workers[v] == s.workers[v])
  {
  }

  lemma LocalHoldings(cfg: Config, s: State, a: Action)
    requires IsLocal(a) && Enabled(cfg, s, a) && !a.PublishReady? && !a.Notify?
    ensures SameHoldings(s, Do(cfg, s, a))
  {
    LocalHeld(cfg, s, a);
    LocalLog(cfg, s, a);
    HoldingsFromWorker(s, Do(cfg, s, a), a.w);
  }

  lemma HoldingsFromWorker(s: State, s': State, w: nat)
    requires s'.buf.segments == s.buf.segments && s'.buf.readyCount == s.buf.readyCount && s'.counted == s.counted
    requires |s'.log| == |s.log| && (forall id :: 0 <= id < |s.log| ==> s'.log[id].owner == s.log[id].owner)
    requires |s'.workers| == |s.workers| && (forall v :: IsWorker(s, v) && v != w ==> s'.workers[v] == s.workers[v])
    requires IsWorker(s, w) && (HeldBy(s'.workers[w]).Some? <==> HeldBy(s.workers[w]).Some?)
    requires HeldBy(s.workers[w]).Some? ==>
      HeldBy(s'.workers[w]).value == HeldBy(s.workers[w]).value.(attempt := HeldBy(s'.workers[w]).value.attempt)
    requires s'.workers[w].Marked? <==> s.workers[w].Marked?
    ensures SameHoldings(s, s')
  {
  }

  lemma OtherHoldings(cfg: Config, s: State, a: Action)
    requires !IsLocal(a) && Enabled(cfg, s, a) && !a.Push?
    ensures SameHoldings(s, Do(cfg, s, a))
  {
  }

  lemma OwnershipPush(cfg: Config, s: State, w: nat)
    requires Ownership(s) && Enabled(cfg, s, Push(w))
    ensures Ownership(Do(cfg, s, Push(w)))
  {
    var s' := Do(cfg, s, Push(w));
    var id0 := |s.buf.segments|;
    assert !Registered(s, id0);
    forall v | Holds(s', v)
      ensures HoldsItsClaim(s', v)
    {
      if v != w {
        assert Holds(s, v) && HoldsItsClaim(s, v);
      }
    }
    forall id | Registered(s', id) && id !in s'.counted
      ensures Holds(s', s'.log[id].owner) && HeldBy(s'.workers[s'.log[id].owner]).value.id == id
    {
      if id < id0 {
        assert Registered(s, id) && Holds(s, s.log[id].owner);
      }
    }
    assert forall id :: id in s.counted ==> Registered(s, id);
  }

  lemma OwnershipPublish(cfg: Config, s: State, w: nat)
    requires Ownership(s) && Enabled(cfg, s, PublishReady(w))
    ensures Ownership(Do(cfg, s, PublishReady(w)))
  {
    var s' := Do(cfg, s, PublishReady(w));
    var job := s.workers[w].job;
    assert Holds(s, w) && HoldsItsClaim(s, w);
    forall v | Holds(s', v)
      ensures HoldsItsClaim(s', v)
    {
      assert Holds(s, v) && HoldsItsClaim(s, v);
    }
    forall id | Registered(s', id) && id !in s'.counted
      ensures Holds(s', s'.log[id].owner) && HeldBy(s'.workers[s'.log[id].owner]).value.id == id
    {
      assert Registered(s, id) && Holds(s, s.log[id].owner);
    }
    assert forall id :: id in s.counted ==> Registered(s, id);
  }

  lemma OwnershipNotify(cfg: Config, s: State, w: nat, preferred: nat)
    requires Ownership(s) && Enabled(cfg, s, Notify(w, preferred))
    ensures Ownership(Do(cfg, s, Notify(w, preferred)))
  {
    var s' := Do(cfg, s, Notify(w, preferred));
    var job := s.workers[w].job;
    assert Holds(s, w) && HoldsItsClaim(s, w);
    forall v | Holds(s', v)
      ensures HoldsItsClaim(s', v)
    {
      assert Holds(s, v) && HoldsItsClaim(s, v);
    }
    forall id | Registered(s', id) && id !in s'.counted
      ensures Holds(s', s'.log[id].owner) && HeldBy(s'.workers[s'.log[id].owner]).value.id == id
    {
      assert Registered(s, id) && Holds(s, s.log[id].owner);
    }
    assert forall id :: id in s.counted ==> Registered(s, id);
  }

  lemma OwnershipStep(cfg: Config, s: State, a: Action)
    requires Ownership(s) && Enabled(cfg, s, a)
    ensures Ownership(Do(cfg, s, a))
  {
    if a.Push? {
      OwnershipPush(cfg, s, a.w);
    } else if a.PublishReady? {
      OwnershipPublish(cfg, s, a.w);
    } else if a.Notify? {
      OwnershipNotify(cfg, s, a.w, a.preferred);
    } else {
      if IsLocal(a) {
        LocalHoldings(cfg, s, a);
      } else {
        OtherHoldings(cfg, s, a);
      }
      OwnershipFrame(s, Do(cfg, s, a));
    }
  }

  // ---- data -------------------------------------------------------------------------------------

  /** The range of `job` lies in the file, and nobody else's claim or segment meets it. */
  ghost predicate Exclusive(cfg: Config, s: State, w: nat, job: Job) {
    && job.start < job.end <= cfg.total
    && (forall v :: Holds(s, v) && v != w ==>
          Disjoint(HeldBy(s.workers[v]).value.start, HeldBy(s.workers[v]).value.end, job.start, job.end))
    && (forall id :: Registered(s, id) && id != job.id ==>
          Disjoint(s.buf.segments[id].start, s.buf.segments[id].end, job.start, job.end))
  }

  lemma HeldRange(cfg: Config, s: State, w: nat)
    requires Tiling(cfg, s) && Ownership(s) && Holds(s, w)
    ensures HoldsItsClaim(s, w) && Exclusive(cfg, s, w, HeldBy(s.workers[w]).value)
  {
  }

  /** A response is accepted only where its first byte belongs at the start of the range. */
  lemma StatusData(file: seq<byte>, total: nat, job: Job, status: nat, src: Generation)
    requires job.start < job.end
    ensures WorkerData(file, OnStatus(total, job, status, src))
  {
  }

  lemma ChunkData(file: seq<byte>, wk: Worker, chunk: seq<byte>)
    requires wk.Streaming? && WorkerData(file, wk) && BodyContinues(wk, chunk)
    ensures WorkerData(file, OnChunk(wk, chunk))
  {
  }

  /** Off the disk, a worker's own move keeps its data honest. */
  lemma WorkerDataStep(cfg: Config, s: State, a: Action)
    requires IsLocal(a) && !a.WriteSome? && Enabled(cfg, s, a)
    requires WorkerData(s.buf.file, s.workers[a.w])
    requires HeldBy(s.workers[a.w]).Some? ==> HeldBy(s.workers[a.w]).value.start < HeldBy(s.workers[a.w]).value.end
    ensures WorkerData(s.buf.file, Do(cfg, s, a).workers[a.w])
  {
    if a.Respond? {
      StatusData(s.buf.file, s.buf.total, s.workers[a.w].job, a.status, s.upstream);
    } else if a.ChunkArrives? {
      ChunkData(s.buf.file, s.workers[a.w], a.chunk);
    }
  }

  /** What is published is what the worker has received. */
  lemma LocalSegments(cfg: Config, s: State, a: Action)
    requires Ownership(s) && Data(cfg, s) && IsLocal(a) && !a.WriteSome? && Enabled(cfg, s, a)
    ensures var s' := Do(cfg, s, a);
      && |s'.log| == |s'.buf.segments| && s'.buf.file == s.buf.file
      && forall id :: Registered(s', id) ==> SegmentData(s'.buf.file, s'.buf.segments[id], s'.log[id])
  {
    var s' := Do(cfg, s, a);
    if a.PublishReady? {
      assert Holds(s, a.w) && HoldsItsClaim(s, a.w);
      assert IsWorker(s, a.w) && WorkerData(s.buf.file, s.workers[a.w]);
    }
    forall id | Registered(s', id)
      ensures SegmentData(s'.buf.file, s'.buf.segments[id], s'.log[id])
    {
      assert Registered(s, id) && SegmentData(s.buf.file, s.buf.segments[id], s.log[id]);
    }
  }

  lemma DataLocal(cfg: Config, s: State, a: Action)
    requires Tiling(cfg, s) && Ownership(s) && Data(cfg, s)
    requires IsLocal(a) && !a.WriteSome? && Enabled(cfg, s, a)
    ensures Data(cfg, Do(cfg, s, a))
  {
    LocalStep(cfg, s, a);
    if Holds(s, a.w) {
      HeldRange(cfg, s, a.w);
    }
    assert IsWorker(s, a.w) && WorkerData(s.buf.file, s.workers[a.w]);
    WorkerDataStep(cfg, s, a);
    LocalSegments(cfg, s, a);
  }

  /** `file'` is `file` after the next `count` bytes of the worker's data were put in their place. */
  ghost predicate IsWrite(file: seq<byte>, file': seq<byte>, wk: Worker, count: nat)
    requires wk.Writing? && 1 <= count <= |wk.data| - wk.done
  {
    var from := wk.job.start + wk.got + wk.done;
    && |file'| >= |file| && |file'| >= from + count
    && (from + count <= |file| ==> |file'| == |file|)
    && (forall x :: from <= x < from + count ==> file'[x] == wk.data[x - from + wk.done])
    && (forall x :: 0 <= x < |file| && !(from <= x < from + count) ==> file'[x] == file[x])
  }

  lemma SpliceIsWrite(file: seq<byte>, wk: Worker, count: nat)
    requires wk.Writing? && 1 <= count <= |wk.data| - wk.done
    ensures IsWrite(file, Splice(file, wk.job.start + wk.got + wk.done, wk.data[wk.done..wk.done + count]), wk, count)
  {
  }

  /** The writing worker itself: what it has put down so far is one more stretch of its response. */
  lemma WriterData(file: seq<byte>, file': seq<byte>, wk: Worker, count: nat)
    requires wk.Writing? && WorkerData(file, wk) && 1 <= count <= |wk.data| - wk.done && IsWrite(file, file', wk, count)
    ensures WorkerData(file', AfterWrite(wk, count))
  {
    assert Agree(file', wk.src.content, wk.job.start, wk.job.start + wk.got + wk.done + count);
  }

  /** `file'` differs from `file` only inside [lo, hi). */
  ghost predicate WritesWithin(file: seq<byte>, file': seq<byte>, lo: int, hi: int) {
    |file'| == |file| && forall x :: 0 <= x < |file| && !(lo <= x < hi) ==> file'[x] == file[x]
  }

  lemma OtherWorkersUntouched(cfg: Config, s: State, w: nat, file': seq<byte>)
    requires Data(cfg, s) && Holds(s, w) && Exclusive(cfg, s, w, HeldBy(s.workers[w]).value)
    requires var job := HeldBy(s.workers[w]).value; WritesWithin(s.buf.file, file', job.start, job.end)
    ensures forall v :: IsWorker(s, v) && v != w ==> WorkerData(file', s.workers[v])
  {
  }

  lemma SegmentsUntouched(cfg: Config, s: State, w: nat, file': seq<byte>)
    requires Data(cfg, s) && Holds(s, w) && HoldsItsClaim(s, w) && !s.workers[w].Marked?
    requires Exclusive(cfg, s, w, HeldBy(s.workers[w]).value)
    requires var job := HeldBy(s.workers[w]).value; WritesWithin(s.buf.file, file', job.start, job.end)
    ensures forall id :: Registered(s, id) ==> SegmentData(file', s.buf.segments[id], s.log[id])
  {
  }

  lemma WriteEffect(cfg: Config, s: State, w: nat, count: nat)
    requires Enabled(cfg, s, WriteSome(w, count))
    ensures var s' := Do(cfg, s, WriteSome(w, count)); var wk := s.workers[w];
      && s'.buf.file == Splice(s.buf.file, wk.job.start + wk.got + wk.done, wk.data[wk.done..wk.done + count])
      && s'.buf.segments == s.buf.segments && s'.log == s.log
      && s'.workers == s.workers[w := AfterWrite(wk, count)]
  {
  }

  /** A write stays inside the claim it belongs to. */
  lemma WriteInside(file: seq<byte>, file': seq<byte>, wk: Worker, count: nat)
    requires wk.Writing? && WorkerData(file, wk) && wk.job.end <= |file| && 1 <= count <= |wk.data| - wk.done
    requires IsWrite(file, file', wk, count)
    ensures WritesWithin(file, file', wk.job.start, wk.job.end)
  {
  }

  lemma DataFrom(cfg: Config, s: State, s': State, w: nat)
    requires Data(cfg, s) && IsWorker(s, w) && |s'.buf.file| == cfg.total
    requires s'.buf.segments == s.buf.segments && s'.log == s.log
    requires |s'.workers| == |s.workers| && s'.workers == s.workers[w := s'.workers[w]]
    requires WorkerData(s'.buf.file, s'.workers[w])
    requires forall v :: IsWorker(s, v) && v != w ==> WorkerData(s'.buf.file, s.workers[v])
    requires forall id :: Registered(s, id) ==> SegmentData(s'.buf.file, s.buf.segments[id], s.log[id])
    ensures Data(cfg, s')
  {
  }

  /** What a write leaves behind, seen by everybody. */
  lemma FileAfterWrite(cfg: Config, s: State, w: nat, count: nat, file': seq<byte>)
    requires Data(cfg, s) && IsWorker(s, w) && s.workers[w].Writing?
    requires HoldsItsClaim(s, w) && Exclusive(cfg, s, w, s.workers[w].job)
    requires var wk := s.workers[w];
      && WritesWithin(s.buf.file, file', wk.job.start, wk.job.end)
      && 1 <= count <= |wk.data| - wk.done && WorkerData(file', AfterWrite(wk, count))
    requires Enabled(cfg, s, WriteSome(w, count)) && Do(cfg, s, WriteSome(w, count)).buf.file == file'
    ensures Data(cfg, Do(cfg, s, WriteSome(w, count)))
  {
    OtherWorkersUntouched(cfg, s, w, file');
    SegmentsUntouched(cfg, s, w, file');
    WriteEffect(cfg, s, w, count);
    DataFrom(cfg, s, Do(cfg, s, WriteSome(w, count)), w);
  }

  lemma WriteWrites(cfg: Config, s: State, w: nat, count: nat)
    requires Enabled(cfg, s, WriteSome(w, count))
    ensures IsWrite(s.buf.file, Do(cfg, s, WriteSome(w, count)).buf.file, s.workers[w], count)
  {
    WriteEffect(cfg, s, w, count);
    SpliceIsWrite(s.buf.file, s.workers[w], count);
  }

  lemma WriterFacts(cfg: Config, s: State, w: nat, count: nat)
    requires Data(cfg, s) && Enabled(cfg, s, WriteSome(w, count)) && s.workers[w].job.end <= cfg.total
    ensures var wk := s.workers[w]; var file' := Do(cfg, s, WriteSome(w, count)).buf.file;
      WritesWithin(s.buf.file, file', wk.job.start, wk.job.end) && WorkerData(file', AfterWrite(wk, count))
  {
    assert IsWorker(s, w) && WorkerData(s.buf.file, s.workers[w]);
    WriteWrites(cfg, s, w, count);
    var file' := Do(cfg, s, WriteSome(w, count)).buf.file;
    WriterData(s.buf.file, file', s.workers[w], count);
    WriteInside(s.buf.file, file', s.workers[w], count);
  }

  lemma DataWrite(cfg: Config, s: State, w: nat, count: nat)
    requires Data(cfg, s) && Enabled(cfg, s, WriteSome(w, count))
    requires Holds(s, w) && HoldsItsClaim(s, w) && Exclusive(cfg, s, w, s.workers[w].job)
    ensures Data(cfg, Do(cfg, s, WriteSome(w, count)))
  {
    WriterFacts(cfg, s, w, count);
    FileAfterWrite(cfg, s, w, count, Do(cfg, s, WriteSome(w, count)).buf.file);
  }

  lemma DataOther(cfg: Config, s: State, a: Action)
    requires Data(cfg, s) && !IsLocal(a) && Enabled(cfg, s, a)
    ensures Data(cfg, Do(cfg, s, a))
  {
  }

  lemma DataStep(cfg: Config, s: State, a: Action)
    requires Tiling(cfg, s) && Ownership(s) && Data(cfg, s) && Enabled(cfg, s, a)
    ensures Data(cfg, Do(cfg, s, a))
  {
    if a.WriteSome? {
      assert Holds(s, a.w);
      HeldRange(cfg, s, a.w);
      DataWrite(cfg, s, a.w, a.count);
    } else if IsLocal(a) {
      DataLocal(cfg, s, a);
    } else {
      DataOther(cfg, s, a);
    }
  }

  // ---- generations ------------------------------------------------------------------------------

  /** The only bytes a worker newly accepts are those of upstream's current, admissible generation. */
  lemma SourceStep(cfg: Config, s: State, a: Action)
    requires Pinned(cfg, s) && OneGeneration(cfg) && IsLocal(a) && Enabled(cfg, s, a)
    ensures var src := SourceOf(Do(cfg, s, a).workers[a.w]); src.Some? ==> src.value.content == cfg.head.content
  {
    assert SourceOf(s.workers[a.w]).Some? ==> SourceOf(s.workers[a.w]).value.content == cfg.head.content;
  }

  lemma OriginStep(cfg: Config, s: State, a: Action)
    requires Pinned(cfg, s) && OneGeneration(cfg) && IsLocal(a) && Enabled(cfg, s, a)
    ensures var s' := Do(cfg, s, a);
      && s'.upstream == s.upstream
      && forall id :: 0 <= id < |s'.log| && s'.log[id].origin.Some? ==>
           s'.log[id].origin.value.content == cfg.head.content
  {
    assert IsWorker(s, a.w);
    assert SourceOf(s.workers[a.w]).Some? ==> SourceOf(s.workers[a.w]).value.content == cfg.head.content;
  }

  lemma PinnedOther(cfg: Config, s: State, a: Action)
    requires Pinned(cfg, s) && !IsLocal(a) && Enabled(cfg, s, a)
    ensures Pinned(cfg, Do(cfg, s, a))
  {
  }

  lemma UpstreamKept(cfg: Config, s: State, a: Action)
    requires IsLocal(a) && Enabled(cfg, s, a)
    ensures Do(cfg, s, a).upstream == s.upstream
  {
  }

  lemma PinnedStep(cfg: Config, s: State, a: Action)
    requires Pinned(cfg, s) && Enabled(cfg, s, a)
    ensures Pinned(cfg, Do(cfg, s, a))
  {
    if IsLocal(a) {
      LocalStep(cfg, s, a);
      UpstreamKept(cfg, s, a);
      if OneGeneration(cfg) {
        SourceStep(cfg, s, a);
        OriginStep(cfg, s, a);
      }
    } else {
      PinnedOther(cfg, s, a);
    }
  }

  // ---- requests ---------------------------------------------------------------------------------

  lemma GetsStep(cfg: Config, s: State, a: Action)
    requires IsLocal(a) && Enabled(cfg, s, a) && GetsSoFar(s.log, s.workers[a.w])
    ensures GetsSoFar(Do(cfg, s, a).log, Do(cfg, s, a).workers[a.w])
    ensures |Do(cfg, s, a).log| == |s.log|
    ensures forall id :: 0 <= id < |s.log| && s.log[id].gets <= MAX_SEGMENT_RETRIES + 1 ==>
              Do(cfg, s, a).log[id].gets <= MAX_SEGMENT_RETRIES + 1
    ensures forall id :: 0 <= id < |s.log| && Some(id) != HeldId(s.workers[a.w]) ==>
              Do(cfg, s, a).log[id].gets == s.log[id].gets
  {
  }

  function HeldId(wk: Worker): Option<int> {
    match HeldBy(wk)
    case None => None
    case Some(job) => Some(job.id)
  }

  lemma RequestsStep(cfg: Config, s: State, a: Action)
    requires Ownership(s) && Requests(s) && Enabled(cfg, s, a)
    ensures Requests(Do(cfg, s, a))
  {
    var s' := Do(cfg, s, a);
    if IsLocal(a) {
      assert GetsSoFar(s.log, s.workers[a.w]);
      GetsStep(cfg, s, a);
      LocalStep(cfg, s, a);
      forall v | IsWorker(s', v)
        ensures GetsSoFar(s'.log, s'.workers[v])
      {
        assert IsWorker(s, v) && GetsSoFar(s.log, s.workers[v]);
        if v != a.w && Holds(s, v) && Holds(s, a.w) {
          assert HoldsItsClaim(s, v) && HoldsItsClaim(s, a.w);
        }
      }
    } else {
      forall v | IsWorker(s', v)
        ensures GetsSoFar(s'.log, s'.workers[v])
      {
        assert IsWorker(s, v) ==> GetsSoFar(s.log, s.workers[v]);
      }
    }
  }

  // ---- counting claims --------------------------------------------------------------------------

  lemma CountingClaim(cfg: Config, s: State, w: nat)
    requires Counting(s) && Enabled(cfg, s, Claim(w)) && s.workers[w].preferred >= MIN_SEGMENT_SIZE
    ensures Counting(Do(cfg, s, Claim(w)))
  {
    assert PendingPushes(Do(cfg, s, Claim(w))) == PendingPushes(s) + {w};
  }

  lemma CountingPush(cfg: Config, s: State, w: nat)
    requires Counting(s) && Enabled(cfg, s, Push(w))
    ensures Counting(Do(cfg, s, Push(w)))
  {
    assert w in PendingPushes(s);
    assert PendingPushes(Do(cfg, s, Push(w))) == PendingPushes(s) - {w};
  }

  lemma CountingFrame(cfg: Config, s: State, a: Action)
    requires !IsLocal(a) && !a.Claim? && !a.Push? && Enabled(cfg, s, a)
    ensures PendingPushes(Do(cfg, s, a)) == PendingPushes(s)
  {
  }

  lemma CountingStep(cfg: Config, s: State, a: Action)
    requires Tiling(cfg, s) && Counting(s) && Enabled(cfg, s, a)
    ensures Counting(Do(cfg, s, a))
  {
    if a.Claim? {
      CountingClaim(cfg, s, a.w);
    } else if a.Push? {
      CountingPush(cfg, s, a.w);
    } else if IsLocal(a) {
      LocalStep(cfg, s, a);
      assert PendingPushes(Do(cfg, s, a)) == PendingPushes(s);
    } else {
      CountingFrame(cfg, s, a);
    }
  }

  // ---- workers, join set, supervisor ------------------------------------------------------------

  /** Workers that have exited stay as they are; the rest of `Control` is about the others. */
  lemma ControlLocal(cfg: Config, s: State, a: Action)
    requires Control(cfg, s) && IsLocal(a) && !a.Exit? && Enabled(cfg, s, a)
    ensures Control(cfg, Do(cfg, s, a))
  {
    var s' := Do(cfg, s, a);
    LocalStep(cfg, s, a);
    OutcomeStep(cfg, s, a);
    assert Running(s') == Running(s);
    if s.main.Finished? {
      JustifiedFrame(cfg, s, s', a.w);
    }
  }

  lemma OutcomeStep(cfg: Config, s: State, a: Action)
    requires IsLocal(a) && !a.Exit? && Enabled(cfg, s, a)
    requires WorkerOutcome(s.buf.allAssigned, s.cancelled, s.workers[a.w])
    ensures var s' := Do(cfg, s, a); WorkerOutcome(s'.buf.allAssigned, s'.cancelled, s'.workers[a.w])
    ensures !s.workers[a.w].Exited? && !Do(cfg, s, a).workers[a.w].Exited?
    ensures var s' := Do(cfg, s, a);
      && s'.active == s.active && s'.joined == s.joined && s'.main == s.main && s'.cancelled == s.cancelled
      && s'.buf.allAssigned == (s.buf.allAssigned || a.Exhaust?)
      && (a.Exhaust? ==> s.buf.next >= s.buf.total)
  {
  }

  lemma JustifiedFrame(cfg: Config, s: State, s': State, w: nat)
    requires s.main.Finished? && Justified(cfg, s, s.main.verdict)
    requires IsWorker(s, w) && !s.workers[w].Exited?
    requires |s'.workers| == |s.workers| && forall v :: IsWorker(s, v) && v != w ==> s'.workers[v] == s.workers[v]
    ensures Justified(cfg, s', s.main.verdict)
  {
  }

  lemma ControlExit(cfg: Config, s: State, w: nat)
    requires Control(cfg, s) && Enabled(cfg, s, Exit(w))
    ensures Control(cfg, Do(cfg, s, Exit(w)))
  {
    var s' := Do(cfg, s, Exit(w));
    assert w in Running(s);
    assert Running(s') == Running(s) - {w};
    assert WorkerOutcome(s.buf.allAssigned, s.cancelled, s.workers[w]);
    if s.main.Finished? {
      JustifiedFrame(cfg, s, s', w);
    }
  }

  lemma ControlClaimOrPush(cfg: Config, s: State, a: Action)
    requires Control(cfg, s) && Enabled(cfg, s, a) && (a.Claim? || a.Push?)
    ensures Control(cfg, Do(cfg, s, a))
  {
    var s' := Do(cfg, s, a);
    assert Running(s') == Running(s);
    if s.main.Finished? {
      JustifiedFrame(cfg, s, s', a.w);
    }
  }

  lemma ControlReadyMessage(cfg: Config, s: State)
    requires Control(cfg, s) && Enabled(cfg, s, ReadyMessage)
    ensures Control(cfg, Do(cfg, s, ReadyMessage))
  {
    var s' := Do(cfg, s, ReadyMessage);
    if |s'.workers| > |s.workers| {
      assert Running(s') == Running(s) + {|s.workers|};
    } else {
      assert Running(s') == Running(s);
    }
  }

  lemma ControlJoin(cfg: Config, s: State, w: nat)
    requires Control(cfg, s) && Enabled(cfg, s, Join(w))
    ensures Control(cfg, Do(cfg, s, Join(w)))
  {
  }

  /** The loop is only left early when no spawned worker is still running. */
  lemma ControlReadActive(cfg: Config, s: State)
    requires Control(cfg, s) && Enabled(cfg, s, ReadActive)
    ensures Control(cfg, Do(cfg, s, ReadActive))
  {
    var s' := Do(cfg, s, ReadActive);
    assert Running(s') == Running(s);
    if s'.main.Draining? {
      assert Running(s) == {};
      forall v | IsWorker(s', v)
        ensures s'.workers[v].Exited?
      {
        assert v !in Running(s);
      }
    }
  }

  lemma ControlNothingToJoin(cfg: Config, s: State)
    requires Control(cfg, s) && Enabled(cfg, s, NothingToJoin)
    ensures Control(cfg, Do(cfg, s, NothingToJoin))
  {
  }

  function Below(n: nat): (r: set<nat>)
    ensures |r| == n
    ensures forall i: nat :: i in r <==> i < n
  {
    if n == 0 then {} else Below(n - 1) + {n - 1}
  }

  lemma {:induction false} SubsetSize<T>(a: set<T>, b: set<T>)
    requires a <= b
    ensures |a| <= |b|
    ensures |a| == |b| ==> a == b
  {
    if a != {} {
      var x :| x in a;
      SubsetSize(a - {x}, b - {x});
      assert a == (a - {x}) + {x} && b == (b - {x}) + {x};
    }
  }

  /** The counter reaches the number of segments exactly when every segment has been counted. */
  lemma CountReached(s: State)
    requires Ownership(s)
    ensures s.buf.readyCount >= |s.buf.segments| <==> forall id :: Registered(s, id) ==> id in s.counted
  {
    var all := Below(|s.buf.segments|);
    assert s.counted <= all by {
      forall id | id in s.counted
        ensures id in all
      {
        assert Registered(s, id);
      }
    }
    SubsetSize(s.counted, all);
    if s.buf.readyCount >= |s.buf.segments| {
      assert s.counted == all;
    } else if forall id :: Registered(s, id) ==> id in s.counted {
      assert forall id :: id in all ==> Registered(s, id);
      assert all <= s.counted;
      SubsetSize(all, s.counted);
    }
  }

  lemma SuccessIsCounted(cfg: Config, s: State)
    requires Ownership(s) && Control(cfg, s) && Enabled(cfg, s, Verdict) && cfg.connections > 0
    requires forall w :: IsWorker(s, w) ==> !Failed(s.workers[w])
    ensures AllCompleted(s.buf)
  {
    forall w | IsWorker(s, w)
      ensures HeldBy(s.workers[w]) == None && s.buf.allAssigned
    {
      assert WorkerOutcome(s.buf.allAssigned, s.cancelled, s.workers[w]) && !Failed(s.workers[w]);
    }
    assert IsWorker(s, 0);
    forall id | Registered(s, id)
      ensures id in s.counted
    {
      assert !Holds(s, s.log[id].owner);
    }
    CountReached(s);
  }

  /** Once every worker has exited, the counters tell whether all of them succeeded. */
  lemma VerdictCorrect(cfg: Config, s: State)
    requires Ownership(s) && Control(cfg, s) && Enabled(cfg, s, Verdict)
    ensures AllCompleted(s.buf) ==> cfg.connections > 0 && AllSucceeded(s)
    ensures !AllCompleted(s.buf) ==> cfg.connections == 0 || exists w :: IsWorker(s, w) && Failed(s.workers[w])
  {
    CountReached(s);
    if AllCompleted(s.buf) {
      forall w | IsWorker(s, w)
        ensures s.workers[w].Exited? && s.workers[w].outcome.Ok?
      {
        assert WorkerOutcome(s.buf.allAssigned, s.cancelled, s.workers[w]);
        assert Holds(s, w) ==> HoldsItsClaim(s, w);
      }
    }
    if cfg.connections > 0 && forall w :: IsWorker(s, w) ==> !Failed(s.workers[w]) {
      SuccessIsCounted(cfg, s);
    }
  }

  lemma ControlVerdict(cfg: Config, s: State)
    requires Ownership(s) && Control(cfg, s) && Enabled(cfg, s, Verdict)
    ensures Control(cfg, Do(cfg, s, Verdict))
  {
    var s' := Do(cfg, s, Verdict);
    VerdictCorrect(cfg, s);
    assert Running(s') == Running(s);
    forall w | IsWorker(s', w)
      ensures WorkerOutcome(s'.buf.allAssigned, s'.cancelled, s'.workers[w])
    {
      assert WorkerOutcome(s.buf.allAssigned, s.cancelled, s.workers[w]);
    }
    if !AllCompleted(s.buf) && cfg.connections != 0 {
      var w :| IsWorker(s, w) && Failed(s.workers[w]);
      assert IsWorker(s', w) && Failed(s'.workers[w]);
    }
  }

  lemma ControlEnvironment(cfg: Config, s: State, a: Action)
    requires Control(cfg, s) && Enabled(cfg, s, a) && (a.UpstreamChanges? || a.SetFailed?)
    ensures Control(cfg, Do(cfg, s, a))
  {
  }

  lemma ControlStep(cfg: Config, s: State, a: Action)
    requires Ownership(s) && Control(cfg, s) && Enabled(cfg, s, a)
    ensures Control(cfg, Do(cfg, s, a))
  {
    match a
    case Claim(_) => ControlClaimOrPush(cfg, s, a);
    case Push(_) => ControlClaimOrPush(cfg, s, a);
    case Exit(w) => ControlExit(cfg, s, w);
    case ReadyMessage => ControlReadyMessage(cfg, s);
    case Join(w) => ControlJoin(cfg, s, w);
    case ReadActive => ControlReadActive(cfg, s);
    case NothingToJoin => ControlNothingToJoin(cfg, s);
    case Verdict => ControlVerdict(cfg, s);
    case UpstreamChanges(_) => ControlEnvironment(cfg, s, a);
    case SetFailed => ControlEnvironment(cfg, s, a);
    case _ => ControlLocal(cfg, s, a);
  }

  // ---- all together -----------------------------------------------------------------------------

  lemma InvStep(cfg: Config, s: State, a: Action)
    requires Inv(cfg, s) && Enabled(cfg, s, a)
    ensures Inv(cfg, Do(cfg, s, a))
  {
    TilingStep(cfg, s, a);
    OwnershipStep(cfg, s, a);
    DataStep(cfg, s, a);
    PinnedStep(cfg, s, a);
    RequestsStep(cfg, s, a);
    CountingStep(cfg, s, a);
    ControlStep(cfg, s, a);
  }

  lemma {:induction false} InvRun(cfg: Config, s: State, acts: seq<Action>)
    requires Inv(cfg, s) && CanRun(cfg, s, acts)
    ensures Inv(cfg, Run(cfg, s, acts))
    decreases |acts|
  {
    if acts != [] {
      InvStep(cfg, s, acts[0]);
      InvRun(cfg, Do(cfg, s, acts[0]), acts[1..]);
    }
  }
}
