/** The promises of the parallel download, for every run of the step system. */
module DownloadTheorems {
  import opened Common
  import opened Segments
  import opened DownloadSystem
  import opened DownloadInvariant

  ghost predicate Reachable(cfg: Config, s0: State, acts: seq<Action>) {
    Init(cfg, s0) && CanRun(cfg, s0, acts)
  }

  lemma ReachableInv(cfg: Config, s0: State, acts: seq<Action>)
    requires Reachable(cfg, s0, acts)
    ensures Inv(cfg, Run(cfg, s0, acts))
  {
    InitInv(cfg, s0);
    InvRun(cfg, s0, acts);
  }

  // ---- tags ---------------------------------------------------------------------------------------

  /** A tag marked weak, in either spelling, is never sent; a quoted one always is (section 2.3 of RFC 7232). */
  lemma WeakTagsAreNotSent(cfg: Config, opaqueTag: string)
    ensures cfg.head.etag == Some("W/" + opaqueTag) || cfg.head.etag == Some("w/" + opaqueTag) ==> !SendsIfMatch(cfg)
    ensures cfg.head.etag == Some("\"" + opaqueTag) ==> SendsIfMatch(cfg)
    ensures cfg.head.etag == None ==> !SendsIfMatch(cfg)
  {
    assert ("\"" + opaqueTag)[0] == '"';
  }

  // ---- tiling -----------------------------------------------------------------------------------

  datatype Claimant = BySegment(id: int) | ByWorker(w: int)

  /** Everything that lays claim to offset `x`: registered segments, and claims not yet registered. */
  ghost function Claimants(s: State, x: int): set<Claimant> {
    (set id | 0 <= id < |s.buf.segments| && s.buf.segments[id].start <= x < s.buf.segments[id].end :: BySegment(id))
    + (set w | 0 <= w < |s.workers| && s.workers[w].Claimed? && s.workers[w].start <= x < s.workers[w].end :: ByWorker(w))
  }

  lemma OneClaimant(cfg: Config, s: State, x: int)
    requires Tiling(cfg, s) && 0 <= x < s.buf.next
    ensures |Claimants(s, x)| == 1
  {
    assert Covered(s, x);
    if id :| Registered(s, id) && s.buf.segments[id].start <= x < s.buf.segments[id].end {
      OnlySegment(cfg, s, x, id);
    } else {
      var w :| PendingPush(s, w) && s.workers[w].start <= x < s.workers[w].end;
      OnlyWorker(cfg, s, x, w);
    }
  }

  lemma NoClaimant(cfg: Config, s: State, x: int)
    requires Tiling(cfg, s) && !(0 <= x < s.buf.next)
    ensures Claimants(s, x) == {}
  {
    assert forall id :: Registered(s, id) ==> !(s.buf.segments[id].start <= x < s.buf.segments[id].end);
    assert forall w :: PendingPush(s, w) ==> !(s.workers[w].start <= x < s.workers[w].end);
  }

  /** Every offset below `next` has exactly one claimant, every other offset none. */
  lemma ExactlyOneClaimant(cfg: Config, s0: State, acts: seq<Action>, x: int)
    requires Reachable(cfg, s0, acts)
    ensures var s := Run(cfg, s0, acts);
      && s.buf.next <= cfg.total
      && |Claimants(s, x)| == (if 0 <= x < s.buf.next then 1 else 0)
  {
    ReachableInv(cfg, s0, acts);
    var s := Run(cfg, s0, acts);
    if 0 <= x < s.buf.next {
      OneClaimant(cfg, s, x);
    } else {
      NoClaimant(cfg, s, x);
    }
  }

  lemma OnlySegment(cfg: Config, s: State, x: int, id: int)
    requires Tiling(cfg, s) && Registered(s, id) && s.buf.segments[id].start <= x < s.buf.segments[id].end
    ensures Claimants(s, x) == {BySegment(id)}
  {
  }

  lemma OnlyWorker(cfg: Config, s: State, x: int, w: int)
    requires Tiling(cfg, s) && PendingPush(s, w) && s.workers[w].start <= x < s.workers[w].end
    ensures Claimants(s, x) == {ByWorker(w)}
  {
  }

  /** An id handed out by `claim_range` is the caller's own for as long as it works on the range. */
  lemma IdsAreExclusive(cfg: Config, s0: State, acts: seq<Action>, v: nat, w: nat)
    requires Reachable(cfg, s0, acts)
    requires var s := Run(cfg, s0, acts); v < |s.workers| && w < |s.workers| && v != w
    requires var s := Run(cfg, s0, acts); HeldBy(s.workers[v]).Some? && HeldBy(s.workers[w]).Some?
    ensures var s := Run(cfg, s0, acts);
      var j, k := HeldBy(s.workers[v]).value, HeldBy(s.workers[w]).value;
      && j.id != k.id
      && j.id < |s.buf.segments| && s.buf.segments[j.id].start == j.start && s.buf.segments[j.id].end == j.end
      && (j.end <= k.start || k.end <= j.start)
  {
    ReachableInv(cfg, s0, acts);
    var s := Run(cfg, s0, acts);
    assert Holds(s, v) && Holds(s, w);
    HeldRange(cfg, s, v);
    HeldRange(cfg, s, w);
  }

  ghost function ReadyIds(b: Buffer): set<nat> {
    set id: nat | id in Below(|b.segments|) && b.segments[id].state == Ready
  }

  /** The ready counter lags behind the ready flags, never ahead of them. */
  lemma ReadyCountNeverAhead(cfg: Config, s0: State, acts: seq<Action>)
    requires Reachable(cfg, s0, acts)
    ensures var b := Run(cfg, s0, acts).buf; b.readyCount <= |ReadyIds(b)| <= |b.segments|
  {
    ReachableInv(cfg, s0, acts);
    var s := Run(cfg, s0, acts);
    assert forall id :: id in s.counted ==> Registered(s, id);
    SubsetSize(s.counted, ReadyIds(s.buf));
    SubsetSize(ReadyIds(s.buf), Below(|s.buf.segments|));
  }

  // ---- data -------------------------------------------------------------------------------------

  lemma OnlyWritesTouchFile(cfg: Config, s: State, a: Action)
    requires Enabled(cfg, s, a) && !a.WriteSome?
    ensures Do(cfg, s, a).buf.file == s.buf.file
  {
  }

  lemma StepWritesInside(cfg: Config, s: State, a: Action)
    requires Tiling(cfg, s) && Ownership(s) && Data(cfg, s) && Enabled(cfg, s, a)
    ensures |Do(cfg, s, a).buf.file| == |s.buf.file|
    ensures a.WriteSome? ==>
      && Holds(s, a.w) && Exclusive(cfg, s, a.w, s.workers[a.w].job)
      && WritesWithin(s.buf.file, Do(cfg, s, a).buf.file, s.workers[a.w].job.start, s.workers[a.w].job.end)
  {
    if a.WriteSome? {
      assert Holds(s, a.w);
      HeldRange(cfg, s, a.w);
      WriterFacts(cfg, s, a.w, a.count);
    } else {
      OnlyWritesTouchFile(cfg, s, a);
    }
  }

  /** Bytes on disk change only under a worker's own write, and only inside the range it claimed. */
  lemma WritesStayInside(cfg: Config, s0: State, acts: seq<Action>, a: Action, x: nat)
    requires Reachable(cfg, s0, acts) && Enabled(cfg, Run(cfg, s0, acts), a)
    requires x < |Run(cfg, s0, acts).buf.file|
    ensures |Do(cfg, Run(cfg, s0, acts), a).buf.file| == cfg.total
    ensures var s := Run(cfg, s0, acts);
      Do(cfg, s, a).buf.file[x] != s.buf.file[x] ==>
        a.WriteSome? && s.workers[a.w].job.start <= x < s.workers[a.w].job.end
  {
    ReachableInv(cfg, s0, acts);
    var s := Run(cfg, s0, acts);
    StepWritesInside(cfg, s, a);
    if !a.WriteSome? {
      OnlyWritesTouchFile(cfg, s, a);
    }
  }

  lemma EntriesKept(cfg: Config, s: State, a: Action)
    requires Enabled(cfg, s, a) && !a.Push? && !a.PublishReady?
    ensures var s' := Do(cfg, s, a);
      && s'.buf.segments == s.buf.segments && |s'.log| == |s.log|
      && forall id :: 0 <= id < |s.log| ==> s'.log[id].origin == s.log[id].origin
  {
  }

  /** Nobody touches the entry of a ready segment again. */
  lemma ReadyEntryKept(cfg: Config, s: State, a: Action, id: nat)
    requires Ownership(s) && Enabled(cfg, s, a) && IsReady(s.buf, id)
    ensures var s' := Do(cfg, s, a);
      && id < |s.log| && id < |s'.buf.segments| && s'.buf.segments[id] == s.buf.segments[id]
      && id < |s'.log| && s'.log[id].origin == s.log[id].origin
  {
    assert Registered(s, id);
    if a.PublishReady? {
      assert Holds(s, a.w) && HoldsItsClaim(s, a.w);
    } else if !a.Push? {
      EntriesKept(cfg, s, a);
    }
  }

  lemma ReadyStep(cfg: Config, s: State, a: Action, id: nat)
    requires Inv(cfg, s) && Enabled(cfg, s, a) && IsReady(s.buf, id)
    ensures KeepsSegment(s.buf, Do(cfg, s, a).buf, id)
  {
    assert Registered(s, id);
    ReadyEntryKept(cfg, s, a, id);
    StepWritesInside(cfg, s, a);
    if a.WriteSome? {
      assert HoldsItsClaim(s, a.w);
    } else {
      OnlyWritesTouchFile(cfg, s, a);
    }
  }

  ghost predicate KeepsSegment(b: Buffer, b': Buffer, id: nat) {
    && IsReady(b, id) && |b.file| == |b'.file| && b.segments[id].start < b.segments[id].end <= |b.file|
    && id < |b'.segments| && b'.segments[id] == b.segments[id]
    && b'.file[b.segments[id].start..b.segments[id].end] == b.file[b.segments[id].start..b.segments[id].end]
  }

  lemma {:induction false} ReadyRun(cfg: Config, s: State, acts: seq<Action>, id: nat)
    requires Inv(cfg, s) && CanRun(cfg, s, acts) && IsReady(s.buf, id)
    ensures KeepsSegment(s.buf, Run(cfg, s, acts).buf, id)
    decreases |acts|
  {
    if acts == [] {
      assert Registered(s, id);
    } else {
      ReadyStep(cfg, s, acts[0], id);
      InvStep(cfg, s, acts[0]);
      ReadyRun(cfg, Do(cfg, s, acts[0]), acts[1..], id);
    }
  }

  /** Once ready, a segment keeps its bounds, its state and its bytes, whatever is done afterwards. */
  lemma ReadyIsForever(cfg: Config, s0: State, before: seq<Action>, after: seq<Action>, id: nat)
    requires Reachable(cfg, s0, before) && IsReady(Run(cfg, s0, before).buf, id)
    requires CanRun(cfg, Run(cfg, s0, before), after)
    ensures var s := Run(cfg, s0, before);
      KeepsSegment(s.buf, Run(cfg, s, after).buf, id)
  {
    ReachableInv(cfg, s0, before);
    ReadyRun(cfg, Run(cfg, s0, before), after, id);
  }

  /** A ready segment is the matching slice of one generation, whatever upstream did meanwhile. */
  lemma ReadyIsOneGeneration(cfg: Config, s0: State, acts: seq<Action>, id: nat)
    requires Reachable(cfg, s0, acts) && IsReady(Run(cfg, s0, acts).buf, id)
    ensures var s := Run(cfg, s0, acts); var seg := s.buf.segments[id];
      && id < |s.log| && s.log[id].origin.Some?
      && seg.start < seg.end <= |s.buf.file| && seg.end <= |s.log[id].origin.value.content|
      && s.buf.file[seg.start..seg.end] == s.log[id].origin.value.content[seg.start..seg.end]
      && (OneGeneration(cfg) ==> s.log[id].origin.value.content == cfg.head.content)
  {
    ReachableInv(cfg, s0, acts);
    var s := Run(cfg, s0, acts);
    assert Registered(s, id) && SegmentData(s.buf.file, s.buf.segments[id], s.log[id]);
  }

  /** After a successful verdict every offset lies in a ready segment. */
  lemma AllReady(cfg: Config, s: State, x: nat) returns (id: nat)
    requires Inv(cfg, s) && s.main == Finished(Ok(())) && x < cfg.total
    ensures IsReady(s.buf, id) && s.buf.segments[id].start <= x < s.buf.segments[id].end
  {
    CountReached(s);
    assert Covered(s, x);
    assert forall w :: !PendingPush(s, w);
    id :| Registered(s, id) && s.buf.segments[id].start <= x < s.buf.segments[id].end;
    assert id in s.counted;
  }

  lemma ByteIsUpstream(cfg: Config, s: State, x: nat)
    requires Inv(cfg, s) && OneGeneration(cfg) && s.main == Finished(Ok(())) && x < cfg.total
    ensures x < |s.buf.file| && x < |cfg.head.content| && s.buf.file[x] == cfg.head.content[x]
  {
    var id := AllReady(cfg, s, x);
    assert Registered(s, id) && SegmentData(s.buf.file, s.buf.segments[id], s.log[id]);
    assert Agree(s.buf.file, cfg.head.content, s.buf.segments[id].start, s.buf.segments[id].end);
  }

  /** Success means the whole file: every byte on disk is upstream's. */
  lemma OkMeansWholeFile(cfg: Config, s0: State, acts: seq<Action>)
    requires Reachable(cfg, s0, acts) && OneGeneration(cfg)
    requires Run(cfg, s0, acts).main == Finished(Ok(()))
    ensures cfg.total <= |cfg.head.content|
    ensures Run(cfg, s0, acts).buf.file == cfg.head.content[..cfg.total]
  {
    ReachableInv(cfg, s0, acts);
    var s := Run(cfg, s0, acts);
    assert |s.buf.file| == cfg.total;
    if cfg.total > 0 {
      ByteIsUpstream(cfg, s, cfg.total - 1);
    }
    forall x: nat | x < cfg.total
      ensures s.buf.file[x] == cfg.head.content[..cfg.total][x]
    {
      ByteIsUpstream(cfg, s, x);
    }
  }

  // ---- verdict ----------------------------------------------------------------------------------

  /** The verdict is Ok exactly when there was a connection to use and no worker failed. */
  lemma OkIffNoWorkerFailed(cfg: Config, s0: State, acts: seq<Action>)
    requires Reachable(cfg, s0, acts) && Run(cfg, s0, acts).main.Finished?
    ensures var s := Run(cfg, s0, acts);
      s.main.verdict.Ok? <==>
        cfg.connections > 0 && forall w :: 0 <= w < |s.workers| ==> s.workers[w].Exited? && s.workers[w].outcome.Ok?
  {
    ReachableInv(cfg, s0, acts);
    var s := Run(cfg, s0, acts);
    if s.main.verdict.Err? && cfg.connections > 0 {
      var w :| IsWorker(s, w) && Failed(s.workers[w]);
      assert !(s.workers[w].Exited? && s.workers[w].outcome.Ok?);
    } else if s.main.verdict.Ok? {
      assert AllSucceeded(s);
      assert forall w :: 0 <= w < |s.workers| ==> IsWorker(s, w);
    }
  }

  /** An error verdict is BufferFailed, or RangeUnsupported or EtagChanged as some worker returned it; no other
      worker error ever becomes a verdict. */
  lemma ErrorsComeFromWorkers(cfg: Config, s0: State, acts: seq<Action>)
    requires Reachable(cfg, s0, acts)
    requires Run(cfg, s0, acts).main.Finished? && Run(cfg, s0, acts).main.verdict.Err?
    ensures var s := Run(cfg, s0, acts); var e := s.main.verdict.error;
      || e == BufferFailed
      || ((e == RangeUnsupported || e == EtagChanged) &&
          exists w :: 0 <= w < |s.workers| && s.workers[w].Exited? && s.workers[w].outcome == Err(e))
  {
    ReachableInv(cfg, s0, acts);
    var s := Run(cfg, s0, acts);
    var e := s.main.verdict.error;
    if e != BufferFailed {
      var w :| IsWorker(s, w) && s.workers[w].Exited? && s.workers[w].outcome == Err(e);
    }
  }

  /** Taking a result in the select loop ends the download with that result, and cancels the others, exactly for
      two errors. Any other result is passed over. */
  lemma TakenInSelectLoop(cfg: Config, s: State, w: nat)
    requires s.main == Supervising && !s.cancelled && Enabled(cfg, s, Join(w))
    ensures var s' := Do(cfg, s, Join(w)); var outcome := s.workers[w].outcome;
      && (s'.main == Finished(outcome) <==> outcome == Err(RangeUnsupported) || outcome == Err(EtagChanged))
      && (s'.cancelled <==> outcome == Err(RangeUnsupported) || outcome == Err(EtagChanged))
      && (!s'.main.Finished? ==> s'.main == Joining)
  {
  }

  lemma NobodyAtWork(cfg: Config, s: State)
    requires Control(cfg, s)
    ensures s.active == 0 <==> forall w :: 0 <= w < |s.workers| ==> s.workers[w].Exited?
  {
    if w :| 0 <= w < |s.workers| && !s.workers[w].Exited? {
      assert w in Running(s);
    } else {
      assert Running(s) == {};
    }
  }

  /** The select loop is left, for good, as soon as no worker is at work after a result. */
  lemma SelectLoopEnds(cfg: Config, s0: State, acts: seq<Action>)
    requires Reachable(cfg, s0, acts) && Run(cfg, s0, acts).main == Joining
    ensures var s := Run(cfg, s0, acts); var s' := Do(cfg, s, ReadActive);
      if forall w :: 0 <= w < |s.workers| ==> s.workers[w].Exited? then s'.main == Draining else s'.main == Supervising
  {
    ReachableInv(cfg, s0, acts);
    NobodyAtWork(cfg, Run(cfg, s0, acts));
  }

  ghost predicate CancelsOnError(s: State) {
    s.cancelled <==> s.main.Finished? && s.main.verdict.Err?
  }

  lemma CancelStep(cfg: Config, s: State, a: Action)
    requires CancelsOnError(s) && Enabled(cfg, s, a)
    ensures CancelsOnError(Do(cfg, s, a))
  {
  }

  lemma {:induction false} CancelRun(cfg: Config, s: State, acts: seq<Action>)
    requires CancelsOnError(s) && CanRun(cfg, s, acts)
    ensures CancelsOnError(Run(cfg, s, acts))
    decreases |acts|
  {
    if acts != [] {
      CancelStep(cfg, s, acts[0]);
      CancelRun(cfg, Do(cfg, s, acts[0]), acts[1..]);
    }
  }

  /** The workers are told to stop exactly when the verdict is an error. */
  lemma CancelledIffError(cfg: Config, s0: State, acts: seq<Action>)
    requires Reachable(cfg, s0, acts)
    ensures var s := Run(cfg, s0, acts); s.cancelled <==> s.main.Finished? && s.main.verdict.Err?
  {
    CancelRun(cfg, s0, acts);
  }

  /** A ready segment brings one more worker, until there are as many as connections. */
  lemma ReadySignalAddsWorker(cfg: Config, s0: State, acts: seq<Action>)
    requires Reachable(cfg, s0, acts) && Enabled(cfg, Run(cfg, s0, acts), ReadyMessage)
    ensures var s := Run(cfg, s0, acts); var s' := Do(cfg, s, ReadyMessage);
      && |s'.workers| == Min(|s.workers| + 1, cfg.connections) && s'.workers[..|s.workers|] == s.workers
      && (|s'.workers| > |s.workers| ==> s'.workers[|s.workers|] == Idle(1024 * 1024))
      && s'.active - s.active == |s'.workers| - |s.workers|
  {
    ReachableInv(cfg, s0, acts);
  }

  // ---- work bound -------------------------------------------------------------------------------

  function TotalGets(log: seq<SegmentLog>): nat {
    if log == [] then 0 else TotalGets(log[..|log| - 1]) + log[|log| - 1].gets
  }

  lemma {:induction false} GetsAddUp(log: seq<SegmentLog>, bound: nat)
    requires forall id :: 0 <= id < |log| ==> log[id].gets <= bound
    ensures TotalGets(log) <= bound * |log|
  {
    if log != [] {
      GetsAddUp(log[..|log| - 1], bound);
      assert bound * |log| == bound * (|log| - 1) + bound;
    }
  }

  lemma SegmentsBound(s: State)
    requires Counting(s)
    ensures |s.buf.segments| <= (s.buf.total + 65535) / 65536
  {
  }

  /** A file is cut into at most ceil(total / 64 KiB) segments, and each costs at most four requests; there
      are never more workers than connections. */
  lemma WorkBound(cfg: Config, s0: State, acts: seq<Action>)
    requires Reachable(cfg, s0, acts)
    ensures var s := Run(cfg, s0, acts);
      && |s.buf.segments| <= (cfg.total + 65535) / 65536
      && TotalGets(s.log) <= 4 * |s.buf.segments|
      && (forall id :: 0 <= id < |s.log| ==> s.log[id].gets <= 4)
      && |s.workers| <= cfg.connections
  {
    ReachableInv(cfg, s0, acts);
    var s := Run(cfg, s0, acts);
    SegmentsBound(s);
    GetsAddUp(s.log, 4);
  }

  /** An attempt ends in a way that another attempt may mend: a transient error, silence, or a body cut short. */
  predicate FailsTransiently(s: State, a: Action) {
    match a
    case SendFails(_, transient) => transient
    case StreamFails(_, transient) => transient
    case ReadTimesOut(_) => true
    case StreamEnds(w) =>
      w < |s.workers| && s.workers[w].Streaming? && s.workers[w].job.start + s.workers[w].got != s.workers[w].job.end
    case _ => false
  }

  lemma TransientStep(cfg: Config, s: State, a: Action)
    requires Requests(s) && Enabled(cfg, s, a) && FailsTransiently(s, a)
    ensures var job := s.workers[a.w].job; var s' := Do(cfg, s, a);
      && job.id < |s'.log|
      && (s'.workers[a.w].Returned? <==> s'.log[job.id].gets == 4)
      && (s'.workers[a.w].Returned? ==>
            s'.workers[a.w].outcome == Err(if a.SendFails? || a.StreamFails? then Reqwest else Io))
      && (!s'.workers[a.w].Returned? ==> s'.workers[a.w] == Fetching(job.(attempt := job.attempt + 1)))
  {
    assert IsWorker(s, a.w) && GetsSoFar(s.log, s.workers[a.w]);
  }

  /** Worker `w`, working as `wk`, stops with `e` although it has requests left. */
  predicate StopsAtOnce(total: nat, wk: Worker, a: Action, w: nat, e: Error) {
    || (e == Reqwest && (a == SendFails(w, false) || a == StreamFails(w, false)))
    || (e == Io && a == WriteFails(w))
    || (e == Cancelled && a == Abort(w))
    || (e == EtagChanged && a == Respond(w, 412))
    || (e == RangeUnsupported && a == Respond(w, 200) && wk.Fetching? && !(wk.job.start == 0 && wk.job.end == total))
    || (e.HttpStatus? && a == Respond(w, e.code) && e.code != 412 && e.code != 206 && e.code != 200)
  }

  lemma OwnFailure(cfg: Config, s: State, a: Action, w: nat, e: Error)
    requires IsLocal(a) && Enabled(cfg, s, a) && a.w == w && !FailsTransiently(s, a) && OutcomeOf(s.workers[w]).None?
    requires s.buf.total == cfg.total && (a.WriteSome? || a.StreamEnds? ==> WorkerData(s.buf.file, s.workers[w]))
    ensures OutcomeOf(Do(cfg, s, a).workers[w]) == Some(Err(e)) <==> StopsAtOnce(cfg.total, s.workers[w], a, w, e)
  {
  }

  lemma NobodyFails(cfg: Config, s: State, a: Action, w: nat)
    requires Enabled(cfg, s, a) && w < |s.workers| && !IsLocal(a) && OutcomeOf(s.workers[w]).None?
    ensures w < |Do(cfg, s, a).workers| && OutcomeOf(Do(cfg, s, a).workers[w]).None?
  {
  }

  lemma OthersFailure(cfg: Config, s: State, a: Action, w: nat, e: Error)
    requires Enabled(cfg, s, a) && w < |s.workers| && (IsLocal(a) ==> a.w != w) && OutcomeOf(s.workers[w]).None?
    ensures w < |Do(cfg, s, a).workers| && OutcomeOf(Do(cfg, s, a).workers[w]).None?
    ensures !StopsAtOnce(cfg.total, s.workers[w], a, w, e)
  {
    if IsLocal(a) {
      LocalStep(cfg, s, a);
    } else {
      NobodyFails(cfg, s, a, w);
    }
  }

  /** Transient failures apart, a worker at work stops with an error exactly in these ways, and then at once. */
  lemma HardFailures(cfg: Config, s0: State, acts: seq<Action>, a: Action, w: nat, e: Error)
    requires Reachable(cfg, s0, acts) && Enabled(cfg, Run(cfg, s0, acts), a) && w < |Run(cfg, s0, acts).workers|
    requires !FailsTransiently(Run(cfg, s0, acts), a) && OutcomeOf(Run(cfg, s0, acts).workers[w]).None?
    ensures var s := Run(cfg, s0, acts); var s' := Do(cfg, s, a);
      && w < |s'.workers|
      && (OutcomeOf(s'.workers[w]) == Some(Err(e)) <==> StopsAtOnce(cfg.total, s.workers[w], a, w, e))
  {
    ReachableInv(cfg, s0, acts);
    var s := Run(cfg, s0, acts);
    if IsLocal(a) && a.w == w {
      assert IsWorker(s, w);
      OwnFailure(cfg, s, a, w, e);
    } else {
      OthersFailure(cfg, s, a, w, e);
    }
  }

  /** A transient failure ends the worker if and only if it was the fourth request for the segment;
      otherwise the same range is requested again. */
  lemma GivesUpOnFourthFailure(cfg: Config, s0: State, acts: seq<Action>, a: Action)
    requires Reachable(cfg, s0, acts) && Enabled(cfg, Run(cfg, s0, acts), a) && FailsTransiently(Run(cfg, s0, acts), a)
    ensures var s := Run(cfg, s0, acts); var job := s.workers[a.w].job; var s' := Do(cfg, s, a);
      && job.id < |s'.log|
      && (s'.workers[a.w].Returned? <==> s'.log[job.id].gets == 4)
      && (s'.workers[a.w].Returned? ==>
            s'.workers[a.w].outcome == Err(if a.SendFails? || a.StreamFails? then Reqwest else Io))
      && (!s'.workers[a.w].Returned? ==> s'.workers[a.w] == Fetching(job.(attempt := job.attempt + 1)))
  {
    ReachableInv(cfg, s0, acts);
    TransientStep(cfg, Run(cfg, s0, acts), a);
  }
}
