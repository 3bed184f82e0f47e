/**
 When a fatal error reaches the caller.

 A 412 makes its worker return EtagChanged, and the select loop reports that as soon as it takes the result.
 But if the loop has just been left because no worker is active any more, the result is only drained, and the
 download ends with BufferFailed. This module says exactly when that can happen.
 */
module FatalVerdict {
  import opened Common
  import opened Segments
  import opened DownloadSystem
  import opened DownloadInvariant
  import opened DownloadTheorems
  import opened DownloadWitness

  predicate ReturnedFatal(wk: Worker) {
    OutcomeOf(wk) == Some(Err(RangeUnsupported)) || OutcomeOf(wk) == Some(Err(EtagChanged))
  }

  predicate IsFatalVerdict(m: Main) {
    m == Finished(Err(RangeUnsupported)) || m == Finished(Err(EtagChanged))
  }

  ghost predicate NoneFatal(s: State) {
    forall w :: IsWorker(s, w) ==> !ReturnedFatal(s.workers[w])
  }

  /** Whenever a worker returned a fatal error, the verdict is a fatal error. */
  ghost predicate AlwaysReported(cfg: Config) {
    forall s0: State, acts: seq<Action> :: Reachable(cfg, s0, acts) && Run(cfg, s0, acts).main.Finished? ==>
      NoneFatal(Run(cfg, s0, acts)) || IsFatalVerdict(Run(cfg, s0, acts).main)
  }

  /** The first claim takes the whole file, or there is only one worker ever. */
  predicate OneJobOnly(cfg: Config) {
    cfg.connections <= 1 || cfg.total <= INITIAL_SEGMENT_SIZE
  }

  // ---- a small file is claimed once -------------------------------------------------------------

  /** The first claim takes everything, and other workers come only after it is published. */
  ghost predicate FirstTakesAll(s: State) {
    && s.claims <= 1
    && (s.claims == 0 ==> forall w :: IsWorker(s, w) && s.workers[w].Idle? ==> s.workers[w].preferred == INITIAL_SEGMENT_SIZE)
    && (s.claims > 0 ==> s.buf.next >= s.buf.total)
    && (|s.workers| > 1 || s.readyMessages > 0 ==> 0 in s.counted)
  }

  lemma FirstTakesAllLocal(cfg: Config, s: State, a: Action)
    requires Ownership(s) && Counting(s) && FirstTakesAll(s) && IsLocal(a) && Enabled(cfg, s, a)
    ensures FirstTakesAll(Do(cfg, s, a))
  {
    if a.Notify? {
      assert Holds(s, a.w) && HoldsItsClaim(s, a.w);
      assert Registered(s, s.workers[a.w].job.id);
    }
    LocalStep(cfg, s, a);
    LocalFrame(cfg, s, a);
  }

  lemma FirstTakesAllStep(cfg: Config, s: State, a: Action)
    requires Inv(cfg, s) && FirstTakesAll(s) && cfg.total <= INITIAL_SEGMENT_SIZE && Enabled(cfg, s, a)
    ensures FirstTakesAll(Do(cfg, s, a))
  {
    if IsLocal(a) {
      FirstTakesAllLocal(cfg, s, a);
    } else {
      FirstTakesAllOther(cfg, s, a);
    }
  }

  lemma FirstTakesAllOther(cfg: Config, s: State, a: Action)
    requires s.buf.total == cfg.total <= INITIAL_SEGMENT_SIZE
    requires FirstTakesAll(s) && !IsLocal(a) && Enabled(cfg, s, a)
    ensures FirstTakesAll(Do(cfg, s, a))
  {
    assert a.Claim? ==> IsWorker(s, a.w);
  }

  lemma LocalFrame(cfg: Config, s: State, a: Action)
    requires IsLocal(a) && Enabled(cfg, s, a)
    ensures var s' := Do(cfg, s, a);
      && s'.claims == s.claims && |s'.workers| == |s.workers| && s.counted <= s'.counted
      && (!a.Notify? ==> !s'.workers[a.w].Idle? && s'.readyMessages == s.readyMessages)
  {
  }

  /** Once the only segment is counted nobody holds a job, so nobody can have failed with one. */
  lemma ManyMeansNone(cfg: Config, s: State)
    requires Inv(cfg, s) && OneJobOnly(cfg) && |s.workers| > 1
    requires cfg.total <= INITIAL_SEGMENT_SIZE ==> FirstTakesAll(s)
    ensures NoneFatal(s)
  {
    forall w | IsWorker(s, w)
      ensures !ReturnedFatal(s.workers[w])
    {
      assert WorkerOutcome(s.buf.allAssigned, s.cancelled, s.workers[w]);
      assert Holds(s, w) ==> HoldsItsClaim(s, w);
    }
  }

  // ---- results are taken in time ----------------------------------------------------------------

  ghost predicate TakenInTime(s: State) {
    && ((s.main.Joining? || s.main.Draining?) && |s.workers| == 1 ==> 0 in s.joined)
    && (!s.main.Finished? ==> forall w :: w in s.joined ==> IsWorker(s, w) && !ReturnedFatal(s.workers[w]))
    && (s.main.Finished? && !IsFatalVerdict(s.main) ==>
          NoneFatal(s) && forall w :: IsWorker(s, w) ==> s.workers[w].Exited?)
  }

  lemma WorkerMoves(cfg: Config, s: State, a: Action)
    requires (IsLocal(a) || a.Claim? || a.Push?) && Enabled(cfg, s, a)
    ensures var s' := Do(cfg, s, a);
      && s'.main == s.main && s'.joined == s.joined && |s'.workers| == |s.workers|
      && IsWorker(s, a.w) && !s.workers[a.w].Exited?
      && forall v :: IsWorker(s, v) && v != a.w ==> s'.workers[v] == s.workers[v]
  {
  }

  lemma TakenInTimeStep(cfg: Config, s: State, a: Action)
    requires Inv(cfg, s) && TakenInTime(s) && (|s.workers| > 1 ==> NoneFatal(s)) && Enabled(cfg, s, a)
    ensures TakenInTime(Do(cfg, s, a))
  {
    if IsLocal(a) || a.Claim? || a.Push? {
      WorkerMoves(cfg, s, a);
    } else if a.Join? {
      JoinInTime(cfg, s, a.w);
    } else {
      SupervisorInTime(cfg, s, a);
    }
  }

  lemma JoinInTime(cfg: Config, s: State, w: nat)
    requires Control(cfg, s) && TakenInTime(s) && (|s.workers| > 1 ==> NoneFatal(s)) && Enabled(cfg, s, Join(w))
    ensures TakenInTime(Do(cfg, s, Join(w)))
  {
    assert IsWorker(s, w);
  }

  lemma SupervisorInTime(cfg: Config, s: State, a: Action)
    requires Control(cfg, s) && TakenInTime(s) && Enabled(cfg, s, a)
    requires a.ReadyMessage? || a.ReadActive? || a.NothingToJoin? || a.Verdict? || a.UpstreamChanges? || a.SetFailed?
    ensures TakenInTime(Do(cfg, s, a))
  {
    var s' := Do(cfg, s, a);
    assert forall w :: IsWorker(s, w) ==> IsWorker(s', w) && s'.workers[w] == s.workers[w];
    assert forall w :: IsWorker(s', w) && !IsWorker(s, w) ==> s'.workers[w].Idle?;
  }

  lemma {:induction false} ReportedRun(cfg: Config, s: State, acts: seq<Action>)
    requires Inv(cfg, s) && OneJobOnly(cfg) && TakenInTime(s) && CanRun(cfg, s, acts)
    requires cfg.total <= INITIAL_SEGMENT_SIZE ==> FirstTakesAll(s)
    ensures TakenInTime(Run(cfg, s, acts))
    ensures cfg.total <= INITIAL_SEGMENT_SIZE ==> FirstTakesAll(Run(cfg, s, acts))
    decreases |acts|
  {
    if acts != [] {
      if |s.workers| > 1 {
        ManyMeansNone(cfg, s);
      }
      InvStep(cfg, s, acts[0]);
      TakenInTimeStep(cfg, s, acts[0]);
      if cfg.total <= INITIAL_SEGMENT_SIZE {
        FirstTakesAllStep(cfg, s, acts[0]);
      }
      ReportedRun(cfg, Do(cfg, s, acts[0]), acts[1..]);
    }
  }

  lemma StartsInTime(cfg: Config, s: State)
    requires Init(cfg, s)
    ensures TakenInTime(s) && FirstTakesAll(s)
  {
  }

  // ---- otherwise a fatal error can be masked ----------------------------------------------------

  /** Ways for an attempt to end in an error that is returned at once. */
  predicate FailsWith(a: Action, w: nat, e: Error) {
    (a == SendFails(w, false) && e == Reqwest) || (a == Respond(w, PRECONDITION_FAILED) && e == EtagChanged)
  }

  ghost predicate OnlyWorkerChanged(s: State, s': State, w: nat) {
    && |s'.workers| == |s.workers| && (forall v :: 0 <= v < |s.workers| && v != w ==> s'.workers[v] == s.workers[v])
    && s'.main == s.main && s'.joined == s.joined && s'.upstream == s.upstream
    && s'.buf.total == s.buf.total && s'.buf.readyCount == s.buf.readyCount
    && |s'.buf.segments| >= |s.buf.segments|
  }

  lemma FailAndExit(cfg: Config, s: State, w: nat, a: Action, e: Error) returns (acts: seq<Action>)
    requires w < |s.workers| && s.workers[w].Idle? && s.buf.next < s.buf.total && FailsWith(a, w, e)
    ensures CanRun(cfg, s, acts)
    ensures var s' := Run(cfg, s, acts);
      && OnlyWorkerChanged(s, s', w) && s'.active == s.active - 1 && |s'.buf.segments| == |s.buf.segments| + 1
      && s'.workers[w].Exited? && s'.workers[w].outcome == Err(e)
  {
    ThreeSteps(cfg, s, Claim(w), Push(w), a);
    var s1 := Run(cfg, s, [Claim(w), Push(w), a]);
    OneMore(cfg, s1, Exit(w), []);
    RunAppend(cfg, s, [Claim(w), Push(w), a], [Exit(w)] + []);
    acts := [Claim(w), Push(w), a] + ([Exit(w)] + []);
  }

  /** An idle worker can leave without a fatal error: there is nothing left to claim, or its request fails. */
  lemma LeaveHarmlessly(cfg: Config, s: State, w: nat) returns (acts: seq<Action>)
    requires w < |s.workers| && s.workers[w].Idle?
    ensures CanRun(cfg, s, acts)
    ensures var s' := Run(cfg, s, acts);
      && OnlyWorkerChanged(s, s', w) && s'.active == s.active - 1
      && s'.workers[w].Exited? && !ReturnedFatal(s'.workers[w])
  {
    if s.buf.next < s.buf.total {
      acts := FailAndExit(cfg, s, w, SendFails(w, false), Reqwest);
    } else {
      TwoSteps(cfg, s, Exhaust(w), Exit(w));
      acts := [Exhaust(w), Exit(w)];
    }
  }

  /** Both workers are done, one segment is not ready, and the supervisor takes the harmless result first. */
  lemma TakeHarmlessFirst(cfg: Config, s: State) returns (acts: seq<Action>)
    requires s.main == Supervising && s.joined == {} && s.active == 0 && |s.workers| == 2
    requires s.workers[0].Exited? && !ReturnedFatal(s.workers[0]) && s.workers[1].Exited?
    requires s.buf.readyCount < |s.buf.segments|
    ensures CanRun(cfg, s, acts)
    ensures var s' := Run(cfg, s, acts);
      s'.main == Finished(Err(BufferFailed)) && s'.workers == s.workers && s'.upstream == s.upstream
  {
    TwoSteps(cfg, s, Join(0), ReadActive);
    var s1 := Run(cfg, s, [Join(0), ReadActive]);
    assert s1 == s.(joined := {0}, main := Draining);
    TwoSteps(cfg, s1, Join(1), Verdict);
    RunAppend(cfg, s, [Join(0), ReadActive], [Join(1), Verdict]);
    acts := [Join(0), ReadActive] + [Join(1), Verdict];
  }

  lemma EditAndSpawn(cfg: Config, s: State, g: Generation)
    requires s.main == Supervising && s.readyMessages > 0 && |s.workers| == 1 && cfg.connections >= 2
    requires PossibleGeneration(cfg, g)
    ensures CanRun(cfg, s, [UpstreamChanges(g), ReadyMessage])
    ensures var s' := Run(cfg, s, [UpstreamChanges(g), ReadyMessage]);
      && s'.workers == s.workers + [Idle(INITIAL_SEGMENT_SIZE)] && s'.active == s.active + 1
      && s'.buf == s.buf && s'.main == s.main && s'.joined == s.joined && s'.upstream == g
  {
    TwoSteps(cfg, s, UpstreamChanges(g), ReadyMessage);
  }

  /** Upstream becomes `g`, worker 1 is told 412, and worker 0 leaves harmlessly. */
  lemma OneToldChanged(cfg: Config, s1: State, g: Generation) returns (acts: seq<Action>)
    requires s1.workers == [Idle(INITIAL_SEGMENT_SIZE)] && s1.active == 1 && s1.readyMessages > 0
    requires s1.main == Supervising && s1.joined == {} && s1.buf.readyCount == |s1.buf.segments|
    requires cfg.connections >= 2 && s1.buf.next < s1.buf.total && PossibleGeneration(cfg, g)
    ensures CanRun(cfg, s1, acts)
    ensures var s := Run(cfg, s1, acts);
      && s.main == Supervising && s.joined == {} && s.active == 0 && |s.workers| == 2
      && s.buf.readyCount < |s.buf.segments| && s.upstream == g
      && s.workers[0].Exited? && !ReturnedFatal(s.workers[0])
      && s.workers[1].Exited? && s.workers[1].outcome == Err(EtagChanged)
  {
    EditAndSpawn(cfg, s1, g);
    var s2 := Run(cfg, s1, [UpstreamChanges(g), ReadyMessage]);
    var second := FailAndExit(cfg, s2, 1, Respond(1, PRECONDITION_FAILED), EtagChanged);
    var s3 := Run(cfg, s2, second);
    var third := LeaveHarmlessly(cfg, s3, 0);
    RunAppend(cfg, s2, second, third);
    RunAppend(cfg, s1, [UpstreamChanges(g), ReadyMessage], second + third);
    acts := [UpstreamChanges(g), ReadyMessage] + (second + third);
  }

  /** Upstream may change to any version `g`; the worker told so returns EtagChanged, the verdict is BufferFailed. */
  lemma EtagChangeCanBeMasked(cfg: Config, g: Generation) returns (acts: seq<Action>)
    requires !OneJobOnly(cfg) && cfg.total <= |cfg.head.content| && PossibleGeneration(cfg, g)
    ensures Reachable(cfg, InitialState(cfg, cfg.head), acts)
    ensures var s := Run(cfg, InitialState(cfg, cfg.head), acts);
      && |s.workers| == 2 && s.workers[1].Exited? && s.workers[1].outcome == Err(EtagChanged)
      && s.upstream == g && s.main == Finished(Err(BufferFailed))
  {
    var s0 := InitialState(cfg, cfg.head);
    var first := FirstSegment(cfg);
    var s1 := Run(cfg, s0, first);
    var second := OneToldChanged(cfg, s1, g);
    var third := TakeHarmlessFirst(cfg, Run(cfg, s1, second));
    RunAppend(cfg, s1, second, third);
    RunAppend(cfg, s0, first, second + third);
    acts := first + (second + third);
  }

  /** So it happens with a tag that is sent to a server that honours it, after a real edit. */
  lemma MaskedAfterEdit(cfg: Config) returns (acts: seq<Action>)
    requires !OneJobOnly(cfg) && cfg.total <= |cfg.head.content|
    requires !cfg.frozen && cfg.honoursIfMatch && SendsIfMatch(cfg)
    ensures Reachable(cfg, InitialState(cfg, cfg.head), acts)
    ensures var s := Run(cfg, InitialState(cfg, cfg.head), acts);
      && s.upstream.etag != cfg.head.etag && s.main == Finished(Err(BufferFailed))
      && exists w :: IsWorker(s, w) && ReturnedFatal(s.workers[w])
  {
    acts := EtagChangeCanBeMasked(cfg, Generation(None, []));
    assert IsWorker(Run(cfg, InitialState(cfg, cfg.head), acts), 1);
  }

  /** A fatal error is reported in every run if and only if one worker does all the work anyway: there is at
      most one connection, or the first claim takes the whole file. */
  lemma ReportedIffOneJobOnly(cfg: Config)
    requires cfg.total <= |cfg.head.content|
    ensures AlwaysReported(cfg) <==> OneJobOnly(cfg)
  {
    if OneJobOnly(cfg) {
      forall s0: State, acts: seq<Action> | Reachable(cfg, s0, acts) && Run(cfg, s0, acts).main.Finished?
        ensures NoneFatal(Run(cfg, s0, acts)) || IsFatalVerdict(Run(cfg, s0, acts).main)
      {
        InitInv(cfg, s0);
        StartsInTime(cfg, s0);
        ReportedRun(cfg, s0, acts);
      }
    } else {
      var acts := EtagChangeCanBeMasked(cfg, cfg.head);
      var s := Run(cfg, InitialState(cfg, cfg.head), acts);
      assert IsWorker(s, 1) && ReturnedFatal(s.workers[1]);
      assert Reachable(cfg, InitialState(cfg, cfg.head), acts);
    }
  }

  /** Where one worker does all the work, a fatal error it returns is the verdict, and no other. */
  lemma FatalErrorIsTheVerdict(cfg: Config, s0: State, acts: seq<Action>, w: nat, e: Error)
    requires OneJobOnly(cfg) && Reachable(cfg, s0, acts) && Run(cfg, s0, acts).main.Finished?
    requires w < |Run(cfg, s0, acts).workers| && OutcomeOf(Run(cfg, s0, acts).workers[w]) == Some(Err(e))
    requires e == RangeUnsupported || e == EtagChanged
    ensures Run(cfg, s0, acts).main == Finished(Err(e)) && Run(cfg, s0, acts).cancelled
  {
    var s := Run(cfg, s0, acts);
    InitInv(cfg, s0);
    StartsInTime(cfg, s0);
    ReportedRun(cfg, s0, acts);
    ReachableInv(cfg, s0, acts);
    CancelledIffError(cfg, s0, acts);
    assert IsWorker(s, w) && ReturnedFatal(s.workers[w]);
    if |s.workers| > 1 {
      ManyMeansNone(cfg, s);
    }
    ErrorsComeFromWorkers(cfg, s0, acts);
  }
}
