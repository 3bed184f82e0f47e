/**
 The supervising task of a download as imperative code.

 As in `DownloadWorker`, `world` is the state of the step system and moves only by enabled actions; `Select`
 and `JoinNext` stand for whatever their contracts admit, waiting being merely the simplest.
 */
module DownloadSupervisor {
  import opened Common
  import opened Segments
  import opened DownloadSystem
  import opened DownloadInvariant
  import opened DownloadTheorems
  import opened DownloadWorker
  import opened FatalVerdict

  /** `a` is a move of the supervisor, or of whoever handles its verdict. */
  predicate IsSupervisors(a: Action) {
    a.ReadyMessage? || a.Join? || a.ReadActive? || a.NothingToJoin? || a.Verdict? || a.SetFailed?
  }

  /** `s'` is `s` after any number of moves of workers and upstream. */
  ghost predicate WorkersRan(cfg: Config, s: State, s': State) {
    exists acts: seq<Action> :: CanRun(cfg, s, acts) && s' == Run(cfg, s, acts) &&
      forall i :: 0 <= i < |acts| ==> !IsSupervisors(acts[i])
  }

  lemma WorkersStep(cfg: Config, s: State, a: Action)
    requires Enabled(cfg, s, a) && !IsSupervisors(a)
    ensures var s' := Do(cfg, s, a); s'.main == s.main && s'.joined == s.joined && |s'.workers| == |s.workers|
  {
  }

  lemma {:induction false} WorkersLeaveSupervisorAlone(cfg: Config, s: State, acts: seq<Action>)
    requires CanRun(cfg, s, acts) && forall i :: 0 <= i < |acts| ==> !IsSupervisors(acts[i])
    ensures var s' := Run(cfg, s, acts);
      s'.main == s.main && s'.joined == s.joined && |s'.workers| == |s.workers|
    decreases |acts|
  {
    if acts != [] {
      WorkersStep(cfg, s, acts[0]);
      WorkersLeaveSupervisorAlone(cfg, Do(cfg, s, acts[0]), acts[1..]);
    }
  }

  lemma VerdictMeaning(cfg: Config, s: State)
    requires IsReachable(cfg, s) && s.main.Finished?
    ensures s.main.verdict.Ok? <==>
      cfg.connections > 0 && forall w :: 0 <= w < |s.workers| ==> s.workers[w].Exited? && s.workers[w].outcome.Ok?
    ensures s.main.verdict.Ok? && OneGeneration(cfg) ==>
      cfg.total <= |cfg.head.content| && s.buf.file == cfg.head.content[..cfg.total]
  {
    var s0, acts :| Reachable(cfg, s0, acts) && s == Run(cfg, s0, acts);
    OkIffNoWorkerFailed(cfg, s0, acts);
    if s.main.verdict.Ok? && OneGeneration(cfg) {
      assert s.main.verdict.value == ();
      OkMeansWholeFile(cfg, s0, acts);
    }
  }

  predicate StoppedWith(s: State, e: Error) {
    exists w :: 0 <= w < |s.workers| && OutcomeOf(s.workers[w]) == Some(Err(e))
  }

  /** Where one worker does all the work, the two errors that no retry can cure are the verdict. */
  lemma FatalMeaning(cfg: Config, s: State)
    requires IsReachable(cfg, s) && s.main.Finished? && OneJobOnly(cfg)
    ensures StoppedWith(s, RangeUnsupported) ==> s.main == Finished(Err(RangeUnsupported))
    ensures StoppedWith(s, EtagChanged) ==> s.main == Finished(Err(EtagChanged))
  {
    var s0, acts :| Reachable(cfg, s0, acts) && s == Run(cfg, s0, acts);
    if StoppedWith(s, RangeUnsupported) {
      var w :| 0 <= w < |s.workers| && OutcomeOf(s.workers[w]) == Some(Err(RangeUnsupported));
      FatalErrorIsTheVerdict(cfg, s0, acts, w, RangeUnsupported);
    }
    if StoppedWith(s, EtagChanged) {
      var w :| 0 <= w < |s.workers| && OutcomeOf(s.workers[w]) == Some(Err(EtagChanged));
      FatalErrorIsTheVerdict(cfg, s0, acts, w, EtagChanged);
    }
  }

  /** What the select finds: a ready signal, the result of a task, no task left, or nothing yet. */
  datatype Event = ReadySignal | ResultOf(outcome: Outcome) | NoTasks | NothingYet

  class Supervisor {
    const buffer: SegmentsBuffer
    const numConnections: nat
    var totalSpawned: nat

    ghost predicate Valid()
      reads this, buffer
    {
      && buffer.Valid() && buffer.cfg.connections == numConnections
      && totalSpawned == |buffer.world.workers|
    }

    /** `min(numConnections, 1)` workers are started at once. */
    constructor (buffer: SegmentsBuffer, numConnections: nat)
      requires buffer.Valid() && Init(buffer.cfg, buffer.world) && buffer.cfg.connections == numConnections
      ensures Valid() && this.buffer == buffer && this.numConnections == numConnections
    {
      this.buffer, this.numConnections := buffer, numConnections;
      totalSpawned := Min(numConnections, 1);
    }

    ghost predicate Follows(before: State)
      reads this, buffer
    {
      && Valid() && WorkersRan(buffer.cfg, before, buffer.world)
      && buffer.world.main == before.main && buffer.world.joined == before.joined
      && |buffer.world.workers| == |before.workers|
    }

    lemma StandingStill()
      requires Valid()
      ensures Follows(buffer.world)
    {
    }

    /** Wait for the first of a ready signal and a finished task. */
    method Select() returns (event: Event, ghost w: nat)
      requires Valid() && buffer.world.main == Supervising
      modifies buffer
      ensures Follows(old(buffer.world))
      ensures event.ReadySignal? ==> Enabled(buffer.cfg, buffer.world, ReadyMessage)
      ensures event.NoTasks? ==> Enabled(buffer.cfg, buffer.world, NothingToJoin)
      ensures event.ResultOf? ==>
        Enabled(buffer.cfg, buffer.world, Join(w)) && event.outcome == buffer.world.workers[w].outcome
    {
      StandingStill();
      return NothingYet, 0;
    }

    /** Wait for a finished task. */
    method JoinNext() returns (event: Event, ghost w: nat)
      requires Valid() && buffer.world.main == Draining
      modifies buffer
      ensures Follows(old(buffer.world)) && !event.ReadySignal?
      ensures event.NoTasks? ==> Enabled(buffer.cfg, buffer.world, Verdict)
      ensures event.ResultOf? ==>
        Enabled(buffer.cfg, buffer.world, Join(w)) && event.outcome == buffer.world.workers[w].outcome
    {
      StandingStill();
      return NothingYet, 0;
    }

    /** Let the workers run for a while. */
    method Yield()
      requires Valid()
      modifies buffer
      ensures Follows(old(buffer.world))
    {
      StandingStill();
    }

    /** A segment is ready: one more worker, if there are connections left. */
    method TakeReadySignal()
      requires Valid() && Enabled(buffer.cfg, buffer.world, ReadyMessage)
      modifies this`totalSpawned, buffer
      ensures Valid() && buffer.world == Do(buffer.cfg, old(buffer.world), ReadyMessage)
    {
      StepReachable(buffer.cfg, buffer.world, ReadyMessage);
      buffer.world := Do(buffer.cfg, buffer.world, ReadyMessage);
      if totalSpawned < numConnections {
        buffer.active := buffer.active + 1;
        totalSpawned := totalSpawned + 1;
      }
    }

    /** A move that changes nothing but the supervisor's own standing. */
    ghost method Move(a: Action)
      requires Valid() && Enabled(buffer.cfg, buffer.world, a)
      requires var s' := Do(buffer.cfg, buffer.world, a);
        && s'.buf == buffer.world.buf && s'.cancelled == buffer.world.cancelled
        && s'.active == buffer.world.active && s'.workers == buffer.world.workers
      modifies buffer`world
      ensures Valid() && buffer.world == Do(buffer.cfg, old(buffer.world), a)
    {
      StepReachable(buffer.cfg, buffer.world, a);
      buffer.world := Do(buffer.cfg, buffer.world, a);
    }

    /** A result taken in the select loop: fatal errors end the download at once. */
    method TakeResult(ghost w: nat, outcome: Outcome) returns (fatal: bool)
      requires Valid() && buffer.world.main == Supervising && Enabled(buffer.cfg, buffer.world, Join(w))
      requires outcome == buffer.world.workers[w].outcome
      modifies buffer
      ensures Valid()
      ensures fatal <==> outcome == Err(RangeUnsupported) || outcome == Err(EtagChanged)
      ensures fatal ==> buffer.world.main == Finished(outcome) && buffer.cancelled
      ensures !fatal ==> buffer.world.main == Joining && buffer.cancelled == old(buffer.cancelled)
    {
      fatal := outcome.Err? && IsFatal(outcome.error);
      if fatal {
        StepReachable(buffer.cfg, buffer.world, Join(w));
        buffer.world := Do(buffer.cfg, buffer.world, Join(w));
        buffer.cancelled := true;
      } else {
        Move(Join(w));
      }
    }

    method JudgeCounters() returns (r: Outcome)
      requires Valid() && Enabled(buffer.cfg, buffer.world, Verdict)
      modifies buffer
      ensures Valid() && buffer.world.main == Finished(r)
      ensures r.Err? ==> r == Err(BufferFailed) && buffer.cancelled
    {
      var done := buffer.AllCompletedNow();
      StepReachable(buffer.cfg, buffer.world, Verdict);
      buffer.world := Do(buffer.cfg, buffer.world, Verdict);
      if done {
        return Ok(());
      }
      buffer.cancelled := true;
      return Err(BufferFailed);
    }

    /** Whether a result ends the select loop: it is fatal, or `active`, read a little later, is zero. */
    method HandleResult(ghost w: nat, outcome: Outcome) returns (end: Option<Outcome>)
      requires Valid() && buffer.world.main == Supervising && Enabled(buffer.cfg, buffer.world, Join(w))
      requires outcome == buffer.world.workers[w].outcome
      modifies buffer
      ensures Valid()
      ensures outcome == Err(RangeUnsupported) || outcome == Err(EtagChanged) <==> end.Some? && end.value.Err?
      ensures end.None? ==> buffer.world.main == Supervising
      ensures end.Some? && end.value.Ok? ==> buffer.world.main == Draining
      ensures end.Some? && end.value.Err? ==>
        end.value == outcome && buffer.world.main == Finished(outcome) && buffer.cancelled
    {
      var fatal := TakeResult(w, outcome);
      if fatal {
        return Some(outcome);
      }
      Yield();
      var active := buffer.active;
      Move(ReadActive);
      return if active == 0 then Some(Ok(())) else None;
    }

    method HandleEvent(event: Event, ghost w: nat) returns (end: Option<Outcome>)
      requires Valid() && buffer.world.main == Supervising
      requires event.ReadySignal? ==> Enabled(buffer.cfg, buffer.world, ReadyMessage)
      requires event.NoTasks? ==> Enabled(buffer.cfg, buffer.world, NothingToJoin)
      requires event.ResultOf? ==>
        Enabled(buffer.cfg, buffer.world, Join(w)) && event.outcome == buffer.world.workers[w].outcome
      modifies this`totalSpawned, buffer
      ensures Valid()
      ensures end.None? ==> buffer.world.main == Supervising
      ensures end.Some? && end.value.Ok? ==> buffer.world.main == Draining
      ensures end.Some? && end.value.Err? ==>
        && (end.value == Err(RangeUnsupported) || end.value == Err(EtagChanged))
        && buffer.world.main == Finished(end.value) && buffer.cancelled
    {
      end := None;
      match event {
        case NothingYet =>
        case ReadySignal =>
          TakeReadySignal();
        case NoTasks =>
          Move(NothingToJoin);
          end := Some(Ok(()));
        case ResultOf(outcome) =>
          end := HandleResult(w, outcome);
      }
    }

    /** The select loop; the fatal error that ended it, if one did. None for running out of turns. */
    method Supervise(turns: nat) returns (end: Option<Outcome>)
      requires Valid() && buffer.world.main == Supervising
      modifies this`totalSpawned, buffer
      ensures Valid()
      ensures end.None? ==> buffer.world.main == Supervising
      ensures end.Some? && end.value.Ok? ==> buffer.world.main == Draining
      ensures end.Some? && end.value.Err? ==>
        && (end.value == Err(RangeUnsupported) || end.value == Err(EtagChanged))
        && buffer.world.main == Finished(end.value) && buffer.cancelled
    {
      end := None;
      for i := 0 to turns
        invariant Valid() && end.None? && buffer.world.main == Supervising
      {
        var event, w := Select();
        end := HandleEvent(event, w);
        if end.Some? {
          return;
        }
      }
    }

    /** Collect the remaining results, then judge by the counters. */
    method Drain(turns: nat) returns (r: Option<Outcome>)
      requires Valid() && buffer.world.main == Draining
      modifies buffer
      ensures Valid() && (r.Some? ==> buffer.world.main == Finished(r.value))
      ensures r.Some? && r.value.Err? ==> r.value == Err(BufferFailed) && buffer.cancelled
    {
      for i := 0 to turns
        invariant Valid() && buffer.world.main == Draining
      {
        var event, w := JoinNext();
        match event {
          case NoTasks =>
            var verdict := JudgeCounters();
            return Some(verdict);
          case ResultOf(_) =>
            Move(Join(w));
          case _ =>
        }
      }
      return None;
    }

    /** Ok exactly if there was a connection and every worker succeeded; then the file is upstream's. Otherwise
        the workers are cancelled and the error is BufferFailed, or RangeUnsupported or EtagChanged; where one
        worker does all the work, these two are never turned into BufferFailed. */
    method DownloadMultithreaded(turns: nat) returns (r: Option<Outcome>)
      requires Valid() && buffer.world.main == Supervising
      modifies this`totalSpawned, buffer
      ensures Valid()
      ensures r.Some? ==>
        (r.value.Ok? <==> numConnections > 0 && forall w :: 0 <= w < |buffer.world.workers| ==>
          buffer.world.workers[w].Exited? && buffer.world.workers[w].outcome.Ok?)
      ensures r.Some? && r.value.Err? ==>
        && (r.value == Err(BufferFailed) || r.value == Err(RangeUnsupported) || r.value == Err(EtagChanged))
        && buffer.cancelled
      ensures r.Some? && OneJobOnly(buffer.cfg) ==>
        && (StoppedWith(buffer.world, RangeUnsupported) ==> r.value == Err(RangeUnsupported))
        && (StoppedWith(buffer.world, EtagChanged) ==> r.value == Err(EtagChanged))
      ensures r.Some? && r.value.Ok? && OneGeneration(buffer.cfg) ==>
        buffer.cfg.total <= |buffer.cfg.head.content| && buffer.file == buffer.cfg.head.content[..buffer.cfg.total]
    {
      r := Supervise(turns);
      if r.Some? && r.value.Ok? {
        r := Drain(turns);
      }
      if r.Some? {
        VerdictMeaning(buffer.cfg, buffer.world);
        if OneJobOnly(buffer.cfg) {
          FatalMeaning(buffer.cfg, buffer.world);
        }
      }
    }
  }
}
