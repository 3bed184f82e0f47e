/**
 Runs that end well, and why pinning is needed.

 A single worker can always finish a download (`SoloDownload`), so the promises in `DownloadTheorems` are
 about something. The same run, with upstream holding another generation than the one HEAD saw, shows
 that pinning the generation is exactly what the whole-file promise needs.
 */
module DownloadWitness {
  import opened Common
  import opened Segments
  import opened DownloadSystem
  import opened DownloadInvariant
  import opened DownloadTheorems

  lemma OneMore(cfg: Config, s: State, a: Action, rest: seq<Action>)
    requires Enabled(cfg, s, a) && CanRun(cfg, Do(cfg, s, a), rest)
    ensures CanRun(cfg, s, [a] + rest) && Run(cfg, s, [a] + rest) == Run(cfg, Do(cfg, s, a), rest)
  {
  }

  lemma {:induction false} RunAppend(cfg: Config, s: State, before: seq<Action>, after: seq<Action>)
    requires CanRun(cfg, s, before) && CanRun(cfg, Run(cfg, s, before), after)
    ensures CanRun(cfg, s, before + after)
    ensures Run(cfg, s, before + after) == Run(cfg, Run(cfg, s, before), after)
    decreases |before|
  {
    if before == [] {
      assert before + after == after;
    } else {
      RunAppend(cfg, Do(cfg, s, before[0]), before[1..], after);
      OneMore(cfg, s, before[0], before[1..] + after);
      assert before + after == [before[0]] + (before[1..] + after);
    }
  }

  lemma TwoSteps(cfg: Config, s: State, a0: Action, a1: Action)
    requires Enabled(cfg, s, a0) && Enabled(cfg, Do(cfg, s, a0), a1)
    ensures CanRun(cfg, s, [a0, a1]) && Run(cfg, s, [a0, a1]) == Do(cfg, Do(cfg, s, a0), a1)
  {
    OneMore(cfg, Do(cfg, s, a0), a1, []);
    assert [a1] + [] == [a1];
    OneMore(cfg, s, a0, [a1]);
    assert [a0] + [a1] == [a0, a1];
  }

  lemma ThreeSteps(cfg: Config, s: State, a0: Action, a1: Action, a2: Action)
    requires Enabled(cfg, s, a0) && Enabled(cfg, Do(cfg, s, a0), a1)
    requires Enabled(cfg, Do(cfg, Do(cfg, s, a0), a1), a2)
    ensures CanRun(cfg, s, [a0, a1, a2])
    ensures Run(cfg, s, [a0, a1, a2]) == Do(cfg, Do(cfg, Do(cfg, s, a0), a1), a2)
  {
    TwoSteps(cfg, Do(cfg, s, a0), a1, a2);
    OneMore(cfg, s, a0, [a1, a2]);
    assert [a0] + [a1, a2] == [a0, a1, a2];
  }

  /** Moves of worker 0 and of the supervisor that depend neither on upstream nor on the number of connections. */
  predicate IsSolo(a: Action) {
    !a.ReadyMessage? && !a.UpstreamChanges? && !a.SetFailed?
  }

  ghost predicate AllSolo(acts: seq<Action>) {
    forall i :: 0 <= i < |acts| ==> IsSolo(acts[i])
  }

  /** Worker 0 is at the top of its claim loop, alone, and nothing has gone wrong. */
  ghost predicate AtTop(cfg: Config, s: State) {
    && Inv(cfg, s) && s.upstream == cfg.head && cfg.connections > 0 && cfg.total <= |cfg.head.content|
    && |s.workers| == 1 && s.workers[0].Idle?
    && s.main == Supervising && s.joined == {} && !s.cancelled
  }

  ghost predicate Solo(s: State) {
    |s.workers| == 1 && s.main == Supervising && s.joined == {} && !s.cancelled
  }

  /** `s'` is `s` with one more segment, in the given state; the counters are `n` further on. */
  ghost predicate OneMoreSegment(s: State, s': State, state: SegState, n: nat)
    requires Solo(s)
  {
    && Solo(s') && s'.buf.next > s.buf.next
    && s'.buf.segments == s.buf.segments + [Segment(s.buf.next, s'.buf.next, state)]
    && s'.buf.readyCount == s.buf.readyCount + n && s'.readyMessages == s.readyMessages + n
    && s'.buf.allAssigned == s.buf.allAssigned && s'.buf.failed == s.buf.failed
    && s'.buf.total == s.buf.total && s'.upstream == s.upstream
    && (s.workers[0].Idle? ==> s'.buf.next == s.buf.next + Min(s.workers[0].preferred, s.buf.total - s.buf.next))
  }

  /** One worker moved, and nothing it shares with the supervisor but the ready signal changed. */
  ghost predicate FetchedBy(s: State, s': State, w: nat)
    requires w < |s.workers| && s.workers[w].Fetching? && s.workers[w].job.id < |s.buf.segments|
  {
    var id := s.workers[w].job.id;
    && s'.workers == s.workers[w := Idle(INITIAL_SEGMENT_SIZE)]
    && s'.buf == s.buf.(segments := s.buf.segments[id := s.buf.segments[id].(state := Ready)],
                        readyCount := s.buf.readyCount + 1, file := s'.buf.file)
    && s'.upstream == s.upstream && s'.main == s.main && s'.active == s.active && s'.joined == s.joined
    && s'.cancelled == s.cancelled && s'.readyMessages == s.readyMessages + 1
  }

  lemma ReceiveRange(cfg: Config, s: State, w: nat) returns (acts: seq<Action>)
    requires w < |s.workers| && s.workers[w].Fetching? && s.upstream == cfg.head
    requires s.workers[w].job.start < s.workers[w].job.end <= |cfg.head.content|
    ensures CanRun(cfg, s, acts) && AllSolo(acts)
    ensures var s' := Run(cfg, s, acts);
      && s'.workers == s.workers[w := Received(s.workers[w].job, cfg.head)] && s'.buf == s.buf.(file := s'.buf.file)
      && s'.upstream == s.upstream && s'.main == s.main && s'.active == s.active && s'.joined == s.joined
      && s'.cancelled == s.cancelled && s'.readyMessages == s.readyMessages
  {
    var job := s.workers[w].job;
    var a0 := Respond(w, PARTIAL_CONTENT);
    var a1 := ChunkArrives(w, cfg.head.content[job.start..job.end]);
    var s1 := Do(cfg, s, a0);
    assert s1.workers[w] == Streaming(job, cfg.head, job.start, 0);
    assert BodyContinues(s1.workers[w], a1.chunk);
    ThreeSteps(cfg, s, a0, a1, WriteSome(w, job.end - job.start));
    acts := [a0, a1, WriteSome(w, job.end - job.start)];
  }

  /** A worker with a registered range can fetch it in one go and publish it. */
  lemma FetchRegistered(cfg: Config, s: State, w: nat) returns (acts: seq<Action>)
    requires w < |s.workers| && s.workers[w].Fetching? && s.workers[w].job.id < |s.buf.segments|
    requires s.upstream == cfg.head && s.workers[w].job.start < s.workers[w].job.end <= |cfg.head.content|
    ensures CanRun(cfg, s, acts) && AllSolo(acts) && FetchedBy(s, Run(cfg, s, acts), w)
  {
    var first := ReceiveRange(cfg, s, w);
    var s1 := Run(cfg, s, first);
    TwoSteps(cfg, s1, PublishReady(w), Notify(w, INITIAL_SEGMENT_SIZE));
    RunAppend(cfg, s, first, [PublishReady(w), Notify(w, INITIAL_SEGMENT_SIZE)]);
    acts := first + [PublishReady(w), Notify(w, INITIAL_SEGMENT_SIZE)];
  }

  lemma TakeSegment(cfg: Config, s: State)
    requires Solo(s) && s.workers[0].Idle? && s.workers[0].preferred > 0 && s.buf.next < s.buf.total
    ensures CanRun(cfg, s, [Claim(0), Push(0)])
    ensures var s' := Run(cfg, s, [Claim(0), Push(0)]);
      && OneMoreSegment(s, s', Downloading, 0) && s'.buf.next <= s.buf.total && s'.active == s.active
      && s'.workers[0] == Fetching(Job(|s.buf.segments|, s.buf.next, s'.buf.next, 0))
  {
    TwoSteps(cfg, s, Claim(0), Push(0));
  }

  /** One turn of a lone worker's claim loop: claim, request, one chunk, one write, publish. */
  lemma FetchOne(cfg: Config, s: State) returns (acts: seq<Action>)
    requires Solo(s) && s.workers[0].Idle? && s.workers[0].preferred > 0 && s.upstream == cfg.head
    requires s.buf.next < s.buf.total <= |cfg.head.content|
    ensures CanRun(cfg, s, acts) && AllSolo(acts)
    ensures var s' := Run(cfg, s, acts);
      OneMoreSegment(s, s', Ready, 1) && s'.workers == [Idle(INITIAL_SEGMENT_SIZE)] && s'.active == s.active
  {
    TakeSegment(cfg, s);
    var s1 := Run(cfg, s, [Claim(0), Push(0)]);
    var rest := FetchRegistered(cfg, s1, 0);
    RunAppend(cfg, s, [Claim(0), Push(0)], rest);
    acts := [Claim(0), Push(0)] + rest;
  }

  lemma FetchSegment(cfg: Config, s: State) returns (acts: seq<Action>)
    requires AtTop(cfg, s) && s.buf.next < s.buf.total
    ensures CanRun(cfg, s, acts) && AllSolo(acts)
    ensures AtTop(cfg, Run(cfg, s, acts)) && Run(cfg, s, acts).buf.next > s.buf.next
  {
    assert IsWorker(s, 0);
    acts := FetchOne(cfg, s);
    InvRun(cfg, s, acts);
  }

  lemma LastMoves(cfg: Config, s: State)
    requires Solo(s) && s.workers[0].Idle? && s.buf.next >= s.buf.total && s.active == 1
    ensures CanRun(cfg, s, [Exhaust(0), Exit(0)])
    ensures var s' := Run(cfg, s, [Exhaust(0), Exit(0)]);
      s'.main == Supervising && s'.joined == {} && s'.active == 0 && s'.workers == [Exited(None, Ok(()))]
  {
    TwoSteps(cfg, s, Exhaust(0), Exit(0));
  }

  lemma LastExit(cfg: Config, s: State)
    requires AtTop(cfg, s) && s.buf.next >= s.buf.total
    ensures CanRun(cfg, s, [Exhaust(0), Exit(0)])
    ensures var s' := Run(cfg, s, [Exhaust(0), Exit(0)]);
      && Inv(cfg, s') && s'.main == Supervising && s'.joined == {} && s'.active == 0
      && s'.workers == [Exited(None, Ok(()))]
  {
    assert Running(s) == {0};
    LastMoves(cfg, s);
    InvRun(cfg, s, [Exhaust(0), Exit(0)]);
  }

  lemma JoinLast(cfg: Config, s: State)
    requires s.main == Supervising && s.joined == {} && s.active == 0 && s.workers == [Exited(None, Ok(()))]
    ensures CanRun(cfg, s, [Join(0), ReadActive])
    ensures Run(cfg, s, [Join(0), ReadActive]) == s.(joined := {0}, main := Draining)
  {
  }

  lemma LastVerdict(cfg: Config, s: State)
    requires Ownership(s) && Control(cfg, s) && s.main == Supervising && s.joined == {} && s.active == 0
    requires s.workers == [Exited(None, Ok(()))]
    ensures CanRun(cfg, s, [Join(0), ReadActive] + [Verdict])
    ensures Run(cfg, s, [Join(0), ReadActive] + [Verdict]).main == Finished(Ok(()))
  {
    var s2 := s.(joined := {0}, main := Draining);
    JoinLast(cfg, s);
    LoneVerdict(cfg, s, s2);
    OneMore(cfg, s2, Verdict, []);
    assert [Verdict] + [] == [Verdict];
    RunAppend(cfg, s, [Join(0), ReadActive], [Verdict]);
  }

  lemma LoneVerdict(cfg: Config, s: State, s2: State)
    requires Ownership(s) && Control(cfg, s) && s.workers == [Exited(None, Ok(()))]
    requires s2 == s.(joined := {0}, main := Draining)
    ensures Enabled(cfg, s2, Verdict) && OnVerdict(s2).main == Finished(Ok(()))
  {
    assert IsWorker(s, 0) && WorkerOutcome(s.buf.allAssigned, s.cancelled, s.workers[0]);
    forall id | Registered(s, id)
      ensures id in s.counted
    {
      assert !Holds(s, s.log[id].owner);
    }
    CountReached(s);
  }

  lemma Conclude(cfg: Config, s: State) returns (acts: seq<Action>)
    requires AtTop(cfg, s) && s.buf.next >= s.buf.total
    ensures CanRun(cfg, s, acts) && AllSolo(acts)
    ensures Run(cfg, s, acts).main == Finished(Ok(()))
  {
    LastExit(cfg, s);
    LastVerdict(cfg, Run(cfg, s, [Exhaust(0), Exit(0)]));
    RunAppend(cfg, s, [Exhaust(0), Exit(0)], [Join(0), ReadActive] + [Verdict]);
    acts := [Exhaust(0), Exit(0)] + ([Join(0), ReadActive] + [Verdict]);
  }

  /** From any quiet state a single worker can bring the download to a successful end. */
  lemma {:induction false} SoloFinish(cfg: Config, s: State) returns (acts: seq<Action>)
    requires AtTop(cfg, s)
    ensures CanRun(cfg, s, acts) && AllSolo(acts)
    ensures Run(cfg, s, acts).main == Finished(Ok(()))
    decreases cfg.total - s.buf.next
  {
    if s.buf.next >= s.buf.total {
      acts := Conclude(cfg, s);
    } else {
      var first := FetchSegment(cfg, s);
      var s1 := Run(cfg, s, first);
      var rest := SoloFinish(cfg, s1);
      RunAppend(cfg, s, first, rest);
      acts := first + rest;
    }
  }

  function InitialState(cfg: Config, upstream: Generation): State {
    State(
      NewBuffer(seq(cfg.total, _ => 0 as byte)), upstream,
      if cfg.connections == 0 then [] else [Idle(INITIAL_SEGMENT_SIZE)],
      if cfg.connections == 0 then 0 else 1, 0, {}, Supervising, false, [], {}, 0)
  }

  /** With one connection or more, a download of a file of any size can succeed, whatever the server and tags. */
  lemma SoloDownload(cfg: Config) returns (acts: seq<Action>)
    requires cfg.connections > 0 && cfg.total <= |cfg.head.content|
    ensures AllSolo(acts) && Reachable(cfg, InitialState(cfg, cfg.head), acts)
    ensures Run(cfg, InitialState(cfg, cfg.head), acts).main == Finished(Ok(()))
  {
    var s := InitialState(cfg, cfg.head);
    assert s.buf == NewBuffer(s.buf.file);
    InitInv(cfg, s);
    acts := SoloFinish(cfg, s);
  }

  /** One worker can fetch the first segment and leave a ready signal. */
  lemma FirstSegment(cfg: Config) returns (acts: seq<Action>)
    requires cfg.connections > 0 && INITIAL_SEGMENT_SIZE < cfg.total <= |cfg.head.content|
    ensures Reachable(cfg, InitialState(cfg, cfg.head), acts)
    ensures var s := Run(cfg, InitialState(cfg, cfg.head), acts);
      && s.buf.segments == [Segment(0, INITIAL_SEGMENT_SIZE, Ready)] && s.buf.next == INITIAL_SEGMENT_SIZE
      && s.buf.total == cfg.total && s.buf.readyCount == 1 && !s.buf.failed
      && s.workers == [Idle(INITIAL_SEGMENT_SIZE)] && s.readyMessages == 1 && s.main == Supervising
      && s.active == 1 && s.joined == {} && !s.buf.allAssigned && s.upstream == cfg.head
  {
    var s0 := InitialState(cfg, cfg.head);
    assert s0.buf == NewBuffer(s0.buf.file);
    acts := FetchOne(cfg, s0);
    assert Run(cfg, s0, acts).buf.segments == [] + [Segment(0, INITIAL_SEGMENT_SIZE, Ready)];
  }

  /** A run that never looks at what the server would refuse is a run for any such server. */
  lemma {:induction false} SameRun(cfg: Config, other: Config, s: State, acts: seq<Action>)
    requires CanRun(other, s, acts) && AllSolo(acts)
    requires !(cfg.honoursIfMatch && SendsIfMatch(cfg))
    ensures CanRun(cfg, s, acts) && Run(cfg, s, acts) == Run(other, s, acts)
    decreases |acts|
  {
    if acts != [] {
      assert IsSolo(acts[0]);
      OneSameStep(cfg, other, s, acts[0]);
      SameRun(cfg, other, Do(other, s, acts[0]), acts[1..]);
    }
  }

  lemma OneSameStep(cfg: Config, other: Config, s: State, a: Action)
    requires Enabled(other, s, a) && IsSolo(a) && !(cfg.honoursIfMatch && SendsIfMatch(cfg))
    ensures Enabled(cfg, s, a) && Do(cfg, s, a) == Do(other, s, a)
  {
  }

  /** Success hands out the file HEAD saw. */
  ghost predicate DeliversHead(cfg: Config)
    requires cfg.total <= |cfg.head.content|
  {
    forall s0: State, acts: seq<Action> :: Reachable(cfg, s0, acts) && Run(cfg, s0, acts).main == Finished(Ok(())) ==>
      Run(cfg, s0, acts).buf.file == cfg.head.content[..cfg.total]
  }

  /** Without pinning, a successful download can consist of bytes HEAD never saw. */
  lemma UnpinnedCanDiffer(cfg: Config) returns (s0: State, acts: seq<Action>)
    requires !OneGeneration(cfg)
    requires cfg.connections > 0 && 0 < cfg.total <= |cfg.head.content|
    ensures Reachable(cfg, s0, acts) && Run(cfg, s0, acts).main == Finished(Ok(()))
    ensures Run(cfg, s0, acts).buf.file != cfg.head.content[..cfg.total]
  {
    var edited := Generation(None, seq(cfg.total, i requires 0 <= i < cfg.total => cfg.head.content[i] ^ 1));
    var other := cfg.(head := edited, frozen := true);
    s0 := InitialState(other, edited);
    acts := SoloDownload(other);
    OkMeansWholeFile(other, s0, acts);
    SameRun(cfg, other, s0, acts);
    var b := cfg.head.content[0];
    assert b ^ 1 != b;
    assert Run(cfg, s0, acts).buf.file[0] == edited.content[..cfg.total][0] == b ^ 1;
    assert cfg.head.content[..cfg.total][0] == b;
  }

  /** Pinning one generation is exactly what makes success mean "the file HEAD saw". */
  lemma PinningIsExact(cfg: Config)
    requires cfg.connections > 0 && 0 < cfg.total <= |cfg.head.content|
    ensures DeliversHead(cfg) <==> OneGeneration(cfg)
  {
    if OneGeneration(cfg) {
      forall s0: State, acts: seq<Action> | Reachable(cfg, s0, acts) && Run(cfg, s0, acts).main == Finished(Ok(()))
        ensures Run(cfg, s0, acts).buf.file == cfg.head.content[..cfg.total]
      {
        OkMeansWholeFile(cfg, s0, acts);
      }
    } else {
      var s0, acts := UnpinnedCanDiffer(cfg);
      assert Reachable(cfg, s0, acts);
    }
  }
}
