/**
 The end test of a reader can mistake the registered part of the file for the whole of it.

 Between a worker's compare-and-swap and its push, the claimed range is in no segment. If meanwhile
 another worker finds nothing left to claim and everything registered is ready, `all_completed` holds.
 */
module StreamWitness {
  import opened Common
  import opened Segments
  import opened DownloadSystem
  import opened DownloadInvariant
  import opened DownloadTheorems
  import opened DownloadWitness
  import opened BufferStream
  import opened StreamTheorems

  function Moves(acts: seq<Action>): seq<Move> {
    if acts == [] then [] else [Download(acts[0])] + Moves(acts[1..])
  }

  lemma {:induction false} WatchDownload(cfg: Config, s: State, st: Stream, acts: seq<Action>)
    requires CanRun(cfg, s, acts)
    ensures CanWatch(cfg, Watched(s, st), Moves(acts))
    ensures Watch(cfg, Watched(s, st), Moves(acts)) == Watched(Run(cfg, s, acts), st)
    decreases |acts|
  {
    if acts != [] {
      WatchDownload(cfg, Do(cfg, s, acts[0]), st, acts[1..]);
      assert Moves(acts)[1..] == Moves(acts[1..]);
    }
  }

  lemma WatchOneMore(cfg: Config, x: Watched, m: Move, rest: seq<Move>)
    requires CanMove(cfg, x, m) && CanWatch(cfg, MoveTo(cfg, x, m), rest)
    ensures CanWatch(cfg, x, [m] + rest) && Watch(cfg, x, [m] + rest) == Watch(cfg, MoveTo(cfg, x, m), rest)
  {
    assert ([m] + rest)[1..] == rest;
  }

  lemma {:induction false} WatchAppend(cfg: Config, x: Watched, before: seq<Move>, after: seq<Move>)
    requires CanWatch(cfg, x, before) && CanWatch(cfg, Watch(cfg, x, before), after)
    ensures CanWatch(cfg, x, before + after)
    ensures Watch(cfg, x, before + after) == Watch(cfg, Watch(cfg, x, before), after)
    decreases |before|
  {
    if before == [] {
      assert before + after == after;
    } else {
      WatchAppend(cfg, MoveTo(cfg, x, before[0]), before[1..], after);
      WatchOneMore(cfg, x, before[0], before[1..] + after);
      assert before + after == [before[0]] + (before[1..] + after);
    }
  }

  /** One segment ready, the other claimed but not registered, and a worker that found nothing to claim. */
  lemma LeaveClaimPending(cfg: Config) returns (acts: seq<Action>)
    requires cfg.connections >= 2 && cfg.total <= |cfg.head.content|
    requires INITIAL_SEGMENT_SIZE < cfg.total <= 2 * INITIAL_SEGMENT_SIZE
    ensures var s0 := InitialState(cfg, cfg.head);
      && Reachable(cfg, s0, acts)
      && var b := Run(cfg, s0, acts).buf;
         b.segments == [Segment(0, INITIAL_SEGMENT_SIZE, Ready)] && AllCompleted(b) && !b.failed
  {
    var s0 := InitialState(cfg, cfg.head);
    var first := FirstSegment(cfg);
    var s1 := Run(cfg, s0, first);
    ThreeSteps(cfg, s1, ReadyMessage, Claim(1), Exhaust(0));
    RunAppend(cfg, s0, first, [ReadyMessage, Claim(1), Exhaust(0)]);
    acts := first + [ReadyMessage, Claim(1), Exhaust(0)];
  }

  /** The reader's side: one segment, then the two halves of the end test. */
  function ReaderMoves(): seq<Move> {
    [Reader(None), Reader(Some(INITIAL_SEGMENT_SIZE)), Reader(None), Reader(None), Reader(None), Reader(None), Reader(None)]
  }

  lemma ReadOneSegment(cfg: Config, s: State)
    requires s.buf.segments == [Segment(0, INITIAL_SEGMENT_SIZE, Ready)] && AllCompleted(s.buf) && !s.buf.failed
    requires |s.buf.file| > INITIAL_SEGMENT_SIZE
    ensures CanWatch(cfg, Watched(s, NEW_STREAM), ReaderMoves())
    ensures var x := Watch(cfg, Watched(s, NEW_STREAM), ReaderMoves());
      && x.st.pc.Ended? && !x.st.errored && x.st.skipped == 0 && |x.st.yielded| == INITIAL_SEGMENT_SIZE
      && x.s == s
  {
  }

  /** A reader that looks on once `acts` are over. */
  lemma ReaderAfter(cfg: Config, s0: State, acts: seq<Action>, reading: seq<Move>)
    requires Reachable(cfg, s0, acts) && CanWatch(cfg, Watched(Run(cfg, s0, acts), NEW_STREAM), reading)
    ensures Watchable(cfg, s0, Moves(acts) + reading)
    ensures After(cfg, s0, Moves(acts) + reading) == Watch(cfg, Watched(Run(cfg, s0, acts), NEW_STREAM), reading)
  {
    WatchDownload(cfg, s0, NEW_STREAM, acts);
    WatchAppend(cfg, Watched(s0, NEW_STREAM), Moves(acts), reading);
  }

  /** A reader can end without an error, in file order, with no failed read, and short of the file. */
  lemma StreamCanEndEarly(cfg: Config) returns (s0: State, moves: seq<Move>)
    requires cfg.connections >= 2 && cfg.total <= |cfg.head.content|
    requires INITIAL_SEGMENT_SIZE < cfg.total <= 2 * INITIAL_SEGMENT_SIZE
    ensures Watchable(cfg, s0, moves)
    ensures var x := After(cfg, s0, moves);
      && x.st.pc.Ended? && !x.st.errored && x.st.skipped == 0 && FileOrder(x.s.buf.segments)
      && |x.st.yielded| < cfg.total
  {
    s0 := InitialState(cfg, cfg.head);
    var acts := LeaveClaimPending(cfg);
    ReachableInv(cfg, s0, acts);
    ReadOneSegment(cfg, Run(cfg, s0, acts));
    ReaderAfter(cfg, s0, acts, ReaderMoves());
    moves := Moves(acts) + ReaderMoves();
    assert Follows(Run(cfg, s0, acts).buf.segments, 0);
  }

  /** Everything is fetched and registered. */
  ghost predicate AllThere(s: State) {
    && |s.buf.segments| > 0 && AllCompleted(s.buf) && !s.buf.failed
    && forall id :: 0 <= id < |s.buf.segments| ==>
         IsReady(s.buf, id) && s.buf.segments[id].start < s.buf.segments[id].end <= |s.buf.file|
  }

  lemma OneReaderMove(cfg: Config, s: State, st: Stream, read: Option<nat>, rest: seq<Move>)
    requires CanRead(s.buf, st, read) && CanWatch(cfg, Watched(s, Advance(s.buf, st, read)), rest)
    ensures CanWatch(cfg, Watched(s, st), [Reader(read)] + rest)
    ensures Watch(cfg, Watched(s, st), [Reader(read)] + rest) == Watch(cfg, Watched(s, Advance(s.buf, st, read)), rest)
  {
  }

  /** From the top of its loop at the start of a segment, a reader can read on to the end of the file. */
  lemma {:induction false} ReadToEnd(cfg: Config, s: State, st: Stream) returns (moves: seq<Move>)
    requires AllThere(s) && st.pc.Top? && !st.errored && st.offset == 0 && st.current <= |s.buf.segments|
    ensures CanWatch(cfg, Watched(s, st), moves)
    ensures var x := Watch(cfg, Watched(s, st), moves);
      x.s == s && x.st.pc.EndTest? && x.st.skipped == st.skipped && x.st.current == |s.buf.segments| && !x.st.errored
    decreases |s.buf.segments| - st.current
  {
    var st1 := Advance(s.buf, st, None);
    if st.current == |s.buf.segments| {
      OneReaderMove(cfg, s, st1, None, []);
      OneReaderMove(cfg, s, st, None, [Reader(None)] + []);
      moves := [Reader(None)] + ([Reader(None)] + []);
    } else {
      var seg := s.buf.segments[st.current];
      assert IsReady(s.buf, st.current);
      var read := Some(seg.end - seg.start);
      var st2 := Advance(s.buf, st1, read);
      var st3 := Advance(s.buf, st2, None);
      var st4 := Advance(s.buf, st3, None);
      assert st4 == NextSegment(st3);
      var rest := ReadToEnd(cfg, s, st4);
      OneReaderMove(cfg, s, st3, None, rest);
      OneReaderMove(cfg, s, st2, None, [Reader(None)] + rest);
      OneReaderMove(cfg, s, st1, read, [Reader(None)] + ([Reader(None)] + rest));
      OneReaderMove(cfg, s, st, None, [Reader(read)] + ([Reader(None)] + ([Reader(None)] + rest)));
      moves := [Reader(None)] + ([Reader(read)] + ([Reader(None)] + ([Reader(None)] + rest)));
    }
  }

  lemma AllThereAfterOk(cfg: Config, s: State)
    requires Inv(cfg, s) && s.main == Finished(Ok(())) && cfg.total > 0 && !s.buf.failed
    ensures AllThere(s)
  {
    var first := AllReady(cfg, s, 0);
    CountReached(s);
    forall id | 0 <= id < |s.buf.segments|
      ensures IsReady(s.buf, id) && s.buf.segments[id].start < s.buf.segments[id].end <= |s.buf.file|
    {
      assert Registered(s, id) && id in s.counted;
    }
  }

  /** After a successful download whose ids are in file order, a reader can hand out the whole file and end. */
  lemma FinishedDownloadCanBeRead(cfg: Config, s0: State, acts: seq<Action>) returns (moves: seq<Move>)
    requires Reachable(cfg, s0, acts) && OneGeneration(cfg) && 0 < cfg.total <= |cfg.head.content|
    requires Run(cfg, s0, acts).main == Finished(Ok(()))
    requires FileOrder(Run(cfg, s0, acts).buf.segments) && !Run(cfg, s0, acts).buf.failed
    ensures Watchable(cfg, s0, moves)
    ensures var st := After(cfg, s0, moves).st;
      st.pc.Ended? && !st.errored && st.yielded == cfg.head.content[..cfg.total]
  {
    var s := Run(cfg, s0, acts);
    ReachableInv(cfg, s0, acts);
    AllThereAfterOk(cfg, s);
    var reading := ReadToEnd(cfg, s, NEW_STREAM);
    ReaderAfter(cfg, s0, acts, reading);
    moves := EndNormally(cfg, s0, Moves(acts) + reading);
    assert forall w :: !PendingPush(s, w);
    InOrderIffFileOrder(cfg, s0, Moves(acts) + reading);
  }

  /** The last move of a reader at the end. */
  lemma EndNormally(cfg: Config, s0: State, before: seq<Move>) returns (moves: seq<Move>)
    requires Watchable(cfg, s0, before) && Ending(After(cfg, s0, before))
    ensures Watchable(cfg, s0, moves)
    ensures After(cfg, s0, moves) == After(cfg, s0, before).(st := After(cfg, s0, before).st.(pc := Ended))
  {
    var x := After(cfg, s0, before);
    OneReaderMove(cfg, x.s, x.st, None, []);
    WatchAppend(cfg, Watched(s0, NEW_STREAM), before, [Reader(None)] + []);
    moves := before + ([Reader(None)] + []);
  }

  // ---- a failed read ----------------------------------------------------------------------------

  /** The reader's first read fails; the rest of the stream is handed out as if nothing had happened. */
  lemma FailFirstRead(cfg: Config, s: State) returns (moves: seq<Move>)
    requires AllThere(s)
    ensures CanWatch(cfg, Watched(s, NEW_STREAM), moves)
    ensures var x := Watch(cfg, Watched(s, NEW_STREAM), moves);
      x.s == s && x.st.pc.EndTest? && x.st.skipped > 0 && !x.st.errored
  {
    var st1 := Advance(s.buf, NEW_STREAM, None);
    assert IsReady(s.buf, 0);
    var st2 := Advance(s.buf, st1, None);
    var rest := ReadToEnd(cfg, s, st2);
    OneReaderMove(cfg, s, st1, None, rest);
    OneReaderMove(cfg, s, NEW_STREAM, None, [Reader(None)] + rest);
    moves := [Reader(None)] + ([Reader(None)] + rest);
  }

  /** A reader whose read failed ends without an error all the same, short of the file. */
  lemma FailedReadIsSilent(cfg: Config) returns (s0: State, moves: seq<Move>)
    requires cfg.connections > 0 && 0 < cfg.total <= |cfg.head.content|
    ensures Watchable(cfg, s0, moves)
    ensures var st := After(cfg, s0, moves).st;
      st.pc.Ended? && !st.errored && st.skipped > 0 && |st.yielded| < cfg.total
  {
    s0 := InitialState(cfg, cfg.head);
    var acts := SoloDownload(cfg);
    var s := Run(cfg, s0, acts);
    ReachableInv(cfg, s0, acts);
    SoloNeverFails(cfg, s0, acts);
    AllThereAfterOk(cfg, s);
    var reading := FailFirstRead(cfg, s);
    ReaderAfter(cfg, s0, acts, reading);
    CompleteIffSettled(cfg, s0, Moves(acts) + reading);
    moves := EndNormally(cfg, s0, Moves(acts) + reading);
  }

  /** Only whoever handles an error verdict marks the buffer as failed. */
  lemma {:induction false} SoloNeverFails(cfg: Config, s: State, acts: seq<Action>)
    requires CanRun(cfg, s, acts) && AllSolo(acts) && !s.buf.failed
    ensures !Run(cfg, s, acts).buf.failed
    decreases |acts|
  {
    if acts != [] {
      assert IsSolo(acts[0]);
      SoloNeverFails(cfg, Do(cfg, s, acts[0]), acts[1..]);
    }
  }

  // ---- segments out of order --------------------------------------------------------------------

  /** The second and third megabyte are claimed in order and registered the other way round. */
  lemma PushesOvertake(cfg: Config, s: State) returns (acts: seq<Action>)
    requires s.workers == [Idle(INITIAL_SEGMENT_SIZE)] && s.readyMessages > 0 && s.main == Supervising
    requires s.buf.next == INITIAL_SEGMENT_SIZE && cfg.connections >= 2
    requires s.buf.segments == [Segment(0, INITIAL_SEGMENT_SIZE, Ready)] && 2 * INITIAL_SEGMENT_SIZE < s.buf.total
    ensures CanRun(cfg, s, acts)
    ensures var s' := Run(cfg, s, acts);
      var end := 2 * INITIAL_SEGMENT_SIZE + Min(INITIAL_SEGMENT_SIZE, s.buf.total - 2 * INITIAL_SEGMENT_SIZE);
      && s'.buf.segments == [Segment(0, INITIAL_SEGMENT_SIZE, Ready), Segment(2 * INITIAL_SEGMENT_SIZE, end, Downloading),
                             Segment(INITIAL_SEGMENT_SIZE, 2 * INITIAL_SEGMENT_SIZE, Downloading)]
      && |s'.workers| == 2 && s'.workers[1] == Fetching(Job(1, 2 * INITIAL_SEGMENT_SIZE, end, 0))
      && s'.buf.failed == s.buf.failed && s'.upstream == s.upstream
  {
    ThreeSteps(cfg, s, ReadyMessage, Claim(0), Claim(1));
    var s1 := Run(cfg, s, [ReadyMessage, Claim(0), Claim(1)]);
    TwoSteps(cfg, s1, Push(1), Push(0));
    RunAppend(cfg, s, [ReadyMessage, Claim(0), Claim(1)], [Push(1), Push(0)]);
    acts := [ReadyMessage, Claim(0), Claim(1)] + [Push(1), Push(0)];
  }

  /** A reader of the first two segments, by id. */
  lemma ReadTwoSegments(cfg: Config, s: State) returns (moves: seq<Move>)
    requires |s.buf.segments| >= 2 && !s.buf.failed && IsReady(s.buf, 0) && IsReady(s.buf, 1)
    requires forall id :: 0 <= id < 2 ==> s.buf.segments[id].start < s.buf.segments[id].end <= |s.buf.file|
    ensures CanWatch(cfg, Watched(s, NEW_STREAM), moves)
    ensures var st := Watch(cfg, Watched(s, NEW_STREAM), moves).st;
      && !st.errored && st.skipped == 0
      && st.served == Span(s.buf.segments[0].start, Length(s.buf.segments[0]))
                    + Span(s.buf.segments[1].start, Length(s.buf.segments[1]))
  {
    var read0, read1 := Some(Length(s.buf.segments[0])), Some(Length(s.buf.segments[1]));
    var st1 := Advance(s.buf, NEW_STREAM, None);
    var st2 := Advance(s.buf, st1, read0);
    var st3 := Advance(s.buf, st2, None);
    var st4 := Advance(s.buf, st3, None);
    var st5 := Advance(s.buf, st4, None);
    OneReaderMove(cfg, s, st5, read1, []);
    OneReaderMove(cfg, s, st4, None, [Reader(read1)] + []);
    OneReaderMove(cfg, s, st3, None, [Reader(None)] + ([Reader(read1)] + []));
    var rest := [Reader(None)] + ([Reader(None)] + ([Reader(read1)] + []));
    OneReaderMove(cfg, s, st2, None, rest);
    OneReaderMove(cfg, s, st1, read0, [Reader(None)] + rest);
    OneReaderMove(cfg, s, NEW_STREAM, None, [Reader(read0)] + ([Reader(None)] + rest));
    moves := [Reader(None)] + ([Reader(read0)] + ([Reader(None)] + rest));
  }

  /** Even with a pinned generation a reader can hand out wrong bytes: no error, no failed read, and yet no
      prefix of the file, because two pushes overtook each other. */
  lemma OvertakingPushesMixTheStream(cfg: Config) returns (s0: State, moves: seq<Move>)
    requires OneGeneration(cfg) && cfg.connections >= 2 && 2 * INITIAL_SEGMENT_SIZE < cfg.total <= |cfg.head.content|
    requires cfg.head.content[INITIAL_SEGMENT_SIZE] != cfg.head.content[2 * INITIAL_SEGMENT_SIZE]
    ensures Watchable(cfg, s0, moves)
    ensures var st := After(cfg, s0, moves).st;
      !st.errored && st.skipped == 0 && !(st.yielded <= cfg.head.content)
  {
    s0 := InitialState(cfg, cfg.head);
    var acts := TwoReadyOutOfOrder(cfg);
    var s := Run(cfg, s0, acts);
    ReachableInv(cfg, s0, acts);
    assert forall id :: 0 <= id < 2 ==> Registered(s, id);
    var reading := ReadTwoSegments(cfg, s);
    ReaderAfter(cfg, s0, acts, reading);
    moves := Moves(acts) + reading;
    AfterInv(cfg, s0, moves);
    var st := After(cfg, s0, moves).st;
    assert st.served[INITIAL_SEGMENT_SIZE] == 2 * INITIAL_SEGMENT_SIZE;
  }

  lemma TwoReadyOutOfOrder(cfg: Config) returns (acts: seq<Action>)
    requires cfg.connections >= 2 && 2 * INITIAL_SEGMENT_SIZE < cfg.total <= |cfg.head.content|
    ensures Reachable(cfg, InitialState(cfg, cfg.head), acts)
    ensures var b := Run(cfg, InitialState(cfg, cfg.head), acts).buf;
      && |b.segments| == 3 && !b.failed && IsReady(b, 0) && IsReady(b, 1)
      && b.segments[0].start == 0 && b.segments[0].end == INITIAL_SEGMENT_SIZE
      && b.segments[1].start == 2 * INITIAL_SEGMENT_SIZE
  {
    var s0 := InitialState(cfg, cfg.head);
    var first := FirstSegment(cfg);
    var s1 := Run(cfg, s0, first);
    var second := PushesOvertake(cfg, s1);
    var s2 := Run(cfg, s1, second);
    var third := FetchRegistered(cfg, s2, 1);
    RunAppend(cfg, s1, second, third);
    RunAppend(cfg, s0, first, second + third);
    acts := first + (second + third);
  }
}
