/** What readers hand out, for every run of the watched system. */
module StreamTheorems {
  import opened Common
  import opened Segments
  import opened DownloadSystem
  import opened DownloadInvariant
  import opened DownloadTheorems
  import opened BufferStream

  // ---- the offsets of the first segments, one after the other -----------------------------------

  function Length(seg: Segment): nat {
    Max(seg.end - seg.start, 0)
  }

  lemma SpanJoin(from: nat, to: nat, m: nat, n: nat)
    requires to == from + m
    ensures Span(from, m) + Span(to, n) == Span(from, m + n)
  {
  }

  /** The offsets of the first `n` segments, in id order. */
  function Spans(segments: seq<Segment>, n: nat): seq<nat>
    requires n <= |segments|
  {
    if n == 0 then [] else Spans(segments, n - 1) + Span(segments[n - 1].start, Length(segments[n - 1]))
  }

  /** What a reader that lost nothing has handed out by the time it stands `offset` into segment `current`. */
  function Handed(segments: seq<Segment>, current: nat, offset: nat): seq<nat>
    requires current <= |segments|
  {
    Spans(segments, current) + (if current < |segments| then Span(segments[current].start, offset) else [])
  }

  lemma {:induction false} SpansSame(a: seq<Segment>, b: seq<Segment>, n: nat)
    requires n <= |a| && n <= |b|
    requires forall i :: 0 <= i < n ==> a[i].start == b[i].start && a[i].end == b[i].end
    ensures Spans(a, n) == Spans(b, n)
    decreases n
  {
    if n > 0 {
      SpansSame(a, b, n - 1);
    }
  }

  ghost predicate NonEmpty(segments: seq<Segment>) {
    forall i :: 0 <= i < |segments| ==> segments[i].start < segments[i].end
  }

  /** In file order the first segments hold the offsets from 0 on. */
  lemma {:induction false} SpansInOrder(segments: seq<Segment>, n: nat)
    requires n <= |segments| && NonEmpty(segments) && FileOrder(segments[..n])
    ensures Spans(segments, n) == Span(0, EndOf(segments[..n]))
    decreases n
  {
    if n > 0 {
      OrderOfPrefix(segments[..n], n - 1);
      assert segments[..n][..n - 1] == segments[..n - 1];
      SpansInOrder(segments, n - 1);
      assert Follows(segments[..n], n - 1);
      assert EndOf(segments[..n - 1]) == segments[n - 1].start;
    }
  }

  /** And only in file order. */
  lemma {:induction false} OrderFromSpans(segments: seq<Segment>, n: nat, m: nat)
    requires n <= |segments| && NonEmpty(segments) && Spans(segments, n) == Span(0, m)
    ensures FileOrder(segments[..n]) && EndOf(segments[..n]) == m
    decreases n
  {
    if n == 0 {
      assert |Span(0, m)| == m;
    } else {
      var last := segments[n - 1];
      var before := Spans(segments, n - 1);
      var rest := m - Length(last);
      assert |before| == rest;
      assert Span(0, m)[rest] == last.start == rest;
      assert before == Span(0, m)[..rest] == Span(0, rest);
      OrderFromSpans(segments, n - 1, rest);
      assert segments[..n] == segments[..n - 1] + [last];
      OrderOfExtension(segments[..n - 1], last);
    }
  }

  // ---- counting ---------------------------------------------------------------------------------

  function Elements(s: seq<nat>): set<nat> {
    set x | x in s
  }

  lemma {:induction false} SpanSize(from: nat, n: nat)
    ensures |Elements(Span(from, n))| == n
    decreases n
  {
    if n > 0 {
      SpanSize(from, n - 1);
      assert Span(from, n) == Span(from, n - 1) + [from + n - 1];
      assert Elements(Span(from, n)) == Elements(Span(from, n - 1)) + {from + n - 1};
    } else {
      assert Elements(Span(from, n)) == {};
    }
  }

  lemma InSpan(from: nat, n: nat, x: nat)
    ensures x in Span(from, n) <==> from <= x < from + n
  {
    if from <= x < from + n {
      assert Span(from, n)[x - from] == x;
    }
  }

  lemma {:induction false} InSpans(segments: seq<Segment>, n: nat, x: nat)
    requires n <= |segments|
    ensures x in Spans(segments, n) <==> exists id :: 0 <= id < n && segments[id].start <= x < segments[id].end
    decreases n
  {
    if n > 0 {
      InSpans(segments, n - 1, x);
      InSpan(segments[n - 1].start, Length(segments[n - 1]), x);
    }
  }

  lemma NextSpanIsNew(cfg: Config, s: State, n: nat, x: nat)
    requires Tiling(cfg, s) && n < |s.buf.segments| && x in Spans(s.buf.segments, n)
    ensures x !in Span(s.buf.segments[n].start, Length(s.buf.segments[n]))
  {
    InSpans(s.buf.segments, n, x);
    InSpan(s.buf.segments[n].start, Length(s.buf.segments[n]), x);
    var id :| 0 <= id < n && s.buf.segments[id].start <= x < s.buf.segments[id].end;
    assert Registered(s, id) && Registered(s, n);
  }

  lemma SizeOfUnion(a: seq<nat>, b: seq<nat>)
    requires forall x :: x in a ==> x !in b
    ensures |Elements(a + b)| == |Elements(a)| + |Elements(b)|
  {
    assert Elements(a + b) == Elements(a) + Elements(b);
    assert Elements(a) !! Elements(b);
  }

  /** Distinct segments have distinct offsets, so their number is the number of bytes they cover. */
  lemma {:induction false} SpansSize(cfg: Config, s: State, n: nat)
    requires Tiling(cfg, s) && n <= |s.buf.segments|
    ensures |Elements(Spans(s.buf.segments, n))| == |Spans(s.buf.segments, n)|
    decreases n
  {
    var segments := s.buf.segments;
    if n > 0 {
      SpansSize(cfg, s, n - 1);
      var before, last := Spans(segments, n - 1), Span(segments[n - 1].start, Length(segments[n - 1]));
      SpanSize(segments[n - 1].start, Length(segments[n - 1]));
      forall x | x in before
        ensures x !in last
      {
        NextSpanIsNew(cfg, s, n - 1, x);
      }
      SizeOfUnion(before, last);
    } else {
      assert Elements(Spans(segments, n)) == {};
    }
  }

  /** The first `n` segments hold at most `total` bytes, and if they hold that many, every offset. */
  lemma SpansFit(cfg: Config, s: State, n: nat)
    requires Tiling(cfg, s) && n <= |s.buf.segments|
    ensures |Spans(s.buf.segments, n)| <= cfg.total
    ensures |Spans(s.buf.segments, n)| == cfg.total <==>
      forall x: nat :: x < cfg.total ==> x in Spans(s.buf.segments, n)
  {
    var held := Elements(Spans(s.buf.segments, n));
    SpansSize(cfg, s, n);
    forall x | x in held
      ensures x in Below(cfg.total)
    {
      InSpans(s.buf.segments, n, x);
      var id :| 0 <= id < n && s.buf.segments[id].start <= x < s.buf.segments[id].end;
      assert Registered(s, id);
    }
    SubsetSize(held, Below(cfg.total));
    if |held| == cfg.total {
      assert held == Below(cfg.total);
      forall x: nat | x < cfg.total
        ensures x in Spans(s.buf.segments, n)
      {
        assert x in held;
      }
    }
    if forall x: nat :: x < cfg.total ==> x in Spans(s.buf.segments, n) {
      assert held == Below(cfg.total);
    }
  }

  // ---- what a reader has handed out -------------------------------------------------------------

  /** Every byte handed out is upstream's byte at the offset it was read from. */
  ghost predicate Genuine(st: Stream, content: seq<byte>) {
    && |st.served| == |st.yielded|
    && forall k :: 0 <= k < |st.served| ==> st.served[k] < |content| && st.yielded[k] == content[st.served[k]]
  }

  ghost predicate StreamInv(cfg: Config, s: State, st: Stream) {
    && st.current <= |s.buf.segments|
    && (st.current == |s.buf.segments| || st.pc.EndTest? ==> st.offset == 0)
    && (st.offset > 0 ==>
          && IsReady(s.buf, st.current)
          && s.buf.segments[st.current].start + st.offset <= s.buf.segments[st.current].end)
    && (st.errored ==> s.buf.failed && (st.pc.Top? || st.pc.Ended?))
    && (st.pc.Ended? && !st.errored ==> |s.buf.segments| > 0)
    && |st.served| == |st.yielded|
    && |st.served| + st.skipped == |Handed(s.buf.segments, st.current, st.offset)|
    && (st.skipped == 0 ==> st.served == Handed(s.buf.segments, st.current, st.offset))
    && (OneGeneration(cfg) ==> Genuine(st, cfg.head.content))
  }

  lemma ReadyBytes(cfg: Config, s: State, id: nat)
    requires Data(cfg, s) && Pinned(cfg, s) && OneGeneration(cfg) && IsReady(s.buf, id)
    ensures Agree(s.buf.file, cfg.head.content, s.buf.segments[id].start, s.buf.segments[id].end)
  {
    assert Registered(s, id) && SegmentData(s.buf.file, s.buf.segments[id], s.log[id]);
  }

  lemma GenuineRead(b: Buffer, st: Stream, content: seq<byte>, n: nat)
    requires AtRead(b, st) && CanRead(b, st, Some(n)) && Genuine(st, content)
    requires Agree(b.file, content, b.segments[st.current].start, b.segments[st.current].end)
    ensures Genuine(Advance(b, st, Some(n)), content)
  {
    var pos := b.segments[st.current].start + st.offset;
    var st' := Advance(b, st, Some(n));
    forall k | |st.served| <= k < |st'.served|
      ensures st'.served[k] < |content| && st'.yielded[k] == content[st'.served[k]]
    {
      var i := k - |st.served|;
      assert st'.served[k] == pos + i && st'.yielded[k] == b.file[pos..pos + n][i];
    }
  }

  lemma HandedGrows(segments: seq<Segment>, current: nat, offset: nat, n: nat)
    requires current < |segments|
    ensures Handed(segments, current, offset + n)
         == Handed(segments, current, offset) + Span(segments[current].start + offset, n)
  {
    SpanJoin(segments[current].start, segments[current].start + offset, offset, n);
  }

  lemma HandedNext(segments: seq<Segment>, current: nat)
    requires current < |segments|
    ensures Handed(segments, current + 1, 0) == Handed(segments, current, Length(segments[current]))
  {
  }

  lemma ReadStep(cfg: Config, s: State, st: Stream, n: nat)
    requires Inv(cfg, s) && StreamInv(cfg, s, st) && AtRead(s.buf, st) && CanRead(s.buf, st, Some(n))
    ensures StreamInv(cfg, s, Advance(s.buf, st, Some(n)))
  {
    HandedGrows(s.buf.segments, st.current, st.offset, n);
    if OneGeneration(cfg) {
      ReadyBytes(cfg, s, st.current);
      GenuineRead(s.buf, st, cfg.head.content, n);
    }
  }

  lemma LeaveSegment(cfg: Config, s: State, st: Stream, skip: nat)
    requires Tiling(cfg, s) && StreamInv(cfg, s, st) && st.current < |s.buf.segments| && !st.errored && !st.pc.Ended?
    requires s.buf.segments[st.current].start + st.offset + skip == s.buf.segments[st.current].end
    ensures StreamInv(cfg, s, NextSegment(st).(skipped := st.skipped + skip))
  {
    HandedNext(s.buf.segments, st.current);
    HandedGrows(s.buf.segments, st.current, st.offset, skip);
  }

  lemma OtherReaderStep(cfg: Config, s: State, st: Stream, read: Option<nat>)
    requires Tiling(cfg, s) && StreamInv(cfg, s, st) && CanRead(s.buf, st, read)
    requires AtRead(s.buf, st) ==> read == None
    ensures StreamInv(cfg, s, Advance(s.buf, st, read))
  {
    if st.pc.Serving? && IsReady(s.buf, st.current) {
      var seg := s.buf.segments[st.current];
      assert Registered(s, st.current);
      LeaveSegment(cfg, s, st, seg.end - (seg.start + st.offset));
    }
  }

  lemma ReaderStep(cfg: Config, s: State, st: Stream, read: Option<nat>)
    requires Inv(cfg, s) && StreamInv(cfg, s, st) && CanRead(s.buf, st, read)
    ensures StreamInv(cfg, s, Advance(s.buf, st, read))
  {
    if AtRead(s.buf, st) && read.Some? {
      ReadStep(cfg, s, st, read.value);
    } else {
      OtherReaderStep(cfg, s, st, read);
    }
  }

  /** No step of the download changes the bounds of a segment already registered. */
  lemma BoundsKept(cfg: Config, s: State, a: Action)
    requires Enabled(cfg, s, a)
    ensures |s.buf.segments| <= |Do(cfg, s, a).buf.segments|
    ensures SameBounds(s.buf.segments, Do(cfg, s, a).buf.segments[..|s.buf.segments|])
    ensures s.buf.failed ==> Do(cfg, s, a).buf.failed
  {
    if !a.Push? {
      OtherStepsKeepOrder(cfg, s, a);
    }
  }

  lemma HandedKept(cfg: Config, s: State, st: Stream, a: Action)
    requires Enabled(cfg, s, a) && st.current <= |s.buf.segments|
    requires st.current == |s.buf.segments| ==> st.offset == 0
    ensures st.current <= |Do(cfg, s, a).buf.segments|
    ensures Handed(Do(cfg, s, a).buf.segments, st.current, st.offset) == Handed(s.buf.segments, st.current, st.offset)
  {
    BoundsKept(cfg, s, a);
    var segments, segments' := s.buf.segments, Do(cfg, s, a).buf.segments;
    assert forall i :: 0 <= i < |segments| ==> segments'[..|segments|][i] == segments'[i];
    SpansSame(segments, segments', st.current);
  }

  lemma DownloadStep(cfg: Config, s: State, st: Stream, a: Action)
    requires Inv(cfg, s) && StreamInv(cfg, s, st) && Enabled(cfg, s, a)
    ensures StreamInv(cfg, Do(cfg, s, a), st)
  {
    BoundsKept(cfg, s, a);
    HandedKept(cfg, s, st, a);
    if st.offset > 0 {
      ReadyStep(cfg, s, a, st.current);
    }
  }

  lemma {:induction false} WatchInv(cfg: Config, x: Watched, moves: seq<Move>)
    requires Inv(cfg, x.s) && StreamInv(cfg, x.s, x.st) && CanWatch(cfg, x, moves)
    ensures var y := Watch(cfg, x, moves); Inv(cfg, y.s) && StreamInv(cfg, y.s, y.st)
    decreases |moves|
  {
    if moves != [] {
      match moves[0] {
        case Download(a) =>
          InvStep(cfg, x.s, a);
          DownloadStep(cfg, x.s, x.st, a);
        case Reader(read) => ReaderStep(cfg, x.s, x.st, read);
      }
      WatchInv(cfg, MoveTo(cfg, x, moves[0]), moves[1..]);
    }
  }

  ghost predicate Watchable(cfg: Config, s0: State, moves: seq<Move>) {
    Init(cfg, s0) && CanWatch(cfg, Watched(s0, NEW_STREAM), moves)
  }

  ghost function After(cfg: Config, s0: State, moves: seq<Move>): Watched
    requires Watchable(cfg, s0, moves)
  {
    Watch(cfg, Watched(s0, NEW_STREAM), moves)
  }

  lemma AfterInv(cfg: Config, s0: State, moves: seq<Move>)
    requires Watchable(cfg, s0, moves)
    ensures var x := After(cfg, s0, moves); Inv(cfg, x.s) && StreamInv(cfg, x.s, x.st)
  {
    InitInv(cfg, s0);
    WatchInv(cfg, Watched(s0, NEW_STREAM), moves);
  }

  /** The segments the reader has read from. */
  function Reached(x: Watched): seq<Segment>
    requires x.st.current + (if x.st.offset > 0 then 1 else 0) <= |x.s.buf.segments|
  {
    x.s.buf.segments[..x.st.current + (if x.st.offset > 0 then 1 else 0)]
  }

  ghost predicate ReadInOrder(x: Watched) {
    x.st.current + (if x.st.offset > 0 then 1 else 0) <= |x.s.buf.segments| && FileOrder(Reached(x))
  }

  /** Standing `offset` into segment `n`, a reader that lost nothing has read on from 0 without a gap exactly
      if the segments it has read from are in file order. */
  lemma HandedInOrder(segments: seq<Segment>, n: nat, offset: nat)
    requires n <= |segments| && NonEmpty(segments) && (n == |segments| ==> offset == 0)
    ensures var h := Handed(segments, n, offset);
      h == Span(0, |h|) <==> FileOrder(segments[..n]) && (offset > 0 ==> segments[n].start == EndOf(segments[..n]))
  {
    var h, before := Handed(segments, n, offset), Spans(segments, n);
    if FileOrder(segments[..n]) {
      SpansInOrder(segments, n);
      if offset > 0 && segments[n].start == |before| {
        SpanJoin(0, segments[n].start, |before|, offset);
      }
    }
    if h == Span(0, |h|) {
      assert before == h[..|before|] == Span(0, |h|)[..|before|] == Span(0, |before|);
      OrderFromSpans(segments, n, |before|);
      if offset > 0 {
        assert h[|before|] == segments[n].start;
      }
    }
  }

  lemma ReachedInOrder(x: Watched)
    requires x.st.current <= |x.s.buf.segments| && (x.st.current == |x.s.buf.segments| ==> x.st.offset == 0)
    requires NonEmpty(x.s.buf.segments)
    ensures var h := Handed(x.s.buf.segments, x.st.current, x.st.offset);
      h == Span(0, |h|) <==> FileOrder(Reached(x))
  {
    var segments, n := x.s.buf.segments, x.st.current;
    HandedInOrder(segments, n, x.st.offset);
    if x.st.offset > 0 {
      assert segments[..n + 1] == segments[..n] + [segments[n]];
      OrderOfExtension(segments[..n], segments[n]);
    }
  }

  lemma SegmentsNonEmpty(cfg: Config, s: State)
    requires Tiling(cfg, s)
    ensures NonEmpty(s.buf.segments)
  {
    assert forall id :: 0 <= id < |s.buf.segments| ==> Registered(s, id);
  }

  /** As long as no read failed, a reader hands out the offsets of the file in order, from 0 on, exactly if the
      segments it has read from are in file order; and then its bytes are a prefix of the file. */
  lemma PrefixIffReachedInOrder(cfg: Config, s0: State, moves: seq<Move>)
    requires Watchable(cfg, s0, moves) && After(cfg, s0, moves).st.skipped == 0
    ensures var x := After(cfg, s0, moves);
      && (x.st.served == Span(0, |x.st.served|) <==> ReadInOrder(x))
      && (ReadInOrder(x) && OneGeneration(cfg) ==> x.st.yielded <= cfg.head.content)
  {
    AfterInv(cfg, s0, moves);
    var x := After(cfg, s0, moves);
    SegmentsNonEmpty(cfg, x.s);
    ReachedInOrder(x);
    if ReadInOrder(x) && OneGeneration(cfg) {
      PrefixFromOffsets(x.st, cfg.head.content);
    }
  }

  lemma PrefixFromOffsets(st: Stream, content: seq<byte>)
    requires Genuine(st, content) && st.served == Span(0, |st.served|)
    ensures st.yielded <= content
  {
    assert forall k :: 0 <= k < |st.yielded| ==> st.served[k] == k;
    if |st.yielded| > 0 {
      assert st.served[|st.yielded| - 1] < |content|;
    }
    assert st.yielded == content[..|st.yielded|];
  }

  // ---- the end of the stream --------------------------------------------------------------------

  /** No claim is waiting to be registered, and none was registered since the reader counted the segments. */
  ghost predicate Settled(x: Watched) {
    (forall w :: !PendingPush(x.s, w)) && x.st.current == |x.s.buf.segments|
  }

  /** The reader is about to take the end of the buffer for the end of the file. */
  ghost predicate Ending(x: Watched) {
    && x.st.pc.EndTest? && |x.s.buf.segments| > 0
    && x.s.buf.allAssigned && x.s.buf.readyCount >= |x.s.buf.segments|
  }

  lemma SettledIsAll(cfg: Config, x: Watched)
    requires Inv(cfg, x.s) && StreamInv(cfg, x.s, x.st) && Ending(x) && Settled(x)
    ensures |Spans(x.s.buf.segments, x.st.current)| == cfg.total
  {
    var s := x.s;
    SpansFit(cfg, s, x.st.current);
    forall y: nat | y < cfg.total
      ensures y in Spans(s.buf.segments, x.st.current)
    {
      assert Covered(s, y);
      InSpans(s.buf.segments, x.st.current, y);
      var id :| Registered(s, id) && s.buf.segments[id].start <= y < s.buf.segments[id].end;
    }
  }

  lemma AllIsSettled(cfg: Config, x: Watched)
    requires Tiling(cfg, x.s) && x.st.current <= |x.s.buf.segments|
    requires |Spans(x.s.buf.segments, x.st.current)| == cfg.total
    ensures Settled(x)
  {
    var s := x.s;
    SpansFit(cfg, s, x.st.current);
    if x.st.current < |s.buf.segments| {
      var y := s.buf.segments[x.st.current].start;
      assert Registered(s, x.st.current);
      InSpans(s.buf.segments, x.st.current, y);
      assert false;
    }
    forall w
      ensures !PendingPush(s, w)
    {
      if PendingPush(s, w) {
        InSpans(s.buf.segments, x.st.current, s.workers[w].start);
        assert false;
      }
    }
  }

  lemma LengthAtEnd(cfg: Config, x: Watched)
    requires Inv(cfg, x.s) && StreamInv(cfg, x.s, x.st) && Ending(x)
    ensures |x.st.yielded| + x.st.skipped == |Spans(x.s.buf.segments, x.st.current)| <= cfg.total
    ensures |Spans(x.s.buf.segments, x.st.current)| == cfg.total <==> Settled(x)
  {
    SpansFit(cfg, x.s, x.st.current);
    if Settled(x) {
      SettledIsAll(cfg, x);
    }
    if |Spans(x.s.buf.segments, x.st.current)| == cfg.total {
      AllIsSettled(cfg, x);
    }
  }

  /** A reader that ends normally has handed out as many bytes as the file has exactly when the buffer was
      settled and no read failed; whatever the order of the segments, it never hands out more. */
  lemma CompleteIffSettled(cfg: Config, s0: State, moves: seq<Move>)
    requires Watchable(cfg, s0, moves) && Ending(After(cfg, s0, moves))
    ensures var x := After(cfg, s0, moves);
      && |x.st.yielded| <= cfg.total
      && (|x.st.yielded| == cfg.total <==> Settled(x) && x.st.skipped == 0)
  {
    AfterInv(cfg, s0, moves);
    LengthAtEnd(cfg, After(cfg, s0, moves));
  }

  lemma SpansOrdered(cfg: Config, s: State)
    requires Tiling(cfg, s) && |Spans(s.buf.segments, |s.buf.segments|)| == cfg.total
    ensures Spans(s.buf.segments, |s.buf.segments|) == Span(0, cfg.total) <==> FileOrder(s.buf.segments)
  {
    var segments := s.buf.segments;
    SegmentsNonEmpty(cfg, s);
    assert segments[..|segments|] == segments;
    if FileOrder(segments) {
      SpansInOrder(segments, |segments|);
    }
    if Spans(segments, |segments|) == Span(0, cfg.total) {
      OrderFromSpans(segments, |segments|, cfg.total);
    }
  }

  /** It has handed out every offset of the file once and in order exactly when, besides, the segments are
      in file order; and then, with one generation, the bytes are the file. */
  lemma InOrderIffFileOrder(cfg: Config, s0: State, moves: seq<Move>)
    requires Watchable(cfg, s0, moves) && Ending(After(cfg, s0, moves))
    ensures var x := After(cfg, s0, moves);
      && (x.st.served == Span(0, cfg.total) <==>
            FileOrder(x.s.buf.segments) && Settled(x) && x.st.skipped == 0)
      && (x.st.served == Span(0, cfg.total) && OneGeneration(cfg) ==>
            cfg.total <= |cfg.head.content| && x.st.yielded == cfg.head.content[..cfg.total])
  {
    AfterInv(cfg, s0, moves);
    var x := After(cfg, s0, moves);
    LengthAtEnd(cfg, x);
    if Settled(x) && x.st.skipped == 0 {
      SpansOrdered(cfg, x.s);
    }
    if x.st.served == Span(0, cfg.total) && OneGeneration(cfg) {
      PrefixFromOffsets(x.st, cfg.head.content);
    }
  }

  /** A reader that has reported a failure hands out nothing more, and its next move is to end. */
  lemma {:induction false} NothingAfterError(cfg: Config, x: Watched, moves: seq<Move>)
    requires Inv(cfg, x.s) && StreamInv(cfg, x.s, x.st) && CanWatch(cfg, x, moves) && x.st.errored
    ensures var y := Watch(cfg, x, moves);
      && y.st.errored && y.st.yielded == x.st.yielded
      && (forall read :: CanRead(y.s.buf, y.st, read) ==> Advance(y.s.buf, y.st, read) == y.st.(pc := Ended))
    decreases |moves|
  {
    if moves != [] {
      match moves[0] {
        case Download(a) =>
          InvStep(cfg, x.s, a);
          DownloadStep(cfg, x.s, x.st, a);
        case Reader(read) => ReaderStep(cfg, x.s, x.st, read);
      }
      NothingAfterError(cfg, MoveTo(cfg, x, moves[0]), moves[1..]);
    }
  }

  function ReaderMoves(moves: seq<Move>): nat {
    if moves == [] then 0 else (if moves[0].Reader? then 1 else 0) + ReaderMoves(moves[1..])
  }

  /** Once the download is marked as failed, the reader's moves from the top of the loop are fixed: the first
      reports the failure, the second ends the stream, and no byte is handed out, whatever the others do. */
  lemma {:induction false} FailureIsReportedAtOnce(cfg: Config, x: Watched, moves: seq<Move>)
    requires CanWatch(cfg, x, moves) && x.s.buf.failed && x.st.pc.Top?
    ensures var n := ReaderMoves(moves) + (if x.st.errored then 1 else 0);
      Watch(cfg, x, moves).st == x.st.(errored := n >= 1, pc := if n >= 2 then Ended else Top)
    decreases |moves|
  {
    if moves != [] {
      var y := MoveTo(cfg, x, moves[0]);
      if moves[0].Download? {
        BoundsKept(cfg, x.s, moves[0].a);
      } else if x.st.errored {
        EndedStays(cfg, y, moves[1..]);
        return;
      }
      FailureIsReportedAtOnce(cfg, y, moves[1..]);
    }
  }

  lemma {:induction false} EndedStays(cfg: Config, x: Watched, moves: seq<Move>)
    requires CanWatch(cfg, x, moves) && x.st.pc.Ended?
    ensures Watch(cfg, x, moves).st == x.st
    decreases |moves|
  {
    if moves != [] {
      EndedStays(cfg, MoveTo(cfg, x, moves[0]), moves[1..]);
    }
  }

  /** How many moves the reader needs to end once the download has failed. */
  function MovesToEnd(st: Stream): nat {
    match st.pc
    case Ended => 0
    case Top => if st.errored then 1 else 2
    case EndTest => 3
    case Serving => 4
  }

  lemma {:induction false} EndsWithin(cfg: Config, x: Watched, moves: seq<Move>)
    requires CanWatch(cfg, x, moves) && x.s.buf.failed && ReaderMoves(moves) >= MovesToEnd(x.st)
    ensures Watch(cfg, x, moves).st.pc.Ended?
    ensures !x.st.pc.Serving? ==> Watch(cfg, x, moves).st.yielded == x.st.yielded
    decreases |moves|
  {
    if moves != [] {
      if moves[0].Download? {
        BoundsKept(cfg, x.s, moves[0].a);
      }
      EndsWithin(cfg, MoveTo(cfg, x, moves[0]), moves[1..]);
    }
  }

  /** Wherever the reader stands when the mark is set, its fourth move at the latest ends the stream, and only
      a read already begun still hands out bytes. */
  lemma FailureEndsTheStream(cfg: Config, x: Watched, moves: seq<Move>)
    requires CanWatch(cfg, x, moves) && x.s.buf.failed && ReaderMoves(moves) >= 4
    ensures Watch(cfg, x, moves).st.pc.Ended?
    ensures !x.st.pc.Serving? ==> Watch(cfg, x, moves).st.yielded == x.st.yielded
  {
    EndsWithin(cfg, x, moves);
  }

  /** A reader ends only after reporting a failure or after finding the buffer complete. */
  lemma {:induction false} EndsForAReason(cfg: Config, x: Watched, moves: seq<Move>) returns (n: nat)
    requires CanWatch(cfg, x, moves) && !x.st.pc.Ended? && Watch(cfg, x, moves).st.pc.Ended?
    ensures n < |moves| && moves[n].Reader? && CanWatch(cfg, x, moves[..n])
    ensures var y := Watch(cfg, x, moves[..n]);
      Ending(y) || (y.st.pc.Top? && y.st.errored && y.s.buf.failed)
    decreases |moves|
  {
    var y := MoveTo(cfg, x, moves[0]);
    if y.st.pc.Ended? {
      n := 0;
    } else {
      var m := EndsForAReason(cfg, y, moves[1..]);
      n := m + 1;
      assert moves[..n][1..] == moves[1..][..m];
    }
  }

  /** A reader of an empty file never ends unless the download is marked as failed. */
  lemma EmptyFileNeverEnds(cfg: Config, s0: State, moves: seq<Move>)
    requires Watchable(cfg, s0, moves) && cfg.total == 0
    ensures var x := After(cfg, s0, moves); x.st.pc.Ended? ==> x.st.errored && x.s.buf.failed
  {
    AfterInv(cfg, s0, moves);
    var x := After(cfg, s0, moves);
    assert !Registered(x.s, 0);
  }

  // ---- when a claim and its push, and the two halves of the end test, happen in one go ----------

  /** Every claim is followed at once by its push, and the first half of an end test by the second. */
  ghost predicate Undivided(cfg: Config, x: Watched, moves: seq<Move>)
    requires CanWatch(cfg, x, moves)
    decreases |moves|
  {
    moves == [] ||
    var y, rest := MoveTo(cfg, x, moves[0]), moves[1..];
    if moves[0].Download? && moves[0].a.Claim? then
      && rest != [] && rest[0] == Download(Push(moves[0].a.w)) && CanMove(cfg, y, rest[0])
      && CanWatch(cfg, MoveTo(cfg, y, rest[0]), rest[1..])
      && Undivided(cfg, MoveTo(cfg, y, rest[0]), rest[1..])
    else if moves[0].Reader? && y.st.pc.EndTest? then
      && rest != [] && rest[0].Reader? && CanMove(cfg, y, rest[0])
      && CanWatch(cfg, MoveTo(cfg, y, rest[0]), rest[1..])
      && Undivided(cfg, MoveTo(cfg, y, rest[0]), rest[1..])
    else Undivided(cfg, y, rest)
  }

  ghost predicate NonePending(s: State) {
    forall w :: !PendingPush(s, w)
  }

  ghost predicate Quiet(cfg: Config, x: Watched) {
    && Inv(cfg, x.s) && StreamInv(cfg, x.s, x.st)
    && NonePending(x.s) && FileOrder(x.s.buf.segments) && !x.st.pc.EndTest?
    && (x.st.pc.Ended? && !x.st.errored ==> |x.st.yielded| + x.st.skipped == cfg.total)
  }

  lemma QuietClaim(cfg: Config, x: Watched, w: nat)
    requires Quiet(cfg, x) && Enabled(cfg, x.s, Claim(w))
    ensures Enabled(cfg, Do(cfg, x.s, Claim(w)), Push(w))
    ensures var s2 := Do(cfg, Do(cfg, x.s, Claim(w)), Push(w));
      Quiet(cfg, Watched(s2, x.st))
  {
    var s1 := Do(cfg, x.s, Claim(w));
    InvStep(cfg, x.s, Claim(w));
    DownloadStep(cfg, x.s, x.st, Claim(w));
    OtherStepsKeepOrder(cfg, x.s, Claim(w));
    LonePending(cfg, x.s, w);
    PushKeepsOrder(cfg, s1, w);
    InvStep(cfg, s1, Push(w));
    DownloadStep(cfg, s1, x.st, Push(w));
  }

  lemma LonePending(cfg: Config, s: State, w: nat)
    requires NonePending(s) && Enabled(cfg, s, Claim(w))
    ensures var s1 := Do(cfg, s, Claim(w));
      Enabled(cfg, s1, Push(w)) && OldestClaim(s1, w) && NonePending(Do(cfg, s1, Push(w)))
  {
    var s1 := Do(cfg, s, Claim(w));
    var s2 := Do(cfg, s1, Push(w));
    assert forall v :: PendingPush(s1, v) && v != w ==> PendingPush(s, v);
    assert forall v :: PendingPush(s2, v) ==> PendingPush(s1, v) && v != w;
  }

  lemma PushNeedsClaim(cfg: Config, s: State, a: Action)
    requires a.Push? && Enabled(cfg, s, a)
    ensures PendingPush(s, a.w)
  {
  }

  lemma QuietDownload(cfg: Config, x: Watched, a: Action)
    requires Quiet(cfg, x) && Enabled(cfg, x.s, a) && !a.Claim?
    ensures Quiet(cfg, x.(s := Do(cfg, x.s, a)))
  {
    InvStep(cfg, x.s, a);
    DownloadStep(cfg, x.s, x.st, a);
    if a.Push? {
      PushNeedsClaim(cfg, x.s, a);
    } else {
      OtherStepsKeepOrder(cfg, x.s, a);
    }
    NoNewPending(cfg, x.s, a);
  }

  lemma NoNewPending(cfg: Config, s: State, a: Action)
    requires Enabled(cfg, s, a) && !a.Claim? && NonePending(s)
    ensures NonePending(Do(cfg, s, a))
  {
    if IsLocal(a) {
      LocalStep(cfg, s, a);
    }
    forall w
      ensures !PendingPush(Do(cfg, s, a), w)
    {
      assert !PendingPush(s, w);
    }
  }

  lemma QuietReader(cfg: Config, x: Watched, read: Option<nat>)
    requires Quiet(cfg, x) && CanRead(x.s.buf, x.st, read)
    ensures var st := Advance(x.s.buf, x.st, read); st.pc.EndTest? || Quiet(cfg, x.(st := st))
  {
    ReaderStep(cfg, x.s, x.st, read);
  }

  /** The second half right after the first: a normal end is the end of the file. */
  lemma QuietEndTest(cfg: Config, x: Watched, read: Option<nat>, read2: Option<nat>)
    requires Quiet(cfg, x) && CanRead(x.s.buf, x.st, read) && Advance(x.s.buf, x.st, read).pc.EndTest?
    ensures var st := Advance(x.s.buf, x.st, read);
      CanRead(x.s.buf, st, read2) && Quiet(cfg, x.(st := Advance(x.s.buf, st, read2)))
  {
    var x1 := x.(st := Advance(x.s.buf, x.st, read));
    ReaderStep(cfg, x.s, x.st, read);
    ReaderStep(cfg, x.s, x1.st, read2);
    if Ending(x1) {
      LengthAtEnd(cfg, x1);
    }
  }

  lemma {:induction false} QuietRun(cfg: Config, x: Watched, moves: seq<Move>)
    requires Quiet(cfg, x) && CanWatch(cfg, x, moves) && Undivided(cfg, x, moves)
    ensures Quiet(cfg, Watch(cfg, x, moves))
    decreases |moves|
  {
    if moves != [] {
      var y, rest := MoveTo(cfg, x, moves[0]), moves[1..];
      if moves[0].Download? && moves[0].a.Claim? {
        QuietClaim(cfg, x, moves[0].a.w);
        QuietRun(cfg, MoveTo(cfg, y, rest[0]), rest[1..]);
      } else if moves[0].Download? {
        QuietDownload(cfg, x, moves[0].a);
        QuietRun(cfg, y, rest);
      } else {
        QuietReader(cfg, x, moves[0].read);
        if y.st.pc.EndTest? {
          QuietEndTest(cfg, x, moves[0].read, rest[0].read);
          QuietRun(cfg, MoveTo(cfg, y, rest[0]), rest[1..]);
        } else {
          QuietRun(cfg, y, rest);
        }
      }
    }
  }

  /** In file order, what was handed out is a prefix. */
  lemma OrderedIsPrefix(cfg: Config, s: State, st: Stream)
    requires StreamInv(cfg, s, st) && OneGeneration(cfg) && st.skipped == 0
    requires NonEmpty(s.buf.segments) && FileOrder(s.buf.segments)
    ensures st.yielded <= cfg.head.content
  {
    var x := Watched(s, st);
    OrderOfPrefix(s.buf.segments, |Reached(x)|);
    ReachedInOrder(x);
    PrefixFromOffsets(st, cfg.head.content);
  }

  lemma QuietIsPrefix(cfg: Config, x: Watched)
    requires Quiet(cfg, x) && OneGeneration(cfg) && x.st.skipped == 0 && cfg.total <= |cfg.head.content|
    ensures x.st.yielded <= cfg.head.content
    ensures x.st.pc.Ended? && !x.st.errored ==> x.st.yielded == cfg.head.content[..cfg.total]
  {
    SegmentsNonEmpty(cfg, x.s);
    OrderedIsPrefix(cfg, x.s, x.st);
  }

  /** In undivided runs a reader always hands out a prefix, and one that ends normally the whole file. */
  lemma UndividedReaderGetsWholeFile(cfg: Config, s0: State, moves: seq<Move>)
    requires Watchable(cfg, s0, moves) && Undivided(cfg, Watched(s0, NEW_STREAM), moves) && OneGeneration(cfg)
    requires After(cfg, s0, moves).st.skipped == 0 && cfg.total <= |cfg.head.content|
    ensures var st := After(cfg, s0, moves).st;
      st.yielded <= cfg.head.content && (st.pc.Ended? && !st.errored ==> st.yielded == cfg.head.content[..cfg.total])
  {
    QuietAtStart(cfg, s0);
    QuietRun(cfg, Watched(s0, NEW_STREAM), moves);
    QuietIsPrefix(cfg, After(cfg, s0, moves));
  }

  lemma QuietAtStart(cfg: Config, s0: State)
    requires Init(cfg, s0)
    ensures Quiet(cfg, Watched(s0, NEW_STREAM))
  {
    InitInv(cfg, s0);
  }
}
