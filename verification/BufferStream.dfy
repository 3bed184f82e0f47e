/**
 Readers that stream the file while it is still being written.

 A reader only looks at the shared buffer, so one reader next to the step system stands for any number.
 Its loop is split at the points where the source lets go of the buffer: the failure test at the top, the
 body of the loop, and the second half of the end test.
 */
module BufferStream {
  import opened Common
  import opened Segments
  import opened DownloadSystem
  import opened DownloadInvariant
  import opened DownloadTheorems

  datatype StreamPc = Top | Serving | EndTest | Ended

  /**
   `yielded` is everything handed to the client, `skipped` the number of bytes failed reads passed over.
   `served` is history: the file offset each yielded byte was read from.
   */
  datatype Stream = Stream(
    pc: StreamPc,
    current: nat,
    offset: nat,
    errored: bool,
    yielded: seq<byte>,
    served: seq<nat>,
    skipped: nat)

  const NEW_STREAM := Stream(Top, 0, 0, false, [], [], 0)

  /** The reader is about to read from a ready segment. */
  predicate AtRead(b: Buffer, st: Stream) {
    && st.pc == Serving && st.current < |b.segments| && IsReady(b, st.current)
    && b.segments[st.current].start + st.offset < b.segments[st.current].end
  }

  /** `read` is what the positional read returns: a number of bytes, or None for an error or end of file. */
  predicate CanRead(b: Buffer, st: Stream, read: Option<nat>) {
    AtRead(b, st) && read.Some? ==>
      var seg := b.segments[st.current];
      1 <= read.value <= seg.end - (seg.start + st.offset) && seg.start + st.offset + read.value <= |b.file|
  }

  function NextSegment(st: Stream): Stream {
    st.(pc := Top, current := st.current + 1, offset := 0)
  }

  /** The `n` offsets from `from` on. */
  function Span(from: nat, n: nat): (r: seq<nat>)
    ensures |r| == n && forall i :: 0 <= i < n ==> r[i] == from + i
  {
    seq(n, i requires 0 <= i < n => from + i)
  }

  /** One move of the reader. A wait is a return to the top of the loop. */
  function Advance(b: Buffer, st: Stream, read: Option<nat>): Stream
    requires CanRead(b, st, read)
  {
    match st.pc
    case Ended => st
    case Top =>
      if !b.failed then st.(pc := Serving)
      else if st.errored then st.(pc := Ended)
      else st.(errored := true)
    case EndTest =>
      if |b.segments| == 0 || !AllCompleted(b) then st.(pc := Top) else st.(pc := Ended)
    case Serving =>
      if st.current >= |b.segments| then st.(pc := EndTest)
      else if !IsReady(b, st.current) then st.(pc := Top)
      else
        var seg := b.segments[st.current];
        var pos := seg.start + st.offset;
        if pos >= seg.end then NextSegment(st)
        else
          match read
          case Some(n) =>
            st.(pc := Top, offset := st.offset + n,
                yielded := st.yielded + b.file[pos..pos + n], served := st.served + Span(pos, n))
          case None => NextSegment(st).(skipped := st.skipped + (seg.end - pos))
  }

  datatype Move = Download(a: Action) | Reader(read: Option<nat>)

  datatype Watched = Watched(s: State, st: Stream)

  predicate CanMove(cfg: Config, x: Watched, m: Move) {
    match m
    case Download(a) => Enabled(cfg, x.s, a)
    case Reader(read) => CanRead(x.s.buf, x.st, read)
  }

  function MoveTo(cfg: Config, x: Watched, m: Move): Watched
    requires CanMove(cfg, x, m)
  {
    match m
    case Download(a) => x.(s := Do(cfg, x.s, a))
    case Reader(read) => x.(st := Advance(x.s.buf, x.st, read))
  }

  predicate CanWatch(cfg: Config, x: Watched, moves: seq<Move>)
    decreases |moves|
  {
    moves == [] || (CanMove(cfg, x, moves[0]) && CanWatch(cfg, MoveTo(cfg, x, moves[0]), moves[1..]))
  }

  function Watch(cfg: Config, x: Watched, moves: seq<Move>): Watched
    requires CanWatch(cfg, x, moves)
    decreases |moves|
  {
    if moves == [] then x else Watch(cfg, MoveTo(cfg, x, moves[0]), moves[1..])
  }

  // ---- file order -------------------------------------------------------------------------------

  ghost predicate Follows(segments: seq<Segment>, i: int)
    requires 0 <= i < |segments|
  {
    segments[i].start == if i == 0 then 0 else segments[i - 1].end
  }

  /** Ids number the segments in file order, without gaps. */
  ghost predicate FileOrder(segments: seq<Segment>) {
    forall i :: 0 <= i < |segments| ==> Follows(segments, i)
  }

  /** One past the last byte of the last segment. */
  function EndOf(segments: seq<Segment>): nat {
    if segments == [] then 0 else segments[|segments| - 1].end
  }

  lemma OrderOfPrefix(segments: seq<Segment>, n: nat)
    requires FileOrder(segments) && n <= |segments|
    ensures FileOrder(segments[..n])
  {
    forall i | 0 <= i < n
      ensures Follows(segments[..n], i)
    {
      assert Follows(segments, i);
    }
  }

  lemma OrderOfExtension(segments: seq<Segment>, seg: Segment)
    ensures FileOrder(segments + [seg]) <==> FileOrder(segments) && seg.start == EndOf(segments)
  {
    var longer := segments + [seg];
    assert forall i :: 0 <= i < |segments| ==> (Follows(longer, i) <==> Follows(segments, i));
    assert Follows(longer, |segments|) <==> seg.start == EndOf(segments);
  }

  ghost predicate SameBounds(a: seq<Segment>, b: seq<Segment>) {
    |a| == |b| && forall i :: 0 <= i < |a| ==> a[i].start == b[i].start && a[i].end == b[i].end
  }

  lemma OrderOfSameBounds(a: seq<Segment>, b: seq<Segment>)
    requires SameBounds(a, b)
    ensures FileOrder(a) <==> FileOrder(b)
  {
    assert forall i :: 0 <= i < |a| ==> (Follows(a, i) <==> Follows(b, i));
  }

  /** In file order, the segments cover every byte before the end of the last. */
  lemma {:induction false} FindSegment(segments: seq<Segment>, x: nat) returns (id: nat)
    requires FileOrder(segments) && x < EndOf(segments)
    ensures id < |segments| && segments[id].start <= x < segments[id].end
    decreases |segments|
  {
    var last := |segments| - 1;
    if segments[last].start <= x {
      id := last;
    } else {
      assert Follows(segments, last);
      OrderOfPrefix(segments, last);
      id := FindSegment(segments[..last], x);
    }
  }

  lemma {:induction false} EndsAscend(segments: seq<Segment>, id: nat)
    requires FileOrder(segments) && id < |segments|
    requires forall i :: 0 <= i < |segments| ==> segments[i].start < segments[i].end
    ensures segments[id].end <= EndOf(segments)
    decreases |segments|
  {
    var last := |segments| - 1;
    if id < last {
      OrderOfPrefix(segments, last);
      EndsAscend(segments[..last], id);
      assert Follows(segments, last);
    }
  }

  /** Worker `w` is registering the claim that was made first. */
  ghost predicate OldestClaim(s: State, w: nat) {
    PendingPush(s, w) && forall v :: PendingPush(s, v) ==> s.workers[w].start <= s.workers[v].start
  }

  /** Nothing pending begins inside the registered stretch. */
  lemma PendingBeyond(cfg: Config, s: State, w: nat)
    requires Tiling(cfg, s) && FileOrder(s.buf.segments) && PendingPush(s, w)
    ensures EndOf(s.buf.segments) <= s.workers[w].start
  {
    var segments := s.buf.segments;
    forall id | Registered(s, id)
      ensures !(segments[id].start <= s.workers[w].start < segments[id].end)
    {
    }
    if s.workers[w].start < EndOf(segments) {
      var id := FindSegment(segments, s.workers[w].start);
      assert false;
    }
  }

  /** If anything is claimed beyond the registered stretch, some pending claim begins right at its end. */
  lemma PendingAtEnd(cfg: Config, s: State) returns (v: nat)
    requires Tiling(cfg, s) && FileOrder(s.buf.segments) && EndOf(s.buf.segments) < s.buf.next
    ensures PendingPush(s, v) && s.workers[v].start == EndOf(s.buf.segments)
  {
    var end := EndOf(s.buf.segments);
    assert Covered(s, end);
    forall id | Registered(s, id)
      ensures s.buf.segments[id].end <= end
    {
      EndsAscend(s.buf.segments, id);
    }
    var w :| PendingPush(s, w) && s.workers[w].start <= end < s.workers[w].end;
    PendingBeyond(cfg, s, w);
    v := w;
  }

  lemma PushKeepsOrder(cfg: Config, s: State, w: nat)
    requires Tiling(cfg, s) && Enabled(cfg, s, Push(w))
    ensures FileOrder(Do(cfg, s, Push(w)).buf.segments) <==> FileOrder(s.buf.segments) && OldestClaim(s, w)
  {
    assert PendingPush(s, w);
    OrderOfExtension(s.buf.segments, Segment(s.workers[w].start, s.workers[w].end, Downloading));
    if FileOrder(s.buf.segments) {
      forall v | PendingPush(s, v)
        ensures EndOf(s.buf.segments) <= s.workers[v].start
      {
        PendingBeyond(cfg, s, v);
      }
      var v := PendingAtEnd(cfg, s);
    }
  }

  /** Any other step leaves the bounds of all segments alone. */
  lemma OtherStepsKeepOrder(cfg: Config, s: State, a: Action)
    requires Enabled(cfg, s, a) && !a.Push?
    ensures SameBounds(s.buf.segments, Do(cfg, s, a).buf.segments)
    ensures FileOrder(Do(cfg, s, a).buf.segments) <==> FileOrder(s.buf.segments)
  {
    if IsLocal(a) {
      LocalStep(cfg, s, a);
    }
    OrderOfSameBounds(s.buf.segments, Do(cfg, s, a).buf.segments);
  }

  /** Every push of the run registers the oldest claim still pending. */
  ghost predicate PushesInOrder(cfg: Config, s: State, acts: seq<Action>)
    requires CanRun(cfg, s, acts)
    decreases |acts|
  {
    acts == [] ||
    ((acts[0].Push? ==> OldestClaim(s, acts[0].w)) && PushesInOrder(cfg, Do(cfg, s, acts[0]), acts[1..]))
  }

  /** Ids are in file order exactly when pushes follow the order of the compare-and-swaps. */
  lemma {:induction false} OrderedIdsIffOrderedPushes(cfg: Config, s: State, acts: seq<Action>)
    requires Inv(cfg, s) && CanRun(cfg, s, acts)
    ensures FileOrder(Run(cfg, s, acts).buf.segments) <==> FileOrder(s.buf.segments) && PushesInOrder(cfg, s, acts)
    decreases |acts|
  {
    if acts != [] {
      InvStep(cfg, s, acts[0]);
      OrderedIdsIffOrderedPushes(cfg, Do(cfg, s, acts[0]), acts[1..]);
      if acts[0].Push? {
        PushKeepsOrder(cfg, s, acts[0].w);
      } else {
        OtherStepsKeepOrder(cfg, s, acts[0]);
      }
    }
  }
}
