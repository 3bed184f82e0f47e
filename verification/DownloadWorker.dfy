/**
 The shared buffer and the download worker as imperative code.

 `SegmentsBuffer` has the source's fields. Its ghost field `world` is the state of the step system the
 buffer is part of, and `Valid` says that this state is reachable and agrees with the fields. Every method
 below moves `world` only by enabled actions of worker `w`; wherever the source can be preempted it calls
 `Yield`, whose contract lets all the others do anything the step system allows. So the loops here are
 proved for any number of concurrent workers and readers.
 */
module DownloadWorker {
  import opened Common
  import opened Segments
  import opened DownloadSystem
  import opened DownloadInvariant
  import opened DownloadTheorems
  import opened DownloadWitness

  ghost predicate IsReachable(cfg: Config, s: State) {
    exists s0: State, acts: seq<Action> :: Reachable(cfg, s0, acts) && s == Run(cfg, s0, acts)
  }

  /** `a` is a move of worker `w` itself. */
  predicate ActsFor(a: Action, w: nat) {
    match a
    case ReadyMessage => false
    case Join(_) => false
    case ReadActive => false
    case NothingToJoin => false
    case Verdict => false
    case UpstreamChanges(_) => false
    case SetFailed => false
    case _ => a.w == w
  }

  /** `s'` is `s` after any number of moves of anybody but worker `w`. */
  ghost predicate OthersRan(cfg: Config, s: State, s': State, w: nat) {
    exists acts: seq<Action> :: CanRun(cfg, s, acts) && s' == Run(cfg, s, acts) &&
      forall i :: 0 <= i < |acts| ==> !ActsFor(acts[i], w)
  }

  lemma StepReachable(cfg: Config, s: State, a: Action)
    requires IsReachable(cfg, s) && Enabled(cfg, s, a)
    ensures IsReachable(cfg, Do(cfg, s, a))
  {
    var s0, acts :| Reachable(cfg, s0, acts) && s == Run(cfg, s0, acts);
    OneMore(cfg, s, a, []);
    assert [a] + [] == [a];
    RunAppend(cfg, s0, acts, [a]);
    assert Reachable(cfg, s0, acts + [a]);
  }

  lemma {:induction false} RunReachable(cfg: Config, s: State, acts: seq<Action>)
    requires IsReachable(cfg, s) && CanRun(cfg, s, acts)
    ensures IsReachable(cfg, Run(cfg, s, acts))
    decreases |acts|
  {
    if acts != [] {
      StepReachable(cfg, s, acts[0]);
      RunReachable(cfg, Do(cfg, s, acts[0]), acts[1..]);
    }
  }

  lemma OthersStep(cfg: Config, s: State, a: Action, w: nat)
    requires Enabled(cfg, s, a) && !ActsFor(a, w) && w < |s.workers|
    ensures var s' := Do(cfg, s, a);
      && |s.workers| <= |s'.workers| && s'.workers[w] == s.workers[w]
      && s.buf.next <= s'.buf.next && s'.buf.total == s.buf.total && (s.cancelled ==> s'.cancelled)
  {
  }

  /** What a preempted worker finds when it runs again. */
  lemma {:induction false} OthersLeaveWorkerAlone(cfg: Config, s: State, acts: seq<Action>, w: nat)
    requires CanRun(cfg, s, acts) && w < |s.workers|
    requires forall i :: 0 <= i < |acts| ==> !ActsFor(acts[i], w)
    ensures var s' := Run(cfg, s, acts);
      && w < |s'.workers| && s'.workers[w] == s.workers[w]
      && s.buf.next <= s'.buf.next && s'.buf.total == s.buf.total && (s.cancelled ==> s'.cancelled)
    decreases |acts|
  {
    if acts != [] {
      OthersStep(cfg, s, acts[0], w);
      OthersLeaveWorkerAlone(cfg, Do(cfg, s, acts[0]), acts[1..], w);
    }
  }

  lemma WriteSomeDoes(cfg: Config, s: State, w: nat, wk: Worker, offset: nat, bytes: seq<byte>)
    requires w < |s.workers| && s.workers[w] == wk && wk.Writing? && offset == wk.job.start + wk.got + wk.done
    requires 0 < |bytes| <= |wk.data| - wk.done && bytes == wk.data[wk.done..wk.done + |bytes|]
    ensures Enabled(cfg, s, WriteSome(w, |bytes|))
    ensures var s' := Do(cfg, s, WriteSome(w, |bytes|));
      && s'.buf == WriteAt(s.buf, offset, bytes) && s'.workers == s.workers[w := AfterWrite(wk, |bytes|)]
      && s'.cancelled == s.cancelled && s'.active == s.active
  {
  }

  lemma ReachableInvariant(cfg: Config, s: State)
    requires IsReachable(cfg, s)
    ensures Inv(cfg, s)
  {
    var s0, acts :| Reachable(cfg, s0, acts) && s == Run(cfg, s0, acts);
    ReachableInv(cfg, s0, acts);
  }

  lemma PreferredInRange(cfg: Config, s: State, w: nat)
    requires IsReachable(cfg, s) && w < |s.workers| && s.workers[w].Idle?
    ensures MIN_SEGMENT_SIZE <= s.workers[w].preferred <= MAX_SEGMENT_SIZE && s.buf.next <= s.buf.total
  {
    ReachableInvariant(cfg, s);
    assert IsWorker(s, w);
  }

  lemma KnownId(cfg: Config, s: State, w: nat)
    requires IsReachable(cfg, s) && w < |s.workers| && HeldBy(s.workers[w]).Some?
    ensures HeldBy(s.workers[w]).value.id < |s.buf.segments|
  {
    ReachableInvariant(cfg, s);
    assert Holds(s, w) && HoldsItsClaim(s, w);
  }

  /** Nobody takes back what a worker has published, however long it is preempted. */
  lemma MarkedIsReady(cfg: Config, s: State, w: nat)
    requires IsReachable(cfg, s) && w < |s.workers| && s.workers[w].Marked?
    ensures IsReady(s.buf, s.workers[w].job.id)
  {
    ReachableInvariant(cfg, s);
    assert Holds(s, w) && HoldsItsClaim(s, w);
  }

  lemma FewGets(cfg: Config, s: State, w: nat)
    requires IsReachable(cfg, s) && w < |s.workers| && HeldBy(s.workers[w]).Some?
    ensures HeldBy(s.workers[w]).value.id < |s.log|
    ensures s.log[HeldBy(s.workers[w]).value.id].gets <= 1 + MAX_SEGMENT_RETRIES
  {
    ReachableInvariant(cfg, s);
    assert Holds(s, w) && HoldsItsClaim(s, w);
  }

  /** The adaptive segment size for a measured speed in bytes per second. */
  function NextSegmentSize(speed: real): (size: nat)
    ensures 65536 <= size <= 4194304
    ensures speed <= 0.0 ==> size == 1048576
    ensures 0.0 < speed * 2.0 < 65536.0 ==> size == 65536
    ensures speed * 2.0 > 4194304.0 ==> size == 4194304
    ensures 65536.0 <= speed * 2.0 <= 4194304.0 ==>
      size as real <= speed * 2.0 < size as real + 1.0
  {
    if speed <= 0.0 then INITIAL_SEGMENT_SIZE
    else Max(MIN_SEGMENT_SIZE, Min((speed * 2.0).Floor, MAX_SEGMENT_SIZE))
  }

  /** What the body stream of a response delivers, one item at a time. */
  datatype BodyEvent = Chunk(data: seq<byte>) | BodyError(transient: bool) | Silence

  datatype Reply = SendError(transient: bool) | Response(status: nat, body: seq<BodyEvent>)

  /** The chunks of `body` are consecutive pieces of `content`, from offset `at` on. */
  predicate Honest(content: seq<byte>, at: nat, body: seq<BodyEvent>)
    decreases |body|
  {
    body == [] ||
    match body[0]
    case Chunk(data) =>
      at + |data| <= |content| && data == content[at..at + |data|] && Honest(content, at + |data|, body[1..])
    case _ => Honest(content, at, body[1..])
  }

  /** What a server may answer to the request `job` stands for, upstream being as in `s`. */
  ghost predicate Admissible(cfg: Config, s: State, job: Job, reply: Reply) {
    match reply
    case SendError(_) => true
    case Response(status, body) =>
      status == OK || status == PARTIAL_CONTENT ==>
        && (cfg.honoursIfMatch && SendsIfMatch(cfg) ==> s.upstream.etag == cfg.head.etag)
        && Honest(s.upstream.content, if status == PARTIAL_CONTENT then job.start else 0, body)
  }

  /** A worker whose current attempt has put everything before offset `upTo` on disk. */
  function Filling(job: Job, src: Generation, base: nat, upTo: nat): Worker
    requires job.start <= upTo
  {
    if upTo < job.end then Streaming(job, src, base, upTo - job.start) else Received(job, src)
  }

  /** A writing worker once `written` bytes of its data are on disk. */
  function Progress(wk: Worker, written: nat): Worker
    requires wk.Writing?
  {
    if written < |wk.data| then wk.(done := written) else AfterWrite(wk, |wk.data|)
  }

  datatype BodyVerdict = Complete | TryAgain | GiveUp(error: Error)

  /** Why reading a body ended as it did. */
  predicate AfterBody(job: Job, body: seq<BodyEvent>, verdict: BodyVerdict, writeFailed: bool) {
    match verdict
    case Complete => true
    case TryAgain => job.attempt < 3
    case GiveUp(e) =>
      || (e == Cancelled)
      || (e == Io && (writeFailed || job.attempt >= 3))
      || (e == Reqwest && exists event :: event in body && BreaksOff(job, event))
  }

  /** The body broke off, and another attempt would not help or is not left. */
  predicate BreaksOff(job: Job, event: BodyEvent) {
    event.BodyError? && (!event.transient || job.attempt >= 3)
  }

  /** What a single item of the body can end an attempt with. */
  function EventVerdict(job: Job, event: BodyEvent, refused: bool): BodyVerdict {
    match event
    case BodyError(transient) => if transient && job.attempt < MAX_SEGMENT_RETRIES then TryAgain else GiveUp(Reqwest)
    case Silence => if job.attempt < MAX_SEGMENT_RETRIES then TryAgain else GiveUp(Io)
    case Chunk(_) => GiveUp(if refused then Io else Cancelled)
  }

  lemma EventExplains(job: Job, body: seq<BodyEvent>, event: BodyEvent, refused: bool)
    requires event in body
    ensures AfterBody(job, body, EventVerdict(job, event, refused), event.Chunk? && refused)
  {
    assert event.BodyError? && (!event.transient || job.attempt >= MAX_SEGMENT_RETRIES) ==> BreaksOff(job, event);
  }

  class SegmentsBuffer {
    const totalSize: nat
    var nextUnassigned: nat
    var segments: seq<Segment>
    var readyCount: nat
    var allAssigned: bool
    var failed: bool
    var file: seq<byte>
    var cancelled: bool
    var active: int

    ghost const cfg: Config
    ghost var world: State

    ghost function View(): Buffer
      reads this
    {
      Buffer(totalSize, nextUnassigned, segments, readyCount, allAssigned, failed, file)
    }

    ghost predicate Valid()
      reads this
    {
      IsReachable(cfg, world) && world.buf == View() && world.cancelled == cancelled && world.active == active
    }

    /** A buffer over a file already extended to its size, with the first worker about to start. */
    constructor (file: seq<byte>, connections: nat, ghost cfg: Config, ghost upstream: Generation)
      requires |file| == cfg.total && connections == cfg.connections && PossibleGeneration(cfg, upstream)
      ensures Valid() && this.cfg == cfg && Init(cfg, world) && world.upstream == upstream
      ensures View() == NewBuffer(file) && !cancelled
    {
      this.cfg := cfg;
      totalSize, nextUnassigned, segments, readyCount := |file|, 0, [], 0;
      allAssigned, failed, cancelled := false, false, false;
      this.file := file;
      ghost var s := InitialState(cfg, upstream).(buf := NewBuffer(file));
      active := Min(connections, 1);
      world := s;
      assert Reachable(cfg, s, []) && s == Run(cfg, s, []);
    }

    /** Worker `w` stands at `wk`. */
    ghost predicate At(w: nat, wk: Worker)
      reads this
    {
      Valid() && w < |world.workers| && world.workers[w] == wk
    }

    /** Let everybody else run. Callers know no more than the contract says. */
    method Yield(ghost w: nat)
      requires Valid() && w < |world.workers|
      modifies this
      ensures Valid() && OthersRan(cfg, old(world), world, w)
      ensures At(w, old(world.workers[w])) && nextUnassigned >= old(nextUnassigned)
      ensures old(cancelled) ==> cancelled
    {
      assert CanRun(cfg, world, []) && world == Run(cfg, world, []);
    }

    /** `Yield`, with just what a worker needs to know afterwards. */
    method Pause(ghost w: nat)
      requires Valid() && w < |world.workers|
      modifies this
      ensures At(w, old(world.workers[w])) && nextUnassigned >= old(nextUnassigned)
      ensures old(cancelled) ==> cancelled
    {
      Yield(w);
    }

    /** A move that concerns only the worker's own control. */
    ghost method Move(a: Action)
      requires Valid() && Enabled(cfg, world, a)
      requires Do(cfg, world, a).buf == world.buf && Do(cfg, world, a).cancelled == world.cancelled
      requires Do(cfg, world, a).active == world.active
      modifies this`world
      ensures Valid() && world == Do(cfg, old(world), a)
    {
      StepReachable(cfg, world, a);
      world := Do(cfg, world, a);
    }

    // ---- moves of worker w that leave the buffer alone --------------------------------------------

    ghost method SendFailed(w: nat, job: Job, transient: bool)
      requires At(w, Fetching(job))
      modifies this`world
      ensures At(w, RetryOr(job, transient, Reqwest))
    {
      Move(SendFails(w, transient));
    }

    ghost method StatusArrived(w: nat, job: Job, status: nat, body: seq<BodyEvent>)
      requires At(w, Fetching(job)) && Admissible(cfg, world, job, Response(status, body))
      modifies this`world
      ensures At(w, OnStatus(totalSize, job, status, old(world.upstream)))
    {
      Move(Respond(w, status));
    }

    ghost method ChunkArrived(w: nat, wk: Worker, data: seq<byte>)
      requires wk.Streaming? && At(w, wk) && BodyContinues(wk, data)
      modifies this`world
      ensures At(w, OnChunk(wk, data))
    {
      Move(ChunkArrives(w, data));
    }

    ghost method BodyFailed(w: nat, wk: Worker, transient: bool)
      requires wk.Streaming? && At(w, wk)
      modifies this`world
      ensures At(w, RetryOr(wk.job, transient, Reqwest))
    {
      Move(StreamFails(w, transient));
    }

    ghost method BodyStalled(w: nat, wk: Worker)
      requires wk.Streaming? && At(w, wk)
      modifies this`world
      ensures At(w, RetryOr(wk.job, true, Io))
    {
      Move(ReadTimesOut(w));
    }

    ghost method BodyEnded(w: nat, wk: Worker)
      requires wk.Streaming? && At(w, wk)
      modifies this`world
      ensures At(w, OnBodyEnd(wk.job, wk.src, wk.got))
    {
      Move(StreamEnds(w));
    }

    ghost method WriteFailed(w: nat, wk: Worker)
      requires wk.Writing? && At(w, wk)
      modifies this`world
      ensures At(w, Returned(Some(wk.job), Err(Io)))
    {
      Move(WriteFails(w));
    }

    ghost method Cancel(w: nat, wk: Worker)
      requires At(w, wk) && cancelled
      requires wk.Idle? || wk.Fetching? || wk.Streaming? || (wk.Writing? && wk.done == 0)
      modifies this`world
      ensures At(w, Returned(HeldBy(wk), Err(Cancelled)))
    {
      Move(Abort(w));
    }

    // ---- atomic accesses --------------------------------------------------------------------------

    method StoreAllAssigned(ghost w: nat)
      requires Valid() && Enabled(cfg, world, Exhaust(w))
      modifies this
      ensures At(w, Returned(None, Ok(()))) && View() == NoteExhausted(old(View()))
      ensures world == Do(cfg, old(world), Exhaust(w))
    {
      StepReachable(cfg, world, Exhaust(w));
      world := Do(cfg, world, Exhaust(w));
      allAssigned := true;
    }

    method CompareExchangeNext(ghost w: nat, ghost preferred: nat, current: nat, end: nat) returns (won: bool)
      requires At(w, Idle(preferred))
      requires current < totalSize && end == current + Min(preferred, totalSize - current)
      modifies this
      ensures won <==> old(nextUnassigned) == current
      ensures won ==> At(w, Claimed(current, end)) && world == Do(cfg, old(world), Claim(w)) && nextUnassigned == end
      ensures !won ==> At(w, Idle(preferred)) && unchanged(this)
    {
      won := nextUnassigned == current;
      if won {
        StepReachable(cfg, world, Claim(w));
        world := Do(cfg, world, Claim(w));
        nextUnassigned := end;
      }
    }

    method PushSegment(ghost w: nat, start: nat, end: nat) returns (id: nat)
      requires At(w, Claimed(start, end))
      modifies this
      ensures id == |old(segments)| && At(w, Fetching(Job(id, start, end, 0)))
      ensures View() == Register(old(View()), start, end) && world == Do(cfg, old(world), Push(w))
    {
      id := |segments|;
      StepReachable(cfg, world, Push(w));
      world := Do(cfg, world, Push(w));
      segments := segments + [Segment(start, end, Downloading)];
    }

    ghost method Wrote(w: nat, wk: Worker, offset: nat, bytes: seq<byte>)
      requires wk.Writing? && At(w, wk) && offset == wk.job.start + wk.got + wk.done
      requires 0 < |bytes| <= |wk.data| - wk.done && bytes == wk.data[wk.done..wk.done + |bytes|]
      modifies this`world
      ensures IsReachable(cfg, world) && world == Do(cfg, old(world), WriteSome(w, |bytes|))
      ensures w < |world.workers| && world.workers[w] == AfterWrite(wk, |bytes|)
      ensures world.buf == WriteAt(View(), offset, bytes)
      ensures world.cancelled == cancelled && world.active == active
    {
      WriteSomeDoes(cfg, world, w, wk, offset, bytes);
      StepReachable(cfg, world, WriteSome(w, |bytes|));
      world := Do(cfg, world, WriteSome(w, |bytes|));
    }

    method PositionalWrite(ghost w: nat, ghost wk: Worker, offset: nat, bytes: seq<byte>)
      requires wk.Writing? && At(w, wk) && offset == wk.job.start + wk.got + wk.done
      requires 0 < |bytes| <= |wk.data| - wk.done && bytes == wk.data[wk.done..wk.done + |bytes|]
      modifies this
      ensures At(w, AfterWrite(wk, |bytes|)) && View() == WriteAt(old(View()), offset, bytes)
      ensures world == Do(cfg, old(world), WriteSome(w, |bytes|))
    {
      Wrote(w, wk, offset, bytes);
      file := Splice(file, offset, bytes);
    }

    method StoreReady(ghost w: nat, ghost wk: Worker, id: nat)
      requires wk.Received? && At(w, wk) && id == wk.job.id
      modifies this
      ensures At(w, Marked(wk.job)) && View() == SetReady(old(View()), id)
      ensures world == Do(cfg, old(world), PublishReady(w))
    {
      StepReachable(cfg, world, PublishReady(w));
      world := Do(cfg, world, PublishReady(w));
      if id < |segments| {
        segments := segments[id := segments[id].(state := Ready)];
      }
    }

    method AddReady(ghost w: nat, ghost job: Job, preferred: nat)
      requires At(w, Marked(job)) && MIN_SEGMENT_SIZE <= preferred <= MAX_SEGMENT_SIZE
      modifies this
      ensures At(w, Idle(preferred)) && View() == CountReady(old(View()), job.id)
      ensures world == Do(cfg, old(world), Notify(w, preferred))
    {
      StepReachable(cfg, world, Notify(w, preferred));
      KnownId(cfg, world, w);
      world := Do(cfg, world, Notify(w, preferred));
      readyCount := readyCount + 1;
    }

    // ---- operations -------------------------------------------------------------------------------

    method NoteIfExhausted(ghost w: nat)
      requires Valid() && w < |world.workers| && world.workers[w].Idle?
      modifies this
      ensures unchanged(`nextUnassigned)
      ensures if nextUnassigned < totalSize then unchanged(this) else At(w, Returned(None, Ok(()))) && allAssigned
    {
      if nextUnassigned >= totalSize {
        StoreAllAssigned(w);
      }
    }

    /** Claim the next `preferred` bytes. A lost race means that the others got further, so this ends. A
        preferred size of zero claims nothing; it only notes that nothing is left, if so. */
    method ClaimRange(ghost w: nat, preferred: nat) returns (range: Option<(nat, nat, nat)>)
      requires Valid() && w < |world.workers| && world.workers[w].Idle?
      requires preferred == 0 || world.workers[w].preferred == preferred
      modifies this
      ensures nextUnassigned >= old(nextUnassigned)
      ensures preferred == 0 ==> range.None? && unchanged(`nextUnassigned)
      ensures preferred == 0 ==>
        if nextUnassigned < totalSize then unchanged(this) else At(w, Returned(None, Ok(()))) && allAssigned
      ensures preferred > 0 && range.None? ==> At(w, Returned(None, Ok(()))) && allAssigned
      ensures range.Some? ==>
        var (id, start, end) := range.value;
        && At(w, Fetching(Job(id, start, end, 0)))
        && old(nextUnassigned) <= start < end <= nextUnassigned
        && (end - start == preferred || (end == totalSize && end - start < preferred))
    {
      if preferred == 0 {
        NoteIfExhausted(w);
        return None;
      }
      PreferredInRange(cfg, world, w);
      while true
        invariant At(w, Idle(preferred)) && nextUnassigned >= old(nextUnassigned)
        decreases totalSize - nextUnassigned
      {
        var current := nextUnassigned;
        Yield(w);
        PreferredInRange(cfg, world, w);
        if current >= totalSize {
          StoreAllAssigned(w);
          return None;
        }
        var end := current + Min(preferred, totalSize - current);
        var won := CompareExchangeNext(w, preferred, current, end);
        if won {
          Pause(w);
          var id := PushSegment(w, current, end);
          return Some((id, current, end));
        }
      }
    }

    /** One positional write of what is left of `data`; None if nothing could be written. */
    method WriteOnce(ghost w: nat, ghost wk: Worker, offset: nat, data: seq<byte>, written: nat)
      returns (taken: Option<nat>)
      requires wk.Writing? && wk.done == 0 && wk.data == data && written < |data|
      requires offset == wk.job.start + wk.got
      requires At(w, Progress(wk, written))
      modifies this
      ensures nextUnassigned == old(nextUnassigned)
      ensures taken.Some? ==> 0 < taken.value <= |data| - written && At(w, Progress(wk, written + taken.value))
      ensures taken.None? ==> At(w, Returned(Some(wk.job), Err(Io)))
    {
      taken :| taken.Some? ==> taken.value <= |data| - written;
      if taken.None? || taken.value == 0 {
        WriteFailed(w, world.workers[w]);
        return None;
      }
      PositionalWrite(w, world.workers[w], offset + written, data[written..written + taken.value]);
    }

    /** Write all of `data`, however little each positional write takes. */
    method WriteData(ghost w: nat, ghost wk: Worker, offset: nat, data: seq<byte>) returns (ok: bool)
      requires wk.Writing? && wk.done == 0 && wk.data == data && data != [] && At(w, wk)
      requires offset == wk.job.start + wk.got
      modifies this
      ensures nextUnassigned >= old(nextUnassigned)
      ensures ok ==> At(w, AfterWrite(wk, |data|))
      ensures !ok ==> At(w, Returned(Some(wk.job), Err(Io)))
    {
      var written := 0;
      while written < |data|
        invariant 0 <= written <= |data| && nextUnassigned >= old(nextUnassigned)
        invariant At(w, Progress(wk, written))
      {
        Pause(w);
        var taken := WriteOnce(w, wk, offset, data, written);
        if taken.None? {
          return false;
        }
        written := written + taken.value;
      }
      return true;
    }

    method MarkReady(ghost w: nat, ghost wk: Worker, id: nat, preferred: nat)
      requires wk.Received? && At(w, wk) && id == wk.job.id
      requires MIN_SEGMENT_SIZE <= preferred <= MAX_SEGMENT_SIZE
      modifies this
      ensures At(w, Idle(preferred)) && nextUnassigned >= old(nextUnassigned)
      ensures IsReady(View(), id) && id in world.counted
    {
      StoreReady(w, wk, id);
      Pause(w);
      MarkedIsReady(cfg, world, w);
      AddReady(w, wk.job, preferred);
    }

    method AllCompletedNow() returns (done: bool)
      ensures done <==> allAssigned && readyCount >= |segments|
    {
      done := allAssigned && readyCount >= |segments|;
    }

    /** Wait for tokens, then write the first `toWrite` bytes of a chunk. */
    method WritePiece(ghost w: nat, job: Job, ghost src: Generation, ghost base: nat, fileOffset: nat,
                      ghost data: seq<byte>, piece: seq<byte>)
      returns (r: Outcome)
      requires job.start <= fileOffset < job.end && piece != []
      requires piece == data[..Min(|data|, job.end - fileOffset)]
      requires At(w, Filling(job, src, base, fileOffset))
      requires BodyContinues(Filling(job, src, base, fileOffset), data)
      modifies this
      ensures nextUnassigned >= old(nextUnassigned)
      ensures r.Ok? ==> At(w, Filling(job, src, base, fileOffset + |piece|))
      ensures r.Err? ==> At(w, Returned(Some(job), r)) && (r.error == Io || r.error == Cancelled)
    {
      ChunkArrived(w, world.workers[w], data);
      ghost var wk := world.workers[w];
      assert wk == Writing(job, src, base, fileOffset - job.start, piece, 0);
      Pause(w);
      var granted: bool := *;
      if !granted && cancelled {
        Cancel(w, wk);
        return Err(Cancelled);
      }
      var ok := WriteData(w, wk, fileOffset, piece);
      return if ok then Ok(()) else Err(Io);
    }

    /** Whatever of `data` fits the range goes to disk at `fileOffset`; the rest is dropped. */
    method WriteChunk(ghost w: nat, job: Job, ghost src: Generation, ghost base: nat, fileOffset: nat, data: seq<byte>)
      returns (end: Result<nat, Error>)
      requires job.start <= fileOffset < job.end
      requires At(w, Filling(job, src, base, fileOffset))
      requires BodyContinues(Filling(job, src, base, fileOffset), data)
      modifies this
      ensures nextUnassigned >= old(nextUnassigned)
      ensures end.Ok? ==>
        && end.value == fileOffset + Min(|data|, job.end - fileOffset)
        && At(w, Filling(job, src, base, end.value))
      ensures end.Err? ==> At(w, Returned(Some(job), Err(end.error))) && (end.error == Io || end.error == Cancelled)
    {
      var remaining, chunkOffset := |data|, 0;
      while remaining > 0
        invariant remaining + chunkOffset == |data| && nextUnassigned >= old(nextUnassigned)
        invariant chunkOffset == 0 || chunkOffset == Min(|data|, job.end - fileOffset)
        invariant At(w, Filling(job, src, base, fileOffset + chunkOffset))
      {
        var room := Max(job.end - (fileOffset + chunkOffset), 0);
        if room == 0 {
          break;
        }
        var toWrite := Min(Min(remaining, room), |data| - chunkOffset);
        var r := WritePiece(w, job, src, base, fileOffset, data, data[chunkOffset..chunkOffset + toWrite]);
        if r.Err? {
          return Err(r.error);
        }
        chunkOffset := chunkOffset + toWrite;
        remaining := remaining - toWrite;
      }
      return Ok(fileOffset + chunkOffset);
    }

    /** What an attempt that broke off leads to: another one, or giving up with `e`. */
    ghost predicate Concluded(w: nat, job: Job, verdict: BodyVerdict)
      reads this
    {
      match verdict
      case Complete => At(w, Received(job, SourceOfAttempt(w)))
      case TryAgain => job.attempt < MAX_SEGMENT_RETRIES && At(w, Fetching(job.(attempt := job.attempt + 1)))
      case GiveUp(e) => At(w, Returned(Some(job), Err(e)))
    }

    ghost function SourceOfAttempt(w: nat): Generation
      reads this
    {
      if w < |world.workers| && world.workers[w].Received? then world.workers[w].src else world.upstream
    }

    /** One item of a body stream: the new file offset, or the end of the attempt. */
    method TakeEvent(ghost w: nat, job: Job, ghost src: Generation, ghost base: nat, fileOffset: nat, event: BodyEvent)
      returns (next: Result<nat, BodyVerdict>)
      requires job.start <= fileOffset < job.end
      requires At(w, Filling(job, src, base, fileOffset))
      requires event.Chunk? ==> BodyContinues(Filling(job, src, base, fileOffset), event.data)
      modifies this
      ensures nextUnassigned >= old(nextUnassigned)
      ensures next.Ok? ==>
        && event.Chunk? && next.value == fileOffset + Min(|event.data|, job.end - fileOffset)
        && At(w, Filling(job, src, base, next.value))
      ensures next.Err? ==> !next.error.Complete? && Concluded(w, job, next.error)
      ensures event.Chunk? && old(cancelled) ==> next == Err(GiveUp(Cancelled))
      ensures event == BodyError(false) ==> next == Err(GiveUp(Reqwest))
      ensures event == BodyError(true) ==> next == Err(if job.attempt < 3 then TryAgain else GiveUp(Reqwest))
      ensures event == Silence ==> next == Err(if job.attempt < 3 then TryAgain else GiveUp(Io))
      ensures next.Err? ==> next.error == EventVerdict(job, event, next.error == GiveUp(Io))
    {
      match event {
        case BodyError(transient) =>
          BodyFailed(w, world.workers[w], transient);
          return Err(if transient && job.attempt < MAX_SEGMENT_RETRIES then TryAgain else GiveUp(Reqwest));
        case Silence =>
          BodyStalled(w, world.workers[w]);
          return Err(if job.attempt < MAX_SEGMENT_RETRIES then TryAgain else GiveUp(Io));
        case Chunk(data) =>
          if cancelled {
            Cancel(w, world.workers[w]);
            return Err(GiveUp(Cancelled));
          }
          var end := WriteChunk(w, job, src, base, fileOffset, data);
          return if end.Ok? then Ok(end.value) else Err(GiveUp(end.error));
      }
    }

    /**
     Take the body of an accepted response, chunk by chunk, until the range is full or the body is over.
     `writeFailed` says that the disk refused a chunk. Otherwise the worker gives up only because it is
     cancelled, because the body broke off for good, or because this was the last attempt.
     */
    method ReadBody(ghost w: nat, job: Job, ghost src: Generation, ghost base: nat, body: seq<BodyEvent>)
      returns (verdict: BodyVerdict, ghost writeFailed: bool)
      requires job.start < job.end
      requires At(w, Filling(job, src, base, job.start)) && Honest(src.content, base, body)
      modifies this
      ensures nextUnassigned >= old(nextUnassigned) && Concluded(w, job, verdict)
      ensures AfterBody(job, body, verdict, writeFailed)
    {
      var fileOffset, rest := job.start, body;
      writeFailed := false;
      while rest != [] && fileOffset < job.end
        invariant job.start <= fileOffset <= job.end && nextUnassigned >= old(nextUnassigned)
        invariant At(w, Filling(job, src, base, fileOffset))
        invariant fileOffset < job.end ==> Honest(src.content, base + (fileOffset - job.start), rest)
        invariant forall e :: e in rest ==> e in body
        decreases |rest|
      {
        Pause(w);
        var next := TakeEvent(w, job, src, base, fileOffset, rest[0]);
        if next.Err? {
          EventExplains(job, body, rest[0], next.error == GiveUp(Io));
          return next.error, rest[0].Chunk? && next.error == GiveUp(Io);
        }
        fileOffset := next.value;
        rest := rest[1..];
      }
      verdict := FinishBody(w, job, src, base, fileOffset);
    }

    /** The body is over: the range is full, or the attempt has failed. */
    method FinishBody(ghost w: nat, job: Job, ghost src: Generation, ghost base: nat, fileOffset: nat)
      returns (verdict: BodyVerdict)
      requires job.start <= fileOffset <= job.end && job.start < job.end && At(w, Filling(job, src, base, fileOffset))
      modifies this
      ensures nextUnassigned == old(nextUnassigned) && Concluded(w, job, verdict)
      ensures forall body :: AfterBody(job, body, verdict, false)
    {
      var received := fileOffset - job.start;
      if received != job.end - job.start {
        BodyEnded(w, world.workers[w]);
        return if job.attempt < MAX_SEGMENT_RETRIES then TryAgain else GiveUp(Io);
      }
      return Complete;
    }

    /** Judge the status line; read the body if it is acceptable. */
    method OnResponse(ghost w: nat, job: Job, status: nat, body: seq<BodyEvent>)
      returns (verdict: BodyVerdict, ghost writeFailed: bool)
      requires job.start < job.end
      requires At(w, Fetching(job)) && Admissible(cfg, world, job, Response(status, body))
      modifies this
      ensures nextUnassigned >= old(nextUnassigned) && Concluded(w, job, verdict)
      ensures status == 412 ==> verdict == GiveUp(EtagChanged)
      ensures status !in {412, 206, 200} ==> verdict == GiveUp(HttpStatus(status))
      ensures status == 200 && !(job.start == 0 && job.end == totalSize) ==> verdict == GiveUp(RangeUnsupported)
      ensures status == 206 || (status == 200 && job.start == 0 && job.end == totalSize) ==>
        AfterBody(job, body, verdict, writeFailed)
    {
      ghost var src := world.upstream;
      writeFailed := false;
      StatusArrived(w, job, status, body);
      if status == PRECONDITION_FAILED {
        return GiveUp(EtagChanged), false;
      }
      if status != PARTIAL_CONTENT && status != OK {
        return GiveUp(HttpStatus(status)), false;
      }
      if status == OK && !(job.start == 0 && job.end == totalSize) {
        return GiveUp(RangeUnsupported), false;
      }
      verdict, writeFailed := ReadBody(w, job, src, if status == PARTIAL_CONTENT then job.start else 0, body);
    }

    /**
     The request is on the wire. The answer is the server's business: like `Yield`, this stands for
     whatever its contract admits, and a lost connection is merely the simplest such answer.
     */
    method Send(ghost w: nat, job: Job) returns (reply: Reply)
      requires At(w, Fetching(job))
      modifies this
      ensures At(w, Fetching(job)) && nextUnassigned >= old(nextUnassigned)
      ensures Admissible(cfg, world, job, reply)
    {
      Pause(w);
      reply := SendError(true);
    }

    /** One request for the range, and what comes of it. */
    method Attempt(ghost w: nat, job: Job) returns (verdict: BodyVerdict)
      requires job.start < job.end && At(w, Fetching(job))
      modifies this
      ensures nextUnassigned >= old(nextUnassigned) && Concluded(w, job, verdict)
      ensures old(cancelled) ==> verdict == GiveUp(Cancelled)
    {
      Pause(w);
      if cancelled {
        Cancel(w, world.workers[w]);
        return GiveUp(Cancelled);
      }
      var reply := Send(w, job);
      match reply {
        case SendError(transient) =>
          SendFailed(w, job, transient);
          verdict := if transient && job.attempt < MAX_SEGMENT_RETRIES then TryAgain else GiveUp(Reqwest);
        case Response(status, body) =>
          ghost var writeFailed;
          verdict, writeFailed := OnResponse(w, job, status, body);
      }
    }

    /** Up to 1 + MAX_SEGMENT_RETRIES attempts at one range. */
    method FetchRange(ghost w: nat, id: nat, start: nat, end: nat) returns (r: Outcome)
      requires start < end && At(w, Fetching(Job(id, start, end, 0)))
      modifies this
      ensures nextUnassigned >= old(nextUnassigned) && Valid() && w < |world.workers|
      ensures r.Ok? ==>
        var wk := world.workers[w];
        && wk.Received? && wk.job.id == id && wk.job.start == start && wk.job.end == end
        && id < |world.log| && world.log[id].gets <= 4
      ensures r.Err? ==> world.workers[w].Returned? && world.workers[w].outcome == r
      ensures old(cancelled) ==> r == Err(Cancelled)
    {
      var attempt := 0;
      while true
        invariant old(cancelled) ==> attempt == 0 && cancelled
        invariant attempt <= MAX_SEGMENT_RETRIES && nextUnassigned >= old(nextUnassigned)
        invariant At(w, Fetching(Job(id, start, end, attempt)))
        decreases MAX_SEGMENT_RETRIES - attempt
      {
        var job := Job(id, start, end, attempt);
        var verdict := Attempt(w, job);
        if verdict.Complete? {
          FewGets(cfg, world, w);
          return Ok(());
        }
        if verdict.GiveUp? {
          return Err(verdict.error);
        }
        attempt := attempt + 1;
      }
    }

    /** A spawned task: the worker, then the count of active workers. */
    method SpawnedWorker(ghost w: nat) returns (r: Outcome)
      requires At(w, Idle(INITIAL_SEGMENT_SIZE))
      modifies this
      ensures Valid() && w < |world.workers| && world.workers[w].Exited? && world.workers[w].outcome == r
    {
      r := DownloadWorker(w);
      Pause(w);
      StepReachable(cfg, world, Exit(w));
      world := Do(cfg, world, Exit(w));
      active := active - 1;
    }

    /** The whole worker: claim, fetch, publish, until nothing is left or an attempt fails for good. */
    method DownloadWorker(ghost w: nat) returns (r: Outcome)
      requires At(w, Idle(INITIAL_SEGMENT_SIZE))
      modifies this
      ensures Valid() && w < |world.workers| && world.workers[w].Returned? && world.workers[w].outcome == r
      ensures r.Ok? ==> allAssigned
      ensures old(cancelled) ==> r == Err(Cancelled)
    {
      var preferred: nat := INITIAL_SEGMENT_SIZE;
      while true
        invariant old(cancelled) ==> cancelled
        invariant At(w, Idle(preferred)) && MIN_SEGMENT_SIZE <= preferred <= MAX_SEGMENT_SIZE
        decreases totalSize - nextUnassigned
      {
        Pause(w);
        if cancelled {
          Cancel(w, world.workers[w]);
          return Err(Cancelled);
        }
        PreferredInRange(cfg, world, w);
        var range := ClaimRange(w, preferred);
        if range.None? {
          return Ok(());
        }
        var (id, start, end) := range.value;
        var fetched := FetchRange(w, id, start, end);
        if fetched.Err? {
          return fetched;
        }
        var speed: Option<real> := *;
        if speed.Some? {
          preferred := NextSegmentSize(speed.value);
        }
        MarkReady(w, world.workers[w], id, preferred);
      }
    }
  }
}
