/**
 The parallel download as a step system.

 `State` is everything the workers, the supervising task and the upstream server share; `Action` is one
 indivisible move of one of them. Each choice the environment makes (scheduling, response status, chunk
 boundaries, short writes, the next segment size, upstream edits) is a parameter of the action, so
 `Do` is a function and a run is a sequence of actions.
 */
module DownloadSystem {
  import opened Common
  import opened Segments

  const MIN_SEGMENT_SIZE: nat := 64 * 1024
  const MAX_SEGMENT_SIZE: nat := 4 * 1024 * 1024
  const INITIAL_SEGMENT_SIZE: nat := 1024 * 1024
  const MAX_SEGMENT_RETRIES: nat := 3

  const OK: nat := 200
  const PARTIAL_CONTENT: nat := 206
  const PRECONDITION_FAILED: nat := 412

  /** One version of the upstream file, with the entity tag the server gives it. */
  datatype Generation = Generation(etag: Option<string>, content: seq<byte>)

  /**
   What is fixed for one download. `head` is the generation the HEAD request saw. `honoursIfMatch` says
   that the server answers a request carrying If-Match with 200/206 only while the tag still matches
   (section 3.1 of RFC 7232). `frozen` says that upstream is never edited.
   */
  datatype Config = Config(
    total: nat,
    connections: nat,
    head: Generation,
    honoursIfMatch: bool,
    frozen: bool)

  predicate IsStrongEtag(etag: string) {
    !("W/" <= etag) && !("w/" <= etag)
  }

  predicate SendsIfMatch(cfg: Config) {
    cfg.head.etag.Some? && IsStrongEtag(cfg.head.etag.value)
  }

  /** Upstream may hold `g`: a strong validator names one sequence of bytes (section 2.1 of RFC 7232). */
  predicate PossibleGeneration(cfg: Config, g: Generation) {
    && (cfg.frozen ==> g == cfg.head)
    && (SendsIfMatch(cfg) && g.etag == cfg.head.etag ==> g.content == cfg.head.content)
  }

  /** Nothing but bytes of the generation seen by HEAD can reach the workers. */
  predicate OneGeneration(cfg: Config) {
    cfg.frozen || (cfg.honoursIfMatch && SendsIfMatch(cfg))
  }

  datatype Error =
    | Reqwest
    | HttpStatus(code: nat)
    | Io
    | RangeUnsupported
    | EtagChanged
    | BufferFailed
    | Cancelled

  predicate IsFatal(e: Error) {
    e.RangeUnsupported? || e.EtagChanged?
  }

  type Outcome = Result<(), Error>

  /** A claimed and registered range, and the number of the current attempt at fetching it. */
  datatype Job = Job(id: nat, start: nat, end: nat, attempt: nat)

  /**
   Where a worker stands. `src` is the generation the response in hand was cut from, `base` the offset in
   it of the first body byte, and `got` counts the bytes of this attempt already on disk.
   */
  datatype Worker =
    | Idle(preferred: nat)
    | Claimed(start: nat, end: nat)
    | Fetching(job: Job)
    | Streaming(job: Job, src: Generation, base: nat, got: nat)
    | Writing(job: Job, src: Generation, base: nat, got: nat, data: seq<byte>, done: nat)
    | Received(job: Job, src: Generation)
    | Marked(job: Job)
    | Returned(held: Option<Job>, outcome: Outcome)
    | Exited(held: Option<Job>, outcome: Outcome)

  /** The supervising task: the select loop, a result taken but `active` not yet read, the draining loop, the verdict. */
  datatype Main = Supervising | Joining | Draining | Finished(verdict: Outcome)

  /** History of one registered segment: who claimed it, what filled it, how many GETs it took. */
  datatype SegmentLog = SegmentLog(owner: nat, origin: Option<Generation>, gets: nat)

  datatype State = State(
    buf: Buffer,
    upstream: Generation,
    workers: seq<Worker>,
    active: int,
    readyMessages: nat,
    joined: set<nat>,
    main: Main,
    cancelled: bool,
    log: seq<SegmentLog>,
    counted: set<nat>,
    claims: nat)

  datatype Action =
    | Claim(w: nat)
    | Exhaust(w: nat)
    | Push(w: nat)
    | SendFails(w: nat, transient: bool)
    | Respond(w: nat, status: nat)
    | ChunkArrives(w: nat, chunk: seq<byte>)
    | WriteSome(w: nat, count: nat)
    | WriteFails(w: nat)
    | StreamEnds(w: nat)
    | StreamFails(w: nat, transient: bool)
    | ReadTimesOut(w: nat)
    | PublishReady(w: nat)
    | Notify(w: nat, preferred: nat)
    | Abort(w: nat)
    | Exit(w: nat)
    | ReadyMessage
    | Join(w: nat)
    | ReadActive
    | NothingToJoin
    | Verdict
    | UpstreamChanges(g: Generation)
    | SetFailed

  predicate Init(cfg: Config, s: State) {
    && |s.buf.file| == cfg.total
    && s.buf == NewBuffer(s.buf.file)
    && PossibleGeneration(cfg, s.upstream)
    && s.workers == (if cfg.connections == 0 then [] else [Idle(INITIAL_SEGMENT_SIZE)])
    && s.active == |s.workers|
    && s.readyMessages == 0
    && s.joined == {}
    && s.main == Supervising
    && !s.cancelled
    && s.log == []
    && s.counted == {}
    && s.claims == 0
  }

  /** The next bytes of a response body, wherever the server cuts it. */
  predicate BodyContinues(wk: Worker, chunk: seq<byte>)
    requires wk.Streaming?
  {
    var at := wk.base + wk.got;
    at + |chunk| <= |wk.src.content| && chunk == wk.src.content[at..at + |chunk|]
  }

  predicate Enabled(cfg: Config, s: State, a: Action) {
    match a
    case Claim(w) => w < |s.workers| && s.workers[w].Idle? && s.buf.next < s.buf.total
    case Exhaust(w) => w < |s.workers| && s.workers[w].Idle? && s.buf.next >= s.buf.total
    case Push(w) => w < |s.workers| && s.workers[w].Claimed?
    case SendFails(w, _) => w < |s.workers| && s.workers[w].Fetching?
    case Respond(w, status) =>
      && w < |s.workers| && s.workers[w].Fetching?
      && (status == OK || status == PARTIAL_CONTENT ==>
            cfg.honoursIfMatch && SendsIfMatch(cfg) ==> s.upstream.etag == cfg.head.etag)
    case ChunkArrives(w, chunk) =>
      w < |s.workers| && s.workers[w].Streaming? && BodyContinues(s.workers[w], chunk)
    case WriteSome(w, count) =>
      && w < |s.workers| && s.workers[w].Writing?
      && 1 <= count <= |s.workers[w].data| - s.workers[w].done
    case WriteFails(w) => w < |s.workers| && s.workers[w].Writing?
    case StreamEnds(w) => w < |s.workers| && s.workers[w].Streaming?
    case StreamFails(w, _) => w < |s.workers| && s.workers[w].Streaming?
    case ReadTimesOut(w) => w < |s.workers| && s.workers[w].Streaming?
    case PublishReady(w) => w < |s.workers| && s.workers[w].Received?
    case Notify(w, preferred) =>
      && w < |s.workers| && s.workers[w].Marked?
      && MIN_SEGMENT_SIZE <= preferred <= MAX_SEGMENT_SIZE
    case Abort(w) =>
      && w < |s.workers| && s.cancelled
      && (s.workers[w].Idle? || s.workers[w].Fetching? || s.workers[w].Streaming?
          || (s.workers[w].Writing? && s.workers[w].done == 0))
    case Exit(w) => w < |s.workers| && s.workers[w].Returned?
    case ReadyMessage => s.main.Supervising? && s.readyMessages > 0
    case Join(w) =>
      (s.main.Supervising? || s.main.Draining?) && w < |s.workers| && s.workers[w].Exited? && w !in s.joined
    case ReadActive => s.main.Joining?
    case NothingToJoin => s.main.Supervising? && forall w :: 0 <= w < |s.workers| ==> w in s.joined
    case Verdict => s.main.Draining? && forall w :: 0 <= w < |s.workers| ==> w in s.joined
    case UpstreamChanges(g) => PossibleGeneration(cfg, g)
    case SetFailed => s.main.Finished?
  }

  function WithWorker(s: State, w: nat, wk: Worker): State
    requires w < |s.workers|
  {
    s.(workers := s.workers[w := wk])
  }

  /** What a worker holding `job` does after a failed attempt: try again, or give up with `e`. */
  function RetryOr(job: Job, retryable: bool, e: Error): Worker {
    if retryable && job.attempt < MAX_SEGMENT_RETRIES
    then Fetching(job.(attempt := job.attempt + 1))
    else Returned(Some(job), Err(e))
  }

  /** The worker's reading of a response's status line. */
  function OnStatus(total: nat, job: Job, status: nat, src: Generation): Worker {
    if status == PRECONDITION_FAILED then Returned(Some(job), Err(EtagChanged))
    else if status != PARTIAL_CONTENT && status != OK then Returned(Some(job), Err(HttpStatus(status)))
    else if status == OK && !(job.start == 0 && job.end == total) then Returned(Some(job), Err(RangeUnsupported))
    else Streaming(job, src, if status == PARTIAL_CONTENT then job.start else 0, 0)
  }

  /** The body is over: the segment is complete, or the attempt counts as failed. */
  function OnBodyEnd(job: Job, src: Generation, got: nat): Worker {
    if job.start + got == job.end then Received(job, src) else RetryOr(job, true, Io)
  }

  /** A chunk is cut at the end of the claimed range before anything is written. */
  function OnChunk(wk: Worker, chunk: seq<byte>): Worker
    requires wk.Streaming?
  {
    var keep := Min(|chunk|, Max(wk.job.end - wk.job.start - wk.got, 0));
    if keep == 0 then wk else Writing(wk.job, wk.src, wk.base, wk.got, chunk[..keep], 0)
  }

  function AfterWrite(wk: Worker, count: nat): Worker
    requires wk.Writing?
  {
    if wk.done + count < |wk.data| then wk.(done := wk.done + count)
    else
      var got := wk.got + |wk.data|;
      if wk.job.start + got >= wk.job.end then OnBodyEnd(wk.job, wk.src, got)
      else Streaming(wk.job, wk.src, wk.base, got)
  }

  function HeldBy(wk: Worker): Option<Job> {
    match wk
    case Idle(_) => None
    case Claimed(_, _) => None
    case Fetching(job) => Some(job)
    case Streaming(job, _, _, _) => Some(job)
    case Writing(job, _, _, _, _, _) => Some(job)
    case Received(job, _) => Some(job)
    case Marked(job) => Some(job)
    case Returned(held, _) => held
    case Exited(held, _) => held
  }

  function LogGet(log: seq<SegmentLog>, id: nat): seq<SegmentLog> {
    if id < |log| then log[id := log[id].(gets := log[id].gets + 1)] else log
  }

  function LogOrigin(log: seq<SegmentLog>, id: nat, src: Generation): seq<SegmentLog> {
    if id < |log| then log[id := log[id].(origin := Some(src))] else log
  }

  function SpawnOne(s: State): State {
    s.(workers := s.workers + [Idle(INITIAL_SEGMENT_SIZE)], active := s.active + 1)
  }

  /** The supervisor has just taken a worker's outcome off the join set. */
  function OnJoin(s: State, outcome: Outcome): State {
    if s.main.Draining? then s
    else if outcome.Err? && IsFatal(outcome.error) then s.(main := Finished(outcome), cancelled := true)
    else s.(main := Joining)
  }

  function OnVerdict(s: State): State {
    if AllCompleted(s.buf) then s.(main := Finished(Ok(())))
    else s.(main := Finished(Err(BufferFailed)), cancelled := true)
  }

  function Do(cfg: Config, s: State, a: Action): State
    requires Enabled(cfg, s, a)
  {
    match a
    case Claim(w) =>
      var b := ClaimNext(s.buf, s.workers[w].preferred);
      WithWorker(s, w, Claimed(s.buf.next, b.next)).(buf := b, claims := s.claims + 1)
    case Exhaust(w) => WithWorker(s, w, Returned(None, Ok(()))).(buf := NoteExhausted(s.buf))
    case Push(w) =>
      var wk := s.workers[w];
      var job := Job(|s.buf.segments|, wk.start, wk.end, 0);
      WithWorker(s, w, Fetching(job)).(
        buf := Register(s.buf, wk.start, wk.end), log := s.log + [SegmentLog(w, None, 0)])
    case SendFails(w, transient) =>
      var job := s.workers[w].job;
      WithWorker(s, w, RetryOr(job, transient, Reqwest)).(log := LogGet(s.log, job.id))
    case Respond(w, status) =>
      var job := s.workers[w].job;
      WithWorker(s, w, OnStatus(s.buf.total, job, status, s.upstream)).(log := LogGet(s.log, job.id))
    case ChunkArrives(w, chunk) => WithWorker(s, w, OnChunk(s.workers[w], chunk))
    case WriteSome(w, count) =>
      var wk := s.workers[w];
      WithWorker(s, w, AfterWrite(wk, count)).(
        buf := WriteAt(s.buf, wk.job.start + wk.got + wk.done, wk.data[wk.done..wk.done + count]))
    case WriteFails(w) => WithWorker(s, w, Returned(Some(s.workers[w].job), Err(Io)))
    case StreamEnds(w) =>
      var wk := s.workers[w];
      WithWorker(s, w, OnBodyEnd(wk.job, wk.src, wk.got))
    case StreamFails(w, transient) => WithWorker(s, w, RetryOr(s.workers[w].job, transient, Reqwest))
    case ReadTimesOut(w) => WithWorker(s, w, RetryOr(s.workers[w].job, true, Io))
    case PublishReady(w) =>
      var wk := s.workers[w];
      WithWorker(s, w, Marked(wk.job)).(
        buf := SetReady(s.buf, wk.job.id), log := LogOrigin(s.log, wk.job.id, wk.src))
    case Notify(w, preferred) =>
      var id := s.workers[w].job.id;
      WithWorker(s, w, Idle(preferred)).(
        buf := CountReady(s.buf, id), counted := s.counted + {id}, readyMessages := s.readyMessages + 1)
    case Abort(w) => WithWorker(s, w, Returned(HeldBy(s.workers[w]), Err(Cancelled)))
    case Exit(w) =>
      WithWorker(s, w, Exited(s.workers[w].held, s.workers[w].outcome)).(active := s.active - 1)
    case ReadyMessage =>
      var s1 := s.(readyMessages := s.readyMessages - 1);
      if |s.workers| < cfg.connections then SpawnOne(s1) else s1
    case Join(w) => OnJoin(s.(joined := s.joined + {w}), s.workers[w].outcome)
    case ReadActive => s.(main := if s.active == 0 then Draining else Supervising)
    case NothingToJoin => s.(main := Draining)
    case Verdict => OnVerdict(s)
    case UpstreamChanges(g) => s.(upstream := g)
    case SetFailed => s.(buf := MarkFailed(s.buf))
  }

  /** `acts` can be performed in order from `s`. */
  predicate CanRun(cfg: Config, s: State, acts: seq<Action>)
    decreases |acts|
  {
    acts == [] || (Enabled(cfg, s, acts[0]) && CanRun(cfg, Do(cfg, s, acts[0]), acts[1..]))
  }

  /** The state `acts` leads to. */
  function Run(cfg: Config, s: State, acts: seq<Action>): State
    requires CanRun(cfg, s, acts)
    decreases |acts|
  {
    if acts == [] then s else Run(cfg, Do(cfg, s, acts[0]), acts[1..])
  }
}
