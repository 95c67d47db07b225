/** The volunteer-lease protocol as a state machine over its await-free spans.

    A job object outlives its entry in the `jobs` table (handlers keep references to it), so `store` holds every
    job ever created and `live` the keys of the table. Ids stand for object identity. */
module Lease {
  import opened Basics
  import opened Memory
  import P = EnhancementProgress

  type JobId = nat
  type WorkerId = nat
  type RequestId = nat
  type Token = nat
  type Value = nat

  datatype Operation = Draft | Transcribe | Enhance

  datatype Request = Request(
    requestId: RequestId, operation: Operation, payload: P.Payload, leaseBytes: nat, workUnits: real,
    ownerDigest: Option<nat>)

  /** The four lease fields of a job; the program sets and clears them together. */
  datatype Grant = Grant(worker: WorkerId, token: Token, deadline: real, started: real)

  datatype Future = Pending | Resolved(value: Option<Value>)

  datatype Phase = Queued | Running

  /** Where the owner's coroutine is: trying official backends, waiting on the swarm, or past `finish`. */
  datatype Owner = Official | Swarm | Ended

  /** `grants` and `resolutions` count what happened to the job; no step reads them. */
  datatype Job = Job(
    request: Request, lease: Option<Grant>, phase: Phase, result: Future, leased: bool,
    progress: Option<P.Update>, owner: Owner, grants: nat, resolutions: nat)

  datatype Worker = Worker(
    token: Token, lastSeen: real, job: Option<JobId>, operations: set<Operation>, model: Option<string>,
    clientId: Option<string>, maxLeaseBytes: nat, lastPoll: Option<real>, throughput: map<Operation, real>)
  {
    predicate Accepts(r: Request) {
      && r.operation in operations
      && (r.operation == Enhance ==>
            && model == Some(r.payload.model)
            && (clientId == None || clientId != r.payload.clientId))
      && r.leaseBytes <= maxLeaseBytes
    }

    function Score(operation: Operation): real {
      if operation in throughput then throughput[operation] else 0.0
    }
  }

  /** A finished request id, noted with its owner's digest. */
  type Finished = Remembered<RequestId, Option<nat>>

  datatype Settings = Settings(leaseSeconds: real, idleSeconds: real) {
    predicate Valid() { leaseSeconds > 0.0 && idleSeconds > 0.0 }
  }

  /** `faulted` records an `InvalidStateError`: a result set on a future that already had one. */
  datatype State = State(
    now: real, store: map<JobId, Job>, live: set<JobId>, byRequest: map<RequestId, JobId>, waiting: seq<JobId>,
    workers: map<WorkerId, Worker>, completed: seq<Finished>, faulted: bool)

  const RECENT_POLL := 3.0
  const MAX_COMPLETED := 1024
  const COMPLETED_SECONDS := 45.0

  function Init(now: real): State {
    State(now, map[], {}, map[], [], map[], [], false)
  }

  // ---------------------------------------------------------------- methods of Coordinator

  predicate Idle(cfg: Settings, now: real, w: Worker) {
    w.job == None && now - w.lastSeen > cfg.idleSeconds
  }

  function Prune(cfg: Settings, s: State): State {
    s.(workers := map w | w in s.workers && !Idle(cfg, s.now, s.workers[w]) :: s.workers[w],
       completed := Pruned(s.completed, s.now, MAX_COMPLETED))
  }

  predicate IsCompleted(completed: seq<Finished>, r: RequestId) {
    exists i | 0 <= i < |completed| :: completed[i].id == r
  }

  predicate Prefers(s: State, w: WorkerId, job: Job, now: real)
    requires w in s.workers
  {
    exists c | c in s.workers ::
      && c != w
      && s.workers[c].job == None
      && s.workers[c].lastPoll.Some?
      && now - s.workers[c].lastPoll.value <= RECENT_POLL
      && s.workers[c].Score(job.request.operation) > s.workers[w].Score(job.request.operation)
      && s.workers[c].Accepts(job.request)
  }

  function NewJob(r: Request): Job {
    Job(r, None, Running, Pending, false, None, Official, 0, 0)
  }

  /** The second component tells whether the request id was free. */
  function Enqueue(cfg: Settings, s: State, j: JobId, r: Request): (State, bool) {
    var p := Prune(cfg, s);
    if r.requestId in p.byRequest || IsCompleted(p.completed, r.requestId) then (p, false)
    else (p.(store := p.store[j := NewJob(r)], live := p.live + {j}, byRequest := p.byRequest[r.requestId := j]), true)
  }

  function QueueForSwarm(s: State, j: JobId): State
    requires j in s.store
  {
    s.(store := s.store[j := s.store[j].(phase := Queued, owner := Swarm)], waiting := s.waiting + [j])
  }

  function Release(s: State, j: JobId): State
    requires j in s.store
  {
    var lease := s.store[j].lease;
    var holds := lease.Some? && lease.value.worker in s.workers && s.workers[lease.value.worker].job == Some(j);
    s.(store := s.store[j := s.store[j].(lease := None)],
       workers := if holds then
                    s.workers[lease.value.worker := s.workers[lease.value.worker].(lastSeen := s.now, job := None)]
                  else s.workers)
  }

  /** `future.set_result(value)`. */
  function SetResult(s: State, j: JobId, value: Option<Value>): State
    requires j in s.store
  {
    if s.store[j].result == Pending then
      s.(store := s.store[j := s.store[j].(result := Resolved(value), resolutions := s.store[j].resolutions + 1)])
    else s.(faulted := true)
  }

  function SetResultUnlessDone(s: State, j: JobId, value: Option<Value>): State
    requires j in s.store
  {
    if s.store[j].result == Pending then SetResult(s, j, value) else s
  }

  function Fail(s: State, j: JobId): State
    requires j in s.store
  {
    var t := SetResultUnlessDone(Release(s, j), j, None);
    t.(store := t.store[j := t.store[j].(leased := true)])
  }

  function Remember(completed: seq<Finished>, f: Finished): seq<Finished> {
    if completed == [] then [f]
    else if completed[0].id == f.id then [f] + completed[1..]
    else [completed[0]] + Remember(completed[1..], f)
  }

  function Finish(cfg: Settings, s: State, j: JobId, completed: bool): State
    requires j in s.store
  {
    var t := Release(s, j);
    var r := s.store[j].request;
    Prune(cfg, t.(
      store := t.store[j := t.store[j].(owner := Ended)],
      live := t.live - {j},
      byRequest := t.byRequest - {r.requestId},
      waiting := Without(t.waiting, j),
      completed := if completed
                   then Remember(t.completed, Remembered(r.requestId, s.now + COMPLETED_SECONDS, r.ownerDigest))
                   else t.completed))
  }

  /** Moving average of work per second; nothing is recorded for an instantaneous or empty job. */
  function Recorded(scores: map<Operation, real>, r: Request, elapsed: real): map<Operation, real> {
    if elapsed <= 0.0 || r.workUnits <= 0.0 then scores
    else
      var rate := r.workUnits / elapsed;
      scores[r.operation := if r.operation in scores then 0.75 * scores[r.operation] + 0.25 * rate else rate]
  }

  function RecordSuccess(s: State, j: JobId): State
    requires j in s.store
  {
    var lease := s.store[j].lease;
    if lease.Some? && lease.value.worker in s.workers then
      var w := lease.value.worker;
      s.(workers := s.workers[w := s.workers[w].(
           throughput := Recorded(s.workers[w].throughput, s.store[j].request, s.now - lease.value.started))])
    else s
  }

  // ---------------------------------------------------------------- handlers

  datatype Answer = Ok | NoContent | Leased(job: JobId) | Unauthorized | Forbidden | NotFound | Unprocessable

  predicate Authentic(s: State, w: WorkerId, token: Token) {
    w in s.workers && s.workers[w].token == token
  }

  function Assign(cfg: Settings, s: State, w: WorkerId, j: JobId, token: Token): State
    requires w in s.workers && j in s.store
  {
    var job := s.store[j];
    s.(waiting := Without(s.waiting, j),
       workers := s.workers[w := s.workers[w].(job := Some(j))],
       store := s.store[j := job.(lease := Some(Grant(w, token, s.now + cfg.leaseSeconds, s.now)),
                                  phase := Running, leased := true, grants := job.grants + 1)])
  }

  predicate Dead(s: State, j: JobId) {
    j !in s.live || j !in s.store || s.store[j].result != Pending
  }

  predicate Suits(s: State, w: WorkerId, j: JobId)
    requires w in s.workers
  {
    j in s.store && s.workers[w].Accepts(s.store[j].request) && !Prefers(s, w, s.store[j], s.now)
  }

  /** The loop of the lease route over a snapshot of the queue. */
  function Scan(cfg: Settings, s: State, w: WorkerId, token: Token, snapshot: seq<JobId>): (State, Answer)
    requires w in s.workers
    decreases |snapshot|
  {
    if snapshot == [] then (s, NoContent)
    else
      var j := snapshot[0];
      if Dead(s, j) then Scan(cfg, s.(waiting := Without(s.waiting, j)), w, token, snapshot[1..])
      else if !Suits(s, w, j) then Scan(cfg, s, w, token, snapshot[1..])
      else (Assign(cfg, s, w, j, token), Leased(j))
  }

  function Seen(s: State, w: WorkerId): State
    requires w in s.workers
  {
    s.(workers := s.workers[w := s.workers[w].(lastSeen := s.now, lastPoll := Some(s.now))])
  }

  function Poll(cfg: Settings, s: State, w: WorkerId, workerToken: Token, minted: Token): (State, Answer) {
    if !Authentic(s, w, workerToken) then (s, Unauthorized)
    else
      var t := Seen(s, w);
      if t.workers[w].job.Some? then (t, NoContent) else Scan(cfg, t, w, minted, t.waiting)
  }

  function AuthorizedJob(s: State, j: JobId, token: Token): (State, Answer) {
    if j !in s.live || j !in s.store || s.store[j].lease == None then (s, NotFound)
    else if s.store[j].lease.value.token != token then (s, Forbidden)
    else if s.now >= s.store[j].lease.value.deadline then (Fail(s, j), NotFound)
    else (s, Ok)
  }

  function WorkerJob(s: State, w: WorkerId, workerToken: Token, j: JobId, token: Token): (State, Answer) {
    if !Authentic(s, w, workerToken) then (s, Unauthorized)
    else
      var (t, a) := AuthorizedJob(s, j, token);
      if a != Ok then (t, a)
      else if t.store[j].lease.value.worker != w then (t, Forbidden)
      else (t, Ok)
  }

  function ReportProgress(s: State, w: WorkerId, workerToken: Token, j: JobId, token: Token,
                          u: P.Update): (State, Answer)
  {
    var (t, a) := WorkerJob(s, w, workerToken, j, token);
    if a != Ok then (t, a)
    else if t.store[j].request.operation != Enhance || !t.store[j].request.payload.Valid() then (t, Unprocessable)
    else
      var limits := P.Limits(t.store[j].request.payload);
      if !P.Accepts(limits, t.store[j].progress, u) then (t, Unprocessable)
      else (t.(store := t.store[j := t.store[j].(progress := Some(u))]), Ok)
  }

  /** The body of a JSON completion: an error, a result that fails validation, or a valid result. */
  datatype Outcome = WorkerError | BadResult | GoodResult(value: Value)

  function CompleteJson(s: State, w: WorkerId, workerToken: Token, j: JobId, token: Token,
                        body: Outcome): (State, Answer)
  {
    var (t, a) := WorkerJob(s, w, workerToken, j, token);
    if a != Ok then (t, a)
    else if body == WorkerError then (Fail(t, j), Ok)
    else if t.store[j].request.operation == Enhance || body == BadResult then (Fail(t, j), Unprocessable)
    else (SetResultUnlessDone(Release(RecordSuccess(t, j), j), j, Some(body.value)), Ok)
  }

  /** The last span of a multipart completion: the re-check, then the unguarded `set_result`. */
  function CompleteUpload(s: State, w: WorkerId, workerToken: Token, j: JobId, token: Token,
                          value: Value): (State, Answer)
  {
    var (t, a) := WorkerJob(s, w, workerToken, j, token);
    if a != Ok then (t, a)
    else (SetResult(Release(RecordSuccess(t, j), j), j, Some(value)), Ok)
  }

  // ---------------------------------------------------------------- steps and runs

  datatype Event =
    | Tick(elapsed: real)
    | PruneNow
    | Register(w: WorkerId, worker: Worker)
    | PollFor(w: WorkerId, workerToken: Token, minted: Token)
    | Start(j: JobId, request: Request)
    | GoToSwarm(j: JobId)
    | Touch(j: JobId, token: Token)
    | Progress(w: WorkerId, workerToken: Token, j: JobId, token: Token, update: P.Update)
    | Complete(w: WorkerId, workerToken: Token, j: JobId, token: Token, body: Outcome)
    | Upload(w: WorkerId, workerToken: Token, j: JobId, token: Token, value: Value)
    | FailUpload(j: JobId)
    | End(j: JobId, completed: bool)
    | Cleanup(j: JobId, completed: bool)

  /** Fresh ids are fresh; the owner's coroutine runs its own spans in order; the exception branches of an upload
      are reached only by a handler that held the lease of that job at some time. */
  predicate Enabled(s: State, e: Event) {
    match e
    case Tick(elapsed) => elapsed >= 0.0
    case Register(w, worker) => w !in s.workers && worker.job == None && worker.lastSeen == s.now
    case Start(j, _) => j !in s.store
    case GoToSwarm(j) => j in s.store && s.store[j].owner == Official
    case FailUpload(j) => j in s.store && s.store[j].grants > 0
    case End(j, _) => j in s.store && s.store[j].owner != Ended
    case Cleanup(j, _) => j in s.store && s.store[j].owner != Ended
    case _ => true
  }

  function Step(cfg: Settings, s: State, e: Event): State {
    if !Enabled(s, e) then s
    else
      match e
      case Tick(elapsed) => s.(now := s.now + elapsed)
      case PruneNow => Prune(cfg, s)
      case Register(w, worker) => var p := Prune(cfg, s); p.(workers := p.workers[w := worker])
      case PollFor(w, workerToken, minted) => Poll(cfg, s, w, workerToken, minted).0
      case Start(j, request) => Enqueue(cfg, s, j, request).0
      case GoToSwarm(j) => QueueForSwarm(s, j)
      case Touch(j, token) => AuthorizedJob(s, j, token).0
      case Progress(w, workerToken, j, token, update) => ReportProgress(s, w, workerToken, j, token, update).0
      case Complete(w, workerToken, j, token, body) => CompleteJson(s, w, workerToken, j, token, body).0
      case Upload(w, workerToken, j, token, value) => CompleteUpload(s, w, workerToken, j, token, value).0
      case FailUpload(j) => Fail(s, j)
      case End(j, completed) => Finish(cfg, s, j, completed)
      case Cleanup(j, completed) => Finish(cfg, Fail(s, j), j, completed)
  }

  function Run(cfg: Settings, s: State, events: seq<Event>): State {
    if events == [] then s else Step(cfg, Run(cfg, s, events[..|events| - 1]), events[|events| - 1])
  }
}
