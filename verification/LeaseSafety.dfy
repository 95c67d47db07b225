/** What every run of the lease protocol keeps, and what follows from it. */
module LeaseSafety {
  import opened Basics
  import opened Memory
  import opened Lease

  /** `jobs` and `by_request_id` hold the same jobs: those whose owner has not finished. */
  ghost predicate TablesAgree(s: State) {
    && (forall j | j in s.live ::
          && j in s.store && s.store[j].owner != Ended
          && s.store[j].request.requestId in s.byRequest
          && s.byRequest[s.store[j].request.requestId] == j)
    && (forall r | r in s.byRequest :: s.byRequest[r] in s.live && s.store[s.byRequest[r]].request.requestId == r)
    && (forall j | j in s.store && s.store[j].owner != Ended :: j in s.live)
  }

  /** A worker holds job j exactly when j is live and its lease names that worker. */
  ghost predicate LeasesAgree(s: State) {
    && (forall w | w in s.workers && s.workers[w].job.Some? ::
          var j := s.workers[w].job.value;
          j in s.store && s.store[j].lease.Some? && s.store[j].lease.value.worker == w)
    && (forall j | j in s.store && s.store[j].lease.Some? ::
          && j in s.live
          && s.store[j].lease.value.worker in s.workers
          && s.workers[s.store[j].lease.value.worker].job == Some(j))
  }

  /** One job by itself: leased at most once, resolved at most once, and a leased job is still pending. */
  ghost predicate JobSound(job: Job) {
    && job.grants <= 1 && job.resolutions <= 1
    && (job.result == Pending <==> job.resolutions == 0)
    && (job.lease.Some? ==> job.result == Pending && job.grants == 1 && job.owner == Swarm && job.phase == Running)
    && (job.owner == Official ==> job.grants == 0 && job.phase == Running)
    && (job.result.Resolved? && job.result.value.Some? ==> job.grants == 1)
  }

  ghost predicate JobsSound(s: State, resolved: set<JobId>) {
    && (forall j | j in s.store :: JobSound(s.store[j]))
    && (forall j | j in s.store && j !in resolved && s.store[j].owner == Official :: s.store[j].result == Pending)
  }

  ghost predicate Waits(s: State, j: JobId) {
    && j in s.live && j in s.store
    && s.store[j].owner == Swarm && s.store[j].phase == Queued
    && s.store[j].lease == None && s.store[j].grants == 0
  }

  /** Waiting ids are distinct, live, never leased; all but those in `resolved` are unresolved too. */
  ghost predicate QueueSound(s: State, resolved: set<JobId>) {
    && Distinct(s.waiting)
    && (forall j | j in s.waiting :: Waits(s, j) && (j !in resolved ==> s.store[j].result == Pending))
    && (forall j | j in s.live && j in s.store && s.store[j].phase == Queued :: j in s.waiting)
  }

  /** Finished request ids are distinct, apart from the active ones, and kept in order of expiry. */
  ghost predicate CompletedSound(s: State) {
    && DistinctIds(s.completed) && ExpiriesRise(s.completed)
    && forall i | 0 <= i < |s.completed| ::
      s.completed[i].id !in s.byRequest && s.completed[i].expiry <= s.now + COMPLETED_SECONDS
  }

  ghost predicate Sound(s: State, resolved: set<JobId>) {
    TablesAgree(s) && LeasesAgree(s) && JobsSound(s, resolved) && QueueSound(s, resolved)
    && CompletedSound(s) && !s.faulted
  }

  // ---------------------------------------------------------------- each method keeps it

  lemma PruneKeeps(cfg: Settings, s: State, resolved: set<JobId>)
    requires Sound(s, resolved)
    ensures Sound(Prune(cfg, s), resolved)
  {
    PrunedIsASuffix(s.completed, s.now, MAX_COMPLETED);
  }

  lemma ReleaseKeepsTables(s: State, j: JobId)
    requires TablesAgree(s) && j in s.store
    ensures TablesAgree(Release(s, j))
  {
  }

  lemma ReleaseKeepsLeases(s: State, j: JobId)
    requires LeasesAgree(s) && j in s.store
    ensures LeasesAgree(Release(s, j))
  {
  }

  lemma ReleaseKeepsJobs(s: State, j: JobId, resolved: set<JobId>)
    requires JobsSound(s, resolved) && QueueSound(s, resolved) && CompletedSound(s) && j in s.store
    ensures JobsSound(Release(s, j), resolved) && QueueSound(Release(s, j), resolved) && CompletedSound(Release(s, j))
  {
  }

  lemma ReleaseKeeps(s: State, j: JobId, resolved: set<JobId>)
    requires Sound(s, resolved) && j in s.store
    ensures Sound(Release(s, j), resolved)
  {
    ReleaseKeepsTables(s, j);
    ReleaseKeepsLeases(s, j);
    ReleaseKeepsJobs(s, j, resolved);
  }

  ghost predicate SamePlace(a: Job, b: Job) {
    a.request == b.request && a.lease == b.lease && a.phase == b.phase && a.owner == b.owner && a.grants == b.grants
  }

  lemma JobUpdateKeepsTables(s: State, j: JobId, job: Job)
    requires TablesAgree(s) && LeasesAgree(s) && j in s.store && SamePlace(s.store[j], job)
    ensures TablesAgree(s.(store := s.store[j := job])) && LeasesAgree(s.(store := s.store[j := job]))
  {
  }

  /** Changing what the tables do not depend on. */
  lemma JobUpdateKeeps(s: State, j: JobId, job: Job, resolved: set<JobId>)
    requires Sound(s, resolved) && j in s.store && SamePlace(s.store[j], job) && JobSound(job)
    requires job.result == Pending || (j !in s.waiting && job.owner != Official) || j in resolved
    ensures Sound(s.(store := s.store[j := job]), resolved)
  {
    JobUpdateKeepsTables(s, j, job);
    var t := s.(store := s.store[j := job]);
    assert QueueSound(t, resolved) && JobsSound(t, resolved) && CompletedSound(t);
  }

  function Failed(job: Job): Job {
    if job.result == Pending then
      job.(result := Resolved(None), resolutions := job.resolutions + 1, leased := true)
    else job.(leased := true)
  }

  lemma FailIsReleaseThenUpdate(s: State, j: JobId)
    requires j in s.store
    ensures var t := Release(s, j); Fail(s, j) == t.(store := t.store[j := Failed(t.store[j])])
  {
  }

  lemma FailKeeps(s: State, j: JobId, resolved: set<JobId>)
    requires Sound(s, resolved) && j in s.store
    requires j in resolved || (j !in s.waiting && s.store[j].owner != Official)
    ensures Sound(Fail(s, j), resolved)
  {
    FailIsReleaseThenUpdate(s, j);
    ReleaseKeeps(s, j, resolved);
    var t := Release(s, j);
    assert t.store[j].lease == None;
    JobUpdateKeeps(t, j, Failed(t.store[j]), resolved);
  }

  lemma {:induction false} RememberAppends(completed: seq<Finished>, f: Finished)
    requires !IsCompleted(completed, f.id)
    ensures Remember(completed, f) == completed + [f]
  {
    if completed != [] {
      assert completed[0].id != f.id;
      assert forall i | 0 <= i < |completed[1..]| :: completed[1..][i] == completed[i + 1];
      RememberAppends(completed[1..], f);
    }
  }

  function Removed(s: State, j: JobId, completed: seq<Finished>): State
    requires j in s.store
  {
    s.(store := s.store[j := s.store[j].(owner := Ended)],
       live := s.live - {j},
       byRequest := s.byRequest - {s.store[j].request.requestId},
       waiting := Without(s.waiting, j),
       completed := completed)
  }

  lemma RemovedKeepsTables(s: State, j: JobId, completed: seq<Finished>)
    requires TablesAgree(s) && LeasesAgree(s) && j in s.store && s.store[j].owner != Ended && s.store[j].lease == None
    ensures TablesAgree(Removed(s, j, completed)) && LeasesAgree(Removed(s, j, completed))
  {
  }

  lemma RemovedKeepsQueue(s: State, j: JobId, completed: seq<Finished>, resolved: set<JobId>)
    requires QueueSound(s, resolved) && JobsSound(s, resolved)
    requires j in s.store && s.store[j].lease == None
    ensures QueueSound(Removed(s, j, completed), resolved - {j}) && JobsSound(Removed(s, j, completed), resolved - {j})
  {
    WithoutMembers(s.waiting, j);
  }

  lemma RemovedKeepsCompleted(s: State, j: JobId, f: Finished, completed: bool)
    requires CompletedSound(s) && j in s.store
    requires f == Remembered(s.store[j].request.requestId, s.now + COMPLETED_SECONDS, f.note)
    requires !IsCompleted(s.completed, f.id)
    ensures CompletedSound(Removed(s, j, if completed then s.completed + [f] else s.completed))
  {
  }

  lemma LiveIsNotCompleted(s: State, j: JobId)
    requires TablesAgree(s) && CompletedSound(s) && j in s.store && s.store[j].owner != Ended
    ensures !IsCompleted(s.completed, s.store[j].request.requestId)
  {
  }

  lemma FinishIsRemoval(cfg: Settings, s: State, j: JobId, completed: bool)
    requires j in s.store && !IsCompleted(s.completed, s.store[j].request.requestId)
    ensures var t := Release(s, j);
      var f := Remembered(s.store[j].request.requestId, s.now + COMPLETED_SECONDS, s.store[j].request.ownerDigest);
      Finish(cfg, s, j, completed)
      == Prune(cfg, Removed(t, j, if completed then t.completed + [f] else t.completed))
  {
    var f := Remembered(s.store[j].request.requestId, s.now + COMPLETED_SECONDS, s.store[j].request.ownerDigest);
    RememberAppends(s.completed, f);
  }

  lemma RemovedKeeps(s: State, j: JobId, f: Finished, completed: bool, resolved: set<JobId>)
    requires Sound(s, resolved) && j in s.store && s.store[j].owner != Ended && s.store[j].lease == None
    requires f == Remembered(s.store[j].request.requestId, s.now + COMPLETED_SECONDS, f.note)
    requires !IsCompleted(s.completed, f.id)
    ensures Sound(Removed(s, j, if completed then s.completed + [f] else s.completed), resolved - {j})
  {
    var done := if completed then s.completed + [f] else s.completed;
    RemovedKeepsTables(s, j, done);
    RemovedKeepsQueue(s, j, done, resolved);
    RemovedKeepsCompleted(s, j, f, completed);
  }

  lemma FinishKeeps(cfg: Settings, s: State, j: JobId, completed: bool, resolved: set<JobId>)
    requires Sound(s, resolved) && j in s.store && s.store[j].owner != Ended
    ensures Sound(Finish(cfg, s, j, completed), resolved - {j})
  {
    LiveIsNotCompleted(s, j);
    FinishIsRemoval(cfg, s, j, completed);
    ReleaseKeeps(s, j, resolved);
    var t := Release(s, j);
    var f := Remembered(s.store[j].request.requestId, s.now + COMPLETED_SECONDS, s.store[j].request.ownerDigest);
    RemovedKeeps(t, j, f, completed, resolved);
    PruneKeeps(cfg, Removed(t, j, if completed then t.completed + [f] else t.completed), resolved - {j});
  }

  function Added(s: State, j: JobId, r: Request): State {
    s.(store := s.store[j := NewJob(r)], live := s.live + {j}, byRequest := s.byRequest[r.requestId := j])
  }

  lemma AddedKeepsTables(s: State, j: JobId, r: Request)
    requires TablesAgree(s) && LeasesAgree(s) && j !in s.store && r.requestId !in s.byRequest
    ensures TablesAgree(Added(s, j, r)) && LeasesAgree(Added(s, j, r))
  {
  }

  lemma AddedKeepsJobs(s: State, j: JobId, r: Request)
    requires TablesAgree(s) && JobsSound(s, {}) && QueueSound(s, {}) && j !in s.store
    ensures JobsSound(Added(s, j, r), {}) && QueueSound(Added(s, j, r), {})
  {
  }

  lemma AddedKeepsCompleted(s: State, j: JobId, r: Request)
    requires CompletedSound(s) && !IsCompleted(s.completed, r.requestId)
    ensures CompletedSound(Added(s, j, r))
  {
  }

  lemma EnqueueKeeps(cfg: Settings, s: State, j: JobId, r: Request)
    requires Sound(s, {}) && j !in s.store
    ensures Sound(Enqueue(cfg, s, j, r).0, {})
  {
    var p := Prune(cfg, s);
    PruneKeeps(cfg, s, {});
    if r.requestId !in p.byRequest && !IsCompleted(p.completed, r.requestId) {
      AddedKeepsTables(p, j, r);
      AddedKeepsJobs(p, j, r);
      AddedKeepsCompleted(p, j, r);
      assert Sound(Added(p, j, r), {});
    }
  }

  lemma QueueForSwarmKeepsTables(s: State, j: JobId)
    requires TablesAgree(s) && LeasesAgree(s) && j in s.store && s.store[j].owner == Official
    ensures TablesAgree(QueueForSwarm(s, j)) && LeasesAgree(QueueForSwarm(s, j))
  {
  }

  lemma QueueForSwarmKeepsJobs(s: State, j: JobId)
    requires TablesAgree(s) && JobsSound(s, {}) && QueueSound(s, {}) && j in s.store && s.store[j].owner == Official
    ensures JobsSound(QueueForSwarm(s, j), {}) && QueueSound(QueueForSwarm(s, j), {})
  {
    assert JobSound(s.store[j]) && j !in s.waiting;
  }

  lemma QueueForSwarmKeeps(s: State, j: JobId)
    requires Sound(s, {}) && j in s.store && s.store[j].owner == Official
    ensures Sound(QueueForSwarm(s, j), {})
  {
    QueueForSwarmKeepsTables(s, j);
    QueueForSwarmKeepsJobs(s, j);
  }

  lemma AssignKeepsTables(cfg: Settings, s: State, w: WorkerId, j: JobId, token: Token)
    requires TablesAgree(s) && w in s.workers && Waits(s, j)
    ensures TablesAgree(Assign(cfg, s, w, j, token))
  {
  }

  lemma AssignKeepsLeases(cfg: Settings, s: State, w: WorkerId, j: JobId, token: Token)
    requires LeasesAgree(s) && w in s.workers && s.workers[w].job == None && Waits(s, j)
    ensures LeasesAgree(Assign(cfg, s, w, j, token))
  {
  }

  lemma AssignKeepsJobs(cfg: Settings, s: State, w: WorkerId, j: JobId, token: Token)
    requires JobsSound(s, {}) && w in s.workers && Waits(s, j) && s.store[j].result == Pending
    ensures JobsSound(Assign(cfg, s, w, j, token), {})
  {
    assert JobSound(s.store[j]);
  }

  lemma AssignKeepsQueue(cfg: Settings, s: State, w: WorkerId, j: JobId, token: Token)
    requires QueueSound(s, {}) && w in s.workers && j in s.waiting
    ensures QueueSound(Assign(cfg, s, w, j, token), {})
  {
    WithoutMembers(s.waiting, j);
  }

  lemma AssignKeeps(cfg: Settings, s: State, w: WorkerId, j: JobId, token: Token)
    requires Sound(s, {}) && w in s.workers && s.workers[w].job == None && j in s.waiting
    ensures Sound(Assign(cfg, s, w, j, token), {})
  {
    assert Waits(s, j);
    AssignKeepsTables(cfg, s, w, j, token);
    AssignKeepsLeases(cfg, s, w, j, token);
    AssignKeepsJobs(cfg, s, w, j, token);
    AssignKeepsQueue(cfg, s, w, j, token);
  }

  // ---------------------------------------------------------------- each handler keeps it

  lemma WorkerUpdateKeeps(s: State, w: WorkerId, worker: Worker, resolved: set<JobId>)
    requires Sound(s, resolved)
    requires if w in s.workers then worker.job == s.workers[w].job else worker.job == None
    ensures Sound(s.(workers := s.workers[w := worker]), resolved)
  {
  }

  /** When nothing in the snapshot is dead, the loop leases the first job that suits, or changes nothing. */
  lemma {:induction false} ScanFindsFirst(cfg: Settings, s: State, w: WorkerId, token: Token, snapshot: seq<JobId>)
    returns (k: nat)
    requires w in s.workers && forall i | 0 <= i < |snapshot| :: !Dead(s, snapshot[i])
    ensures k <= |snapshot|
    ensures forall i | 0 <= i < k :: !Suits(s, w, snapshot[i])
    ensures k < |snapshot| ==>
      && Suits(s, w, snapshot[k])
      && Scan(cfg, s, w, token, snapshot) == (Assign(cfg, s, w, snapshot[k], token), Leased(snapshot[k]))
    ensures k == |snapshot| ==> Scan(cfg, s, w, token, snapshot) == (s, NoContent)
    decreases |snapshot|
  {
    if snapshot == [] || Suits(s, w, snapshot[0]) {
      k := 0;
    } else {
      var rest := ScanFindsFirst(cfg, s, w, token, snapshot[1..]);
      assert forall i | 0 < i < |snapshot| :: snapshot[i] == snapshot[1..][i - 1];
      k := rest + 1;
    }
  }

  lemma PollKeeps(cfg: Settings, s: State, w: WorkerId, workerToken: Token, minted: Token)
    requires Sound(s, {})
    ensures Sound(Poll(cfg, s, w, workerToken, minted).0, {})
  {
    if Authentic(s, w, workerToken) {
      var t := Seen(s, w);
      WorkerUpdateKeeps(s, w, t.workers[w], {});
      if t.workers[w].job == None {
        assert forall i | 0 <= i < |t.waiting| :: t.waiting[i] in t.waiting && Waits(t, t.waiting[i]);
        var k := ScanFindsFirst(cfg, t, w, minted, t.waiting);
        if k < |t.waiting| { AssignKeeps(cfg, t, w, t.waiting[k], minted); }
      }
    }
  }

  lemma AuthorizedJobKeeps(s: State, j: JobId, token: Token)
    requires Sound(s, {})
    ensures Sound(AuthorizedJob(s, j, token).0, {})
  {
    if j in s.live && s.store[j].lease.Some? {
      assert !Waits(s, j);
      FailKeeps(s, j, {});
    }
  }

  ghost predicate HoldsLease(s: State, w: WorkerId, workerToken: Token, j: JobId, token: Token) {
    && Authentic(s, w, workerToken)
    && j in s.live && j in s.store && s.store[j].lease.Some?
    && s.store[j].lease.value.worker == w && s.store[j].lease.value.token == token
    && s.now < s.store[j].lease.value.deadline
  }

  /** The worker routes pass exactly for an authentic worker naming its own unexpired lease, and then change nothing. */
  lemma WorkerJobChecksLease(s: State, w: WorkerId, workerToken: Token, j: JobId, token: Token)
    ensures WorkerJob(s, w, workerToken, j, token).1 == Ok <==> HoldsLease(s, w, workerToken, j, token)
    ensures WorkerJob(s, w, workerToken, j, token).1 == Ok ==> WorkerJob(s, w, workerToken, j, token).0 == s
    ensures WorkerJob(s, w, workerToken, j, token).1 != Ok ==>
      WorkerJob(s, w, workerToken, j, token).0 == s
      || WorkerJob(s, w, workerToken, j, token).0 == AuthorizedJob(s, j, token).0
  {
  }

  lemma ReportProgressKeeps(s: State, w: WorkerId, workerToken: Token, j: JobId, token: Token, u: P.Update)
    requires Sound(s, {})
    ensures Sound(ReportProgress(s, w, workerToken, j, token, u).0, {})
  {
    AuthorizedJobKeeps(s, j, token);
    var (t, a) := WorkerJob(s, w, workerToken, j, token);
    if a == Ok {
      JobUpdateKeeps(t, j, t.store[j].(progress := Some(u)), {});
    }
  }

  lemma RecordKeeps(s: State, j: JobId)
    requires Sound(s, {}) && j in s.store && s.store[j].lease.Some?
    ensures Sound(RecordSuccess(s, j), {}) && RecordSuccess(s, j).store == s.store
    ensures RecordSuccess(s, j).waiting == s.waiting
  {
    var w := s.store[j].lease.value.worker;
    WorkerUpdateKeeps(s, w, RecordSuccess(s, j).workers[w], {});
  }

  function Delivered(job: Job, value: Value): Job {
    job.(result := Resolved(Some(value)), resolutions := job.resolutions + 1)
  }

  /** A leased job is pending, so the unguarded `set_result` succeeds. */
  lemma CommitKeeps(s: State, j: JobId, value: Value)
    requires Sound(s, {}) && j in s.store && s.store[j].lease.Some?
    ensures var t := Release(RecordSuccess(s, j), j);
      t.store[j].result == Pending && Sound(SetResult(t, j, Some(value)), {})
  {
    assert !Waits(s, j) && JobSound(s.store[j]);
    RecordKeeps(s, j);
    ReleaseKeeps(RecordSuccess(s, j), j, {});
    var t := Release(RecordSuccess(s, j), j);
    assert JobSound(Delivered(t.store[j], value));
    SetResultDelivers(t, j, value);
    JobUpdateKeeps(t, j, Delivered(t.store[j], value), {});
  }

  lemma SetResultDelivers(t: State, j: JobId, value: Value)
    requires j in t.store && t.store[j].result == Pending
    ensures SetResult(t, j, Some(value)) == t.(store := t.store[j := Delivered(t.store[j], value)])
  {
  }

  lemma LeasedFailKeeps(s: State, j: JobId)
    requires Sound(s, {}) && j in s.store && s.store[j].grants > 0
    ensures Sound(Fail(s, j), {})
  {
    assert !Waits(s, j);
    FailKeeps(s, j, {});
  }

  lemma CompleteJsonCases(s: State, w: WorkerId, workerToken: Token, j: JobId, token: Token, body: Outcome)
    requires HoldsLease(s, w, workerToken, j, token) && s.store[j].result == Pending
    ensures CompleteJson(s, w, workerToken, j, token, body).0 ==
      if body.GoodResult? && s.store[j].request.operation != Enhance then
        SetResult(Release(RecordSuccess(s, j), j), j, Some(body.value))
      else Fail(s, j)
  {
  }

  lemma CompleteJsonKeeps(s: State, w: WorkerId, workerToken: Token, j: JobId, token: Token, body: Outcome)
    requires Sound(s, {})
    ensures Sound(CompleteJson(s, w, workerToken, j, token, body).0, {})
  {
    WorkerJobChecksLease(s, w, workerToken, j, token);
    if HoldsLease(s, w, workerToken, j, token) {
      assert JobSound(s.store[j]);
      CompleteJsonCases(s, w, workerToken, j, token, body);
      if body.GoodResult? && s.store[j].request.operation != Enhance {
        CommitKeeps(s, j, body.value);
      } else {
        LeasedFailKeeps(s, j);
      }
    } else {
      AuthorizedJobKeeps(s, j, token);
    }
  }

  lemma CompleteUploadCases(s: State, w: WorkerId, workerToken: Token, j: JobId, token: Token, value: Value)
    requires HoldsLease(s, w, workerToken, j, token) && s.store[j].result == Pending
    ensures CompleteUpload(s, w, workerToken, j, token, value).0
      == SetResult(Release(RecordSuccess(s, j), j), j, Some(value))
  {
  }

  lemma RefusedUpload(s: State, w: WorkerId, workerToken: Token, j: JobId, token: Token, value: Value)
    requires WorkerJob(s, w, workerToken, j, token).1 != Ok
    ensures CompleteUpload(s, w, workerToken, j, token, value).0 == WorkerJob(s, w, workerToken, j, token).0
  {
  }

  lemma CompleteUploadKeeps(s: State, w: WorkerId, workerToken: Token, j: JobId, token: Token, value: Value)
    requires Sound(s, {})
    ensures Sound(CompleteUpload(s, w, workerToken, j, token, value).0, {})
  {
    WorkerJobChecksLease(s, w, workerToken, j, token);
    if HoldsLease(s, w, workerToken, j, token) {
      assert JobSound(s.store[j]);
      CompleteUploadCases(s, w, workerToken, j, token, value);
      CommitKeeps(s, j, value);
    } else {
      AuthorizedJobKeeps(s, j, token);
      RefusedUpload(s, w, workerToken, j, token, value);
    }
  }

  lemma CleanupKeeps(cfg: Settings, s: State, j: JobId, completed: bool)
    requires Sound(s, {}) && j in s.store && s.store[j].owner != Ended
    ensures Sound(Finish(cfg, Fail(s, j), j, completed), {})
  {
    assert Sound(s, {j});
    FailKeeps(s, j, {j});
    FinishKeeps(cfg, Fail(s, j), j, completed, {j});
    assert {j} - {j} == {};
  }

  lemma StepKeeps(cfg: Settings, s: State, e: Event)
    requires Sound(s, {})
    ensures Sound(Step(cfg, s, e), {})
  {
    if Enabled(s, e) {
      match e
      case Tick(_) =>
      case PruneNow => PruneKeeps(cfg, s, {});
      case Register(w, worker) =>
        PruneKeeps(cfg, s, {});
        WorkerUpdateKeeps(Prune(cfg, s), w, worker, {});
      case PollFor(w, workerToken, minted) => PollKeeps(cfg, s, w, workerToken, minted);
      case Start(j, request) => EnqueueKeeps(cfg, s, j, request);
      case GoToSwarm(j) => QueueForSwarmKeeps(s, j);
      case Touch(j, token) => AuthorizedJobKeeps(s, j, token);
      case Progress(w, workerToken, j, token, update) => ReportProgressKeeps(s, w, workerToken, j, token, update);
      case Complete(w, workerToken, j, token, body) => CompleteJsonKeeps(s, w, workerToken, j, token, body);
      case Upload(w, workerToken, j, token, value) => CompleteUploadKeeps(s, w, workerToken, j, token, value);
      case FailUpload(j) => LeasedFailKeeps(s, j);
      case End(j, completed) =>
        FinishKeeps(cfg, s, j, completed, {});
        assert {} - {j} == {};
      case Cleanup(j, completed) => CleanupKeeps(cfg, s, j, completed);
    }
  }

  /** Every reachable state, under any schedule of any steps, is sound. */
  lemma {:induction false} RunsAreSound(cfg: Settings, now: real, events: seq<Event>)
    ensures Sound(Run(cfg, Init(now), events), {})
    decreases |events|
  {
    if events != [] {
      RunsAreSound(cfg, now, events[..|events| - 1]);
      StepKeeps(cfg, Run(cfg, Init(now), events[..|events| - 1]), events[|events| - 1]);
    }
  }
}
