/** How long a worker stays in the table of workers. */
module Registrations {
  import opened Basics
  import opened Lease

  predicate Busy(s: State, w: WorkerId) {
    w in s.workers && s.workers[w].job.Some?
  }

  /** Pruning keeps the workers that hold a job or were seen within the idle time, each as it was, and leaves
      everything but the two tables it prunes alone. */
  lemma PruneKeepsWhoIsUsed(cfg: Settings, s: State, w: WorkerId)
    ensures var t := Prune(cfg, s);
      && (w in t.workers <==>
            w in s.workers && (s.workers[w].job.Some? || s.now - s.workers[w].lastSeen <= cfg.idleSeconds))
      && (w in t.workers ==> t.workers[w] == s.workers[w])
      && t == s.(workers := t.workers, completed := t.completed)
  {
  }

  // ---------------------------------------------------------------- one step, seen from one worker

  /** A visit of worker w with its token. */
  predicate Visits(e: Event, w: WorkerId, token: Token) {
    e.PollFor? && e.w == w && e.workerToken == token
  }

  /** The steps that prune. */
  predicate Prunes(s: State, e: Event) {
    Enabled(s, e) && (e.PruneNow? || e.Register? || e.Start? || e.End? || e.Cleanup?)
  }

  /** What a worker said of itself when it registered. */
  predicate SameOffer(a: Worker, b: Worker) {
    && a.token == b.token && a.operations == b.operations && a.model == b.model && a.clientId == b.clientId
    && a.maxLeaseBytes == b.maxLeaseBytes
  }

  /** The same worker later: it gets no job, and its time stamp moves exactly when it gives back the one it has. */
  predicate Continues(s: State, t: State, w: WorkerId) {
    && w in s.workers && w in t.workers
    && SameOffer(s.workers[w], t.workers[w])
    && t.now == s.now
    && (t.workers[w].job == s.workers[w].job || t.workers[w].job == None)
    && (s.workers[w].job.Some? && t.workers[w].job == None ==> t.workers[w].lastSeen == s.now)
    && (s.workers[w].job == None ==> t.workers[w].lastSeen == s.workers[w].lastSeen)
  }

  /** As above, or pruned for having been idle too long. */
  predicate ContinuesOrIsPruned(cfg: Settings, s: State, t: State, w: WorkerId) {
    || Continues(s, t, w)
    || (w in s.workers && w !in t.workers && t.now == s.now
        && s.workers[w].job == None && s.now - s.workers[w].lastSeen > cfg.idleSeconds)
  }

  lemma PruneContinues(cfg: Settings, s: State, t: State, w: WorkerId)
    requires cfg.Valid() && Continues(s, t, w)
    ensures ContinuesOrIsPruned(cfg, s, Prune(cfg, t), w)
    ensures w in Prune(cfg, t).workers <==>
            t.workers[w].job.Some? || t.now - t.workers[w].lastSeen <= cfg.idleSeconds
  {
  }

  lemma ReleaseContinues(s: State, j: JobId, w: WorkerId)
    requires j in s.store && w in s.workers
    ensures Continues(s, Release(s, j), w)
  {
  }

  lemma FailContinues(s: State, j: JobId, w: WorkerId)
    requires j in s.store && w in s.workers
    ensures Continues(s, Fail(s, j), w)
  {
    ReleaseContinues(s, j, w);
    assert Fail(s, j).workers == Release(s, j).workers;
  }

  lemma SettleContinues(s: State, j: JobId, value: Value, w: WorkerId)
    requires j in s.store && w in s.workers
    ensures Continues(s, SetResult(Release(RecordSuccess(s, j), j), j, Some(value)), w)
    ensures Continues(s, SetResultUnlessDone(Release(RecordSuccess(s, j), j), j, Some(value)), w)
  {
    var r := RecordSuccess(s, j);
    ReleaseContinues(r, j, w);
  }

  lemma AuthorizedJobContinues(s: State, j: JobId, token: Token, w: WorkerId)
    requires w in s.workers
    ensures Continues(s, AuthorizedJob(s, j, token).0, w)
  {
    if j in s.store { FailContinues(s, j, w); }
  }

  lemma WorkerJobContinues(s: State, v: WorkerId, workerToken: Token, j: JobId, token: Token, w: WorkerId)
    requires w in s.workers
    ensures var (t, a) := WorkerJob(s, v, workerToken, j, token);
      Continues(s, t, w) && (a == Ok ==> t == s && j in s.store)
  {
    AuthorizedJobContinues(s, j, token, w);
  }

  lemma ProgressContinues(s: State, e: Event, w: WorkerId)
    requires e.Progress? && w in s.workers
    ensures Continues(s, ReportProgress(s, e.w, e.workerToken, e.j, e.token, e.update).0, w)
  {
    WorkerJobContinues(s, e.w, e.workerToken, e.j, e.token, w);
  }

  lemma CompletionContinues(s: State, e: Event, w: WorkerId)
    requires (e.Complete? || e.Upload?) && w in s.workers
    ensures e.Complete? ==> Continues(s, CompleteJson(s, e.w, e.workerToken, e.j, e.token, e.body).0, w)
    ensures e.Upload? ==> Continues(s, CompleteUpload(s, e.w, e.workerToken, e.j, e.token, e.value).0, w)
  {
    WorkerJobContinues(s, e.w, e.workerToken, e.j, e.token, w);
    if WorkerJob(s, e.w, e.workerToken, e.j, e.token).1 == Ok {
      FailContinues(s, e.j, w);
      if e.Upload? { SettleContinues(s, e.j, e.value, w); }
      else if e.body.GoodResult? { SettleContinues(s, e.j, e.body.value, w); }
    }
  }

  /** The lease loop touches the polling worker only, and of it the job only. */
  lemma {:induction false} ScanTouchesItsWorker(cfg: Settings, s: State, v: WorkerId, token: Token,
                                                snapshot: seq<JobId>, w: WorkerId)
    requires v in s.workers && w in s.workers
    ensures var t := Scan(cfg, s, v, token, snapshot).0;
      && t.now == s.now && w in t.workers
      && (w != v ==> t.workers[w] == s.workers[w])
      && SameOffer(s.workers[w], t.workers[w]) && t.workers[w].lastSeen == s.workers[w].lastSeen
      && t.workers[w].lastPoll == s.workers[w].lastPoll
      && (t.workers[w].job == s.workers[w].job || t.workers[w].job.Some?)
    decreases |snapshot|
  {
    if snapshot != [] {
      ScanTouchesItsWorker(cfg, s.(waiting := Without(s.waiting, snapshot[0])), v, token, snapshot[1..], w);
      ScanTouchesItsWorker(cfg, s, v, token, snapshot[1..], w);
    }
  }

  /** A visit is never refused and stamps the worker; nobody else's poll moves the stamp. */
  lemma PollStampsTheWorker(cfg: Settings, s: State, e: Event, w: WorkerId)
    requires e.PollFor? && w in s.workers
    ensures var (t, a) := Poll(cfg, s, e.w, e.workerToken, e.minted);
      if Visits(e, w, s.workers[w].token) then
        && a != Unauthorized && t.now == s.now && w in t.workers && SameOffer(s.workers[w], t.workers[w])
        && t.workers[w].lastSeen == s.now && t.workers[w].lastPoll == Some(s.now)
      else Continues(s, t, w)
  {
    if Authentic(s, e.w, e.workerToken) {
      var seen := Seen(s, e.w);
      ScanTouchesItsWorker(cfg, seen, e.w, e.minted, seen.waiting, w);
      ScanNeverRefuses(cfg, seen, e.w, e.minted, seen.waiting);
    }
  }

  lemma {:induction false} ScanNeverRefuses(cfg: Settings, s: State, w: WorkerId, token: Token, snapshot: seq<JobId>)
    requires w in s.workers
    ensures Scan(cfg, s, w, token, snapshot).1 == NoContent || Scan(cfg, s, w, token, snapshot).1.Leased?
    decreases |snapshot|
  {
    if snapshot != [] {
      ScanNeverRefuses(cfg, s.(waiting := Without(s.waiting, snapshot[0])), w, token, snapshot[1..]);
      ScanNeverRefuses(cfg, s, w, token, snapshot[1..]);
    }
  }

  lemma FinishContinues(cfg: Settings, s: State, j: JobId, completed: bool, w: WorkerId)
    requires cfg.Valid() && j in s.store && w in s.workers
    ensures ContinuesOrIsPruned(cfg, s, Finish(cfg, s, j, completed), w)
    ensures var r := Release(s, j);
      w in Finish(cfg, s, j, completed).workers <==>
      r.workers[w].job.Some? || s.now - r.workers[w].lastSeen <= cfg.idleSeconds
  {
    ReleaseContinues(s, j, w);
  }

  lemma CleanupContinues(cfg: Settings, s: State, j: JobId, completed: bool, w: WorkerId)
    requires cfg.Valid() && j in s.store && w in s.workers
    ensures ContinuesOrIsPruned(cfg, s, Finish(cfg, Fail(s, j), j, completed), w)
    ensures var t := Finish(cfg, Fail(s, j), j, completed);
      w in t.workers ==> t.workers[w].job.Some? || t.now - t.workers[w].lastSeen <= cfg.idleSeconds
  {
    FailContinues(s, j, w);
    FinishContinues(cfg, Fail(s, j), j, completed, w);
  }

  lemma EnqueueContinues(cfg: Settings, s: State, j: JobId, r: Request, w: WorkerId)
    requires cfg.Valid() && w in s.workers
    ensures ContinuesOrIsPruned(cfg, s, Enqueue(cfg, s, j, r).0, w)
    ensures Enqueue(cfg, s, j, r).0.workers == Prune(cfg, s).workers
  {
    PruneContinues(cfg, s, s, w);
  }

  /** What a step that prunes leaves is in use. */
  predicate InUse(cfg: Settings, s: State, w: WorkerId) {
    w in s.workers ==> s.workers[w].job.Some? || s.now - s.workers[w].lastSeen <= cfg.idleSeconds
  }

  lemma PruningStep(cfg: Settings, s: State, e: Event, w: WorkerId)
    requires cfg.Valid() && w in s.workers && Prunes(s, e)
    ensures ContinuesOrIsPruned(cfg, s, Step(cfg, s, e), w) && InUse(cfg, Step(cfg, s, e), w)
  {
    match e
    case PruneNow => PruneContinues(cfg, s, s, w);
    case Register(_, _) => PruneContinues(cfg, s, s, w);
    case Start(j, request) => EnqueueContinues(cfg, s, j, request, w);
    case End(j, completed) => FinishContinues(cfg, s, j, completed, w);
    case Cleanup(j, completed) => CleanupContinues(cfg, s, j, completed, w);
  }

  lemma OtherStep(cfg: Settings, s: State, e: Event, w: WorkerId)
    requires w in s.workers && !Prunes(s, e) && !e.Tick? && !Visits(e, w, s.workers[w].token)
    ensures Continues(s, Step(cfg, s, e), w)
  {
    if Enabled(s, e) {
      match e
      case PollFor(_, _, _) => PollStampsTheWorker(cfg, s, e, w);
      case Touch(j, token) => AuthorizedJobContinues(s, j, token, w);
      case Progress(_, _, _, _, _) => ProgressContinues(s, e, w);
      case Complete(_, _, _, _, _) => CompletionContinues(s, e, w);
      case Upload(_, _, _, _, _) => CompletionContinues(s, e, w);
      case FailUpload(j) => FailContinues(s, j, w);
      case _ =>
    }
  }

  lemma EndsAddNobody(cfg: Settings, s: State, j: JobId, completed: bool)
    requires j in s.store
    ensures Fail(s, j).workers.Keys == s.workers.Keys
    ensures Finish(cfg, s, j, completed).workers.Keys <= s.workers.Keys
    ensures Finish(cfg, Fail(s, j), j, completed).workers.Keys <= s.workers.Keys
  {
  }

  lemma CommitAddsNobody(s: State, j: JobId, value: Value)
    requires j in s.store
    ensures SetResult(Release(RecordSuccess(s, j), j), j, Some(value)).workers.Keys == s.workers.Keys
    ensures SetResultUnlessDone(Release(RecordSuccess(s, j), j), j, Some(value)).workers.Keys == s.workers.Keys
  {
  }

  lemma AuthorizedJobAddsNobody(cfg: Settings, s: State, j: JobId, token: Token)
    ensures AuthorizedJob(s, j, token).0.workers.Keys == s.workers.Keys
  {
    if j in s.store { EndsAddNobody(cfg, s, j, false); }
  }

  lemma RouteAddsNobody(cfg: Settings, s: State, w: WorkerId, workerToken: Token, j: JobId, token: Token)
    ensures var (t, a) := WorkerJob(s, w, workerToken, j, token);
      t.workers.Keys == s.workers.Keys && (a == Ok ==> t == s && j in s.store)
  {
    AuthorizedJobAddsNobody(cfg, s, j, token);
  }

  lemma JsonAddsNobody(cfg: Settings, s: State, e: Event)
    requires e.Complete?
    ensures Step(cfg, s, e).workers.Keys == s.workers.Keys
  {
    RouteAddsNobody(cfg, s, e.w, e.workerToken, e.j, e.token);
    if WorkerJob(s, e.w, e.workerToken, e.j, e.token).1 == Ok {
      EndsAddNobody(cfg, s, e.j, false);
      if e.body.GoodResult? { CommitAddsNobody(s, e.j, e.body.value); }
    }
  }

  lemma UploadAddsNobody(cfg: Settings, s: State, e: Event)
    requires e.Upload?
    ensures Step(cfg, s, e).workers.Keys == s.workers.Keys
  {
    RouteAddsNobody(cfg, s, e.w, e.workerToken, e.j, e.token);
    if WorkerJob(s, e.w, e.workerToken, e.j, e.token).1 == Ok { CommitAddsNobody(s, e.j, e.value); }
  }

  /** Workers enter the table by registering, and only they, without a job. */
  lemma NewcomersAreIdle(cfg: Settings, s: State, e: Event, w: WorkerId)
    requires w !in s.workers
    ensures w in Step(cfg, s, e).workers <==> Enabled(s, e) && e.Register? && e.w == w
    ensures w in Step(cfg, s, e).workers ==>
      Step(cfg, s, e).workers[w] == e.worker && e.worker.job == None && e.worker.lastSeen == s.now
  {
    if e.PollFor? {
      if Authentic(s, e.w, e.workerToken) {
        ScanAddsNobody(cfg, Seen(s, e.w), e.w, e.minted, Seen(s, e.w).waiting);
      }
    } else if e.Complete? {
      JsonAddsNobody(cfg, s, e);
    } else if e.Upload? {
      UploadAddsNobody(cfg, s, e);
    } else if e.Progress? {
      RouteAddsNobody(cfg, s, e.w, e.workerToken, e.j, e.token);
    } else if e.Touch? {
      AuthorizedJobAddsNobody(cfg, s, e.j, e.token);
    } else if (e.FailUpload? || e.End? || e.Cleanup?) && e.j in s.store {
      EndsAddNobody(cfg, s, e.j, !e.FailUpload? && e.completed);
    }
  }

  lemma {:induction false} ScanAddsNobody(cfg: Settings, s: State, w: WorkerId, token: Token, snapshot: seq<JobId>)
    requires w in s.workers
    ensures Scan(cfg, s, w, token, snapshot).0.workers.Keys == s.workers.Keys
    decreases |snapshot|
  {
    if snapshot != [] {
      ScanAddsNobody(cfg, s.(waiting := Without(s.waiting, snapshot[0])), w, token, snapshot[1..]);
      ScanAddsNobody(cfg, s, w, token, snapshot[1..]);
    }
  }

  // ---------------------------------------------------------------- whole runs

  /** The last instant of a run at which worker w visited with its token or held a job; at first, when it was seen. */
  function LastContact(cfg: Settings, s: State, events: seq<Event>, w: WorkerId, token: Token): real
    requires w in s.workers
  {
    if Busy(Run(cfg, s, events), w) then Run(cfg, s, events).now
    else if events == [] then s.workers[w].lastSeen
    else if Visits(events[|events| - 1], w, token) then Run(cfg, s, events).now
    else LastContact(cfg, s, events[..|events| - 1], w, token)
  }

  /** For how long the worker has been out of contact. */
  function Absence(cfg: Settings, s: State, events: seq<Event>, w: WorkerId, token: Token): real
    requires w in s.workers
  {
    Run(cfg, s, events).now - LastContact(cfg, s, events, w, token)
  }

  /** The last step of a run prunes while the worker has been out of contact for longer than the idle time. */
  predicate CaughtAway(cfg: Settings, s: State, events: seq<Event>, w: WorkerId, token: Token)
    requires w in s.workers
  {
    && events != []
    && Prunes(Run(cfg, s, events[..|events| - 1]), events[|events| - 1])
    && Absence(cfg, s, events, w, token) > cfg.idleSeconds
  }

  predicate NeverCaughtAway(cfg: Settings, s: State, events: seq<Event>, w: WorkerId, token: Token)
    requires w in s.workers
  {
    forall n | 0 <= n <= |events| :: !CaughtAway(cfg, s, events[..n], w, token)
  }

  /** Registered with its token, and stamped with its last contact unless it holds a job. */
  predicate Registered(cfg: Settings, s: State, events: seq<Event>, w: WorkerId, token: Token)
    requires w in s.workers
  {
    var t := Run(cfg, s, events);
    && Authentic(t, w, token)
    && (t.workers[w].job == None ==> t.workers[w].lastSeen == LastContact(cfg, s, events, w, token))
  }

  lemma ContinuingKeepsTheStamp(cfg: Settings, s: State, events: seq<Event>, w: WorkerId, token: Token)
    requires w in s.workers && events != [] && !Visits(events[|events| - 1], w, token)
    requires Registered(cfg, s, events[..|events| - 1], w, token)
    requires Continues(Run(cfg, s, events[..|events| - 1]), Run(cfg, s, events), w)
    ensures Registered(cfg, s, events, w, token)
  {
  }

  lemma OneMorePruning(cfg: Settings, s: State, events: seq<Event>, w: WorkerId, token: Token)
    requires cfg.Valid() && w in s.workers && events != []
    requires Registered(cfg, s, events[..|events| - 1], w, token)
    requires Prunes(Run(cfg, s, events[..|events| - 1]), events[|events| - 1])
    ensures CaughtAway(cfg, s, events, w, token) ==> w !in Run(cfg, s, events).workers
    ensures !CaughtAway(cfg, s, events, w, token) ==> Registered(cfg, s, events, w, token)
  {
    var before := Run(cfg, s, events[..|events| - 1]);
    PruningStep(cfg, before, events[|events| - 1], w);
    if Continues(before, Run(cfg, s, events), w) { ContinuingKeepsTheStamp(cfg, s, events, w, token); }
  }

  lemma OneMoreStep(cfg: Settings, s: State, events: seq<Event>, w: WorkerId, token: Token)
    requires cfg.Valid() && w in s.workers && events != []
    requires Registered(cfg, s, events[..|events| - 1], w, token)
    ensures CaughtAway(cfg, s, events, w, token) ==> w !in Run(cfg, s, events).workers
    ensures !CaughtAway(cfg, s, events, w, token) ==> Registered(cfg, s, events, w, token)
  {
    var before, e := Run(cfg, s, events[..|events| - 1]), events[|events| - 1];
    if Prunes(before, e) {
      OneMorePruning(cfg, s, events, w, token);
    } else if Visits(e, w, token) {
      PollStampsTheWorker(cfg, before, e, w);
    } else if !e.Tick? {
      OtherStep(cfg, before, e, w);
      ContinuingKeepsTheStamp(cfg, s, events, w, token);
    }
  }

  /** A registered worker stays registered with its token exactly until a pruning step meets it out of contact for
      longer than the idle time. */
  lemma {:induction false} RegisteredUntilCaughtAway(cfg: Settings, s: State, events: seq<Event>, w: WorkerId,
                                                     token: Token)
    requires cfg.Valid() && Authentic(s, w, token)
    ensures NeverCaughtAway(cfg, s, events, w, token) ==> Registered(cfg, s, events, w, token)
    ensures events != [] && NeverCaughtAway(cfg, s, events[..|events| - 1], w, token) ==>
      (w in Run(cfg, s, events).workers <==> NeverCaughtAway(cfg, s, events, w, token))
    decreases |events|
  {
    if events != [] {
      var front := events[..|events| - 1];
      RegisteredUntilCaughtAway(cfg, s, front, w, token);
      assert forall n | 0 <= n <= |front| :: front[..n] == events[..n];
      assert events[..|events|] == events;
      assert NeverCaughtAway(cfg, s, events, w, token) <==>
        NeverCaughtAway(cfg, s, front, w, token) && !CaughtAway(cfg, s, events, w, token) by {
        if NeverCaughtAway(cfg, s, front, w, token) && !CaughtAway(cfg, s, events, w, token) {
          forall n | 0 <= n <= |events| ensures !CaughtAway(cfg, s, events[..n], w, token) {
            if n < |events| { assert events[..n] == front[..n]; }
          }
        }
        if NeverCaughtAway(cfg, s, events, w, token) {
          assert !CaughtAway(cfg, s, events[..|events|], w, token);
          forall n | 0 <= n <= |front| ensures !CaughtAway(cfg, s, front[..n], w, token) {
            assert !CaughtAway(cfg, s, events[..n], w, token);
          }
        }
      }
      if NeverCaughtAway(cfg, s, front, w, token) { OneMoreStep(cfg, s, events, w, token); }
    }
  }

  /** A worker that is never out of contact for longer than the idle time is never refused: neither its polls nor the
      routes of its jobs answer `Unauthorized` to its token. */
  lemma WhoVisitsInTimeIsNeverRefused(cfg: Settings, s: State, events: seq<Event>, w: WorkerId, token: Token,
                                      minted: Token, j: JobId, lease: Token)
    requires cfg.Valid() && Authentic(s, w, token)
    requires forall n | 0 <= n <= |events| :: Absence(cfg, s, events[..n], w, token) <= cfg.idleSeconds
    ensures var t := Run(cfg, s, events);
      && w in t.workers && t.workers[w].token == token
      && Poll(cfg, t, w, token, minted).1 != Unauthorized
      && WorkerJob(t, w, token, j, lease).1 != Unauthorized
  {
    RegisteredUntilCaughtAway(cfg, s, events, w, token);
    var t := Run(cfg, s, events);
    PollStampsTheWorker(cfg, t, PollFor(w, token, minted), w);
  }
}
