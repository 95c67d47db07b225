/** What the steps of a job's life achieve, from admission to delivery, stated over the tables. */
module Deliveries {
  import opened Basics
  import opened Memory
  import opened Lease
  import opened LeaseSafety
  import opened LeaseTheorems
  import opened Registrations
  import opened Preference

  // ---------------------------------------------------------------- admission and memory of finished ids

  /** A job of that request id has not finished, or one did finish and is still remembered: its entry is in time and
      one of the newest 1024. */
  ghost predicate Known(s: State, r: RequestId) {
    || (exists j | j in s.live :: j in s.store && s.store[j].request.requestId == r)
    || exists i: nat | i < |s.completed| ::
         s.completed[i].id == r && s.completed[i].expiry > s.now && |s.completed| - i <= 1024
  }

  lemma PrunedIds(s: State, r: RequestId)
    requires ExpiriesRise(s.completed)
    ensures IsCompleted(Pruned(s.completed, s.now, MAX_COMPLETED), r) <==>
      exists i: nat | i < |s.completed| ::
        s.completed[i].id == r && s.completed[i].expiry > s.now && |s.completed| - i <= 1024
  {
    var all, kept := s.completed, Pruned(s.completed, s.now, MAX_COMPLETED);
    PrunedIsASuffix(all, s.now, MAX_COMPLETED);
    var gone := |all| - |kept|;
    assert forall k | 0 <= k < |kept| :: kept[k] == all[gone + k];
    forall i: nat | i < |all| ensures i >= gone <==> FreshAt(all, s.now, MAX_COMPLETED, i) {
      PrunedKeepsTheFresh(all, s.now, MAX_COMPLETED, i);
    }
    if IsCompleted(kept, r) {
      var k :| 0 <= k < |kept| && kept[k].id == r;
      assert FreshAt(all, s.now, MAX_COMPLETED, gone + k);
    }
    if exists i: nat | i < |all| :: all[i].id == r && all[i].expiry > s.now && |all| - i <= 1024 {
      var i: nat :| i < |all| && all[i].id == r && all[i].expiry > s.now && |all| - i <= 1024;
      assert FreshAt(all, s.now, MAX_COMPLETED, i);
      assert kept[i - gone].id == r;
    }
  }

  /** A request is registered exactly when its id is not known, and then as a new job, running and unresolved. */
  lemma AdmittedExactlyWhenUnknown(cfg: Settings, now: real, events: seq<Event>, j: JobId, r: Request)
    requires j !in Run(cfg, Init(now), events).store
    ensures var s := Run(cfg, Init(now), events);
      var t := Step(cfg, s, Start(j, r));
      && (j in t.live <==> !Known(s, r.requestId))
      && (j in t.live ==>
            && r.requestId in t.byRequest && t.byRequest[r.requestId] == j
            && t.live == s.live + {j} && t.store.Keys == s.store.Keys + {j}
            && t.store[j].request == r && t.store[j].lease == None && t.store[j].result == Pending
            && t.store[j].phase == Running && t.store[j].owner == Official)
      && (j !in t.live ==> t.store == s.store && t.live == s.live && t.byRequest == s.byRequest)
      && t.waiting == s.waiting
  {
    RunsAreSound(cfg, now, events);
    var s := Run(cfg, Init(now), events);
    PrunedIds(s, r.requestId);
    assert r.requestId in s.byRequest <==>
      exists k | k in s.live :: k in s.store && s.store[k].request.requestId == r.requestId by {
      if r.requestId in s.byRequest { assert s.byRequest[r.requestId] in s.live; }
    }
  }

  // ---------------------------------------------------------------- leaves of the tables

  lemma NewestIsKept(completed: seq<Finished>, f: Finished, now: real)
    requires f.expiry > now && ExpiriesRise(completed + [f])
    ensures var kept := Pruned(completed + [f], now, MAX_COMPLETED);
      kept != [] && kept[|kept| - 1] == f
  {
    var all := completed + [f];
    PrunedKeepsTheFresh(all, now, MAX_COMPLETED, |completed|);
    PrunedIsASuffix(all, now, MAX_COMPLETED);
    assert all[|completed|] == f;
  }

  /** What the end of a job does: the job leaves all tables, and its id is remembered for 45 s if and only if the
      request was answered; no other job is touched. */
  ghost predicate Leaves(s: State, t: State, j: JobId, completed: bool)
    requires j in s.store
  {
    var r := s.store[j].request;
    && t.live == s.live - {j} && r.requestId !in t.byRequest && j !in t.waiting
    && t.store.Keys == s.store.Keys && t.store[j].owner == Ended && t.store[j].lease == None
    && (forall k | k in s.store && k != j :: t.store[k] == s.store[k])
    && (if completed then
          t.completed != []
          && t.completed[|t.completed| - 1] == Remembered(r.requestId, s.now + 45.0, r.ownerDigest)
        else !IsCompleted(t.completed, r.requestId))
  }

  /** The same but for the memory of finished ids. */
  ghost predicate LeavesTables(s: State, t: State, j: JobId)
    requires j in s.store
  {
    && t.live == s.live - {j} && s.store[j].request.requestId !in t.byRequest && j !in t.waiting
    && t.store.Keys == s.store.Keys && t.store[j].owner == Ended && t.store[j].lease == None
    && t.store[j].result == s.store[j].result
    && (forall k | k in s.store && k != j :: t.store[k] == s.store[k])
  }

  lemma FinishLeavesTables(cfg: Settings, s: State, j: JobId, completed: bool)
    requires j in s.store && Distinct(s.waiting)
    ensures LeavesTables(s, Finish(cfg, s, j, completed), j)
  {
    WithoutMembers(s.waiting, j);
  }

  lemma FinishRemembers(cfg: Settings, s: State, j: JobId, completed: bool)
    requires j in s.store && CompletedSound(s) && !IsCompleted(s.completed, s.store[j].request.requestId)
    ensures var r, t := s.store[j].request, Finish(cfg, s, j, completed);
      if completed then
        t.completed != []
        && t.completed[|t.completed| - 1] == Remembered(r.requestId, s.now + 45.0, r.ownerDigest)
      else !IsCompleted(t.completed, r.requestId)
  {
    var r := s.store[j].request;
    var f := Remembered(r.requestId, s.now + 45.0, r.ownerDigest);
    RememberAppends(s.completed, f);
    if completed {
      assert ExpiriesRise(s.completed + [f]);
      NewestIsKept(s.completed, f, s.now);
    } else {
      PrunedIsASuffix(s.completed, s.now, MAX_COMPLETED);
    }
  }

  /** The end of a job does exactly that and leaves its result alone. */
  lemma FinishLeaves(cfg: Settings, s: State, j: JobId, completed: bool, resolved: set<JobId>)
    requires Sound(s, resolved) && j in s.store && s.store[j].owner != Ended
    ensures Leaves(s, Finish(cfg, s, j, completed), j, completed)
    ensures Finish(cfg, s, j, completed).store[j].result == s.store[j].result
  {
    LiveIsNotCompleted(s, j);
    FinishLeavesTables(cfg, s, j, completed);
    FinishRemembers(cfg, s, j, completed);
  }

  lemma LeavesAfterFailing(s: State, t: State, j: JobId, completed: bool)
    requires j in s.store && Leaves(Fail(s, j), t, j, completed)
    ensures Leaves(s, t, j, completed)
  {
    FailIsReleaseThenUpdate(s, j);
  }

  /** A cleanup does the same, and resolves a pending result to None. */
  lemma CleanupLeaves(cfg: Settings, s: State, j: JobId, completed: bool)
    requires Sound(s, {}) && j in s.store && s.store[j].owner != Ended
    ensures var t := Finish(cfg, Fail(s, j), j, completed);
      && Leaves(s, t, j, completed)
      && t.store[j].result == (if s.store[j].result == Pending then Resolved(None) else s.store[j].result)
  {
    assert Sound(s, {j});
    FailKeeps(s, j, {j});
    assert Fail(s, j).store[j].owner == s.store[j].owner;
    FinishLeaves(cfg, Fail(s, j), j, completed, {j});
    LeavesAfterFailing(s, Finish(cfg, Fail(s, j), j, completed), j, completed);
  }

  // ---------------------------------------------------------------- delivery

  /** Job j is settled with that value, its worker free and seen now, and nothing else of the jobs has changed. */
  ghost predicate Settles(s: State, t: State, w: WorkerId, j: JobId, value: Option<Value>)
    requires j in s.store
  {
    && t.store.Keys == s.store.Keys
    && t.store[j].result == Resolved(value) && t.store[j].lease == None
    && (forall k | k in s.store && k != j :: t.store[k] == s.store[k])
    && t.live == s.live && t.waiting == s.waiting && t.byRequest == s.byRequest && t.completed == s.completed
    && w in t.workers && t.workers[w].job == None && t.workers[w].lastSeen == s.now
    && t.workers.Keys == s.workers.Keys
    && (forall v | v in s.workers && v != w :: t.workers[v] == s.workers[v])
  }

  ghost predicate Holds(s: State, w: WorkerId, j: JobId) {
    && j in s.store && s.store[j].lease.Some? && s.store[j].lease.value.worker == w
    && s.store[j].result == Pending && w in s.workers && s.workers[w].job == Some(j)
  }

  lemma HolderHolds(s: State, w: WorkerId, workerToken: Token, j: JobId, token: Token)
    requires Sound(s, {}) && HoldsLease(s, w, workerToken, j, token)
    ensures Holds(s, w, j)
  {
    assert JobSound(s.store[j]);
  }

  lemma FailSettles(s: State, w: WorkerId, j: JobId)
    requires Holds(s, w, j)
    ensures Settles(s, Fail(s, j), w, j, None) && Fail(s, j).workers[w].throughput == s.workers[w].throughput
  {
  }

  lemma CommitSettles(s: State, w: WorkerId, j: JobId, value: Value)
    requires Holds(s, w, j)
    ensures var t := SetResult(Release(RecordSuccess(s, j), j), j, Some(value));
      && Settles(s, t, w, j, Some(value))
      && t.workers[w].throughput == Recorded(s.workers[w].throughput, s.store[j].request,
                                             s.now - s.store[j].lease.value.started)
  {
  }

  /** What the holder of an unexpired lease delivers reaches the owner: a valid JSON result as the value it carries, an
      error or an invalid result as None. The worker is free afterwards. */
  lemma TheHoldersResultIsDelivered(s: State, w: WorkerId, workerToken: Token, j: JobId, token: Token, body: Outcome)
    requires Sound(s, {}) && HoldsLease(s, w, workerToken, j, token)
    ensures var (t, a) := CompleteJson(s, w, workerToken, j, token, body);
      if body.GoodResult? && s.store[j].request.operation != Enhance then
        a == Ok && Settles(s, t, w, j, Some(body.value))
      else a == (if body.WorkerError? then Ok else Unprocessable) && Settles(s, t, w, j, None)
  {
    HolderHolds(s, w, workerToken, j, token);
    WorkerJobChecksLease(s, w, workerToken, j, token);
    CompleteJsonCases(s, w, workerToken, j, token, body);
    if body.GoodResult? && s.store[j].request.operation != Enhance {
      CommitSettles(s, w, j, body.value);
    } else {
      FailSettles(s, w, j);
    }
  }

  /** So does its upload. */
  lemma TheHoldersUploadIsDelivered(s: State, w: WorkerId, workerToken: Token, j: JobId, token: Token, value: Value)
    requires Sound(s, {}) && HoldsLease(s, w, workerToken, j, token)
    ensures var (t, a) := CompleteUpload(s, w, workerToken, j, token, value);
      a == Ok && Settles(s, t, w, j, Some(value))
  {
    HolderHolds(s, w, workerToken, j, token);
    WorkerJobChecksLease(s, w, workerToken, j, token);
    CompleteUploadCases(s, w, workerToken, j, token, value);
    CommitSettles(s, w, j, value);
  }

  /** Whoever names an expired lease with its token ends it: the owner gets None and the worker is free. */
  lemma AnExpiredLeaseFailsItsJob(s: State, w: WorkerId, j: JobId, token: Token)
    requires Sound(s, {}) && Holds(s, w, j)
    requires s.store[j].lease.value.token == token && s.now >= s.store[j].lease.value.deadline
    ensures var (t, a) := AuthorizedJob(s, j, token);
      a == NotFound && Settles(s, t, w, j, None)
  {
    FailSettles(s, w, j);
  }

  /** A report is stored exactly when it comes from the lease holder of a valid enhancement and follows the last one;
      it changes nothing else. */
  lemma ReportsAreStoredExactlyWhenAccepted(s: State, w: WorkerId, workerToken: Token, j: JobId, token: Token,
                                            u: P.Update)
    ensures var (t, a) := ReportProgress(s, w, workerToken, j, token, u);
      && (a == Ok <==>
            && HoldsLease(s, w, workerToken, j, token)
            && s.store[j].request.operation == Enhance && s.store[j].request.payload.Valid()
            && P.Accepts(P.Limits(s.store[j].request.payload), s.store[j].progress, u))
      && (a == Ok ==> t == s.(store := s.store[j := s.store[j].(progress := Some(u))]))
      && (a != Ok && HoldsLease(s, w, workerToken, j, token) ==> t == s)
  {
    WorkerJobChecksLease(s, w, workerToken, j, token);
  }

  // ---------------------------------------------------------------- leases over time

  /** A lease stays as it was granted until it goes. */
  lemma {:induction false} ALeaseStaysOrGoes(cfg: Settings, s: State, events: seq<Event>, j: JobId)
    requires Sound(s, {}) && j in s.store && s.store[j].grants == 1
    ensures var t := Run(cfg, s, events);
      && Sound(t, {}) && j in t.store && t.store[j].grants == 1 && t.store[j].request == s.store[j].request
      && (t.store[j].lease == s.store[j].lease || t.store[j].lease == None)
    decreases |events|
  {
    if events != [] {
      var front := events[..|events| - 1];
      ALeaseStaysOrGoes(cfg, s, front, j);
      var before := Run(cfg, s, front);
      StepKeeps(cfg, before, events[|events| - 1]);
      StepEffect(cfg, before, events[|events| - 1], j);
    }
  }

  /** How a success of that length changes a worker's rates: the first one counts as it is, later ones by a quarter. */
  ghost predicate Learns(before: map<Operation, real>, after: map<Operation, real>, r: Request, elapsed: real) {
    if elapsed <= 0.0 || r.workUnits <= 0.0 then after == before
    else
      var rate := r.workUnits / elapsed;
      && r.operation in after
      && (r.operation !in before ==> after[r.operation] == rate)
      && (r.operation in before ==> after[r.operation] == before[r.operation] + (rate - before[r.operation]) / 4.0)
      && forall o | o != r.operation :: (o in after <==> o in before) && (o in before ==> after[o] == before[o])
  }

  lemma PollStartsTheClock(cfg: Settings, s: State, t: State, w: WorkerId, workerToken: Token, minted: Token,
                           j: JobId)
    requires Sound(s, {}) && Poll(cfg, s, w, workerToken, minted) == (t, Leased(j))
    ensures j in t.store && t.store[j].grants == 1
    ensures t.store[j].lease == Some(Grant(w, minted, s.now + cfg.leaseSeconds, s.now))
  {
    var k := PollTakesEarliestSuitable(cfg, s, w, workerToken, minted);
    assert s.waiting[k] in s.waiting && Waits(s, j);
    assert t == Assign(cfg, Seen(s, w), w, j, minted);
  }

  /** A valid result delivered in u changes the worker's rates as a success that began then. */
  ghost predicate Teaches(u: State, w: WorkerId, workerToken: Token, j: JobId, token: Token, value: Value,
                          began: real)
  {
    var v := CompleteJson(u, w, workerToken, j, token, GoodResult(value)).0;
    && w in u.workers && w in v.workers && j in u.store
    && Learns(u.workers[w].throughput, v.workers[w].throughput, u.store[j].request, u.now - began)
  }

  lemma SuccessTeaches(u: State, w: WorkerId, workerToken: Token, j: JobId, token: Token, value: Value)
    requires Sound(u, {}) && HoldsLease(u, w, workerToken, j, token) && u.store[j].request.operation != Enhance
    ensures Teaches(u, w, workerToken, j, token, value, u.store[j].lease.value.started)
  {
    HolderHolds(u, w, workerToken, j, token);
    CompleteJsonCases(u, w, workerToken, j, token, GoodResult(value));
    CommitSettles(u, w, j, value);
  }

  lemma LaterSuccessTeaches(cfg: Settings, t: State, w: WorkerId, workerToken: Token, j: JobId, token: Token,
                            events: seq<Event>, value: Value)
    requires Sound(t, {}) && j in t.store && t.store[j].grants == 1 && t.store[j].lease.Some?
    requires var u := Run(cfg, t, events);
      HoldsLease(u, w, workerToken, j, token) && u.store[j].request.operation != Enhance
    ensures Teaches(Run(cfg, t, events), w, workerToken, j, token, value, t.store[j].lease.value.started)
  {
    ALeaseStaysOrGoes(cfg, t, events, j);
    SuccessTeaches(Run(cfg, t, events), w, workerToken, j, token, value);
  }

  /** A success is timed from the poll that leased the job to its delivery, whatever happened in between. */
  lemma SuccessIsTimedFromItsLease(cfg: Settings, s: State, t: State, w: WorkerId, workerToken: Token, minted: Token,
                                   j: JobId, events: seq<Event>, value: Value)
    requires Sound(s, {}) && Poll(cfg, s, w, workerToken, minted) == (t, Leased(j))
    requires var u := Run(cfg, t, events);
      HoldsLease(u, w, workerToken, j, minted) && u.store[j].request.operation != Enhance
    ensures Teaches(Run(cfg, t, events), w, workerToken, j, minted, value, s.now)
  {
    PollKeeps(cfg, s, w, workerToken, minted);
    PollStartsTheClock(cfg, s, t, w, workerToken, minted, j);
    LaterSuccessTeaches(cfg, t, w, workerToken, j, minted, events, value);
  }

  // ---------------------------------------------------------------- leases and capabilities

  /** Every worker can do the job it holds. */
  ghost predicate Capable(s: State) {
    forall w | w in s.workers && s.workers[w].job.Some? :: CapableOf(s, w, s.workers[w].job.value)
  }

  ghost predicate CapableOf(s: State, w: WorkerId, j: JobId)
    requires w in s.workers
  {
    j in s.store && CanDo(s.workers[w], s.store[j].request)
  }

  lemma ContinuingStaysCapable(s: State, t: State, w: WorkerId)
    requires Capable(s) && Continues(s, t, w)
    requires forall j | j in s.store :: j in t.store && t.store[j].request == s.store[j].request
    ensures t.workers[w].job.Some? ==> CapableOf(t, w, t.workers[w].job.value)
  {
    if t.workers[w].job.Some? { assert CapableOf(s, w, s.workers[w].job.value); }
  }

  lemma StepKeepsRequests(cfg: Settings, s: State, e: Event)
    requires Sound(s, {})
    ensures forall j | j in s.store ::
      j in Step(cfg, s, e).store && Step(cfg, s, e).store[j].request == s.store[j].request
  {
    forall j | j in s.store
      ensures j in Step(cfg, s, e).store && Step(cfg, s, e).store[j].request == s.store[j].request
    {
      StepEffect(cfg, s, e, j);
    }
  }

  /** A visiting worker keeps its job or gets one it can do. */
  lemma VisitStaysCapable(cfg: Settings, s: State, w: WorkerId, token: Token, minted: Token)
    requires Sound(s, {}) && Capable(s) && Authentic(s, w, token)
    ensures var t := Poll(cfg, s, w, token, minted).0;
      w in t.workers && (t.workers[w].job.Some? ==> CapableOf(t, w, t.workers[w].job.value))
  {
    var t := Poll(cfg, s, w, token, minted).0;
    if s.workers[w].job == None {
      var k := PollTakesEarliestSuitable(cfg, s, w, token, minted);
      if k < |s.waiting| {
        assert s.waiting[k] in s.waiting && Waits(s, s.waiting[k]);
        DeferredExactlyForAFasterReadyWorker(Seen(s, w), w, s.waiting[k]);
        assert CapableOf(t, w, s.waiting[k]);
      }
    } else {
      assert CapableOf(s, w, s.workers[w].job.value);
    }
  }

  lemma StepKeepsCapable(cfg: Settings, s: State, e: Event)
    requires cfg.Valid() && Sound(s, {}) && Capable(s)
    ensures Capable(Step(cfg, s, e))
  {
    var t := Step(cfg, s, e);
    StepKeepsRequests(cfg, s, e);
    forall w | w in t.workers && t.workers[w].job.Some? ensures CapableOf(t, w, t.workers[w].job.value) {
      if w in s.workers {
        if Prunes(s, e) {
          PruningStep(cfg, s, e, w);
          ContinuingStaysCapable(s, t, w);
        } else if Visits(e, w, s.workers[w].token) {
          VisitStaysCapable(cfg, s, w, e.workerToken, e.minted);
        } else if e.Tick? {
          assert CapableOf(s, w, s.workers[w].job.value);
        } else {
          OtherStep(cfg, s, e, w);
          ContinuingStaysCapable(s, t, w);
        }
      } else {
        NewcomersAreIdle(cfg, s, e, w);
      }
    }
  }

  /** In every reachable state a worker that holds a job does that operation, takes leases of that size and, for an
      enhancement, runs the model asked for and is not the asking client. */
  lemma {:induction false} LeasesRespectCapabilities(cfg: Settings, now: real, events: seq<Event>)
    requires cfg.Valid()
    ensures Capable(Run(cfg, Init(now), events))
    decreases |events|
  {
    if events != [] {
      var front := events[..|events| - 1];
      LeasesRespectCapabilities(cfg, now, front);
      RunsAreSound(cfg, now, front);
      StepKeepsCapable(cfg, Run(cfg, Init(now), front), events[|events| - 1]);
    }
  }
}
