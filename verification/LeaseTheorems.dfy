/** Whole-run properties of the lease protocol. */
module LeaseTheorems {
  import opened Basics
  import opened Lease
  import opened LeaseSafety

  /** What most steps may do to a job: drop its lease, resolve it to None and wake its owner, move its owner on. */
  ghost predicate Calm(a: Job, b: Job) {
    && b.request == a.request && b.grants == a.grants
    && (b.lease == a.lease || b.lease == None)
    && (b.result == a.result || (a.result == Pending && b.result == Resolved(None) && b.leased))
    && (a.leased ==> b.leased)
    && (b.leased ==> a.leased || b.result.Resolved? || b.grants > 0)
    && (a.owner != Official ==> b.owner != Official)
  }

  ghost predicate AllCalm(s: State, t: State) {
    t.store.Keys == s.store.Keys && forall j | j in s.store :: Calm(s.store[j], t.store[j])
  }

  lemma FailIsCalm(s: State, j: JobId)
    requires j in s.store
    ensures AllCalm(s, Fail(s, j))
  {
    FailIsReleaseThenUpdate(s, j);
  }

  lemma FinishIsCalm(cfg: Settings, s: State, j: JobId, completed: bool)
    requires j in s.store
    ensures AllCalm(s, Finish(cfg, s, j, completed))
  {
  }

  lemma SameIsCalm(s: State)
    ensures AllCalm(s, s)
  {
  }

  lemma AuthorizedJobPassesOrFails(s: State, j: JobId, token: Token)
    ensures var t := AuthorizedJob(s, j, token).0; t == s || (j in s.store && t == Fail(s, j))
  {
  }

  lemma AuthorizedJobIsCalm(s: State, j: JobId, token: Token)
    ensures AllCalm(s, AuthorizedJob(s, j, token).0)
  {
    AuthorizedJobPassesOrFails(s, j, token);
    SameIsCalm(s);
    if j in s.store { FailIsCalm(s, j); }
  }

  lemma ProgressIsCalm(s: State, w: WorkerId, workerToken: Token, j: JobId, token: Token, u: P.Update)
    ensures AllCalm(s, ReportProgress(s, w, workerToken, j, token, u).0)
  {
    WorkerJobChecksLease(s, w, workerToken, j, token);
    AuthorizedJobIsCalm(s, j, token);
  }

  /** Job j got its lease in this step, by a poll of the worker the lease names, out of a sound queue. */
  ghost predicate Granted(s: State, e: Event, t: State, j: JobId) {
    && e.PollFor? && Authentic(s, e.w, e.workerToken)
    && j in s.waiting && j in s.store && j in t.store
    && s.store[j].lease == None && s.store[j].grants == 0
    && t.store[j].lease.Some? && t.store[j].lease.value.worker == e.w && t.store[j].lease.value.token == e.minted
    && t.store[j].request == s.store[j].request
    && t.store[j].grants == 1 && t.store[j].result == s.store[j].result == Pending
    && t.store[j].leased && t.store[j].owner == s.store[j].owner
  }

  ghost predicate DeliversFor(e: Event, j: JobId, value: Value) {
    || (e.Complete? && e.j == j && e.body == GoodResult(value))
    || (e.Upload? && e.j == j && e.value == value)
  }

  /** Job j got its value in this step: from the authentic worker named by its unexpired lease, with the lease's
      token. */
  ghost predicate Won(s: State, e: Event, t: State, j: JobId) {
    && j in s.store && j in t.store
    && (e.Complete? || e.Upload?) && HoldsLease(s, e.w, e.workerToken, j, e.token)
    && s.store[j].result == Pending
    && t.store[j].result.Resolved? && t.store[j].result.value.Some?
    && DeliversFor(e, j, t.store[j].result.value.value)
    && t.store[j].lease == None && t.store[j].grants == s.store[j].grants
    && t.store[j].request == s.store[j].request
    && t.store[j].leased == s.store[j].leased && t.store[j].owner == s.store[j].owner
  }

  lemma PollEffect(cfg: Settings, s: State, e: Event, j: JobId)
    requires Sound(s, {}) && e.PollFor?
    ensures var t := Step(cfg, s, e);
      && t.store.Keys == s.store.Keys
      && (j in s.store ==> Calm(s.store[j], t.store[j]) || Granted(s, e, t, j))
  {
    if Authentic(s, e.w, e.workerToken) {
      var t := Seen(s, e.w);
      if t.workers[e.w].job == None {
        assert forall i | 0 <= i < |t.waiting| :: t.waiting[i] in t.waiting && Waits(s, t.waiting[i]);
        var k := ScanFindsFirst(cfg, t, e.w, e.minted, t.waiting);
      }
    }
  }

  lemma CommitEffect(s: State, j: JobId, value: Value)
    requires j in s.store && s.store[j].lease.Some? && s.store[j].result == Pending
    ensures var t := SetResult(Release(RecordSuccess(s, j), j), j, Some(value));
      t.store == s.store[j := s.store[j].(lease := None, result := Resolved(Some(value)),
                                         resolutions := s.store[j].resolutions + 1)]
  {
  }

  ghost predicate Settled(s: State, t: State, j: JobId, value: Value) {
    j in s.store && t.store == s.store[j := s.store[j].(lease := None, result := Resolved(Some(value)),
                                                        resolutions := s.store[j].resolutions + 1)]
  }

  ghost predicate LeasedArePending(s: State) {
    forall j | j in s.store && s.store[j].lease.Some? :: s.store[j].result == Pending
  }

  lemma SoundMeansPending(s: State)
    requires Sound(s, {})
    ensures LeasedArePending(s)
  {
    assert forall j | j in s.store :: JobSound(s.store[j]);
  }

  lemma UploadEffect(s: State, e: Event)
    requires LeasedArePending(s) && e.Upload?
    ensures var t := CompleteUpload(s, e.w, e.workerToken, e.j, e.token, e.value).0;
      AllCalm(s, t) || (HoldsLease(s, e.w, e.workerToken, e.j, e.token) && Settled(s, t, e.j, e.value))
  {
    WorkerJobChecksLease(s, e.w, e.workerToken, e.j, e.token);
    AuthorizedJobIsCalm(s, e.j, e.token);
    if HoldsLease(s, e.w, e.workerToken, e.j, e.token) {
      CommitEffect(s, e.j, e.value);
    }
  }

  lemma CompleteEffect(s: State, e: Event)
    requires LeasedArePending(s) && e.Complete?
    ensures var t := CompleteJson(s, e.w, e.workerToken, e.j, e.token, e.body).0;
      || AllCalm(s, t)
      || (e.body.GoodResult? && HoldsLease(s, e.w, e.workerToken, e.j, e.token) && Settled(s, t, e.j, e.body.value))
  {
    WorkerJobChecksLease(s, e.w, e.workerToken, e.j, e.token);
    AuthorizedJobIsCalm(s, e.j, e.token);
    if HoldsLease(s, e.w, e.workerToken, e.j, e.token) {
      CompleteJsonCases(s, e.w, e.workerToken, e.j, e.token, e.body);
      if e.body.GoodResult? && s.store[e.j].request.operation != Enhance {
        CommitEffect(s, e.j, e.body.value);
      } else {
        FailIsCalm(s, e.j);
      }
    }
  }

  lemma CompletionEffect(cfg: Settings, s: State, e: Event, j: JobId)
    requires LeasedArePending(s) && (e.Complete? || e.Upload?)
    ensures var t := Step(cfg, s, e);
      && t.store.Keys == s.store.Keys
      && (j in s.store ==> Calm(s.store[j], t.store[j]) || Won(s, e, t, j))
  {
    if e.Upload? {
      UploadEffect(s, e);
    } else {
      CompleteEffect(s, e);
    }
  }

  lemma OtherStepsAreCalm(cfg: Settings, s: State, e: Event)
    requires Sound(s, {}) && !e.Start? && !e.PollFor? && !e.Complete? && !e.Upload?
    ensures AllCalm(s, Step(cfg, s, e))
  {
    if Enabled(s, e) {
      match e
      case Progress(w, workerToken, j, token, u) => ProgressIsCalm(s, w, workerToken, j, token, u);
      case Touch(j, token) => AuthorizedJobIsCalm(s, j, token);
      case FailUpload(j) => FailIsCalm(s, j);
      case End(j, completed) => FinishIsCalm(cfg, s, j, completed);
      case Cleanup(j, completed) => CleanupIsCalm(cfg, s, j, completed);
      case _ =>
    }
  }

  lemma CleanupIsCalm(cfg: Settings, s: State, j: JobId, completed: bool)
    requires j in s.store
    ensures AllCalm(s, Finish(cfg, Fail(s, j), j, completed))
  {
    FailIsCalm(s, j);
    FinishIsCalm(cfg, Fail(s, j), j, completed);
  }

  /** Every step either leaves a job calm, or grants it its first lease, or settles it for its lease holder. */
  lemma StepEffect(cfg: Settings, s: State, e: Event, j: JobId)
    requires Sound(s, {})
    ensures var t := Step(cfg, s, e);
      if j in s.store then
        j in t.store && (Calm(s.store[j], t.store[j]) || Granted(s, e, t, j) || Won(s, e, t, j))
      else
        j in t.store ==> t.store[j] == NewJob(t.store[j].request)
  {
    if e.PollFor? { PollEffect(cfg, s, e, j); }
    else if e.Complete? || e.Upload? { SoundMeansPending(s); CompletionEffect(cfg, s, e, j); }
    else if !e.Start? { OtherStepsAreCalm(cfg, s, e); }
  }

  /** A value reaches the owner only from the worker that holds the unexpired lease of the job. */
  lemma OnlyTheHolderSettles(cfg: Settings, now: real, events: seq<Event>, e: Event, j: JobId)
    ensures var s := Run(cfg, Init(now), events);
      var t := Step(cfg, s, e);
      j in s.store && j in t.store && NewResult(s, t, j) && t.store[j].result != Resolved(None) ==> Won(s, e, t, j)
  {
    RunsAreSound(cfg, now, events);
    var s := Run(cfg, Init(now), events);
    StepEffect(cfg, s, e, j);
  }

  predicate NewLease(s: State, t: State, j: JobId) {
    j in t.store && t.store[j].lease.Some? && (j !in s.store || s.store[j].lease != t.store[j].lease)
  }

  predicate NewResult(s: State, t: State, j: JobId) {
    j in t.store && t.store[j].result.Resolved? && (j !in s.store || s.store[j].result != t.store[j].result)
  }

  /** In how many steps of a run job j gets a lease. */
  function Leases(cfg: Settings, s: State, events: seq<Event>, j: JobId): nat {
    if events == [] then 0
    else
      var front := events[..|events| - 1];
      Leases(cfg, s, front, j) + (if NewLease(Run(cfg, s, front), Run(cfg, s, events), j) then 1 else 0)
  }

  /** In how many steps of a run the result of job j is set. */
  function Results(cfg: Settings, s: State, events: seq<Event>, j: JobId): nat {
    if events == [] then 0
    else
      var front := events[..|events| - 1];
      Results(cfg, s, front, j) + (if NewResult(Run(cfg, s, front), Run(cfg, s, events), j) then 1 else 0)
  }

  lemma {:induction false} CountsMatchHistory(cfg: Settings, now: real, events: seq<Event>, j: JobId)
    ensures var s := Run(cfg, Init(now), events);
      && Leases(cfg, Init(now), events, j) == (if j in s.store then s.store[j].grants else 0)
      && Results(cfg, Init(now), events, j) == (if j in s.store && s.store[j].result.Resolved? then 1 else 0)
    decreases |events|
  {
    if events != [] {
      var front, e := events[..|events| - 1], events[|events| - 1];
      CountsMatchHistory(cfg, now, front, j);
      RunsAreSound(cfg, now, front);
      var s := Run(cfg, Init(now), front);
      StepEffect(cfg, s, e, j);
    }
  }

  /** Over any run, whatever the interleaving, a job is leased at most once and its result is set at most once; a job
      that is leased is still pending, and no step ever sets a result twice. */
  lemma LeasedOnceResolvedOnce(cfg: Settings, now: real, events: seq<Event>, j: JobId)
    ensures Leases(cfg, Init(now), events, j) <= 1
    ensures Results(cfg, Init(now), events, j) <= 1
    ensures var s := Run(cfg, Init(now), events);
      !s.faulted && (j in s.store && s.store[j].lease.Some? ==> s.store[j].result == Pending)
  {
    CountsMatchHistory(cfg, now, events, j);
    RunsAreSound(cfg, now, events);
    var s := Run(cfg, Init(now), events);
    if j in s.store { assert JobSound(s.store[j]); }
  }
}
