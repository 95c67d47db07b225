/** The coordinator object: methods that update its tables in place, each proved against the step it implements. */
module CoordinatorObject {
  import opened Basics
  import opened Memory
  import opened Lease
  import opened LeaseSafety

  datatype Status = Unknown | Hidden | Active(phase: Phase, position: nat, queued: nat) | Done(queued: nat)

  /** A request without an owner is known to all, others to whoever presents the owner's token. */
  predicate MayKnow(owner: Option<nat>, presented: Option<nat>) {
    owner == None || owner == presented
  }

  /** The id is remembered, without an owner or for the one that asks. */
  predicate MayKnowCompleted(completed: seq<Finished>, r: RequestId, presented: Option<nat>) {
    exists i | 0 <= i < |completed| ::
      completed[i].id == r && (completed[i].note == None || completed[i].note == presented)
  }

  lemma FinishKeepsIfSound(cfg: Settings, s: State, j: JobId, done: bool)
    requires j in s.store
    ensures Sound(s, {j}) && s.store[j].owner != Ended ==> Sound(Lease.Finish(cfg, s, j, done), {})
  {
    if Sound(s, {j}) && s.store[j].owner != Ended {
      FinishKeeps(cfg, s, j, done, {j});
      assert {j} - {j} == {};
    }
  }

  lemma PollKeepsIfSound(cfg: Settings, s: State, w: WorkerId, workerToken: Token, minted: Token)
    ensures Sound(s, {}) ==> Sound(Poll(cfg, s, w, workerToken, minted).0, {})
  {
    if Sound(s, {}) { PollKeeps(cfg, s, w, workerToken, minted); }
  }

  class Coordinator {
    const settings: Settings
    var now: real
    var store: map<JobId, Job>
    var live: set<JobId>
    var byRequest: map<RequestId, JobId>
    var waiting: seq<JobId>
    var workers: map<WorkerId, Worker>
    var completed: seq<Finished>
    var faulted: bool

    ghost function View(): State
      reads this
    {
      State(now, store, live, byRequest, waiting, workers, completed, faulted)
    }

    constructor (settings: Settings, now: real)
      ensures View() == Init(now) && this.settings == settings && Sound(View(), {})
    {
      this.settings, this.now := settings, now;
      store, live, byRequest, waiting, workers, completed, faulted := map[], {}, map[], [], map[], [], false;
    }

    method Prune()
      modifies this`workers, this`completed
      ensures View() == Lease.Prune(settings, old(View()))
      ensures forall w :: w in workers <==>
          w in old(workers)
          && (old(workers)[w].job.Some? || now - old(workers)[w].lastSeen <= settings.idleSeconds)
      ensures forall w | w in workers :: workers[w] == old(workers)[w]
    {
      var todo := workers.Keys;
      while todo != {}
        invariant todo <= workers.Keys <= old(workers).Keys
        invariant forall w | w in old(workers) ::
          w in workers <==> w in todo || !Idle(settings, now, old(workers)[w])
        invariant forall w | w in workers :: workers[w] == old(workers)[w]
        invariant completed == old(completed)
        decreases todo
      {
        var w :| w in todo;
        if workers[w].job == None && now - workers[w].lastSeen > settings.idleSeconds {
          workers := workers - {w};
        }
        todo := todo - {w};
      }
      assert workers == Lease.Prune(settings, old(View())).workers;
      while completed != []
        invariant Pruned(completed, now, MAX_COMPLETED) == Pruned(old(completed), now, MAX_COMPLETED)
        invariant workers == Lease.Prune(settings, old(View())).workers
        decreases |completed|
      {
        if completed[0].expiry > now && |completed| <= MAX_COMPLETED { break; }
        completed := completed[1..];
      }
    }

    method Enqueue(j: JobId, request: Request) returns (registered: bool)
      requires j !in store
      modifies this
      ensures (View(), registered) == Lease.Enqueue(settings, old(View()), j, request)
      ensures old(Sound(View(), {})) ==> Sound(View(), {})
    {
      ghost var before := View();
      Prune();
      if request.requestId in byRequest || exists i | 0 <= i < |completed| :: completed[i].id == request.requestId {
        registered := false;
      } else {
        store := store[j := NewJob(request)];
        live := live + {j};
        byRequest := byRequest[request.requestId := j];
        registered := true;
      }
      assert IsCompleted(completed, request.requestId) <==>
        exists i | 0 <= i < |completed| :: completed[i].id == request.requestId;
      if Sound(before, {}) { EnqueueKeeps(settings, before, j, request); }
    }

    method QueueForSwarm(j: JobId)
      requires j in store
      modifies this`store, this`waiting
      ensures View() == Lease.QueueForSwarm(old(View()), j)
    {
      store := store[j := store[j].(phase := Queued, owner := Swarm)];
      waiting := waiting + [j];
    }

    method Release(j: JobId)
      requires j in store
      modifies this`store, this`workers
      ensures View() == Lease.Release(old(View()), j)
    {
      if store[j].lease.Some? {
        var w := store[j].lease.value.worker;
        if w in workers && workers[w].job == Some(j) {
          workers := workers[w := workers[w].(lastSeen := now, job := None)];
        }
      }
      store := store[j := store[j].(lease := None)];
    }

    method SetResult(j: JobId, value: Option<Value>)
      requires j in store
      modifies this`store, this`faulted
      ensures View() == Lease.SetResult(old(View()), j, value)
    {
      if store[j].result == Pending {
        store := store[j := store[j].(result := Resolved(value), resolutions := store[j].resolutions + 1)];
      } else {
        faulted := true;
      }
    }

    method Fail(j: JobId)
      requires j in store
      modifies this`store, this`workers, this`faulted
      ensures View() == Lease.Fail(old(View()), j)
    {
      Release(j);
      if store[j].result == Pending { SetResult(j, None); }
      store := store[j := store[j].(leased := true)];
    }

    method Finish(j: JobId, done: bool)
      requires j in store
      modifies this
      ensures View() == Lease.Finish(settings, old(View()), j, done)
      ensures old(Sound(View(), {j})) && old(store)[j].owner != Ended ==> Sound(View(), {})
    {
      ghost var before := View();
      Release(j);
      var request := store[j].request;
      store := store[j := store[j].(owner := Ended)];
      live := live - {j};
      byRequest := byRequest - {request.requestId};
      waiting := Without(waiting, j);
      if done {
        completed := Remember(completed, Remembered(request.requestId, now + COMPLETED_SECONDS, request.ownerDigest));
      }
      Prune();
      FinishKeepsIfSound(settings, before, j, done);
    }

    /** The lease route: one pass over a snapshot of the queue. */
    method PollForJob(w: WorkerId, workerToken: Token, minted: Token) returns (answer: Answer)
      modifies this
      ensures (View(), answer) == Poll(settings, old(View()), w, workerToken, minted)
      ensures old(Sound(View(), {})) ==> Sound(View(), {})
    {
      ghost var before := View();
      PollKeepsIfSound(settings, before, w, workerToken, minted);
      if w !in workers || workers[w].token != workerToken { return Unauthorized; }
      workers := workers[w := workers[w].(lastSeen := now, lastPoll := Some(now))];
      if workers[w].job.Some? { return NoContent; }
      answer := ScanQueue(w, minted);
    }

    /** The loop over the snapshot, which takes dead jobs off the queue and leases the first that suits. */
    method ScanQueue(w: WorkerId, minted: Token) returns (answer: Answer)
      requires w in workers
      modifies this`waiting, this`workers, this`store
      ensures (View(), answer) == Scan(settings, old(View()), w, minted, old(waiting))
    {
      ghost var before := View();
      var snapshot, i := waiting, 0;
      while i < |snapshot|
        invariant i <= |snapshot| && w in workers
        invariant Scan(settings, View(), w, minted, snapshot[i..]) == Scan(settings, before, w, minted, snapshot)
      {
        var j := snapshot[i];
        assert snapshot[i..][0] == j && snapshot[i..][1..] == snapshot[i + 1..];
        if j !in live || j !in store || store[j].result != Pending {
          waiting := Without(waiting, j);
        } else if workers[w].Accepts(store[j].request) && !PrefersOtherWorker(w, store[j]) {
          waiting := Without(waiting, j);
          workers := workers[w := workers[w].(job := Some(j))];
          store := store[j := store[j].(
            lease := Some(Grant(w, minted, now + settings.leaseSeconds, now)),
            phase := Running, leased := true, grants := store[j].grants + 1)];
          return Leased(j);
        }
        i := i + 1;
      }
      return NoContent;
    }

    predicate PrefersOtherWorker(w: WorkerId, job: Job)
      reads this
      requires w in workers
      ensures PrefersOtherWorker(w, job) == Prefers(View(), w, job, now)
    {
      exists c | c in workers ::
        && c != w
        && workers[c].job == None
        && workers[c].lastPoll.Some?
        && now - workers[c].lastPoll.value <= RECENT_POLL
        && workers[c].Score(job.request.operation) > workers[w].Score(job.request.operation)
        && workers[c].Accepts(job.request)
    }

    method AuthorizedJob(j: JobId, token: Token) returns (answer: Answer)
      modifies this`store, this`workers, this`faulted
      ensures (View(), answer) == Lease.AuthorizedJob(old(View()), j, token)
    {
      if j !in live || j !in store || store[j].lease == None { return NotFound; }
      if store[j].lease.value.token != token { return Forbidden; }
      if now >= store[j].lease.value.deadline {
        Fail(j);
        return NotFound;
      }
      return Ok;
    }

    method WorkerJob(w: WorkerId, workerToken: Token, j: JobId, token: Token) returns (answer: Answer)
      modifies this`store, this`workers, this`faulted
      ensures (View(), answer) == Lease.WorkerJob(old(View()), w, workerToken, j, token)
    {
      if w !in workers || workers[w].token != workerToken { return Unauthorized; }
      answer := AuthorizedJob(j, token);
      if answer == Ok && store[j].lease.value.worker != w { answer := Forbidden; }
    }

    method RecordSuccess(j: JobId)
      requires j in store
      modifies this`workers
      ensures View() == Lease.RecordSuccess(old(View()), j)
    {
      if store[j].lease.Some? && store[j].lease.value.worker in workers {
        var w := store[j].lease.value.worker;
        workers := workers[w := workers[w].(
          throughput := Recorded(workers[w].throughput, store[j].request, now - store[j].lease.value.started))];
      }
    }

    /** The end of a multipart completion; the result is set without looking whether it is set already. */
    method CompleteUpload(w: WorkerId, workerToken: Token, j: JobId, token: Token, value: Value)
      returns (answer: Answer)
      modifies this
      ensures (View(), answer) == Lease.CompleteUpload(old(View()), w, workerToken, j, token, value)
      ensures old(Sound(View(), {})) ==> Sound(View(), {}) && !faulted
    {
      ghost var before := View();
      if Sound(before, {}) { CompleteUploadKeeps(before, w, workerToken, j, token, value); }
      answer := WorkerJob(w, workerToken, j, token);
      if answer == Ok {
        RecordSuccess(j);
        Release(j);
        SetResult(j, Some(value));
      }
    }

    method CompleteJson(w: WorkerId, workerToken: Token, j: JobId, token: Token, body: Outcome)
      returns (answer: Answer)
      modifies this
      ensures (View(), answer) == Lease.CompleteJson(old(View()), w, workerToken, j, token, body)
      ensures old(Sound(View(), {})) ==> Sound(View(), {})
    {
      ghost var before := View();
      if Sound(before, {}) { CompleteJsonKeeps(before, w, workerToken, j, token, body); }
      answer := WorkerJob(w, workerToken, j, token);
      if answer != Ok { return; }
      if body == WorkerError {
        Fail(j);
      } else if store[j].request.operation == Enhance || body == BadResult {
        Fail(j);
        answer := Unprocessable;
      } else {
        RecordSuccess(j);
        Release(j);
        if store[j].result == Pending { SetResult(j, Some(body.value)); }
      }
    }

    /** What a requester may see; in a sound state a queued job is found at its place in the queue. */
    method StatusOf(r: RequestId, digest: Option<nat>) returns (status: Status)
      requires Sound(View(), {})
      modifies this`workers, this`completed
      ensures View() == Lease.Prune(settings, old(View())) && Sound(View(), {})
      ensures status.Active? <==>
          r in byRequest && store[byRequest[r]].request.ownerDigest in {None, digest}
      ensures status.Active? ==> status.phase == store[byRequest[r]].phase && status.queued == |waiting|
      ensures status.Active? && status.phase == Queued ==>
        1 <= status.position <= |waiting| && waiting[status.position - 1] == byRequest[r]
      ensures status.Active? && status.phase == Running ==> status.position == 0 && byRequest[r] !in waiting
      ensures status.Done? <==> r !in byRequest && MayKnowCompleted(completed, r, digest)
      ensures status.Done? ==> status.queued == |waiting|
      ensures status == Unknown <==> r !in byRequest && !IsCompleted(completed, r)
    {
      PruneKeeps(settings, View(), {});
      Prune();
      if r in byRequest {
        var j := byRequest[r];
        var owner := store[j].request.ownerDigest;
        if !MayKnow(owner, digest) { return Hidden; }
        var position := 0;
        if store[j].phase == Queued {
          assert j in waiting;
          var i := 0;
          while i < |waiting| && waiting[i] != j
            invariant i <= |waiting| && j !in waiting[..i]
          {
            i := i + 1;
          }
          if i < |waiting| { position := i + 1; }
        }
        return Active(store[j].phase, position, |waiting|);
      }
      var i := 0;
      while i < |completed| && completed[i].id != r
        invariant i <= |completed| && forall k | 0 <= k < i :: completed[k].id != r
      {
        i := i + 1;
      }
      if i == |completed| { return Unknown; }
      assert forall k | 0 <= k < |completed| && completed[k].id == r :: k == i;
      if !MayKnow(completed[i].note, digest) { return Hidden; }
      return Done(|waiting|);
    }
  }
}
