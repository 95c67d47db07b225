/** Deferring to a faster worker never leaves a job without a taker. */
module Preference {
  import opened Basics
  import opened Lease
  import opened LeaseSafety

  /** The worker does that operation, takes a lease of that size and, for an enhancement, runs the very model asked for
      and is not the client that asks. */
  predicate CanDo(worker: Worker, r: Request) {
    && r.operation in worker.operations
    && r.leaseBytes <= worker.maxLeaseBytes
    && (r.operation == Enhance ==>
          && worker.model == Some(r.payload.model)
          && !(worker.clientId.Some? && worker.clientId == r.payload.clientId))
  }

  /** An idle worker that can do the job and polled within the last three seconds. */
  predicate Ready(s: State, w: WorkerId, j: JobId) {
    && w in s.workers && j in s.store
    && s.workers[w].job == None
    && s.workers[w].lastPoll.Some? && s.now - s.workers[w].lastPoll.value <= 3.0
    && CanDo(s.workers[w], s.store[j].request)
  }

  /** By its record of successes in that operation; a worker without one counts as rate zero. */
  predicate Faster(a: Worker, b: Worker, operation: Operation) {
    var rate := if operation in b.throughput then b.throughput[operation] else 0.0;
    (if operation in a.throughput then a.throughput[operation] else 0.0) > rate
  }

  /** A worker is given a job exactly when it can do it and no strictly faster worker is ready for it. */
  lemma DeferredExactlyForAFasterReadyWorker(s: State, w: WorkerId, j: JobId)
    requires w in s.workers && j in s.store
    ensures Suits(s, w, j) <==>
      && CanDo(s.workers[w], s.store[j].request)
      && !exists c | c in s.workers ::
          c != w && Ready(s, c, j) && Faster(s.workers[c], s.workers[w], s.store[j].request.operation)
  {
    var operation := s.store[j].request.operation;
    if exists c | c in s.workers :: c != w && Ready(s, c, j) && Faster(s.workers[c], s.workers[w], operation) {
      assert Prefers(s, w, s.store[j], s.now);
    }
    if Prefers(s, w, s.store[j], s.now) {
      var c :| c in s.workers && c != w && s.workers[c].job == None && s.workers[c].lastPoll.Some?
        && s.now - s.workers[c].lastPoll.value <= RECENT_POLL
        && s.workers[c].Score(operation) > s.workers[w].Score(operation)
        && s.workers[c].Accepts(s.store[j].request);
      assert Ready(s, c, j) && Faster(s.workers[c], s.workers[w], operation);
    }
  }

  lemma {:induction false} Fastest(s: State, candidates: set<WorkerId>, operation: Operation) returns (best: WorkerId)
    requires candidates != {} && candidates <= s.workers.Keys
    ensures best in candidates
    ensures forall c | c in candidates :: s.workers[c].Score(operation) <= s.workers[best].Score(operation)
    decreases |candidates|
  {
    var w :| w in candidates;
    if candidates == {w} {
      best := w;
    } else {
      assert candidates - {w} < candidates;
      assert candidates - {w} != {};
      var rest := Fastest(s, candidates - {w}, operation);
      best := if s.workers[w].Score(operation) >= s.workers[rest].Score(operation) then w else rest;
    }
  }

  /** If some ready worker exists for a waiting job, then there is a ready worker whose poll, made at this instant,
      is answered with a job: this one, or one that has waited longer. */
  lemma {:induction false} AReadyWorkerTakesAJob(cfg: Settings, s: State, at: nat, minted: Token)
    requires Sound(s, {}) && at < |s.waiting|
    requires exists w | w in s.workers :: Ready(s, w, s.waiting[at])
    ensures exists w, k | w in s.workers && 0 <= k <= at ::
      && Ready(s, w, s.waiting[at])
      && Poll(cfg, s, w, s.workers[w].token, minted).1 == Leased(s.waiting[k])
  {
    var j := s.waiting[at];
    assert j in s.waiting && Waits(s, j);
    var candidates := set w | w in s.workers && Ready(s, w, j);
    var some :| some in s.workers && Ready(s, some, j);
    assert some in candidates;
    var best := Fastest(s, candidates, s.store[j].request.operation);
    var t := Seen(s, best);
    assert Suits(t, best, j) by {
      DeferredExactlyForAFasterReadyWorker(t, best, j);
      assert forall c | c in t.workers && c != best :: Ready(t, c, j) ==> c in candidates;
    }
    assert forall i | 0 <= i < |t.waiting| :: t.waiting[i] in t.waiting && Waits(s, t.waiting[i]);
    var k := ScanFindsFirst(cfg, t, best, minted, t.waiting);
    assert k <= at;
    assert Poll(cfg, s, best, s.workers[best].token, minted).1 == Leased(s.waiting[k]);
  }

  lemma AssignTakesOne(cfg: Settings, s: State, w: WorkerId, k: nat, token: Token)
    requires Distinct(s.waiting) && k < |s.waiting| && w in s.workers && s.waiting[k] in s.store
    ensures Assign(cfg, s, w, s.waiting[k], token).waiting == s.waiting[..k] + s.waiting[k + 1..]
  {
    assert s.waiting[k] !in s.waiting[..k];
    WithoutSplit(s.waiting[..k], s.waiting[k], s.waiting[k + 1..]);
    assert s.waiting == s.waiting[..k] + [s.waiting[k]] + s.waiting[k + 1..];
  }

  lemma NothingWaitingIsDead(s: State, w: WorkerId)
    requires QueueSound(s, {}) && w in s.workers
    ensures Distinct(s.waiting)
    ensures forall i | 0 <= i < |s.waiting| :: s.waiting[i] in s.store && !Dead(Seen(s, w), s.waiting[i])
  {
    assert forall i | 0 <= i < |s.waiting| :: s.waiting[i] in s.waiting && Waits(s, s.waiting[i]);
  }

  lemma IdlePollScans(cfg: Settings, s: State, w: WorkerId, workerToken: Token, minted: Token)
    requires Authentic(s, w, workerToken) && s.workers[w].job == None
    ensures Poll(cfg, s, w, workerToken, minted) == Scan(cfg, Seen(s, w), w, minted, s.waiting)
  {
  }

  /** A poll by an idle worker takes the earliest waiting job that suits it and nothing else; without one it only
      records that the worker was seen. */
  lemma PollTakesEarliestSuitable(cfg: Settings, s: State, w: WorkerId, workerToken: Token, minted: Token)
    returns (k: nat)
    requires QueueSound(s, {}) && Authentic(s, w, workerToken) && s.workers[w].job == None
    ensures k <= |s.waiting| && forall i | 0 <= i < k :: !Suits(Seen(s, w), w, s.waiting[i])
    ensures var (t, a) := Poll(cfg, s, w, workerToken, minted);
      if k == |s.waiting| then a == NoContent && t == Seen(s, w)
      else && Suits(Seen(s, w), w, s.waiting[k]) && a == Leased(s.waiting[k])
           && t.waiting == s.waiting[..k] + s.waiting[k + 1..]
           && t == Assign(cfg, Seen(s, w), w, s.waiting[k], minted)
  {
    NothingWaitingIsDead(s, w);
    IdlePollScans(cfg, s, w, workerToken, minted);
    k := ScanFindsFirst(cfg, Seen(s, w), w, minted, s.waiting);
    if k < |s.waiting| { AssignTakesOne(cfg, Seen(s, w), w, k, minted); }
  }

  /** A lease handed out by a poll lets its worker, and no other token, through the worker routes for exactly the
      lease time. */
  lemma FreshLeaseHoldsForItsTime(cfg: Settings, s: State, w: WorkerId, workerToken: Token, minted: Token,
                                  token: Token, later: real)
    requires Sound(s, {}) && Poll(cfg, s, w, workerToken, minted).1.Leased?
    ensures var (t, a) := Poll(cfg, s, w, workerToken, minted);
      HoldsLease(t.(now := later), w, workerToken, a.job, token) <==>
      token == minted && later < s.now + cfg.leaseSeconds
  {
    var k := PollTakesEarliestSuitable(cfg, s, w, workerToken, minted);
    var j := s.waiting[k];
    assert Waits(s, j);
    assert Poll(cfg, s, w, workerToken, minted).0 == Assign(cfg, Seen(s, w), w, j, minted);
  }

  /** A completed job of one operation and the time it took. */
  datatype Success = Success(request: Request, elapsed: real) {
    predicate Counts(operation: Operation) {
      request.operation == operation && request.workUnits > 0.0 && elapsed > 0.0
    }

    function Rate(): real
      requires elapsed > 0.0
    {
      request.workUnits / elapsed
    }
  }

  function Learned(scores: map<Operation, real>, successes: seq<Success>): map<Operation, real> {
    if successes == [] then scores
    else
      var n := |successes| - 1;
      Recorded(Learned(scores, successes[..n]), successes[n].request, successes[n].elapsed)
  }

  function Power(base: real, n: nat): real {
    if n == 0 then 1.0 else base * Power(base, n - 1)
  }

  lemma OneMoreSuccess(before: real, rate: real, power: real, start: real)
    requires before - rate == power * (start - rate)
    ensures 0.75 * before + 0.25 * rate - rate == 0.75 * power * (start - rate)
  {
    assert 0.75 * (before - rate) == 0.75 * (power * (start - rate)) == 0.75 * power * (start - rate);
  }

  /** A worker that keeps up one rate has a score that approaches it: every success takes away a quarter of the
      distance that is left. */
  lemma {:induction false} ScoresApproachTheRate(scores: map<Operation, real>, operation: Operation,
                                                 successes: seq<Success>, rate: real)
    requires operation in scores
    requires forall k | 0 <= k < |successes| :: successes[k].Counts(operation) && successes[k].Rate() == rate
    ensures var after := Learned(scores, successes);
      && operation in after
      && after[operation] - rate == Power(0.75, |successes|) * (scores[operation] - rate)
  {
    if successes != [] {
      var n := |successes| - 1;
      ScoresApproachTheRate(scores, operation, successes[..n], rate);
      assert successes[n].Counts(operation) && successes[n].Rate() == rate;
      OneMoreSuccess(Learned(scores, successes[..n])[operation], rate, Power(0.75, n), scores[operation]);
    }
  }

  /** However rates vary, the score stays between the slowest and the fastest of them once the first has set it. */
  lemma {:induction false} ScoresStayAmongTheRates(operation: Operation, successes: seq<Success>, lo: real, hi: real)
    requires successes != []
    requires forall k | 0 <= k < |successes| :: successes[k].Counts(operation) && lo <= successes[k].Rate() <= hi
    ensures var after := Learned(map[], successes); operation in after && lo <= after[operation] <= hi
  {
    var n := |successes| - 1;
    assert successes[n].Counts(operation) && lo <= successes[n].Rate() <= hi;
    if n > 0 { ScoresStayAmongTheRates(operation, successes[..n], lo, hi); }
  }
}
