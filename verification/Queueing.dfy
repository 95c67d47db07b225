/** The order of the waiting jobs, and when an owner that waits is woken. */
module Queueing {
  import opened Basics
  import opened Lease
  import opened LeaseSafety
  import opened LeaseTheorems

  /** The jobs sent to the swarm in a run, in the order in which they were sent. */
  function Sent(cfg: Settings, s: State, events: seq<Event>): seq<JobId> {
    if events == [] then []
    else
      var front, e := events[..|events| - 1], events[|events| - 1];
      Sent(cfg, s, front) + (if e.GoToSwarm? && Enabled(Run(cfg, s, front), e) then [e.j] else [])
  }

  /** What is left of a list when only the members of a set stay. */
  function Those(list: seq<JobId>, wanted: set<JobId>): seq<JobId> {
    if list == [] then []
    else
      var front, last := list[..|list| - 1], list[|list| - 1];
      Those(front, wanted) + (if last in wanted then [last] else [])
  }

  /** The live jobs in phase `queued`. */
  function Queued(s: State): set<JobId> {
    set j | j in s.live && j in s.store && s.store[j].phase == Phase.Queued
  }

  lemma {:induction false} ThoseAgree(list: seq<JobId>, a: set<JobId>, b: set<JobId>)
    requires forall j | j in list :: j in a <==> j in b
    ensures Those(list, a) == Those(list, b)
  {
    if list != [] {
      assert list[|list| - 1] in list;
      ThoseAgree(list[..|list| - 1], a, b);
    }
  }

  lemma {:induction false} ThoseMembers(list: seq<JobId>, wanted: set<JobId>)
    ensures forall j :: j in Those(list, wanted) <==> j in list && j in wanted
  {
    if list != [] {
      assert list == list[..|list| - 1] + [list[|list| - 1]];
      ThoseMembers(list[..|list| - 1], wanted);
    }
  }

  lemma {:induction false} WithoutLast(s: seq<JobId>, last: JobId, x: JobId)
    ensures Without(s + [last], x) == if x in s then Without(s, x) + [last] else if x == last then s else s + [last]
  {
    if s != [] {
      assert (s + [last])[1..] == s[1..] + [last];
      if s[0] != x { WithoutLast(s[1..], last, x); }
    }
  }

  /** Taking one member out of the set takes it out of the list. */
  lemma {:induction false} ThoseWithout(list: seq<JobId>, wanted: set<JobId>, x: JobId)
    requires Distinct(list)
    ensures Those(list, wanted - {x}) == Without(Those(list, wanted), x)
  {
    if list != [] {
      var front, last := list[..|list| - 1], list[|list| - 1];
      ThoseWithout(front, wanted, x);
      ThoseMembers(front, wanted);
      if last in wanted { WithoutLast(Those(front, wanted), last, x); }
      if last == x { assert x !in front; }
      if x !in Those(front, wanted) { AbsentIsNotTaken(Those(front, wanted), x); }
      assert Those(front, wanted) + [] == Those(front, wanted);
    }
  }

  lemma {:induction false} AbsentIsNotTaken(s: seq<JobId>, x: JobId)
    requires x !in s
    ensures Without(s, x) == s
  {
    if s != [] { AbsentIsNotTaken(s[1..], x); }
  }

  lemma WaitingAreQueued(s: State)
    requires Sound(s, {})
    ensures forall j :: j in s.waiting <==> j in Queued(s)
    ensures Distinct(s.waiting)
  {
    forall j | j in s.waiting ensures j in Queued(s) { assert Waits(s, j); }
  }

  // ---------------------------------------------------------------- one step

  /** The queue stays, or loses one job. */
  ghost predicate LosesOne(s: State, t: State) {
    t.waiting == s.waiting || exists x :: t.waiting == Without(s.waiting, x)
  }

  lemma PollLosesOne(cfg: Settings, s: State, e: Event)
    requires Sound(s, {}) && e.PollFor?
    ensures LosesOne(s, Step(cfg, s, e))
  {
    if Authentic(s, e.w, e.workerToken) {
      var t := Seen(s, e.w);
      if t.workers[e.w].job == None {
        assert forall i | 0 <= i < |t.waiting| :: t.waiting[i] in t.waiting && Waits(s, t.waiting[i]);
        var k := ScanFindsFirst(cfg, t, e.w, e.minted, t.waiting);
      }
    }
  }

  lemma WorkerJobLosesNone(s: State, w: WorkerId, workerToken: Token, j: JobId, token: Token)
    ensures AuthorizedJob(s, j, token).0.waiting == s.waiting
    ensures var (t, a) := WorkerJob(s, w, workerToken, j, token);
      t.waiting == s.waiting && (a == Ok ==> t == s && j in s.store)
  {
    AuthorizedJobPassesOrFails(s, j, token);
  }

  lemma CompletionLosesNone(s: State, e: Event)
    requires e.Complete? || e.Upload?
    ensures e.Complete? ==> CompleteJson(s, e.w, e.workerToken, e.j, e.token, e.body).0.waiting == s.waiting
    ensures e.Upload? ==> CompleteUpload(s, e.w, e.workerToken, e.j, e.token, e.value).0.waiting == s.waiting
  {
    WorkerJobLosesNone(s, e.w, e.workerToken, e.j, e.token);
  }

  lemma RoutesLoseNone(cfg: Settings, s: State, e: Event)
    requires e.Touch? || e.Progress? || e.Complete? || e.Upload? || e.FailUpload?
    ensures Step(cfg, s, e).waiting == s.waiting
  {
    if e.Complete? || e.Upload? { CompletionLosesNone(s, e); }
    else if e.Progress? { WorkerJobLosesNone(s, e.w, e.workerToken, e.j, e.token); }
    else if e.Touch? { AuthorizedJobPassesOrFails(s, e.j, e.token); }
  }

  lemma StepLosesOne(cfg: Settings, s: State, e: Event)
    requires Sound(s, {}) && !(e.GoToSwarm? && Enabled(s, e))
    ensures LosesOne(s, Step(cfg, s, e))
  {
    if e.PollFor? {
      PollLosesOne(cfg, s, e);
    } else if e.Touch? || e.Progress? || e.Complete? || e.Upload? || e.FailUpload? {
      RoutesLoseNone(cfg, s, e);
    }
  }

  // ---------------------------------------------------------------- whole runs

  /** What was sent is distinct and no longer with the official backends. */
  ghost predicate SentSound(s: State, sent: seq<JobId>) {
    Distinct(sent) && forall j | j in sent :: j in s.store && s.store[j].owner != Official
  }

  lemma StepKeepsSent(cfg: Settings, s: State, e: Event, sent: seq<JobId>)
    requires Sound(s, {}) && SentSound(s, sent)
    ensures SentSound(Step(cfg, s, e), sent + (if e.GoToSwarm? && Enabled(s, e) then [e.j] else []))
  {
    forall j | j in sent ensures j in Step(cfg, s, e).store && Step(cfg, s, e).store[j].owner != Official {
      StepEffect(cfg, s, e, j);
    }
  }

  lemma OneMoreLost(s: State, t: State, sent: seq<JobId>)
    requires Sound(s, {}) && Sound(t, {}) && Distinct(sent)
    requires s.waiting == Those(sent, Queued(s)) && LosesOne(s, t)
    ensures t.waiting == Those(sent, Queued(t))
  {
    WaitingAreQueued(s);
    WaitingAreQueued(t);
    if t.waiting == s.waiting {
      ThoseAgree(sent, Queued(s), Queued(t));
    } else {
      var x :| t.waiting == Without(s.waiting, x);
      WithoutMembers(s.waiting, x);
      ThoseWithout(sent, Queued(s), x);
      ThoseAgree(sent, Queued(s) - {x}, Queued(t));
    }
  }

  lemma OneMoreSent(s: State, j: JobId, sent: seq<JobId>)
    requires Sound(s, {}) && SentSound(s, sent) && j in s.store && s.store[j].owner == Official
    requires s.waiting == Those(sent, Queued(s))
    ensures var t := QueueForSwarm(s, j); t.waiting == Those(sent + [j], Queued(t))
  {
    var t := QueueForSwarm(s, j);
    assert j in t.live;
    assert (sent + [j])[..|sent|] == sent;
    ThoseAgree(sent, Queued(s), Queued(t));
  }

  lemma OneMoreStep(cfg: Settings, s: State, e: Event, sent: seq<JobId>)
    requires Sound(s, {}) && SentSound(s, sent) && s.waiting == Those(sent, Queued(s))
    ensures var t := Step(cfg, s, e);
      t.waiting == Those(sent + (if e.GoToSwarm? && Enabled(s, e) then [e.j] else []), Queued(t))
  {
    if e.GoToSwarm? && Enabled(s, e) {
      OneMoreSent(s, e.j, sent);
    } else {
      StepKeeps(cfg, s, e);
      StepLosesOne(cfg, s, e);
      OneMoreLost(s, Step(cfg, s, e), sent);
      assert sent + [] == sent;
    }
  }

  lemma {:induction false} WaitingIsInOrder(cfg: Settings, now: real, events: seq<Event>)
    ensures var s := Run(cfg, Init(now), events);
      var sent := Sent(cfg, Init(now), events);
      SentSound(s, sent) && s.waiting == Those(sent, Queued(s))
    decreases |events|
  {
    if events != [] {
      var front, e := events[..|events| - 1], events[|events| - 1];
      WaitingIsInOrder(cfg, now, front);
      RunsAreSound(cfg, now, front);
      var s, sent := Run(cfg, Init(now), front), Sent(cfg, Init(now), front);
      StepKeepsSent(cfg, s, e, sent);
      OneMoreStep(cfg, s, e, sent);
    }
  }

  /** In every reachable state the deque holds the live queued jobs in the order in which they were sent to the
      swarm. */
  lemma TheQueueIsFirstInFirstOut(cfg: Settings, now: real, events: seq<Event>, a: nat, b: nat)
    requires a < b < |Run(cfg, Init(now), events).waiting|
    ensures var s := Run(cfg, Init(now), events);
      var sent := Sent(cfg, Init(now), events);
      && Distinct(sent) && s.waiting == Those(sent, Queued(s))
      && exists i, k | 0 <= i < k < |sent| :: sent[i] == s.waiting[a] && sent[k] == s.waiting[b]
  {
    WaitingIsInOrder(cfg, now, events);
    var s := Run(cfg, Init(now), events);
    var i, k := PlacesRise(Sent(cfg, Init(now), events), Queued(s), a, b);
  }

  lemma {:induction false} PlacesRise(list: seq<JobId>, wanted: set<JobId>, a: nat, b: nat) returns (i: nat, k: nat)
    requires a < b < |Those(list, wanted)|
    ensures i < k < |list| && list[i] == Those(list, wanted)[a] && list[k] == Those(list, wanted)[b]
  {
    var front := list[..|list| - 1];
    if b < |Those(front, wanted)| {
      i, k := PlacesRise(front, wanted, a, b);
    } else {
      ThoseMembers(front, wanted);
      assert Those(front, wanted)[a] in front;
      i :| 0 <= i < |front| && front[i] == Those(front, wanted)[a];
      k := |list| - 1;
    }
  }

  // ---------------------------------------------------------------- waking the owner

  ghost predicate WokenWhenDue(job: Job) {
    job.leased <==> job.grants > 0 || job.result.Resolved?
  }

  /** In every reachable state the event on which an owner waits is set exactly when its job has been leased or
      resolved. */
  lemma {:induction false} OwnersAreWokenExactlyWhenDue(cfg: Settings, now: real, events: seq<Event>, j: JobId)
    ensures var s := Run(cfg, Init(now), events); j in s.store ==> WokenWhenDue(s.store[j])
    decreases |events|
  {
    if events != [] {
      var front, e := events[..|events| - 1], events[|events| - 1];
      OwnersAreWokenExactlyWhenDue(cfg, now, front, j);
      RunsAreSound(cfg, now, front);
      var s := Run(cfg, Init(now), front);
      StepEffect(cfg, s, e, j);
      if j in s.store { assert JobSound(s.store[j]); }
    }
  }
}
