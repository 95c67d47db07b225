/** Temporary audio of enhancement requests: volunteers' downloads and uploads against the owner's cleanup and against
    the finalizer of `TemporaryDirectory`, which removes what a cancelled cleanup left behind.

    Draft and transcribe requests share the admission counter; here they are owners that never make a directory. */
module EnhancementIo {
  import opened Basics
  import L = Lease
  import P = EnhancementProgress
  import opened LeaseSafety
  import T = LeaseTheorems

  type OwnerId = nat
  type TaskId = nat

  datatype Directory = Absent | Present | Removed

  /** Cleanup waits for `io_lock` between its two spans. */
  datatype Cleanup = NotBegun | Waiting | Over

  /** One `/v1/enhance` request; `returned` counts how often it gave its admission slot back. */
  datatype Owner = Owner(job: Option<L.JobId>, directory: Directory, cleanup: Cleanup, returned: nat)

  /** A volunteer's handler: waiting for `io_lock`, inside it after the re-check, or finished. */
  datatype Place = Outside | Inside | Gone

  datatype Task = Task(job: L.JobId, token: L.Token, place: Place)

  /** `ownerOf` maps each enhancement job ever created to its request, `locks` each held `io_lock` to its holder. */
  datatype State = State(
    lease: L.State, owners: map<OwnerId, Owner>, ownerOf: map<L.JobId, OwnerId>, tasks: map<TaskId, Task>,
    locks: map<L.JobId, TaskId>, inflight: int)

  datatype Event =
    | Protocol(step: L.Event)
    | Admit(o: OwnerId)
    | MakeDirectory(o: OwnerId)
    | CreateJob(o: OwnerId, j: L.JobId)
    | EnqueueJob(o: OwnerId, request: L.Request)
    | Arrive(t: TaskId, j: L.JobId, token: L.Token)
    | Enter(t: TaskId)
    | Commit(t: TaskId, w: L.WorkerId, workerToken: L.Token, value: L.Value)
    | Abort(t: TaskId)
    | Leave(t: TaskId)
    | BeginCleanup(o: OwnerId, completed: bool)
    | FinishCleanup(o: OwnerId)
    | CancelCleanup(o: OwnerId)
    | Finalize(o: OwnerId)

  function Init(now: real): State {
    State(L.Init(now), map[], map[], map[], map[], 0)
  }

  /** Protocol steps that belong to no enhancement request: its own spans and its uploads are events of their own. */
  predicate Free(s: State, step: L.Event) {
    match step
    case Start(j, request) => j !in s.ownerOf && request.operation != L.Enhance
    case End(j, _) => j !in s.ownerOf
    case Cleanup(j, _) => j !in s.ownerOf
    case GoToSwarm(j) => j in s.ownerOf ==> s.ownerOf[j] in s.owners && s.owners[s.ownerOf[j]].cleanup == NotBegun
    case Upload(_, _, _, _, _) => false
    case FailUpload(_) => false
    case _ => true
  }

  predicate Enabled(limit: nat, s: State, e: Event) {
    match e
    case Protocol(step) => Free(s, step)
    case Admit(o) => o !in s.owners && s.inflight < limit
    case MakeDirectory(o) => o in s.owners && s.owners[o].directory == Absent && s.owners[o].cleanup == NotBegun
    case CreateJob(o, j) =>
      && o in s.owners && s.owners[o].job == None && s.owners[o].directory == Present && s.owners[o].cleanup == NotBegun
      && j !in s.ownerOf && j !in s.lease.store
    case EnqueueJob(o, request) =>
      && o in s.owners && s.owners[o].job.Some? && s.owners[o].cleanup == NotBegun
      && s.owners[o].job.value !in s.lease.store && request.operation == L.Enhance
    case Arrive(t, j, _) => t !in s.tasks && j in s.ownerOf
    case Enter(t) => t in s.tasks && s.tasks[t].place == Outside && s.tasks[t].job !in s.locks
    case Commit(t, _, _, _) => t in s.tasks && s.tasks[t].place == Inside
    case Abort(t) => t in s.tasks && s.tasks[t].place == Inside && s.tasks[t].job in s.lease.store
    case Leave(t) => t in s.tasks && s.tasks[t].place != Gone
    case BeginCleanup(o, _) => o in s.owners
    case FinishCleanup(o) =>
      && o in s.owners && s.owners[o].cleanup == Waiting && s.owners[o].job.Some?
      && s.owners[o].job.value !in s.locks
    case CancelCleanup(o) => o in s.owners && s.owners[o].cleanup == Waiting
    case Finalize(o) => o in s.owners && s.owners[o].cleanup == Over && s.owners[o].directory == Present
  }

  function GiveBack(s: State, o: OwnerId, directory: Directory): State
    requires o in s.owners
  {
    s.(owners := s.owners[o := s.owners[o].(cleanup := Over, directory := directory,
                                                     returned := s.owners[o].returned + 1)],
       inflight := s.inflight - 1)
  }

  function Filed(s: State, o: OwnerId, j: L.JobId): State
    requires o in s.owners
  {
    s.(owners := s.owners[o := s.owners[o].(job := Some(j))], ownerOf := s.ownerOf[j := o])
  }

  /** What `cleanup` does to the owner once the job is off the tables. */
  function Wait(s: State, o: OwnerId): State
    requires o in s.owners
  {
    if s.owners[o].directory == Absent then GiveBack(s, o, Absent)
    else if s.owners[o].job == None then GiveBack(s, o, Removed)
    else s.(owners := s.owners[o := s.owners[o].(cleanup := Waiting)])
  }

  /** The first span of `cleanup`; every later call returns at once. */
  function StartCleanup(cfg: L.Settings, s: State, o: OwnerId, completed: bool): State
    requires o in s.owners
  {
    var owner := s.owners[o];
    if owner.cleanup != NotBegun then s
    else
      var lease :=
        if owner.job.Some? && owner.job.value in s.lease.live && owner.job.value in s.lease.store then
          L.Finish(cfg, L.Fail(s.lease, owner.job.value), owner.job.value, completed)
        else s.lease;
      Wait(s.(lease := lease), o)
  }

  function Step(cfg: L.Settings, limit: nat, s: State, e: Event): State {
    if !Enabled(limit, s, e) then s
    else
      match e
      case Protocol(step) => s.(lease := L.Step(cfg, s.lease, step))
      case Admit(o) => s.(owners := s.owners[o := Owner(None, Absent, NotBegun, 0)], inflight := s.inflight + 1)
      case MakeDirectory(o) => s.(owners := s.owners[o := s.owners[o].(directory := Present)])
      case CreateJob(o, j) =>
        Filed(s, o, j)
      case EnqueueJob(o, request) => s.(lease := L.Enqueue(cfg, s.lease, s.owners[o].job.value, request).0)
      case Arrive(t, j, token) =>
        var (lease, answer) := L.AuthorizedJob(s.lease, j, token);
        s.(lease := lease,
           tasks := s.tasks[t := Task(j, token, if answer == L.Ok then Outside else Gone)])
      case Enter(t) =>
        var task := s.tasks[t];
        var (lease, answer) := L.AuthorizedJob(s.lease, task.job, task.token);
        if answer == L.Ok then
          s.(lease := lease, tasks := s.tasks[t := task.(place := Inside)], locks := s.locks[task.job := t])
        else s.(lease := lease, tasks := s.tasks[t := task.(place := Gone)])
      case Commit(t, w, workerToken, value) =>
        s.(lease := L.CompleteUpload(s.lease, w, workerToken, s.tasks[t].job, s.tasks[t].token, value).0)
      case Abort(t) => s.(lease := L.Fail(s.lease, s.tasks[t].job))
      case Leave(t) =>
        var task := s.tasks[t];
        s.(tasks := s.tasks[t := task.(place := Gone)],
           locks := if task.place == Inside then s.locks - {task.job} else s.locks)
      case BeginCleanup(o, completed) => StartCleanup(cfg, s, o, completed)
      case FinishCleanup(o) => GiveBack(s, o, Removed)
      case CancelCleanup(o) => GiveBack(s, o, s.owners[o].directory)
      case Finalize(o) => s.(owners := s.owners[o := s.owners[o].(directory := Removed)])
  }

  function Run(cfg: L.Settings, limit: nat, s: State, events: seq<Event>): State {
    if events == [] then s
    else Step(cfg, limit, Run(cfg, limit, s, events[..|events| - 1]), events[|events| - 1])
  }

  // ---------------------------------------------------------------- what every run keeps

  /** The owners that still hold an admission slot. */
  ghost function Open(s: State): set<OwnerId> {
    set o | o in s.owners && s.owners[o].cleanup != Over
  }

  ghost predicate OwnersSound(s: State) {
    && (forall o | o in s.owners && s.owners[o].job.Some? ::
          s.owners[o].job.value in s.ownerOf && s.ownerOf[s.owners[o].job.value] == o
          && s.owners[o].directory != Absent)
    && (forall j | j in s.ownerOf :: s.ownerOf[j] in s.owners && s.owners[s.ownerOf[j]].job == Some(j))
    && (forall o | o in s.owners ::
          && s.owners[o].returned == (if s.owners[o].cleanup == Over then 1 else 0)
          && (s.owners[o].directory == Removed ==> s.owners[o].cleanup == Over)
          && (s.owners[o].cleanup == Waiting ==> s.owners[o].job.Some? && s.owners[o].directory == Present))
  }

  /** A live enhancement job still has its directory and an owner that has not begun to clean up. */
  ghost predicate LiveSound(s: State) {
    forall j | j in s.ownerOf && j in s.lease.live ::
      && s.ownerOf[j] in s.owners
      && s.owners[s.ownerOf[j]].cleanup == NotBegun && s.owners[s.ownerOf[j]].directory == Present
  }

  ghost predicate TasksSound(s: State) {
    && (forall t | t in s.tasks ::
          && s.tasks[t].job in s.ownerOf
          && (s.tasks[t].place != Gone ==> s.tasks[t].job in s.lease.store && s.lease.store[s.tasks[t].job].grants > 0))
    && (forall t | t in s.tasks && s.tasks[t].place == Inside ::
          s.tasks[t].job in s.locks && s.locks[s.tasks[t].job] == t)
    && (forall j | j in s.locks ::
          s.locks[j] in s.tasks && s.tasks[s.locks[j]].place == Inside && s.tasks[s.locks[j]].job == j)
  }

  ghost predicate SlotsSound(limit: nat, s: State) {
    s.inflight == |Open(s)| <= limit
  }

  ghost predicate IoSound(limit: nat, s: State) {
    OwnersSound(s) && LiveSound(s) && TasksSound(s) && SlotsSound(limit, s)
  }

  /** What a lease step may change as seen from here: no owned job becomes live, none disappears, grants stay. */
  ghost predicate Quiet(s: State, lease: L.State) {
    && (forall j | j in s.ownerOf && j in lease.live :: j in s.lease.live)
    && (forall j | j in s.lease.store :: j in lease.store && lease.store[j].grants >= s.lease.store[j].grants)
  }

  lemma QuietKeeps(limit: nat, s: State, lease: L.State)
    requires IoSound(limit, s) && Quiet(s, lease)
    ensures IoSound(limit, s.(lease := lease))
  {
    assert Open(s.(lease := lease)) == Open(s);
  }

  lemma {:induction false} ScanKeepsLive(cfg: L.Settings, s: L.State, w: L.WorkerId, token: L.Token,
                                         snapshot: seq<L.JobId>)
    requires w in s.workers
    ensures L.Scan(cfg, s, w, token, snapshot).0.live == s.live
    decreases |snapshot|
  {
    if snapshot != [] {
      ScanKeepsLive(cfg, s, w, token, snapshot[1..]);
      ScanKeepsLive(cfg, s.(waiting := Without(s.waiting, snapshot[0])), w, token, snapshot[1..]);
    }
  }

  lemma PollKeepsLive(cfg: L.Settings, s: L.State, w: L.WorkerId, workerToken: L.Token, minted: L.Token)
    ensures L.Poll(cfg, s, w, workerToken, minted).0.live == s.live
  {
    if L.Authentic(s, w, workerToken) {
      var t := L.Seen(s, w);
      ScanKeepsLive(cfg, t, w, minted, t.waiting);
    }
  }

  lemma OnlyStartMakesLive(cfg: L.Settings, s: L.State, step: L.Event)
    ensures L.Step(cfg, s, step).live <= s.live + (if step.Start? then {step.j} else {})
  {
    match step
    case PollFor(w, workerToken, minted) => PollKeepsLive(cfg, s, w, workerToken, minted);
    case Complete(w, workerToken, j, token, _) => WorkerJobChecksLease(s, w, workerToken, j, token);
    case Upload(w, workerToken, j, token, _) => WorkerJobChecksLease(s, w, workerToken, j, token);
    case Progress(w, workerToken, j, token, _) => WorkerJobChecksLease(s, w, workerToken, j, token);
    case _ =>
  }

  lemma GrantsStay(cfg: L.Settings, s: L.State, step: L.Event)
    requires Sound(s, {})
    ensures forall j | j in s.store ::
      j in L.Step(cfg, s, step).store && L.Step(cfg, s, step).store[j].grants >= s.store[j].grants
  {
    forall j | j in s.store
      ensures j in L.Step(cfg, s, step).store && L.Step(cfg, s, step).store[j].grants >= s.store[j].grants
    {
      T.StepEffect(cfg, s, step, j);
    }
  }

  /** The step of the lease protocol that an event performs, if any. */
  function LeaseEvent(s: State, e: Event): Option<L.Event> {
    match e
    case Protocol(step) => Some(step)
    case EnqueueJob(o, request) =>
      if o in s.owners && s.owners[o].job.Some? then Some(L.Start(s.owners[o].job.value, request)) else None
    case Arrive(_, j, token) => Some(L.Touch(j, token))
    case Enter(t) => if t in s.tasks then Some(L.Touch(s.tasks[t].job, s.tasks[t].token)) else None
    case Commit(t, w, workerToken, value) =>
      if t in s.tasks then Some(L.Upload(w, workerToken, s.tasks[t].job, s.tasks[t].token, value)) else None
    case Abort(t) => if t in s.tasks then Some(L.FailUpload(s.tasks[t].job)) else None
    case BeginCleanup(o, completed) =>
      if o in s.owners && s.owners[o].cleanup == NotBegun && s.owners[o].job.Some?
         && s.owners[o].job.value in s.lease.live
      then Some(L.Cleanup(s.owners[o].job.value, completed)) else None
    case _ => None
  }

  /** The little this machine needs to know about a sound lease state. */
  ghost predicate LeaseFacts(lease: L.State) {
    && (forall j | j in lease.live :: j in lease.store && lease.store[j].owner != L.Ended)
    && (forall j | j in lease.store && lease.store[j].lease.Some? :: lease.store[j].grants > 0)
  }

  lemma SoundGivesFacts(lease: L.State)
    requires Sound(lease, {})
    ensures LeaseFacts(lease)
  {
    assert forall j | j in lease.store :: JobSound(lease.store[j]);
  }

  lemma CleanupIsALeaseStep(cfg: L.Settings, s: State, o: OwnerId, completed: bool)
    requires LeaseFacts(s.lease) && o in s.owners
    ensures StartCleanup(cfg, s, o, completed).lease ==
      var step := LeaseEvent(s, BeginCleanup(o, completed));
      if step.Some? then L.Step(cfg, s.lease, step.value) else s.lease
  {
    if s.owners[o].cleanup == NotBegun && s.owners[o].job.Some? && s.owners[o].job.value in s.lease.live {
      CleanupStep(cfg, s.lease, s.owners[o].job.value, completed);
    }
  }

  lemma CleanupStep(cfg: L.Settings, s: L.State, j: L.JobId, completed: bool)
    requires j in s.store && s.store[j].owner != L.Ended
    ensures L.Step(cfg, s, L.Cleanup(j, completed)) == L.Finish(cfg, L.Fail(s, j), j, completed)
  {
  }

  lemma ArrivalsAreLeaseSteps(cfg: L.Settings, limit: nat, s: State, e: Event)
    requires Enabled(limit, s, e) && (e.Arrive? || e.Enter?)
    ensures LeaseEvent(s, e).Some? && Step(cfg, limit, s, e).lease == L.Step(cfg, s.lease, LeaseEvent(s, e).value)
  {
  }

  lemma CommitIsALeaseStep(cfg: L.Settings, limit: nat, s: State, e: Event)
    requires Enabled(limit, s, e) && e.Commit?
    ensures LeaseEvent(s, e).Some? && Step(cfg, limit, s, e).lease == L.Step(cfg, s.lease, LeaseEvent(s, e).value)
  {
    var task := s.tasks[e.t];
    UploadStep(cfg, s.lease, e.w, e.workerToken, task.job, task.token, e.value);
  }

  lemma UploadStep(cfg: L.Settings, s: L.State, w: L.WorkerId, workerToken: L.Token, j: L.JobId, token: L.Token,
                   value: L.Value)
    ensures L.Step(cfg, s, L.Upload(w, workerToken, j, token, value))
         == L.CompleteUpload(s, w, workerToken, j, token, value).0
  {
  }

  lemma AbortIsALeaseStep(cfg: L.Settings, limit: nat, s: State, e: Event)
    requires TasksSound(s) && Enabled(limit, s, e) && e.Abort?
    ensures LeaseEvent(s, e).Some? && Step(cfg, limit, s, e).lease == L.Step(cfg, s.lease, LeaseEvent(s, e).value)
  {
    FailUploadStep(cfg, s.lease, s.tasks[e.t].job);
  }

  lemma FailUploadStep(cfg: L.Settings, s: L.State, j: L.JobId)
    requires j in s.store && s.store[j].grants > 0
    ensures L.Step(cfg, s, L.FailUpload(j)) == L.Fail(s, j)
  {
  }

  /** Seen from the lease protocol, every event is one of its steps or none: this machine refines it. */
  lemma EventsAreLeaseSteps(cfg: L.Settings, limit: nat, s: State, e: Event)
    requires LeaseFacts(s.lease) && TasksSound(s)
    ensures Step(cfg, limit, s, e).lease ==
      if Enabled(limit, s, e) && LeaseEvent(s, e).Some? then L.Step(cfg, s.lease, LeaseEvent(s, e).value) else s.lease
  {
    if Enabled(limit, s, e) {
      match e
      case BeginCleanup(o, completed) => CleanupIsALeaseStep(cfg, s, o, completed);
      case Arrive(_, _, _) => ArrivalsAreLeaseSteps(cfg, limit, s, e);
      case Enter(_) => ArrivalsAreLeaseSteps(cfg, limit, s, e);
      case Commit(_, _, _, _) => CommitIsALeaseStep(cfg, limit, s, e);
      case Abort(_) => AbortIsALeaseStep(cfg, limit, s, e);
      case _ =>
    }
  }

  /** A volunteer's handler enters `io_lock` exactly when, at the re-check inside it, the job is live and its lease has
      that token and has not expired; only then does it keep the lock. */
  lemma HandlersEnterExactlyWithALiveLease(cfg: L.Settings, limit: nat, s: State, t: TaskId)
    requires Enabled(limit, s, Enter(t))
    ensures var task, s' := s.tasks[t], Step(cfg, limit, s, Enter(t));
      var entered := && task.job in s.lease.live && task.job in s.lease.store && s.lease.store[task.job].lease.Some?
                     && s.lease.store[task.job].lease.value.token == task.token
                     && s.lease.now < s.lease.store[task.job].lease.value.deadline;
      && s'.tasks[t].place == (if entered then Inside else Gone)
      && s'.locks == (if entered then s.locks[task.job := t] else s.locks)
      && (entered ==> s'.lease == s.lease)
  {
  }

  lemma SameSlots(limit: nat, s: State, t: State)
    requires SlotsSound(limit, s) && t.inflight == s.inflight && t.owners.Keys == s.owners.Keys
    requires forall o | o in s.owners :: t.owners[o].cleanup == s.owners[o].cleanup
    ensures SlotsSound(limit, t)
  {
    assert Open(t) == Open(s);
  }

  lemma AdmitKeeps(limit: nat, s: State, o: OwnerId)
    requires IoSound(limit, s) && o !in s.owners && s.inflight < limit
    ensures IoSound(limit, s.(owners := s.owners[o := Owner(None, Absent, NotBegun, 0)], inflight := s.inflight + 1))
  {
    var t := s.(owners := s.owners[o := Owner(None, Absent, NotBegun, 0)], inflight := s.inflight + 1);
    NewOwnerKeepsOwners(s, t, o);
    assert Open(t) == Open(s) + {o};
  }

  lemma NewOwnerKeepsOwners(s: State, t: State, o: OwnerId)
    requires OwnersSound(s) && LiveSound(s) && TasksSound(s) && o !in s.owners
    requires t == s.(owners := s.owners[o := Owner(None, Absent, NotBegun, 0)], inflight := t.inflight)
    ensures OwnersSound(t) && LiveSound(t) && TasksSound(t)
  {
    assert forall j | j in s.ownerOf :: s.ownerOf[j] != o;
  }

  lemma MakeDirectoryKeeps(limit: nat, s: State, o: OwnerId)
    requires IoSound(limit, s) && o in s.owners && s.owners[o].cleanup == NotBegun
    ensures IoSound(limit, s.(owners := s.owners[o := s.owners[o].(directory := Present)]))
  {
    assert Open(s.(owners := s.owners[o := s.owners[o].(directory := Present)])) == Open(s);
  }

  /** The finalizer looks at no lock: what the invariant says of handlers says nothing of their files. */
  lemma FinalizeKeeps(limit: nat, s: State, o: OwnerId)
    requires IoSound(limit, s) && o in s.owners && s.owners[o].cleanup == Over && s.owners[o].directory == Present
    ensures IoSound(limit, s.(owners := s.owners[o := s.owners[o].(directory := Removed)]))
  {
    SameSlots(limit, s, s.(owners := s.owners[o := s.owners[o].(directory := Removed)]));
  }

  lemma FiledKeepsOwners(s: State, o: OwnerId, j: L.JobId)
    requires OwnersSound(s) && LiveSound(s) && o in s.owners && s.owners[o].job == None
    requires s.owners[o].directory == Present && s.owners[o].cleanup == NotBegun
    requires j !in s.ownerOf && j !in s.lease.live
    ensures OwnersSound(Filed(s, o, j)) && LiveSound(Filed(s, o, j))
  {
  }

  lemma FiledKeepsTasks(s: State, o: OwnerId, j: L.JobId)
    requires TasksSound(s) && o in s.owners && j !in s.ownerOf
    ensures TasksSound(Filed(s, o, j))
  {
  }

  lemma FiledKeepsSlots(limit: nat, s: State, o: OwnerId, j: L.JobId)
    requires SlotsSound(limit, s) && o in s.owners
    ensures SlotsSound(limit, Filed(s, o, j))
  {
    SameSlots(limit, s, Filed(s, o, j));
  }

  lemma CreateJobKeeps(limit: nat, s: State, o: OwnerId, j: L.JobId)
    requires IoSound(limit, s)
    requires o in s.owners && s.owners[o].job == None && s.owners[o].directory == Present
    requires j !in s.ownerOf && j !in s.lease.live && s.owners[o].cleanup == NotBegun
    ensures IoSound(limit, Filed(s, o, j))
  {
    FiledKeepsOwners(s, o, j);
    FiledKeepsTasks(s, o, j);
    FiledKeepsSlots(limit, s, o, j);
  }

  lemma EnqueueJobKeeps(limit: nat, s: State, o: OwnerId, lease: L.State)
    requires IoSound(limit, s) && o in s.owners && s.owners[o].job.Some?
    requires s.owners[o].cleanup == NotBegun && s.owners[o].directory == Present
    requires lease.live <= s.lease.live + {s.owners[o].job.value}
    requires forall j | j in s.lease.store :: j in lease.store && lease.store[j].grants >= s.lease.store[j].grants
    ensures IoSound(limit, s.(lease := lease))
  {
    var t := s.(lease := lease);
    assert Open(t) == Open(s);
    assert OwnersSound(t) && LiveSound(t) && TasksSound(t);
  }

  function Placed(s: State, t: TaskId, task: Task): State {
    s.(tasks := s.tasks[t := task], locks := if task.place == Inside then s.locks[task.job := t] else s.locks)
  }

  lemma EntryKeepsTasks(s: State, t: TaskId, task: Task)
    requires OwnersSound(s) && LiveSound(s) && TasksSound(s) && task.place == Inside && task.job in s.ownerOf
    requires t in s.tasks && s.tasks[t].job == task.job && s.tasks[t].place == Outside
    requires task.job in s.lease.store && s.lease.store[task.job].grants > 0
    requires task.job !in s.locks && task.job in s.lease.live
    ensures TasksSound(Placed(s, t, task))
  {
  }

  lemma OutsidersKeepTasks(s: State, t: TaskId, task: Task)
    requires TasksSound(s) && task.place != Inside && task.job in s.ownerOf
    requires t in s.tasks ==> s.tasks[t].job == task.job && s.tasks[t].place == Outside
    requires task.place != Gone ==> task.job in s.lease.store && s.lease.store[task.job].grants > 0
    ensures TasksSound(Placed(s, t, task))
  {
  }

  /** A handler arrives, enters, or is sent away. */
  lemma PlaceKeeps(limit: nat, s: State, t: TaskId, task: Task)
    requires IoSound(limit, s)
    requires if t in s.tasks then s.tasks[t].job == task.job && s.tasks[t].place == Outside else task.place != Inside
    requires task.job in s.ownerOf
    requires task.place != Gone ==> task.job in s.lease.store && s.lease.store[task.job].grants > 0
    requires task.place == Inside ==> task.job !in s.locks && task.job in s.lease.live
    ensures IoSound(limit, Placed(s, t, task))
  {
    if task.place == Inside { EntryKeepsTasks(s, t, task); } else { OutsidersKeepTasks(s, t, task); }
    assert Open(Placed(s, t, task)) == Open(s);
  }

  lemma LeaveKeeps(limit: nat, s: State, t: TaskId)
    requires IoSound(limit, s) && t in s.tasks && s.tasks[t].place != Gone
    ensures IoSound(limit, s.(
      tasks := s.tasks[t := s.tasks[t].(place := Gone)],
      locks := if s.tasks[t].place == Inside then s.locks - {s.tasks[t].job} else s.locks))
  {
    var u := s.(tasks := s.tasks[t := s.tasks[t].(place := Gone)],
                locks := if s.tasks[t].place == Inside then s.locks - {s.tasks[t].job} else s.locks);
    assert Open(u) == Open(s);
  }

  lemma GiveBackKeepsOwners(s: State, o: OwnerId, directory: Directory)
    requires OwnersSound(s) && LiveSound(s) && o in s.owners && s.owners[o].cleanup != Over
    requires s.owners[o].job.Some? ==> s.owners[o].job.value !in s.lease.live && directory != Absent
    requires directory == Removed || directory == s.owners[o].directory
    ensures OwnersSound(GiveBack(s, o, directory)) && LiveSound(GiveBack(s, o, directory))
  {
  }

  lemma GiveBackKeepsTasks(s: State, o: OwnerId, directory: Directory)
    requires OwnersSound(s) && TasksSound(s) && o in s.owners
    requires s.owners[o].job.Some? && directory == Removed ==> s.owners[o].job.value !in s.locks
    requires directory == Removed || directory == s.owners[o].directory
    ensures TasksSound(GiveBack(s, o, directory))
  {
  }

  lemma GiveBackKeepsSlots(limit: nat, s: State, o: OwnerId, directory: Directory)
    requires SlotsSound(limit, s) && o in s.owners && s.owners[o].cleanup != Over
    ensures SlotsSound(limit, GiveBack(s, o, directory))
  {
    assert Open(GiveBack(s, o, directory)) == Open(s) - {o};
  }

  lemma GiveBackKeeps(limit: nat, s: State, o: OwnerId, directory: Directory)
    requires IoSound(limit, s) && o in s.owners && s.owners[o].cleanup != Over
    requires s.owners[o].job.Some? ==> s.owners[o].job.value !in s.lease.live && directory != Absent
    requires s.owners[o].job.Some? && directory == Removed ==> s.owners[o].job.value !in s.locks
    requires directory == Removed || directory == s.owners[o].directory
    ensures IoSound(limit, GiveBack(s, o, directory))
  {
    GiveBackKeepsOwners(s, o, directory);
    GiveBackKeepsTasks(s, o, directory);
    GiveBackKeepsSlots(limit, s, o, directory);
  }

  lemma WaitKeeps(limit: nat, s: State, o: OwnerId)
    requires IoSound(limit, s) && o in s.owners && s.owners[o].cleanup == NotBegun
    requires s.owners[o].job.Some? ==> s.owners[o].job.value !in s.lease.live
    ensures IoSound(limit, Wait(s, o))
  {
    if s.owners[o].directory == Absent {
      GiveBackKeeps(limit, s, o, Absent);
    } else if s.owners[o].job == None {
      GiveBackKeeps(limit, s, o, Removed);
    } else {
      assert Open(Wait(s, o)) == Open(s);
    }
  }

  lemma CleanedJobIsNotLive(cfg: L.Settings, s: State, o: OwnerId, completed: bool)
    requires LeaseFacts(s.lease) && o in s.owners && s.owners[o].cleanup == NotBegun
    ensures var lease := StartCleanup(cfg, s, o, completed).lease;
      && StartCleanup(cfg, s, o, completed) == Wait(s.(lease := lease), o)
      && (s.owners[o].job.Some? ==> s.owners[o].job.value !in lease.live)
  {
  }

  lemma StartCleanupKeeps(cfg: L.Settings, limit: nat, s: State, o: OwnerId, completed: bool)
    requires IoSound(limit, s) && LeaseFacts(s.lease) && o in s.owners
    requires Quiet(s, StartCleanup(cfg, s, o, completed).lease)
    ensures IoSound(limit, StartCleanup(cfg, s, o, completed))
  {
    if s.owners[o].cleanup == NotBegun {
      CleanedJobIsNotLive(cfg, s, o, completed);
      var lease := StartCleanup(cfg, s, o, completed).lease;
      QuietKeeps(limit, s, lease);
      WaitKeeps(limit, s.(lease := lease), o);
    }
  }

  lemma ArriveKeeps(limit: nat, s: State, t: TaskId, j: L.JobId, token: L.Token)
    requires IoSound(limit, s) && LeaseFacts(s.lease) && t !in s.tasks && j in s.ownerOf
    requires Quiet(s, L.AuthorizedJob(s.lease, j, token).0)
    ensures var (lease, answer) := L.AuthorizedJob(s.lease, j, token);
      IoSound(limit, s.(lease := lease,
                        tasks := s.tasks[t := Task(j, token, if answer == L.Ok then Outside else Gone)]))
  {
    var (lease, answer) := L.AuthorizedJob(s.lease, j, token);
    QuietKeeps(limit, s, lease);
    PlaceKeeps(limit, s.(lease := lease), t, Task(j, token, if answer == L.Ok then Outside else Gone));
  }

  lemma EnterKeeps(limit: nat, s: State, t: TaskId)
    requires IoSound(limit, s) && t in s.tasks && s.tasks[t].place == Outside && s.tasks[t].job !in s.locks
    requires Quiet(s, L.AuthorizedJob(s.lease, s.tasks[t].job, s.tasks[t].token).0)
    ensures var task := s.tasks[t];
      var (lease, answer) := L.AuthorizedJob(s.lease, task.job, task.token);
      IoSound(limit, s.(lease := lease, tasks := s.tasks[t := task.(place := if answer == L.Ok then Inside else Gone)],
                        locks := if answer == L.Ok then s.locks[task.job := t] else s.locks))
  {
    var task := s.tasks[t];
    var (lease, answer) := L.AuthorizedJob(s.lease, task.job, task.token);
    QuietKeeps(limit, s, lease);
    PlaceKeeps(limit, s.(lease := lease), t, task.(place := if answer == L.Ok then Inside else Gone));
  }

  lemma LocalStepKeeps(cfg: L.Settings, limit: nat, s: State, e: Event)
    requires IoSound(limit, s) && LeaseFacts(s.lease) && Enabled(limit, s, e) && LeaseEvent(s, e) == None
    ensures IoSound(limit, Step(cfg, limit, s, e))
  {
    match e
    case Admit(o) => AdmitKeeps(limit, s, o);
    case MakeDirectory(o) => MakeDirectoryKeeps(limit, s, o);
    case CreateJob(o, j) => CreateJobKeeps(limit, s, o, j);
    case Leave(t) => LeaveKeeps(limit, s, t);
    case BeginCleanup(o, completed) => StartCleanupKeeps(cfg, limit, s, o, completed);
    case _ => RemovalStepKeeps(cfg, limit, s, e);
  }

  lemma RemovalStepKeeps(cfg: L.Settings, limit: nat, s: State, e: Event)
    requires IoSound(limit, s) && Enabled(limit, s, e) && (e.FinishCleanup? || e.CancelCleanup? || e.Finalize?)
    ensures IoSound(limit, Step(cfg, limit, s, e))
  {
    match e
    case FinishCleanup(o) => GiveBackKeeps(limit, s, o, Removed);
    case CancelCleanup(o) => GiveBackKeeps(limit, s, o, s.owners[o].directory);
    case Finalize(o) => FinalizeKeeps(limit, s, o);
  }

  lemma LeaseStepKeeps(cfg: L.Settings, limit: nat, s: State, e: Event)
    requires IoSound(limit, s) && LeaseFacts(s.lease) && Enabled(limit, s, e) && LeaseEvent(s, e).Some?
    requires Quiet(s, Step(cfg, limit, s, e).lease) && !e.EnqueueJob?
    ensures IoSound(limit, Step(cfg, limit, s, e))
  {
    match e
    case BeginCleanup(o, completed) => StartCleanupKeeps(cfg, limit, s, o, completed);
    case Arrive(t, j, token) => ArriveKeeps(limit, s, t, j, token);
    case Enter(t) => EnterKeeps(limit, s, t);
    case _ => QuietKeeps(limit, s, Step(cfg, limit, s, e).lease);
  }

  /** A step of the protocol that starts no owned job is quiet from here. */
  lemma StepIsQuiet(cfg: L.Settings, s: State, step: L.Event)
    requires Sound(s.lease, {}) && (step.Start? ==> step.j !in s.ownerOf)
    ensures Quiet(s, L.Step(cfg, s.lease, step))
  {
    OnlyStartMakesLive(cfg, s.lease, step);
    GrantsStay(cfg, s.lease, step);
  }

  lemma EnqueueStepKeeps(cfg: L.Settings, limit: nat, s: State, e: Event)
    requires Sound(s.lease, {}) && IoSound(limit, s) && Enabled(limit, s, e) && e.EnqueueJob?
    ensures LeaseEvent(s, e).Some? && IoSound(limit, s.(lease := L.Step(cfg, s.lease, LeaseEvent(s, e).value)))
  {
    var step := LeaseEvent(s, e).value;
    OnlyStartMakesLive(cfg, s.lease, step);
    GrantsStay(cfg, s.lease, step);
    EnqueueJobKeeps(limit, s, e.o, L.Step(cfg, s.lease, step));
  }

  lemma ProtocolStepKeeps(cfg: L.Settings, limit: nat, s: State, e: Event)
    requires Sound(s.lease, {}) && LeaseFacts(s.lease) && IoSound(limit, s) && Enabled(limit, s, e)
    requires LeaseEvent(s, e).Some? && Step(cfg, limit, s, e).lease == L.Step(cfg, s.lease, LeaseEvent(s, e).value)
    ensures IoSound(limit, Step(cfg, limit, s, e))
  {
    if e.EnqueueJob? {
      EnqueueStepKeeps(cfg, limit, s, e);
    } else {
      StepIsQuiet(cfg, s, LeaseEvent(s, e).value);
      LeaseStepKeeps(cfg, limit, s, e);
    }
  }

  lemma IoStepKeeps(cfg: L.Settings, limit: nat, s: State, e: Event)
    requires Sound(s.lease, {}) && IoSound(limit, s)
    ensures Sound(Step(cfg, limit, s, e).lease, {}) && IoSound(limit, Step(cfg, limit, s, e))
  {
    SoundGivesFacts(s.lease);
    EventsAreLeaseSteps(cfg, limit, s, e);
    if Enabled(limit, s, e) {
      if LeaseEvent(s, e).Some? {
        StepKeeps(cfg, s.lease, LeaseEvent(s, e).value);
        ProtocolStepKeeps(cfg, limit, s, e);
      } else {
        LocalStepKeeps(cfg, limit, s, e);
      }
    }
  }

  /** Every interleaving of lease steps, handlers, owners and cleanups keeps the invariants. */
  lemma {:induction false} IoRunsAreSound(cfg: L.Settings, limit: nat, now: real, events: seq<Event>)
    ensures var s := Run(cfg, limit, Init(now), events); Sound(s.lease, {}) && IoSound(limit, s)
    decreases |events|
  {
    if events == [] {
      assert Open(Init(now)) == {};
    } else {
      IoRunsAreSound(cfg, limit, now, events[..|events| - 1]);
      IoStepKeeps(cfg, limit, Run(cfg, limit, Init(now), events[..|events| - 1]), events[|events| - 1]);
    }
  }

  // ---------------------------------------------------------------- consequences

  lemma IoRunsKeep(cfg: L.Settings, limit: nat, now: real, events: seq<Event>)
    ensures IoSound(limit, Run(cfg, limit, Init(now), events))
  {
    IoRunsAreSound(cfg, limit, now, events);
  }

  /** Handler u is inside the lock of o's job. */
  predicate IsInside(s: State, o: OwnerId, u: TaskId) {
    o in s.owners && u in s.tasks && s.tasks[u].place == Inside && s.owners[o].job == Some(s.tasks[u].job)
  }

  lemma InsideHoldsTheLock(s: State, o: OwnerId, u: TaskId)
    requires OwnersSound(s) && TasksSound(s) && o in s.owners
    ensures IsInside(s, o, u) <==>
      s.owners[o].job.Some? && s.owners[o].job.value in s.locks && s.locks[s.owners[o].job.value] == u
  {
  }

  /** Cleanup by whoever does not touch an owner that is over with it. */
  lemma OverStays(cfg: L.Settings, s: State, o: OwnerId, p: OwnerId, completed: bool)
    requires o in s.owners && s.owners[o].cleanup != NotBegun && p in s.owners
    ensures var t := StartCleanup(cfg, s, p, completed);
      o in t.owners && t.owners[o] == s.owners[o] && t.tasks == s.tasks && t.locks == s.locks
  {
  }

  /** One step from an owner's cleanup, begun, to what it may become. */
  ghost predicate BegunNext(limit: nat, s: State, e: Event, o: OwnerId, was: Owner, becomes: Owner) {
    && becomes.cleanup != NotBegun && becomes.job == was.job
    && (was.directory == Removed ==> becomes.directory == Removed)
    && (was.cleanup == Over ==> becomes.cleanup == Over)
    && (was.cleanup == Waiting && becomes.cleanup == Over ==>
          Enabled(limit, s, e) && (e == FinishCleanup(o) || e == CancelCleanup(o)))
  }

  lemma BegunStepElsewhere(cfg: L.Settings, limit: nat, s: State, e: Event, o: OwnerId)
    requires o in s.owners && s.owners[o].cleanup != NotBegun
    requires e.Protocol? || e.EnqueueJob? || e.Arrive? || e.Enter? || e.Commit? || e.Abort? || e.Leave?
    ensures Step(cfg, limit, s, e).owners == s.owners
  {
  }

  lemma BegunStepOfOwners(cfg: L.Settings, limit: nat, s: State, e: Event, o: OwnerId)
    requires OwnersSound(s) && o in s.owners && s.owners[o].cleanup != NotBegun
    requires e.Admit? || e.MakeDirectory? || e.CreateJob? || e.FinishCleanup? || e.CancelCleanup? || e.Finalize?
    ensures var t := Step(cfg, limit, s, e); o in t.owners && BegunNext(limit, s, e, o, s.owners[o], t.owners[o])
  {
  }

  /** What a step can do to an owner whose cleanup has begun. */
  lemma BegunStep(cfg: L.Settings, limit: nat, s: State, e: Event, o: OwnerId)
    requires OwnersSound(s) && o in s.owners && s.owners[o].cleanup != NotBegun
    ensures var t := Step(cfg, limit, s, e); o in t.owners && BegunNext(limit, s, e, o, s.owners[o], t.owners[o])
  {
    if e.Protocol? || e.EnqueueJob? || e.Arrive? || e.Enter? || e.Commit? || e.Abort? || e.Leave? {
      BegunStepElsewhere(cfg, limit, s, e, o);
    } else if e.BeginCleanup? {
      if e.o in s.owners { OverStays(cfg, s, o, e.o, e.completed); }
    } else {
      BegunStepOfOwners(cfg, limit, s, e, o);
    }
  }

  /** What a step can do to a handler: let it in after its re-check, or send it away. */
  lemma PlaceAfterAStep(cfg: L.Settings, limit: nat, s: State, e: Event, u: TaskId)
    ensures var t := Step(cfg, limit, s, e);
      && (u in s.tasks ==> u in t.tasks && t.tasks[u].job == s.tasks[u].job)
      && (u in t.tasks && t.tasks[u].place == Inside ==> u in s.tasks && e != Leave(u))
      && (u in s.tasks && s.tasks[u].place == Inside && e != Leave(u) ==> t.tasks[u].place == Inside)
      && (u in t.tasks && u in s.tasks && t.tasks[u].place == Inside && s.tasks[u].place != Inside ==>
            L.AuthorizedJob(s.lease, s.tasks[u].job, s.tasks[u].token).1 == L.Ok)
  {
    if e.BeginCleanup? && e.o in s.owners { CleanupTouchesNoHandler(cfg, s, e.o, e.completed); }
  }

  lemma CleanupTouchesNoHandler(cfg: L.Settings, s: State, o: OwnerId, completed: bool)
    requires o in s.owners
    ensures StartCleanup(cfg, s, o, completed).tasks == s.tasks
  {
  }

  lemma NobodyPassesTheRecheck(s: State, o: OwnerId, u: TaskId)
    requires OwnersSound(s) && LiveSound(s) && TasksSound(s) && u in s.tasks
    requires o in s.owners && s.owners[o].cleanup != NotBegun && s.owners[o].job == Some(s.tasks[u].job)
    ensures L.AuthorizedJob(s.lease, s.tasks[u].job, s.tasks[u].token).1 != L.Ok
  {
    assert s.tasks[u].job !in s.lease.live;
  }

  /** Once cleanup has begun the handlers inside can only leave. */
  lemma InsideAfterAStep(cfg: L.Settings, limit: nat, s: State, e: Event, o: OwnerId, u: TaskId)
    requires OwnersSound(s) && LiveSound(s) && TasksSound(s)
    requires o in s.owners && s.owners[o].cleanup != NotBegun
    ensures IsInside(Step(cfg, limit, s, e), o, u) <==> IsInside(s, o, u) && e != Leave(u)
  {
    BegunStep(cfg, limit, s, e, o);
    PlaceAfterAStep(cfg, limit, s, e, u);
    if u in s.tasks && s.owners[o].job == Some(s.tasks[u].job) { NobodyPassesTheRecheck(s, o, u); }
  }

  /** Owner o waits for a lock that handler u holds. */
  predicate WaitsFor(s: State, o: OwnerId, u: TaskId) {
    && o in s.owners && s.owners[o].cleanup == Waiting && s.owners[o].job.Some?
    && s.owners[o].job.value in s.locks && s.locks[s.owners[o].job.value] == u
  }

  /** Event i of the run cancelled o's cleanup while u held the lock, and u has not left since. */
  ghost predicate CancelledUnder(cfg: L.Settings, limit: nat, now: real, events: seq<Event>, o: OwnerId, u: TaskId,
                                 i: nat)
  {
    && i < |events| && events[i] == CancelCleanup(o) && WaitsFor(Run(cfg, limit, Init(now), events[..i]), o, u)
    && forall k | i < k < |events| :: events[k] != Leave(u)
  }

  ghost predicate EverCancelledUnder(cfg: L.Settings, limit: nat, now: real, events: seq<Event>, o: OwnerId, u: TaskId)
  {
    exists i: nat :: CancelledUnder(cfg, limit, now, events, o, u, i)
  }

  lemma RunOneMore(cfg: L.Settings, limit: nat, s: State, events: seq<Event>, e: Event)
    ensures Run(cfg, limit, s, events + [e]) == Step(cfg, limit, Run(cfg, limit, s, events), e)
  {
    assert (events + [e])[..|events|] == events;
  }

  lemma OverStep(cfg: L.Settings, limit: nat, s: State, e: Event, o: OwnerId)
    requires o in s.owners && s.owners[o].cleanup == Over
    ensures var t := Step(cfg, limit, s, e);
      && o in t.owners
      && t.owners[o] == if e == Finalize(o) && s.owners[o].directory == Present
                        then s.owners[o].(directory := Removed) else s.owners[o]
  {
    if e.BeginCleanup? && e.o in s.owners { OverStays(cfg, s, o, e.o, e.completed); }
  }

  lemma CancelStep(cfg: L.Settings, limit: nat, s: State, o: OwnerId)
    requires Enabled(limit, s, CancelCleanup(o))
    ensures var t := Step(cfg, limit, s, CancelCleanup(o));
      o in t.owners && t.owners[o] == s.owners[o].(cleanup := Over, returned := s.owners[o].returned + 1)
  {
  }

  ghost predicate IsOver(cfg: L.Settings, limit: nat, now: real, events: seq<Event>, o: OwnerId) {
    var s := Run(cfg, limit, Init(now), events);
    o in s.owners && s.owners[o].cleanup == Over
  }

  lemma OverOneMore(cfg: L.Settings, limit: nat, now: real, front: seq<Event>, e: Event, o: OwnerId)
    requires IsOver(cfg, limit, now, front, o)
    ensures IsOver(cfg, limit, now, front + [e], o)
  {
    RunOneMore(cfg, limit, Init(now), front, e);
    OverStep(cfg, limit, Run(cfg, limit, Init(now), front), e, o);
  }

  lemma OverOnceCancelled(cfg: L.Settings, limit: nat, now: real, front: seq<Event>, o: OwnerId)
    requires Enabled(limit, Run(cfg, limit, Init(now), front), CancelCleanup(o))
    ensures IsOver(cfg, limit, now, front + [CancelCleanup(o)], o)
  {
    RunOneMore(cfg, limit, Init(now), front, CancelCleanup(o));
    CancelStep(cfg, limit, Run(cfg, limit, Init(now), front), o);
  }

  /** A cancelled cleanup is over for good. */
  lemma {:induction false} CancelledIsOver(cfg: L.Settings, limit: nat, now: real, events: seq<Event>, o: OwnerId,
                                           i: nat)
    requires i < |events| && events[i] == CancelCleanup(o)
    requires Enabled(limit, Run(cfg, limit, Init(now), events[..i]), CancelCleanup(o))
    ensures IsOver(cfg, limit, now, events, o)
    decreases |events|
  {
    var front, e := events[..|events| - 1], events[|events| - 1];
    assert events == front + [e];
    if i < |front| {
      assert front[..i] == events[..i];
      CancelledIsOver(cfg, limit, now, front, o, i);
      OverOneMore(cfg, limit, now, front, e, o);
    } else {
      OverOnceCancelled(cfg, limit, now, front, o);
    }
  }

  /** One more event leaves the cancellation as it was unless it is the handler's leaving or the cancellation itself. */
  lemma CancelledUnderOneMore(cfg: L.Settings, limit: nat, now: real, front: seq<Event>, e: Event, o: OwnerId,
                              u: TaskId)
    ensures EverCancelledUnder(cfg, limit, now, front + [e], o, u) <==>
      || (EverCancelledUnder(cfg, limit, now, front, o, u) && e != Leave(u))
      || (e == CancelCleanup(o) && WaitsFor(Run(cfg, limit, Init(now), front), o, u))
  {
    var events, n := front + [e], |front|;
    assert events[..n] == front;
    assert forall i | 0 <= i < n :: events[..i] == front[..i] && events[i] == front[i];
    if EverCancelledUnder(cfg, limit, now, events, o, u) {
      var i: nat :| CancelledUnder(cfg, limit, now, events, o, u, i);
      if i < n {
        assert events[n] == e;
        assert CancelledUnder(cfg, limit, now, front, o, u, i);
      }
    }
    if EverCancelledUnder(cfg, limit, now, front, o, u) && e != Leave(u) {
      var i: nat :| CancelledUnder(cfg, limit, now, front, o, u, i);
      assert CancelledUnder(cfg, limit, now, events, o, u, i);
    }
    if e == CancelCleanup(o) && WaitsFor(Run(cfg, limit, Init(now), front), o, u) {
      assert CancelledUnder(cfg, limit, now, events, o, u, n);
    }
  }

  lemma CancelledUnderIsOver(cfg: L.Settings, limit: nat, now: real, events: seq<Event>, o: OwnerId, u: TaskId)
    requires EverCancelledUnder(cfg, limit, now, events, o, u)
    ensures var s := Run(cfg, limit, Init(now), events); o in s.owners && s.owners[o].cleanup == Over
  {
    var i: nat :| CancelledUnder(cfg, limit, now, events, o, u, i);
    CancelledIsOver(cfg, limit, now, events, o, i);
  }

  /** After a cleanup a handler is inside exactly when that cleanup was cancelled while the handler held the lock, and
      the handler has not left. */
  lemma {:induction false} InsideAfterCleanup(cfg: L.Settings, limit: nat, now: real, events: seq<Event>, o: OwnerId,
                                              u: TaskId)
    requires o in Run(cfg, limit, Init(now), events).owners
    requires Run(cfg, limit, Init(now), events).owners[o].cleanup == Over
    ensures IsInside(Run(cfg, limit, Init(now), events), o, u) <==> EverCancelledUnder(cfg, limit, now, events, o, u)
    decreases |events|
  {
    var front, e := events[..|events| - 1], events[|events| - 1];
    assert events == front + [e];
    var s := Run(cfg, limit, Init(now), front);
    IoRunsKeep(cfg, limit, now, front);
    CancelledUnderOneMore(cfg, limit, now, front, e, o, u);
    if o in s.owners && s.owners[o].cleanup == Over {
      InsideAfterCleanup(cfg, limit, now, front, o, u);
      InsideAfterAStep(cfg, limit, s, e, o, u);
    } else {
      if EverCancelledUnder(cfg, limit, now, front, o, u) {
        CancelledUnderIsOver(cfg, limit, now, front, o, u);
        assert false;
      }
      JustOver(cfg, limit, s, e, o, u);
    }
  }

  /** The step that ends a cleanup. */
  lemma JustOver(cfg: L.Settings, limit: nat, s: State, e: Event, o: OwnerId, u: TaskId)
    requires IoSound(limit, s) && (o in s.owners ==> s.owners[o].cleanup != Over)
    requires o in Step(cfg, limit, s, e).owners && Step(cfg, limit, s, e).owners[o].cleanup == Over
    ensures IsInside(Step(cfg, limit, s, e), o, u) <==> e == CancelCleanup(o) && WaitsFor(s, o, u)
  {
    if o in s.owners && s.owners[o].cleanup == Waiting {
      BegunStep(cfg, limit, s, e, o);
      InsideAfterAStep(cfg, limit, s, e, o, u);
      InsideHoldsTheLock(s, o, u);
    } else {
      BegunAndOver(cfg, limit, s, e, o);
    }
  }

  /** A cleanup over at once belongs to a request without a job. */
  lemma BegunAndOver(cfg: L.Settings, limit: nat, s: State, e: Event, o: OwnerId)
    requires OwnersSound(s) && (o in s.owners ==> s.owners[o].cleanup == NotBegun)
    requires o in Step(cfg, limit, s, e).owners && Step(cfg, limit, s, e).owners[o].cleanup == Over
    ensures Step(cfg, limit, s, e).owners[o].job == None && !e.CancelCleanup?
  {
  }

  // ---------------------------------------------------------------- the removal

  predicate Removes(s: State, t: State, o: OwnerId) {
    o in s.owners && o in t.owners && s.owners[o].directory != Removed && t.owners[o].directory == Removed
  }

  /** A removal finds a handler inside exactly when it is the finalizer of a cleanup that was cancelled while that
      handler held the lock, and the handler has not left since. */
  lemma RemovalMeetsAHandlerExactlyWhenCancelled(cfg: L.Settings, limit: nat, now: real, events: seq<Event>, e: Event,
                                                 o: OwnerId, u: TaskId)
    ensures var s := Run(cfg, limit, Init(now), events);
      Removes(s, Step(cfg, limit, s, e), o) ==>
        (IsInside(s, o, u) <==> e == Finalize(o) && EverCancelledUnder(cfg, limit, now, events, o, u))
  {
    IoRunsKeep(cfg, limit, now, events);
    var s := Run(cfg, limit, Init(now), events);
    if Removes(s, Step(cfg, limit, s, e), o) {
      RemovalStep(cfg, limit, s, e, o);
      InsideHoldsTheLock(s, o, u);
      if e == Finalize(o) { InsideAfterCleanup(cfg, limit, now, events, o, u); }
    }
  }

  /** A request's directory goes in three ways: at once when it has no job yet, by its cleanup with the lock free, or
      by the finalizer after a cancelled cleanup; in every case the job, if any, is gone from `jobs`. */
  lemma RemovalStep(cfg: L.Settings, limit: nat, s: State, e: Event, o: OwnerId)
    requires OwnersSound(s) && LiveSound(s) && Removes(s, Step(cfg, limit, s, e), o)
    ensures s.owners[o].job.Some? ==>
      s.owners[o].job.value !in s.lease.live && (e == FinishCleanup(o) || e == Finalize(o))
    ensures e == FinishCleanup(o) ==> s.owners[o].job.Some? && s.owners[o].job.value !in s.locks
    ensures e == Finalize(o) ==> s.owners[o].cleanup == Over
  {
  }

  /** The removal by a cleanup that was not cancelled is exclusive. */
  lemma RemovalIsExclusive(cfg: L.Settings, limit: nat, now: real, events: seq<Event>, e: Event, o: OwnerId, u: TaskId)
    ensures var s := Run(cfg, limit, Init(now), events);
      Removes(s, Step(cfg, limit, s, e), o) && s.owners[o].job.Some? ==>
        && s.owners[o].job.value !in s.lease.live
        && (e == FinishCleanup(o) || e == Finalize(o))
        && (e == FinishCleanup(o) ==> s.owners[o].job.value !in s.locks && !IsInside(s, o, u))
  {
    IoRunsKeep(cfg, limit, now, events);
    var s := Run(cfg, limit, Init(now), events);
    if Removes(s, Step(cfg, limit, s, e), o) {
      RemovalStep(cfg, limit, s, e, o);
      InsideHoldsTheLock(s, o, u);
    }
  }

  /** From the beginning of the cleanup on, and so after any removal, no handler ever enters; a removed directory
      stays removed. */
  lemma {:induction false} NobodyEntersAfterCleanupBegan(
    cfg: L.Settings, limit: nat, now: real, before: seq<Event>, after: seq<Event>, o: OwnerId, u: TaskId)
    requires o in Run(cfg, limit, Init(now), before).owners
    requires Run(cfg, limit, Init(now), before).owners[o].cleanup != NotBegun
    ensures var s, t := Run(cfg, limit, Init(now), before), Run(cfg, limit, Init(now), before + after);
      && o in t.owners && t.owners[o].cleanup != NotBegun
      && (s.owners[o].directory == Removed ==> t.owners[o].directory == Removed)
      && (IsInside(t, o, u) ==> IsInside(s, o, u))
    decreases |after|
  {
    if after == [] {
      assert before + after == before;
    } else {
      var front, e := after[..|after| - 1], after[|after| - 1];
      NobodyEntersAfterCleanupBegan(cfg, limit, now, before, front, o, u);
      assert before + after == before + front + [e];
      RunOneMore(cfg, limit, Init(now), before + front, e);
      IoRunsKeep(cfg, limit, now, before + front);
      var s := Run(cfg, limit, Init(now), before + front);
      BegunStep(cfg, limit, s, e, o);
      InsideAfterAStep(cfg, limit, s, e, o, u);
    }
  }

  /** After the cleanup of a request has removed its directory nobody is inside, in any continuation. */
  lemma NothingTouchesRemovedFiles(
    cfg: L.Settings, limit: nat, now: real, before: seq<Event>, after: seq<Event>, o: OwnerId, u: TaskId)
    requires Enabled(limit, Run(cfg, limit, Init(now), before), FinishCleanup(o))
    ensures !IsInside(Run(cfg, limit, Init(now), before + [FinishCleanup(o)] + after), o, u)
  {
    var s, removed := Run(cfg, limit, Init(now), before), before + [FinishCleanup(o)];
    IoRunsKeep(cfg, limit, now, before);
    RunOneMore(cfg, limit, Init(now), before, FinishCleanup(o));
    InsideHoldsTheLock(s, o, u);
    InsideAfterAStep(cfg, limit, s, FinishCleanup(o), o, u);
    NobodyEntersAfterCleanupBegan(cfg, limit, now, removed, after, o, u);
  }

  // ---------------------------------------------------------------- the files while a handler is inside

  /** After a cancelled cleanup the directory is gone exactly when the finalizer has run. */
  lemma {:induction false} GoneWhenFinalized(cfg: L.Settings, limit: nat, now: real, events: seq<Event>, o: OwnerId,
                                             i: nat)
    requires i < |events| && events[i] == CancelCleanup(o)
    requires Enabled(limit, Run(cfg, limit, Init(now), events[..i]), events[i])
    ensures var s := Run(cfg, limit, Init(now), events);
      && o in s.owners && s.owners[o].cleanup == Over && s.owners[o].directory in {Present, Removed}
      && (s.owners[o].directory == Removed <==> Finalize(o) in events[i + 1..])
    decreases |events|
  {
    var front, e := events[..|events| - 1], events[|events| - 1];
    IoRunsKeep(cfg, limit, now, events[..i]);
    CancelledIsOver(cfg, limit, now, events, o, i);
    if i == |front| {
      assert events[..i] == front && events[i + 1..] == [];
    } else {
      assert front[..i] == events[..i] && events[i + 1..] == front[i + 1..] + [e];
      GoneWhenFinalized(cfg, limit, now, front, o, i);
      OverStep(cfg, limit, Run(cfg, limit, Init(now), front), e, o);
    }
  }

  /** A handler inside `io_lock` is alone inside for its job, and finds the directory present unless the finalizer ran
      after a cleanup cancelled under it. */
  lemma FilesArePresentUntilFinalized(cfg: L.Settings, limit: nat, now: real, events: seq<Event>, o: OwnerId, u: TaskId)
    requires IsInside(Run(cfg, limit, Init(now), events), o, u)
    ensures var s := Run(cfg, limit, Init(now), events);
      && (forall v | IsInside(s, o, v) :: v == u)
      && s.owners[o].directory in {Present, Removed}
      && (s.owners[o].directory == Removed <==>
            exists i: nat :: CancelledUnder(cfg, limit, now, events, o, u, i) && Finalize(o) in events[i + 1..])
  {
    IoRunsKeep(cfg, limit, now, events);
    var s := Run(cfg, limit, Init(now), events);
    forall v | IsInside(s, o, v)
      ensures v == u
    {
      InsideHoldsTheLock(s, o, u);
      InsideHoldsTheLock(s, o, v);
    }
    forall i: nat | CancelledUnder(cfg, limit, now, events, o, u, i)
      ensures s.owners[o].directory == Removed <==> Finalize(o) in events[i + 1..]
    {
      GoneWhenFinalized(cfg, limit, now, events, o, i);
    }
    if s.owners[o].directory == Removed {
      InsideAfterCleanup(cfg, limit, now, events, o, u);
      var i: nat :| CancelledUnder(cfg, limit, now, events, o, u, i);
      assert Finalize(o) in events[i + 1..];
    }
  }

  /** Every admitted request holds one slot until its cleanup ends and gives it back exactly then, once. */
  lemma SlotsAreReturnedOnce(cfg: L.Settings, limit: nat, now: real, events: seq<Event>)
    ensures var s := Run(cfg, limit, Init(now), events);
      && 0 <= s.inflight <= limit
      && s.inflight == |set o | o in s.owners && s.owners[o].returned == 0|
      && forall o | o in s.owners :: s.owners[o].returned == if s.owners[o].cleanup == Over then 1 else 0
  {
    IoRunsKeep(cfg, limit, now, events);
    var s := Run(cfg, limit, Init(now), events);
    assert Open(s) == set o | o in s.owners && s.owners[o].returned == 0;
  }

  lemma RunTwoMore(cfg: L.Settings, limit: nat, s: State, events: seq<Event>, d: Event, e: Event)
    ensures Run(cfg, limit, s, events + [d, e]) == Step(cfg, limit, Step(cfg, limit, Run(cfg, limit, s, events), d), e)
  {
    assert events + [d, e] == events + [d] + [e];
    RunOneMore(cfg, limit, s, events, d);
    RunOneMore(cfg, limit, s, events + [d], e);
  }

  ghost predicate Settled(s: State, o: OwnerId) {
    o in s.owners && s.owners[o].cleanup == Over && s.owners[o].returned == 1 && s.owners[o].directory != Present
  }

  /** Every admitted request can always be brought to its end without cancelling its cleanup: the slot is returned and
      the files are gone. */
  lemma EveryOwnerCanFinish(cfg: L.Settings, limit: nat, now: real, events: seq<Event>, o: OwnerId)
    returns (after: seq<Event>)
    requires o in Run(cfg, limit, Init(now), events).owners
    ensures |after| <= 3 && CancelCleanup(o) !in after && Settled(Run(cfg, limit, Init(now), events + after), o)
  {
    IoRunsKeep(cfg, limit, now, events);
    var s := Run(cfg, limit, Init(now), events);
    if s.owners[o].cleanup == NotBegun {
      after := CanFinishFresh(cfg, limit, now, events, o);
    } else if s.owners[o].cleanup == Waiting {
      after := CanFinishWaiting(cfg, limit, now, events, o);
    } else if s.owners[o].directory == Present {
      after := [Finalize(o)];
      RunOneMore(cfg, limit, Init(now), events, Finalize(o));
      OverStep(cfg, limit, s, Finalize(o), o);
    } else {
      after := [];
      assert events + [] == events;
    }
  }

  lemma CanFinishFresh(cfg: L.Settings, limit: nat, now: real, events: seq<Event>, o: OwnerId)
    returns (after: seq<Event>)
    requires o in Run(cfg, limit, Init(now), events).owners
    requires Run(cfg, limit, Init(now), events).owners[o].cleanup == NotBegun
    ensures |after| <= 3 && CancelCleanup(o) !in after && Settled(Run(cfg, limit, Init(now), events + after), o)
  {
    var begin := BeginCleanup(o, false);
    IoRunsKeep(cfg, limit, now, events);
    BeginWaitsOrEnds(cfg, Run(cfg, limit, Init(now), events), o);
    RunOneMore(cfg, limit, Init(now), events, begin);
    if Settled(Run(cfg, limit, Init(now), events + [begin]), o) {
      after := [begin];
    } else {
      var rest := CanFinishWaiting(cfg, limit, now, events + [begin], o);
      assert events + [begin] + rest == events + ([begin] + rest);
      after := [begin] + rest;
    }
  }

  lemma BeginWaitsOrEnds(cfg: L.Settings, s: State, o: OwnerId)
    requires OwnersSound(s) && o in s.owners && s.owners[o].cleanup == NotBegun
    ensures var t := StartCleanup(cfg, s, o, false);
      Settled(t, o) || (o in t.owners && t.owners[o].cleanup == Waiting)
  {
  }

  /** Whoever holds the lock leaves, then the cleanup goes on. */
  lemma CanFinishWaiting(cfg: L.Settings, limit: nat, now: real, events: seq<Event>, o: OwnerId)
    returns (after: seq<Event>)
    requires o in Run(cfg, limit, Init(now), events).owners
    requires Run(cfg, limit, Init(now), events).owners[o].cleanup == Waiting
    ensures |after| <= 2 && CancelCleanup(o) !in after && Settled(Run(cfg, limit, Init(now), events + after), o)
  {
    IoRunsKeep(cfg, limit, now, events);
    var s := Run(cfg, limit, Init(now), events);
    var j := s.owners[o].job.value;
    if j in s.locks {
      after := [Leave(s.locks[j]), FinishCleanup(o)];
      RunTwoMore(cfg, limit, Init(now), events, Leave(s.locks[j]), FinishCleanup(o));
    } else {
      after := [FinishCleanup(o)];
      RunOneMore(cfg, limit, Init(now), events, FinishCleanup(o));
    }
  }

  // ---------------------------------------------------------------- the finalizer does meet a handler

  /** A request leased to a volunteer who is downloading when the owner's cleanup is cancelled at the lock. */
  function UnlockedRemoval(): seq<Event> {
    var request := L.Request(0, L.Enhance, P.Payload("", None, []), 0, 0.0, None);
    var worker := L.Worker(0, 0.0, None, {L.Enhance}, Some(""), None, 0, None, map[]);
    [Admit(0), MakeDirectory(0), CreateJob(0, 0), EnqueueJob(0, request),
     Protocol(L.GoToSwarm(0)), Protocol(L.Register(0, worker)), Protocol(L.PollFor(0, 0, 7)),
     Arrive(0, 0, 7), Enter(0), BeginCleanup(0, false), CancelCleanup(0)]
  }

  /** The lease protocol's part of that run, state by state. */
  function LeaseAt(stage: nat): L.State {
    var request := L.Request(0, L.Enhance, P.Payload("", None, []), 0, 0.0, None);
    var worker := L.Worker(0, 0.0, None, {L.Enhance}, Some(""), None, 0, None, map[]);
    var job := L.NewJob(request);
    var waiting := job.(phase := L.Queued, owner := L.Swarm);
    var leased := waiting.(lease := Some(L.Grant(0, 7, 60.0, 0.0)), phase := L.Running, leased := true, grants := 1);
    var ended := leased.(lease := None, result := L.Resolved(None), resolutions := 1, owner := L.Ended);
    var busy := worker.(job := Some(0), lastPoll := Some(0.0));
    match stage
    case 0 => L.Init(0.0)
    case 1 => L.State(0.0, map[0 := job], {0}, map[0 := 0], [], map[], [], false)
    case 2 => L.State(0.0, map[0 := waiting], {0}, map[0 := 0], [0], map[], [], false)
    case 3 => L.State(0.0, map[0 := waiting], {0}, map[0 := 0], [0], map[0 := worker], [], false)
    case 4 => L.State(0.0, map[0 := leased], {0}, map[0 := 0], [], map[0 := busy], [], false)
    case _ => L.State(0.0, map[0 := ended], {}, map[], [], map[0 := busy.(job := None)], [], false)
  }

  const WITNESS_SETTINGS := L.Settings(60.0, 60.0)

  lemma LeaseStages()
    ensures var cfg, run := WITNESS_SETTINGS, UnlockedRemoval();
      && L.Enqueue(cfg, LeaseAt(0), 0, run[3].request).0 == LeaseAt(1)
      && L.Step(cfg, LeaseAt(1), run[4].step) == LeaseAt(2)
      && L.Step(cfg, LeaseAt(2), run[5].step) == LeaseAt(3)
  {
    assert L.Prune(WITNESS_SETTINGS, LeaseAt(0)) == LeaseAt(0);
    assert L.Prune(WITNESS_SETTINGS, LeaseAt(2)) == LeaseAt(2);
  }

  lemma LeaseIsGranted()
    ensures L.Step(WITNESS_SETTINGS, LeaseAt(3), L.PollFor(0, 0, 7)) == LeaseAt(4)
    ensures L.AuthorizedJob(LeaseAt(4), 0, 7) == (LeaseAt(4), L.Ok)
  {
    var s := L.Seen(LeaseAt(3), 0);
    assert !L.Dead(s, 0) && L.Suits(s, 0, 0);
    assert L.Scan(WITNESS_SETTINGS, s, 0, 7, [0]) == (L.Assign(WITNESS_SETTINGS, s, 0, 0, 7), L.Leased(0));
    assert Without([0], 0) == [];
  }

  lemma LeaseEnds()
    ensures L.Finish(WITNESS_SETTINGS, L.Fail(LeaseAt(4), 0), 0, false) == LeaseAt(5)
  {
    var s := L.Fail(LeaseAt(4), 0);
    assert s.workers == LeaseAt(5).workers;
    assert s.byRequest - {0} == map[] && s.live - {0} == {};
    assert L.Prune(WITNESS_SETTINGS, LeaseAt(5)) == LeaseAt(5);
  }

  function IoAt(stage: nat): State {
    var owner := Owner(if stage < 3 then None else Some(0), if stage < 2 then Absent else Present,
                       if stage < 10 then NotBegun else if stage == 10 then Waiting else Over,
                       if stage < 11 then 0 else 1);
    State(LeaseAt(if stage < 4 then 0 else if stage < 7 then stage - 3 else if stage < 10 then 4 else 5),
          if stage == 0 then map[] else map[0 := owner],
          if stage < 3 then map[] else map[0 := 0],
          if stage < 8 then map[] else map[0 := Task(0, 7, if stage == 8 then Outside else Inside)],
          if stage < 9 then map[] else map[0 := 0],
          if stage == 0 || stage >= 11 then 0 else 1)
  }

  ghost predicate StageIsRight(stage: nat)
    requires stage < |UnlockedRemoval()|
  {
    Step(WITNESS_SETTINGS, 1, IoAt(stage), UnlockedRemoval()[stage]) == IoAt(stage + 1)
  }

  lemma OwnerStages()
    ensures StageIsRight(0) && StageIsRight(1) && StageIsRight(2)
  {
  }

  lemma LeaseStagesInside()
    ensures StageIsRight(3) && StageIsRight(4) && StageIsRight(5)
  {
    LeaseStages();
  }

  lemma PollStage()
    ensures StageIsRight(6)
  {
    LeaseIsGranted();
  }

  lemma ArrivalStage()
    ensures StageIsRight(7)
  {
    LeaseIsGranted();
  }

  lemma EntryStage()
    ensures StageIsRight(8)
  {
    LeaseIsGranted();
  }

  lemma BeginStage()
    ensures StageIsRight(9)
  {
    LeaseEnds();
  }

  lemma CancelStage()
    ensures StageIsRight(10)
  {
  }

  lemma IoStages(stage: nat)
    requires stage < |UnlockedRemoval()|
    ensures StageIsRight(stage)
  {
    match stage
    case 0 => OwnerStages();
    case 1 => OwnerStages();
    case 2 => OwnerStages();
    case 3 => LeaseStagesInside();
    case 4 => LeaseStagesInside();
    case 5 => LeaseStagesInside();
    case 6 => PollStage();
    case 7 => ArrivalStage();
    case 8 => EntryStage();
    case 9 => BeginStage();
    case _ => CancelStage();
  }

  lemma {:induction false} RunReaches(stage: nat)
    requires stage <= |UnlockedRemoval()|
    ensures Run(WITNESS_SETTINGS, 1, Init(0.0), UnlockedRemoval()[..stage]) == IoAt(stage)
  {
    if stage > 0 {
      RunReaches(stage - 1);
      var run := UnlockedRemoval();
      assert run[..stage] == run[..stage - 1] + [run[stage - 1]];
      StageFollows(run[..stage - 1], stage - 1);
    }
  }

  lemma StageFollows(front: seq<Event>, stage: nat)
    requires stage < |UnlockedRemoval()| && Run(WITNESS_SETTINGS, 1, Init(0.0), front) == IoAt(stage)
    ensures Run(WITNESS_SETTINGS, 1, Init(0.0), front + [UnlockedRemoval()[stage]]) == IoAt(stage + 1)
  {
    IoStages(stage);
    RunReachesNext(front, UnlockedRemoval()[stage], IoAt(stage), IoAt(stage + 1));
  }

  lemma RunReachesNext(front: seq<Event>, e: Event, s: State, t: State)
    requires Run(WITNESS_SETTINGS, 1, Init(0.0), front) == s && Step(WITNESS_SETTINGS, 1, s, e) == t
    ensures Run(WITNESS_SETTINGS, 1, Init(0.0), front + [e]) == t
  {
    RunOneMore(WITNESS_SETTINGS, 1, Init(0.0), front, e);
  }

  /** The finalizer's removal is not exclusive: here is a run after which it takes the directory from under a handler
      that is inside, while the slot has already been given back. */
  lemma TheFinalizerCanMeetAHandler()
    ensures var s := Run(WITNESS_SETTINGS, 1, Init(0.0), UnlockedRemoval());
      var t := Step(WITNESS_SETTINGS, 1, s, Finalize(0));
      Removes(s, t, 0) && IsInside(s, 0, 0) && IsInside(t, 0, 0) && s.inflight == 0
  {
    assert UnlockedRemoval()[..11] == UnlockedRemoval();
    RunReaches(11);
    LastStage();
  }

  lemma LastStage()
    ensures var s := IoAt(11);
      var t := Step(WITNESS_SETTINGS, 1, s, Finalize(0));
      Removes(s, t, 0) && IsInside(s, 0, 0) && IsInside(t, 0, 0) && s.inflight == 0
  {
  }
}
