/** Sessions, timer threads and shutdown in any interleaving: each step is one stretch under the state lock or one
    hand-over of the GPU lock. */
module ResidencyRuns {
  import opened Basics
  import opened Residency

  /** A timer thread: still waiting, cancelled in time, past its last look at the cancel flag, or done. */
  datatype Phase = Pending | Stopped | Fired | Done

  datatype Timer = Timer(generation: nat, phase: Phase) {
    /** It may yet call `_evict_idle_models`. */
    predicate Alive() { phase == Pending || phase == Fired }
  }

  /** `current` is the timer `_idle_timer` refers to. */
  datatype State = State(core: Core, sessions: set<nat>, gpu: Option<nat>, timers: seq<Timer>, current: Option<nat>)

  const INITIAL := State(Core(0, false, false, 0, false, false), {}, None, [], None)

  datatype Event =
    | Enter(session: nat)
    | TakeGpu(session: nat)
    | LoadAsr(session: nat)
    | LoadFormatter(session: nat)
    | GiveGpu(session: nat)
    | Leave(session: nat)
    | Expire(timer: nat)
    | Evict(timer: nat)
    | Close

  predicate Enabled(s: State, e: Event) {
    match e
    case Enter(k) => k !in s.sessions && !s.core.closed
    case TakeGpu(k) => k in s.sessions && s.gpu == None
    case LoadAsr(k) => s.gpu == Some(k)
    case LoadFormatter(k) => s.gpu == Some(k)
    case GiveGpu(k) => s.gpu == Some(k)
    case Leave(k) => k in s.sessions && s.gpu != Some(k) && s.core.active > 0
    case Expire(i) => i < |s.timers| && s.timers[i].phase == Pending
    case Evict(i) => i < |s.timers| && s.timers[i].phase == Fired
    case Close => true
  }

  /** Cancelling stops the timer on record if it still waits; one past its last look runs on. */
  function Stop(timers: seq<Timer>, current: Option<nat>): seq<Timer> {
    if current.Some? && current.value < |timers| && timers[current.value].phase == Pending
    then timers[current.value := timers[current.value].(phase := Stopped)] else timers
  }

  function Step(s: State, e: Event, patient: bool): State
    requires Enabled(s, e)
  {
    match e
    case Enter(k) =>
      s.(core := Entered(s.core), sessions := s.sessions + {k}, timers := Stop(s.timers, s.current), current := None)
    case TakeGpu(k) => s.(gpu := Some(k))
    case LoadAsr(k) => s.(core := s.core.(asr := true))
    case LoadFormatter(k) => s.(core := s.core.(formatter := true))
    case GiveGpu(k) => s.(gpu := None)
    case Leave(k) =>
      var core, sessions := Left(s.core, patient), s.sessions - {k};
      if core.armed && !s.core.armed
      then s.(core := core, sessions := sessions, timers := s.timers + [Timer(core.generation, Pending)],
              current := Some(|s.timers|))
      else s.(core := core, sessions := sessions)
    case Expire(i) => s.(timers := s.timers[i := s.timers[i].(phase := Fired)])
    case Evict(i) =>
      var core := Evicted(s.core, s.timers[i].generation);
      s.(core := core, timers := s.timers[i := s.timers[i].(phase := Done)],
         current := if core.armed then s.current else None)
    case Close => s.(core := Closed(s.core), timers := Stop(s.timers, s.current), current := None)
  }

  ghost predicate Run(states: seq<State>, events: seq<Event>, patient: bool) {
    && |states| == |events| + 1 && states[0] == INITIAL
    && forall i | 0 <= i < |events| ::
      Enabled(states[i], events[i]) && states[i + 1] == Step(states[i], events[i], patient)
  }

  // ---------------------------------------------------------------- the invariant

  ghost predicate SessionsSound(s: State) {
    s.core.active == |s.sessions| && (s.gpu.Some? ==> s.gpu.value in s.sessions)
  }

  /** Generations of timers are distinct and never ahead. Only the timer on record can still be waiting, and one of
      the current generation is that timer or has run. */
  ghost predicate TimersSound(s: State) {
    && (forall i, j | 0 <= i < j < |s.timers| :: s.timers[i].generation < s.timers[j].generation)
    && (forall i | 0 <= i < |s.timers| :: s.timers[i].generation <= s.core.generation)
    && (forall i | 0 <= i < |s.timers| && s.timers[i].phase == Pending :: s.current == Some(i))
    && (forall i | 0 <= i < |s.timers| && s.timers[i].generation == s.core.generation ::
          s.core.active == 0 && !s.core.closed && (s.current == Some(i) || s.timers[i].phase == Done))
  }

  /** The timer on record belongs to an open engine without a session. */
  ghost predicate CurrentSound(s: State) {
    && s.core.armed == s.current.Some?
    && (s.current.Some? ==>
          && s.current.value < |s.timers| && s.timers[s.current.value].generation == s.core.generation
          && s.timers[s.current.value].Alive())
  }

  ghost predicate ModelsSound(s: State, patient: bool) {
    && (s.core.closed && s.core.active == 0 ==> !s.core.Loaded())
    && (s.core.Loaded() && s.core.active == 0 && patient ==> s.core.armed)
  }

  ghost predicate Sound(s: State, patient: bool) {
    SessionsSound(s) && TimersSound(s) && CurrentSound(s) && ModelsSound(s, patient)
  }

  lemma SessionsNonempty(s: State, k: nat)
    requires SessionsSound(s) && k in s.sessions
    ensures s.core.active > 0
  {
  }

  lemma StepKeepsSessions(s: State, e: Event, patient: bool)
    requires SessionsSound(s) && Enabled(s, e)
    ensures SessionsSound(Step(s, e, patient))
  {
  }

  lemma StopKeepsTimers(s: State, core: Core, sessions: set<nat>)
    requires TimersSound(s) && CurrentSound(s) && core.generation == s.core.generation + 1
    ensures TimersSound(State(core, sessions, s.gpu, Stop(s.timers, s.current), None))
  {
  }

  lemma LeaveKeepsTimers(s: State, k: nat, patient: bool)
    requires TimersSound(s) && CurrentSound(s) && Enabled(s, Leave(k))
    ensures TimersSound(Step(s, Leave(k), patient)) && CurrentSound(Step(s, Leave(k), patient))
  {
  }

  lemma EvictKeepsTimers(s: State, i: nat, patient: bool)
    requires TimersSound(s) && CurrentSound(s) && Enabled(s, Evict(i))
    ensures TimersSound(Step(s, Evict(i), patient)) && CurrentSound(Step(s, Evict(i), patient))
  {
  }

  lemma StepKeepsTimers(s: State, e: Event, patient: bool)
    requires SessionsSound(s) && TimersSound(s) && CurrentSound(s) && Enabled(s, e)
    ensures TimersSound(Step(s, e, patient)) && CurrentSound(Step(s, e, patient))
  {
    match e
    case Enter(k) => StopKeepsTimers(s, Entered(s.core), s.sessions + {k});
    case Close => StopKeepsTimers(s, Closed(s.core), s.sessions);
    case Leave(k) => LeaveKeepsTimers(s, k, patient);
    case Evict(i) => EvictKeepsTimers(s, i, patient);
    case _ =>
  }

  lemma StepKeepsModels(s: State, e: Event, patient: bool)
    requires Sound(s, patient) && Enabled(s, e)
    ensures ModelsSound(Step(s, e, patient), patient)
  {
    match e
    case LoadAsr(k) => SessionsNonempty(s, k);
    case LoadFormatter(k) => SessionsNonempty(s, k);
    case _ =>
  }

  lemma {:induction false} RunsAreSound(states: seq<State>, events: seq<Event>, patient: bool, n: nat)
    requires Run(states, events, patient) && n < |states|
    ensures Sound(states[n], patient)
  {
    if n > 0 {
      RunsAreSound(states, events, patient, n - 1);
      StepKeepsSessions(states[n - 1], events[n - 1], patient);
      StepKeepsTimers(states[n - 1], events[n - 1], patient);
      StepKeepsModels(states[n - 1], events[n - 1], patient);
    }
  }

  // ---------------------------------------------------------------- over whole runs

  /** A step that lets the models go, or that ends in `_unload_models` at all. */
  predicate Unloads(s: State, e: Event) {
    match e
    case Leave(k) => s.core.active == 1 && s.core.closed
    case Evict(i) => i < |s.timers| && !s.core.closed && s.core.active == 0
      && s.timers[i].generation == s.core.generation
    case Close => s.core.active == 0
    case _ => false
  }

  /** Models go only in `_unload_models`; when it runs, no session is open but the one leaving, and the GPU is free. */
  lemma UnloadingDisturbsNobody(states: seq<State>, events: seq<Event>, patient: bool, n: nat)
    requires Run(states, events, patient) && n < |events|
    ensures (states[n].core.asr && !states[n + 1].core.asr)
      || (states[n].core.formatter && !states[n + 1].core.formatter)
      ==> Unloads(states[n], events[n])
    ensures Unloads(states[n], events[n]) ==> states[n + 1].sessions == {} && states[n].gpu == None
  {
    RunsAreSound(states, events, patient, n);
    RunsAreSound(states, events, patient, n + 1);
  }

  /** The engine is closed exactly from its first `close` on, and nobody enters after that. */
  lemma {:induction false} ClosedExactlyAfterClose(states: seq<State>, events: seq<Event>, patient: bool, n: nat)
    requires Run(states, events, patient) && n < |states|
    ensures states[n].core.closed <==> exists i | 0 <= i < n :: events[i].Close?
    ensures n < |events| && events[n].Enter? ==> forall i | 0 <= i < n :: !events[i].Close?
  {
    if n > 0 { ClosedExactlyAfterClose(states, events, patient, n - 1); }
  }

  /** Both models are gone after `_unload_models`; otherwise a model stays from the step that loads it. */
  lemma ModelsStayUntilUnloaded(states: seq<State>, events: seq<Event>, patient: bool, n: nat)
    requires Run(states, events, patient) && n < |events|
    ensures Unloads(states[n], events[n]) ==> !states[n + 1].core.Loaded()
    ensures !Unloads(states[n], events[n]) ==>
      && states[n + 1].core.asr == (states[n].core.asr || events[n].LoadAsr?)
      && states[n + 1].core.formatter == (states[n].core.formatter || events[n].LoadFormatter?)
  {
    assert Enabled(states[n], events[n]) && states[n + 1] == Step(states[n], events[n], patient);
    RunsAreSound(states, events, patient, n);
  }

  lemma GenerationsAreDistinct(states: seq<State>, events: seq<Event>, patient: bool, n: nat, i: nat, j: nat)
    requires Run(states, events, patient) && n < |states| && i < |states[n].timers| && j < |states[n].timers|
    requires states[n].timers[i].generation == states[n].timers[j].generation
    ensures i == j
  {
    RunsAreSound(states, events, patient, n);
  }

  ghost predicate WillEvict(s: State, i: nat) {
    i < |s.timers| && s.timers[i].Alive() && s.timers[i].generation == s.core.generation
  }

  /** An open engine that holds models without a session has exactly one timer under way that will be heeded; so
      eviction cannot be forgotten and does not come twice. */
  lemma LoadedAndIdleHasOneTimer(states: seq<State>, events: seq<Event>, patient: bool, n: nat)
    requires Run(states, events, patient) && n < |states| && patient
    requires states[n].core.Loaded() && states[n].core.active == 0
    ensures !states[n].core.closed
    ensures exists i :: WillEvict(states[n], i) && forall j | WillEvict(states[n], j) :: j == i
  {
    RunsAreSound(states, events, patient, n);
    var i := states[n].current.value;
    assert WillEvict(states[n], i);
    forall j | WillEvict(states[n], j)
      ensures j == i
    {
      GenerationsAreDistinct(states, events, patient, n, i, j);
    }
  }

  lemma ClosedAndIdleHoldsNothing(states: seq<State>, events: seq<Event>, patient: bool, n: nat)
    requires Run(states, events, patient) && n < |states| && states[n].core.closed && states[n].sessions == {}
    ensures !states[n].core.Loaded()
  {
    RunsAreSound(states, events, patient, n);
  }

  /** Only entering and closing move the generation, and they always do. */
  lemma {:induction false} GenerationCountsInterruptions(states: seq<State>, events: seq<Event>, patient: bool,
                                                         n: nat, m: nat)
    requires Run(states, events, patient) && n <= m < |states|
    ensures states[n].core.generation <= states[m].core.generation
    ensures states[n].core.generation == states[m].core.generation <==>
      forall j | n <= j < m :: !events[j].Enter? && !events[j].Close?
  {
    if n < m { GenerationCountsInterruptions(states, events, patient, n, m - 1); }
  }

  lemma {:induction false} TimersKeepTheirGeneration(states: seq<State>, events: seq<Event>, patient: bool,
                                                     n: nat, m: nat, i: nat)
    requires Run(states, events, patient) && n <= m < |states| && i < |states[n].timers|
    ensures i < |states[m].timers| && states[m].timers[i].generation == states[n].timers[i].generation
  {
    if n < m { TimersKeepTheirGeneration(states, events, patient, n, m - 1, i); }
  }

  /** A timer's callback unloads exactly when nobody entered and nobody closed since the timer was set; a stale one,
      even one past the reach of `cancel`, changes nothing. */
  lemma StaleTimersNeverEvict(states: seq<State>, events: seq<Event>, patient: bool, n: nat, m: nat)
    requires Run(states, events, patient) && n < m < |events|
    requires events[n].Leave? && |states[n + 1].timers| > |states[n].timers| && events[m] == Evict(|states[n].timers|)
    ensures Unloads(states[m], events[m]) <==> forall j | n < j < m :: !events[j].Enter? && !events[j].Close?
    ensures !Unloads(states[m], events[m]) ==> states[m + 1].core == states[m].core
  {
    var i := |states[n].timers|;
    RunsAreSound(states, events, patient, m);
    TimersKeepTheirGeneration(states, events, patient, n + 1, m, i);
    GenerationCountsInterruptions(states, events, patient, n + 1, m);
    assert states[n + 1].timers[i].generation == states[n + 1].core.generation;
  }
}
