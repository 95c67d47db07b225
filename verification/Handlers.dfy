/** The request handlers around the inference queue: `run_transcription`, `enhance` and `draft`, one atomic step for
    each stretch without an await, in any interleaving and under any cancellations. */
module Handlers {
  import opened Basics
  import opened Fifo

  type Task = nat

  /** Where a handler stands: reading its input, waiting for its ticket, with the engine at work for it (the client
      perhaps gone), with the engine's answer, cleaning up, gone. */
  datatype Phase = Preparing | Waiting | Calling(cancelled: bool) | Returned | Closing | Released

  datatype Request = Request(id: string, phase: Phase, rank: nat)

  /** `inflight` is the admission gate's counter, `ready` the tickets whose event is set, `registered` the number of
      tickets handed out, and `starts` the ranks of the engine calls in the order they began. */
  datatype State = State(inflight: nat, queue: Queue<Task>, ready: set<Task>, requests: map<Task, Request>,
                         registered: nat, starts: seq<nat>)

  const INITIAL := State(0, Queue(None, []), {}, map[], 0, [])

  datatype Event =
    | Admit(task: Task, id: string)
    | Reject(task: Task)
    | Register(task: Task, remembered: bool)
    | Start(task: Task)
    | CancelWait(task: Task)
    | CancelCall(task: Task)
    | Return(task: Task)
    | Finish(task: Task)
    | Release(task: Task)

  predicate IdTaken(s: State, id: string) {
    exists u | u in Line(s.queue) :: u in s.requests && s.requests[u].id == id
  }

  predicate At(s: State, t: Task, phase: Phase) {
    t in s.requests && s.requests[t].phase == phase
  }

  predicate IsCalling(s: State, t: Task) {
    t in s.requests && s.requests[t].phase.Calling?
  }

  predicate Enabled(s: State, e: Event, capacity: nat) {
    match e
    case Admit(t, _) => t !in s.requests && s.inflight < capacity
    case Reject(t) => At(s, t, Preparing)
    case Register(t, _) => At(s, t, Preparing)
    case Start(t) => At(s, t, Waiting) && t in s.ready
    case CancelWait(t) => At(s, t, Waiting)
    case CancelCall(t) => IsCalling(s, t)
    case Return(t) => IsCalling(s, t)
    case Finish(t) => At(s, t, Returned)
    case Release(t) => At(s, t, Closing)
  }

  function Moved(s: State, t: Task, phase: Phase): State
    requires t in s.requests
  {
    s.(requests := s.requests[t := s.requests[t].(phase := phase)])
  }

  /** Whoever becomes the running ticket has its event set at once. */
  function WithQueue(s: State, q: Queue<Task>): State {
    s.(queue := q, ready := if q.running.Some? then s.ready + {q.running.value} else s.ready)
  }

  function Enlisted(s: State, t: Task): State
    requires t in s.requests
  {
    WithQueue(s.(requests := s.requests[t := s.requests[t].(phase := Waiting, rank := s.registered)],
                 registered := s.registered + 1),
              Push(s.queue, t))
  }

  function Step(s: State, e: Event, capacity: nat): State
    requires Enabled(s, e, capacity)
  {
    match e
    case Admit(t, id) => s.(inflight := s.inflight + 1, requests := s.requests[t := Request(id, Preparing, 0)])
    case Reject(t) => Moved(s, t, Closing)
    case Register(t, remembered) =>
      if IdTaken(s, s.requests[t].id) || remembered then Moved(s, t, Closing) else Enlisted(s, t)
    case Start(t) => Moved(s, t, Calling(false)).(starts := s.starts + [s.requests[t].rank])
    case CancelWait(t) => WithQueue(Moved(s, t, Closing), Abandon(s.queue, t))
    case CancelCall(t) => Moved(s, t, Calling(true))
    case Return(t) => Moved(s, t, Returned)
    case Finish(t) => WithQueue(Moved(s, t, Closing), Complete(s.queue, t))
    case Release(t) => Moved(s, t, Released).(inflight := if s.inflight > 0 then s.inflight - 1 else 0)
  }

  /** The states reachable under a gate of the given capacity. */
  ghost predicate Run(states: seq<State>, events: seq<Event>, capacity: nat) {
    && |states| == |events| + 1 && states[0] == INITIAL
    && forall i | 0 <= i < |events| ::
      Enabled(states[i], events[i], capacity) && states[i + 1] == Step(states[i], events[i], capacity)
  }

  // ---------------------------------------------------------------- the invariant

  predicate InLine(p: Phase) {
    p.Waiting? || p.Calling? || p.Returned?
  }

  /** The line holds exactly the tickets of handlers between registration and release; only the running ticket is
      past waiting. */
  ghost predicate LineSound(s: State) {
    && Fifo.Sound(s.queue)
    && (forall t | t in Line(s.queue) :: t in s.requests && InLine(s.requests[t].phase))
    && (forall t | t in s.requests && InLine(s.requests[t].phase) :: t in Line(s.queue))
    && (forall t | t in s.requests && InLine(s.requests[t].phase) && s.requests[t].phase != Waiting ::
          s.queue.running == Some(t))
  }

  /** Of the tickets in the line, exactly the running one has its event set. */
  ghost predicate ReadySound(s: State) {
    && (s.queue.running.Some? ==> s.queue.running.value in s.ready)
    && (forall t | t in s.ready :: t in s.requests && s.requests[t].phase != Preparing && t !in s.queue.waiting)
  }

  function Open(s: State): set<Task> {
    set t | t in s.requests && s.requests[t].phase != Released
  }

  ghost predicate SlotsSound(s: State, capacity: nat) {
    s.inflight == |Open(s)| && s.inflight <= capacity
  }

  ghost predicate IdsSound(s: State) {
    forall t, u | t in Line(s.queue) && u in Line(s.queue) && t in s.requests && u in s.requests
      && s.requests[t].id == s.requests[u].id :: t == u
  }

  function Rank(s: State, t: Task): nat {
    if t in s.requests then s.requests[t].rank else 0
  }

  ghost predicate RanksRise(s: State, line: seq<Task>) {
    forall i, j | 0 <= i < j < |line| :: Rank(s, line[i]) < Rank(s, line[j])
  }

  /** Ranks rise along the line, and every call already begun has a smaller rank than any ticket still waiting. */
  ghost predicate RanksSound(s: State) {
    && RanksRise(s, Line(s.queue))
    && (forall i, j | 0 <= i < j < |s.starts| :: s.starts[i] < s.starts[j])
    && (forall k | 0 <= k < |s.starts| :: s.starts[k] < s.registered)
    && (forall t | t in Line(s.queue) :: Rank(s, t) < s.registered)
    && (forall t, k | At(s, t, Waiting) && 0 <= k < |s.starts| :: s.starts[k] < Rank(s, t))
  }

  ghost predicate Sound(s: State, capacity: nat) {
    LineSound(s) && ReadySound(s) && SlotsSound(s, capacity) && IdsSound(s) && RanksSound(s)
  }

  // ---------------------------------------------------------------- each step keeps the line

  lemma MoveKeepsTheLine(s: State, t: Task, phase: Phase)
    requires LineSound(s) && t in s.requests && InLine(s.requests[t].phase) == InLine(phase)
    requires InLine(phase) && phase != Waiting ==> s.queue.running == Some(t)
    ensures LineSound(Moved(s, t, phase))
  {
    var s' := Moved(s, t, phase);
    assert Line(s'.queue) == Line(s.queue);
  }

  /** A ticket whose event is set and whose handler still waits stands at the head. */
  lemma ReadyIsRunning(s: State, t: Task)
    requires LineSound(s) && ReadySound(s) && At(s, t, Waiting) && t in s.ready
    ensures s.queue.running == Some(t)
  {
    assert t in Line(s.queue);
  }

  lemma EnlistKeepsTheLine(s: State, t: Task)
    requires LineSound(s) && At(s, t, Preparing)
    ensures Line(Enlisted(s, t).queue) == Line(s.queue) + [t] && LineSound(Enlisted(s, t))
  {
    PushAppends(s.queue, t);
    var s' := Enlisted(s, t);
    assert t in Line(s'.queue);
    assert forall u | u in Line(s'.queue) :: u == t || u in Line(s.queue);
    assert forall u | u in Line(s.queue) :: u in Line(s'.queue);
  }

  /** When t leaves the line, its handler leaves the phases of the line. */
  lemma LeavingKeepsTheLine(s: State, t: Task, q: Queue<Task>)
    requires LineSound(s) && t in Line(s.queue)
    requires Fifo.Sound(q) && Line(q) == Without(Line(s.queue), t)
    requires s.queue.running != Some(t) ==> q.running == s.queue.running
    ensures LineSound(WithQueue(Moved(s, t, Closing), q))
  {
    WithoutMembers(Line(s.queue), t);
    var s' := WithQueue(Moved(s, t, Closing), q);
    assert s'.queue == q;
  }

  lemma AbandonKeepsTheLine(s: State, t: Task)
    requires LineSound(s) && At(s, t, Waiting)
    ensures Line(Abandon(s.queue, t)) == Without(Line(s.queue), t)
    ensures LineSound(WithQueue(Moved(s, t, Closing), Abandon(s.queue, t)))
  {
    AbandonRemovesOne(s.queue, t);
    LeavingKeepsTheLine(s, t, Abandon(s.queue, t));
  }

  lemma FinishKeepsTheLine(s: State, t: Task)
    requires LineSound(s) && At(s, t, Returned)
    ensures s.queue.running == Some(t) && Line(Complete(s.queue, t)) == Without(Line(s.queue), t)
    ensures LineSound(WithQueue(Moved(s, t, Closing), Complete(s.queue, t)))
  {
    CompleteDropsTheHead(s.queue, t);
    assert Without(Line(s.queue), t) == Line(s.queue)[1..];
    LeavingKeepsTheLine(s, t, Complete(s.queue, t));
  }

  lemma StepKeepsTheLine(s: State, e: Event, capacity: nat)
    requires LineSound(s) && ReadySound(s) && Enabled(s, e, capacity)
    ensures LineSound(Step(s, e, capacity))
  {
    match e
    case Admit(t, id) => assert t !in Line(s.queue);
    case Reject(t) => MoveKeepsTheLine(s, t, Closing);
    case Register(t, remembered) =>
      if IdTaken(s, s.requests[t].id) || remembered {
        MoveKeepsTheLine(s, t, Closing);
      } else {
        EnlistKeepsTheLine(s, t);
      }
    case Start(t) => ReadyIsRunning(s, t); MoveKeepsTheLine(s, t, Calling(false));
    case CancelWait(t) => AbandonKeepsTheLine(s, t);
    case CancelCall(t) => MoveKeepsTheLine(s, t, Calling(true));
    case Return(t) => MoveKeepsTheLine(s, t, Returned);
    case Finish(t) => FinishKeepsTheLine(s, t);
    case Release(t) => MoveKeepsTheLine(s, t, Released);
  }

  // ---------------------------------------------------------------- each step keeps the events

  lemma LeavingKeepsReady(s: State, t: Task, q: Queue<Task>)
    requires ReadySound(s) && LineSound(s) && t in s.requests
    requires Fifo.Sound(q) && Line(q) == Without(Line(s.queue), t)
    requires q.running == s.queue.running || (q.running.Some? && q.running.value in Line(s.queue)) || q.running == None
    requires forall u | u in q.waiting :: u in s.queue.waiting
    ensures ReadySound(WithQueue(Moved(s, t, Closing), q))
  {
    var s' := WithQueue(Moved(s, t, Closing), q);
    forall u | u in s'.ready
      ensures u in s'.requests && s'.requests[u].phase != Preparing && u !in s'.queue.waiting
    {
      if q.running == Some(u) {
        assert Line(q)[0] == u && Line(q)[1..] == q.waiting;
        WithoutMembers(Line(s.queue), t);
        assert u in Line(q);
      }
    }
  }

  lemma PromoteShrinks(q: Queue<Task>)
    ensures forall u | u in Promote(q).waiting :: u in q.waiting
  {
  }

  lemma AbandonKeepsReady(s: State, t: Task)
    requires ReadySound(s) && LineSound(s) && At(s, t, Waiting)
    ensures ReadySound(WithQueue(Moved(s, t, Closing), Abandon(s.queue, t)))
  {
    var q := Abandon(s.queue, t);
    AbandonRemovesOne(s.queue, t);
    PromoteShrinks(s.queue.(running := None));
    WithoutIsPart(s.queue.waiting, t);
    LeavingKeepsReady(s, t, q);
  }

  lemma FinishKeepsReady(s: State, t: Task)
    requires ReadySound(s) && LineSound(s) && At(s, t, Returned)
    ensures ReadySound(WithQueue(Moved(s, t, Closing), Complete(s.queue, t)))
  {
    FinishKeepsTheLine(s, t);
    CompleteDropsTheHead(s.queue, t);
    PromoteShrinks(s.queue.(running := None));
    LeavingKeepsReady(s, t, Complete(s.queue, t));
  }

  lemma EnlistKeepsReady(s: State, t: Task)
    requires ReadySound(s) && LineSound(s) && At(s, t, Preparing)
    ensures ReadySound(Enlisted(s, t))
  {
    PushAppends(s.queue, t);
  }

  lemma StepKeepsReady(s: State, e: Event, capacity: nat)
    requires ReadySound(s) && LineSound(s) && Enabled(s, e, capacity)
    ensures ReadySound(Step(s, e, capacity))
  {
    match e
    case Register(t, remembered) =>
      if !IdTaken(s, s.requests[t].id) && !remembered { EnlistKeepsReady(s, t); }
    case CancelWait(t) => AbandonKeepsReady(s, t);
    case Finish(t) => FinishKeepsReady(s, t);
    case _ =>
  }

  // ---------------------------------------------------------------- each step keeps the slots

  lemma AdmitTakesASlot(s: State, t: Task, id: string, capacity: nat)
    requires SlotsSound(s, capacity) && Enabled(s, Admit(t, id), capacity)
    ensures SlotsSound(Step(s, Admit(t, id), capacity), capacity)
  {
    assert Open(Step(s, Admit(t, id), capacity)) == Open(s) + {t};
    assert t !in Open(s);
  }

  lemma ReleaseReturnsASlot(s: State, t: Task, capacity: nat)
    requires SlotsSound(s, capacity) && At(s, t, Closing)
    ensures s.inflight > 0 && SlotsSound(Step(s, Release(t), capacity), capacity)
  {
    assert t in Open(s);
    assert Open(Step(s, Release(t), capacity)) == Open(s) - {t};
  }

  lemma OthersKeepTheSlots(s: State, s': State, t: Task, capacity: nat)
    requires SlotsSound(s, capacity) && t in s.requests && s.requests[t].phase != Released
    requires s'.inflight == s.inflight && s'.requests.Keys == s.requests.Keys && s'.requests[t].phase != Released
    requires forall u | u in s.requests && u != t :: s'.requests[u] == s.requests[u]
    ensures SlotsSound(s', capacity)
  {
    assert Open(s') == Open(s);
  }

  lemma StepKeepsTheSlots(s: State, e: Event, capacity: nat)
    requires SlotsSound(s, capacity) && Enabled(s, e, capacity)
    ensures SlotsSound(Step(s, e, capacity), capacity)
  {
    match e
    case Admit(t, id) => AdmitTakesASlot(s, t, id, capacity);
    case Release(t) => ReleaseReturnsASlot(s, t, capacity);
    case _ => OthersKeepTheSlots(s, Step(s, e, capacity), e.task, capacity);
  }

  // ---------------------------------------------------------------- each step keeps ids and ranks

  lemma EnlistKeepsTheIds(s: State, t: Task)
    requires LineSound(s) && IdsSound(s) && At(s, t, Preparing) && !IdTaken(s, s.requests[t].id)
    ensures IdsSound(Enlisted(s, t))
  {
    EnlistKeepsTheLine(s, t);
  }

  lemma OthersKeepTheIds(s: State, s': State)
    requires IdsSound(s) && forall t | t in Line(s'.queue) :: t in Line(s.queue) && t in s.requests
    requires forall t | t in s.requests :: t in s'.requests && s'.requests[t].id == s.requests[t].id
    ensures IdsSound(s')
  {
  }

  lemma StepKeepsTheIds(s: State, e: Event, capacity: nat)
    requires LineSound(s) && IdsSound(s) && Enabled(s, e, capacity)
    ensures IdsSound(Step(s, e, capacity))
  {
    var s' := Step(s, e, capacity);
    match e
    case Register(t, remembered) =>
      if IdTaken(s, s.requests[t].id) || remembered {
        OthersKeepTheIds(s, s');
      } else {
        EnlistKeepsTheIds(s, t);
      }
    case CancelWait(t) => AbandonKeepsTheLine(s, t); WithoutMembers(Line(s.queue), t); OthersKeepTheIds(s, s');
    case Finish(t) => FinishKeepsTheLine(s, t); WithoutMembers(Line(s.queue), t); OthersKeepTheIds(s, s');
    case _ => OthersKeepTheIds(s, s');
  }

  lemma {:induction false} RanksRiseWithout(s: State, line: seq<Task>, t: Task)
    requires RanksRise(s, line)
    ensures RanksRise(s, Without(line, t))
  {
    if line != [] && line[0] != t {
      var rest := line[1..];
      RanksRiseWithout(s, rest, t);
      WithoutIsPart(rest, t);
      assert forall i | 0 <= i < |rest| :: rest[i] == line[i + 1];
    }
  }

  lemma SameRanksRise(s: State, s': State, line: seq<Task>)
    requires RanksRise(s, line) && forall t | t in line :: Rank(s', t) == Rank(s, t)
    ensures RanksRise(s', line)
  {
  }

  lemma EnlistKeepsTheRanks(s: State, t: Task)
    requires LineSound(s) && RanksSound(s) && At(s, t, Preparing)
    ensures RanksSound(Enlisted(s, t))
  {
    var s' := Enlisted(s, t);
    EnlistKeepsTheLine(s, t);
    assert t !in Line(s.queue);
    SameRanksRise(s, s', Line(s.queue));
    LastRanksRise(s', Line(s.queue), t);
    forall u | At(s', u, Waiting) && u != t
      ensures At(s, u, Waiting) && Rank(s', u) == Rank(s, u)
    {
    }
  }

  lemma LastRanksRise(s: State, line: seq<Task>, t: Task)
    requires RanksRise(s, line) && forall u | u in line :: Rank(s, u) < Rank(s, t)
    ensures RanksRise(s, line + [t])
  {
  }

  /** The head starts: those behind it have larger ranks. */
  lemma StartKeepsTheRanks(s: State, t: Task, capacity: nat)
    requires LineSound(s) && ReadySound(s) && RanksSound(s) && Enabled(s, Start(t), capacity)
    ensures RanksSound(Step(s, Start(t), capacity))
  {
    ReadyIsRunning(s, t);
    var line := Line(s.queue);
    var s' := Step(s, Start(t), capacity);
    assert t == line[0];
    SameRanksRise(s, s', line);
    forall u | At(s', u, Waiting)
      ensures Rank(s, t) < Rank(s', u)
    {
      assert u in line && u != t;
    }
  }

  /** Ranks and starts unchanged, a thinner line, nobody newly waiting. */
  lemma RanksCarryOver(s: State, s': State)
    requires RanksSound(s) && s'.starts == s.starts && s'.registered == s.registered
    requires RanksRise(s, Line(s'.queue)) && forall t | t in Line(s'.queue) :: t in Line(s.queue)
    requires forall t :: Rank(s', t) == Rank(s, t)
    requires forall t | At(s', t, Waiting) :: At(s, t, Waiting)
    ensures RanksSound(s')
  {
    SameRanksRise(s, s', Line(s'.queue));
  }

  lemma LeavingKeepsTheRanks(s: State, t: Task, q: Queue<Task>)
    requires LineSound(s) && RanksSound(s) && t in s.requests && Line(q) == Without(Line(s.queue), t)
    ensures RanksSound(WithQueue(Moved(s, t, Closing), q))
  {
    WithoutMembers(Line(s.queue), t);
    RanksRiseWithout(s, Line(s.queue), t);
    RanksCarryOver(s, WithQueue(Moved(s, t, Closing), q));
  }

  lemma MoveKeepsTheRanks(s: State, t: Task, phase: Phase)
    requires RanksSound(s) && t in s.requests && phase != Waiting
    ensures RanksSound(Moved(s, t, phase))
  {
    RanksCarryOver(s, Moved(s, t, phase));
  }

  lemma AdmitKeepsTheRanks(s: State, t: Task, id: string, capacity: nat)
    requires LineSound(s) && RanksSound(s) && Enabled(s, Admit(t, id), capacity)
    ensures RanksSound(Step(s, Admit(t, id), capacity))
  {
    RanksCarryOver(s, Step(s, Admit(t, id), capacity));
  }

  lemma RegisterKeepsTheRanks(s: State, t: Task, remembered: bool, capacity: nat)
    requires LineSound(s) && RanksSound(s) && At(s, t, Preparing)
    ensures RanksSound(Step(s, Register(t, remembered), capacity))
  {
    if IdTaken(s, s.requests[t].id) || remembered {
      MoveKeepsTheRanks(s, t, Closing);
    } else {
      EnlistKeepsTheRanks(s, t);
    }
  }

  lemma AbandonKeepsTheRanks(s: State, t: Task)
    requires LineSound(s) && RanksSound(s) && At(s, t, Waiting)
    ensures RanksSound(WithQueue(Moved(s, t, Closing), Abandon(s.queue, t)))
  {
    AbandonKeepsTheLine(s, t);
    LeavingKeepsTheRanks(s, t, Abandon(s.queue, t));
  }

  lemma FinishKeepsTheRanks(s: State, t: Task)
    requires LineSound(s) && RanksSound(s) && At(s, t, Returned)
    ensures RanksSound(WithQueue(Moved(s, t, Closing), Complete(s.queue, t)))
  {
    FinishKeepsTheLine(s, t);
    LeavingKeepsTheRanks(s, t, Complete(s.queue, t));
  }

  lemma StepKeepsTheRanks(s: State, e: Event, capacity: nat)
    requires LineSound(s) && ReadySound(s) && RanksSound(s) && Enabled(s, e, capacity)
    ensures RanksSound(Step(s, e, capacity))
  {
    match e
    case Admit(t, id) => AdmitKeepsTheRanks(s, t, id, capacity);
    case Reject(t) => MoveKeepsTheRanks(s, t, Closing);
    case Register(t, remembered) => RegisterKeepsTheRanks(s, t, remembered, capacity);
    case Start(t) => StartKeepsTheRanks(s, t, capacity);
    case CancelWait(t) => AbandonKeepsTheRanks(s, t);
    case CancelCall(t) => MoveKeepsTheRanks(s, t, Calling(true));
    case Return(t) => MoveKeepsTheRanks(s, t, Returned);
    case Finish(t) => FinishKeepsTheRanks(s, t);
    case Release(t) => MoveReleaseKeepsTheRanks(s, t, capacity);
  }

  lemma MoveReleaseKeepsTheRanks(s: State, t: Task, capacity: nat)
    requires RanksSound(s) && At(s, t, Closing)
    ensures RanksSound(Step(s, Release(t), capacity))
  {
    RanksCarryOver(s, Step(s, Release(t), capacity));
  }

  lemma StepKeeps(s: State, e: Event, capacity: nat)
    requires Sound(s, capacity) && Enabled(s, e, capacity)
    ensures Sound(Step(s, e, capacity), capacity)
  {
    StepKeepsTheLine(s, e, capacity);
    StepKeepsReady(s, e, capacity);
    StepKeepsTheSlots(s, e, capacity);
    StepKeepsTheIds(s, e, capacity);
    StepKeepsTheRanks(s, e, capacity);
  }

  // ---------------------------------------------------------------- over whole runs

  lemma {:induction false} RunsAreSound(states: seq<State>, events: seq<Event>, capacity: nat, n: nat)
    requires Run(states, events, capacity) && n < |states|
    ensures Sound(states[n], capacity)
  {
    if n == 0 {
      assert Open(INITIAL) == {};
    } else {
      RunsAreSound(states, events, capacity, n - 1);
      StepKeeps(states[n - 1], events[n - 1], capacity);
    }
  }

  /** Whatever is cancelled when, the engine works for at most one handler, and that handler's ticket is the head. */
  lemma OneEngineCall(states: seq<State>, events: seq<Event>, capacity: nat, n: nat, t: Task, u: Task)
    requires Run(states, events, capacity) && n < |states| && IsCalling(states[n], t)
    ensures Line(states[n].queue) != [] && Line(states[n].queue)[0] == t
    ensures IsCalling(states[n], u) ==> u == t
    ensures n < |events| ==> !events[n].Start?
  {
    RunsAreSound(states, events, capacity, n);
    if n < |events| && events[n].Start? { ReadyIsRunning(states[n], events[n].task); }
  }

  /** Engine calls begin in the order of registration. */
  lemma CallsBeginInOrder(states: seq<State>, events: seq<Event>, capacity: nat, i: nat, j: nat)
    requires Run(states, events, capacity) && i < j < |events| && events[i].Start? && events[j].Start?
    ensures Rank(states[i], events[i].task) < Rank(states[j], events[j].task)
  {
    RunsAreSound(states, events, capacity, j);
    StartsOnlyGrow(states, events, capacity, i + 1, j);
    var k := |states[i].starts|;
    assert states[i + 1].starts[k] == Rank(states[i], events[i].task);
  }

  lemma {:induction false} StartsOnlyGrow(states: seq<State>, events: seq<Event>, capacity: nat, i: nat, j: nat)
    requires Run(states, events, capacity) && i <= j < |states|
    ensures states[i].starts <= states[j].starts
  {
    if i < j {
      StartsOnlyGrow(states, events, capacity, i, j - 1);
      assert states[j] == Step(states[j - 1], events[j - 1], capacity);
    }
  }

  /** No two registered handlers share a request id. */
  lemma LiveIdsAreDistinct(states: seq<State>, events: seq<Event>, capacity: nat, n: nat, t: Task, u: Task)
    requires Run(states, events, capacity) && n < |states| && t in states[n].requests && u in states[n].requests
    requires InLine(states[n].requests[t].phase) && InLine(states[n].requests[u].phase)
    requires states[n].requests[t].id == states[n].requests[u].id
    ensures t == u
  {
    RunsAreSound(states, events, capacity, n);
  }

  /** The gate counts exactly the handlers that still hold a slot, and is never released without one. */
  lemma SlotsMatchHandlers(states: seq<State>, events: seq<Event>, capacity: nat, n: nat)
    requires Run(states, events, capacity) && n < |states|
    ensures states[n].inflight == |Open(states[n])| <= capacity
    ensures n < |events| && events[n].Release? ==> states[n].inflight > 0
  {
    RunsAreSound(states, events, capacity, n);
    if n < |events| && events[n].Release? { ReleaseReturnsASlot(states[n], events[n].task, capacity); }
  }

  // ---------------------------------------------------------------- nobody is stuck

  /** How far a handler has come. */
  function Progress(p: Phase): nat {
    match p
    case Preparing => 0
    case Waiting => 1
    case Calling(cancelled) => if cancelled then 3 else 2
    case Returned => 4
    case Closing => 5
    case Released => 6
  }

  /** An event that a handler reaches without a failure or cancellation and without a new request. */
  predicate Unforced(e: Event) {
    !e.Admit? && !e.Reject? && !e.CancelWait? && !e.CancelCall?
  }

  /** A cancellation of a call that has been cancelled before. */
  predicate Repeats(s: State, e: Event) {
    e.CancelCall? && At(s, e.task, Calling(true))
  }

  /** Until every handler is gone, one of them can go on, without any cancellation or further request. */
  lemma SomeoneCanGoOn(states: seq<State>, events: seq<Event>, capacity: nat, n: nat, t: Task)
    requires Run(states, events, capacity) && n < |states|
    requires t in states[n].requests && states[n].requests[t].phase != Released
    ensures exists e: Event :: Unforced(e) && Enabled(states[n], e, capacity)
  {
    RunsAreSound(states, events, capacity, n);
    var s := states[n];
    if At(s, t, Waiting) {
      HeadCanGoOn(s, capacity, t);
    } else {
      OwnStep(s, capacity, t);
    }
  }

  lemma OwnStep(s: State, capacity: nat, t: Task)
    requires t in s.requests && s.requests[t].phase != Released && (At(s, t, Waiting) ==> t in s.ready)
    ensures exists e: Event :: Unforced(e) && Enabled(s, e, capacity)
  {
    var phase := s.requests[t].phase;
    if phase == Preparing { assert Unforced(Register(t, false)) && Enabled(s, Register(t, false), capacity); }
    if phase == Waiting { assert Unforced(Start(t)) && Enabled(s, Start(t), capacity); }
    if phase.Calling? { assert Unforced(Return(t)) && Enabled(s, Return(t), capacity); }
    if phase == Returned { assert Unforced(Finish(t)) && Enabled(s, Finish(t), capacity); }
    if phase == Closing { assert Unforced(Release(t)) && Enabled(s, Release(t), capacity); }
  }

  lemma HeadCanGoOn(s: State, capacity: nat, t: Task)
    requires LineSound(s) && ReadySound(s) && At(s, t, Waiting)
    ensures exists e: Event :: Unforced(e) && Enabled(s, e, capacity)
  {
    assert t in Line(s.queue);
    var head := Line(s.queue)[0];
    assert head in Line(s.queue);
    OwnStep(s, capacity, head);
  }

  /** The steps a handler still has before it. */
  function Left(s: State, t: Task): nat {
    if t in s.requests then 6 - Progress(s.requests[t].phase) else 0
  }

  ghost function Work(s: State, tasks: set<Task>): nat {
    if tasks == {} then 0 else var t :| t in tasks; Left(s, t) + Work(s, tasks - {t})
  }

  lemma {:induction false} WorkOfOne(s: State, tasks: set<Task>, t: Task)
    requires t in tasks
    ensures Work(s, tasks) == Left(s, t) + Work(s, tasks - {t})
  {
    var u :| u in tasks && Work(s, tasks) == Left(s, u) + Work(s, tasks - {u});
    if u != t {
      WorkOfOne(s, tasks - {u}, t);
      WorkOfOne(s, tasks - {t}, u);
      assert tasks - {u} - {t} == tasks - {t} - {u};
    }
  }

  lemma {:induction false} SameWork(s: State, s': State, tasks: set<Task>)
    requires forall t | t in tasks :: Left(s', t) == Left(s, t)
    ensures Work(s', tasks) == Work(s, tasks)
  {
    if tasks != {} {
      var t :| t in tasks;
      WorkOfOne(s, tasks, t);
      WorkOfOne(s', tasks, t);
      SameWork(s, s', tasks - {t});
    }
  }

  /** Every step but a new request or a repeated cancellation uses up work. */
  lemma StepsUseWorkUp(s: State, e: Event, capacity: nat)
    requires Enabled(s, e, capacity) && !e.Admit? && !Repeats(s, e)
    ensures Step(s, e, capacity).requests.Keys == s.requests.Keys
    ensures Work(Step(s, e, capacity), s.requests.Keys) < Work(s, s.requests.Keys)
  {
    var s', t := Step(s, e, capacity), e.task;
    WorkOfOne(s, s.requests.Keys, t);
    WorkOfOne(s', s.requests.Keys, t);
    SameWork(s, s', s.requests.Keys - {t});
  }

  lemma {:induction false} WorkIsBounded(s: State, tasks: set<Task>)
    ensures Work(s, tasks) <= 6 * |tasks|
  {
    if tasks != {} {
      var t :| t in tasks;
      WorkOfOne(s, tasks, t);
      WorkIsBounded(s, tasks - {t});
    }
  }

  /** Without new requests, whatever fails or is cancelled, there are at most six steps for each request; only
      cancelling a call again and again is not counted. */
  lemma {:induction false} EverythingDrains(states: seq<State>, events: seq<Event>, capacity: nat, n: nat, m: nat)
    requires Run(states, events, capacity) && n <= m < |states|
    requires forall i | n <= i < m :: !events[i].Admit? && !Repeats(states[i], events[i])
    ensures states[m].requests.Keys == states[n].requests.Keys
    ensures m - n + Work(states[m], states[n].requests.Keys) <= Work(states[n], states[n].requests.Keys)
    ensures m - n <= 6 * |states[n].requests|
  {
    if n < m {
      EverythingDrains(states, events, capacity, n, m - 1);
      StepsUseWorkUp(states[m - 1], events[m - 1], capacity);
    }
    WorkIsBounded(states[n], states[n].requests.Keys);
  }

  predicate AllReleased(s: State) {
    forall t | t in s.requests :: s.requests[t].phase == Released
  }

  lemma RunOneMore(states: seq<State>, events: seq<Event>, capacity: nat, e: Event)
    requires Run(states, events, capacity) && Enabled(states[|events|], e, capacity)
    ensures Run(states + [Step(states[|events|], e, capacity)], events + [e], capacity)
  {
  }

  /** From every reachable state, without any further request, failure or cancellation, all handlers can be brought to
      release their slots. */
  lemma {:induction false} EveryRunCanDrain(states: seq<State>, events: seq<Event>, capacity: nat)
    returns (moreStates: seq<State>, moreEvents: seq<Event>)
    requires Run(states, events, capacity)
    ensures Run(states + moreStates, events + moreEvents, capacity)
    ensures forall i | 0 <= i < |moreEvents| :: Unforced(moreEvents[i])
    ensures var last := (states + moreStates)[|events + moreEvents|]; AllReleased(last) && last.inflight == 0
    decreases Work(states[|events|], states[|events|].requests.Keys)
  {
    var s := states[|events|];
    if AllReleased(s) {
      moreStates, moreEvents := [], [];
      assert states + [] == states && events + [] == events;
      RunsAreSound(states, events, capacity, |events|);
      assert Open(s) == {};
    } else {
      var t :| t in s.requests && s.requests[t].phase != Released;
      SomeoneCanGoOn(states, events, capacity, |events|, t);
      var e: Event :| Unforced(e) && Enabled(s, e, capacity);
      var s' := Step(s, e, capacity);
      RunOneMore(states, events, capacity, e);
      StepsUseWorkUp(s, e, capacity);
      var restStates, restEvents := EveryRunCanDrain(states + [s'], events + [e], capacity);
      moreStates, moreEvents := [s'] + restStates, [e] + restEvents;
      assert states + [s'] + restStates == states + moreStates;
      assert events + [e] + restEvents == events + moreEvents;
    }
  }

  /** A registration is refused exactly when another handler in the line has the id or it is remembered; otherwise the
      handler waits at the end of the line, with the next rank. */
  lemma RegisteredExactlyWhenFree(states: seq<State>, events: seq<Event>, capacity: nat, n: nat)
    requires Run(states, events, capacity) && n < |events| && events[n].Register?
    ensures var s, s', t := states[n], states[n + 1], events[n].task;
      && t in s.requests && t in s'.requests && s'.requests.Keys == s.requests.Keys
      && if events[n].remembered || exists u | u in s.requests ::
              InLine(s.requests[u].phase) && s.requests[u].id == s.requests[t].id
         then s'.requests[t].phase == Closing && Line(s'.queue) == Line(s.queue)
         else && s'.requests[t].phase == Waiting && Line(s'.queue) == Line(s.queue) + [t]
              && s'.requests[t].rank == s.registered && s'.registered == s.registered + 1
              && (Line(s.queue) == [] ==> t in s'.ready)
  {
    RunsAreSound(states, events, capacity, n);
    var s, t := states[n], events[n].task;
    assert t !in Line(s.queue);
    assert IdTaken(s, s.requests[t].id) <==>
      exists u | u in s.requests :: InLine(s.requests[u].phase) && s.requests[u].id == s.requests[t].id;
  }

  /** What the head of the line does next. */
  lemma HeadStep(s: State, capacity: nat, head: Task) returns (e: Event)
    requires LineSound(s) && ReadySound(s) && Line(s.queue) != [] && head == Line(s.queue)[0]
    ensures Unforced(e) && Enabled(s, e, capacity) && e.task == head
    ensures At(s, head, Waiting) ==> e == Start(head)
  {
    assert head in Line(s.queue);
    var phase := s.requests[head].phase;
    e := if phase == Waiting then Start(head) else if phase == Returned then Finish(head) else Return(head);
  }

  lemma HeadStepServes(s: State, capacity: nat, t: Task) returns (e: Event)
    requires LineSound(s) && ReadySound(s) && At(s, t, Waiting)
    ensures Unforced(e) && Enabled(s, e, capacity)
    ensures At(Step(s, e, capacity), t, Calling(false)) || At(Step(s, e, capacity), t, Waiting)
  {
    assert t in Line(s.queue);
    e := HeadStep(s, capacity, Line(s.queue)[0]);
  }

  lemma OneStepTowards(states: seq<State>, events: seq<Event>, capacity: nat, t: Task) returns (s': State, e: Event)
    requires Run(states, events, capacity) && At(states[|events|], t, Waiting)
    ensures Run(states + [s'], events + [e], capacity) && Unforced(e)
    ensures At(s', t, Calling(false)) || At(s', t, Waiting)
    ensures Work(s', s'.requests.Keys) < Work(states[|events|], states[|events|].requests.Keys)
  {
    var s := states[|events|];
    RunsAreSound(states, events, capacity, |events|);
    e := HeadStepServes(s, capacity, t);
    s' := Step(s, e, capacity);
    RunOneMore(states, events, capacity, e);
    StepsUseWorkUp(s, e, capacity);
  }

  /** Every ticket in the line of a reachable state can be served: without any further request, failure or
      cancellation the engine can be brought to work for it. */
  lemma {:induction false} EveryTicketCanBeServed(states: seq<State>, events: seq<Event>, capacity: nat, t: Task)
    returns (moreStates: seq<State>, moreEvents: seq<Event>)
    requires Run(states, events, capacity) && At(states[|events|], t, Waiting)
    ensures Run(states + moreStates, events + moreEvents, capacity)
    ensures forall e | e in moreEvents :: Unforced(e)
    ensures At((states + moreStates)[|events + moreEvents|], t, Calling(false))
    decreases Work(states[|events|], states[|events|].requests.Keys)
  {
    var s', e := OneStepTowards(states, events, capacity, t);
    moreStates, moreEvents := [s'], [e];
    if At(s', t, Waiting) {
      var restStates, restEvents := EveryTicketCanBeServed(states + [s'], events + [e], capacity, t);
      moreStates, moreEvents := [s'] + restStates, [e] + restEvents;
      assert states + [s'] + restStates == states + moreStates;
      assert events + [e] + restEvents == events + moreEvents;
    }
  }
}
