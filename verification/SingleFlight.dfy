/** Uploads of one task under one capability: an in-flight join table in front of the timing cache. */
module SingleFlight {
  import opened Basics
  import C = TimingCache

  type FlightId = nat
  type UploadId = nat

  datatype Future = Pending | Done(value: Option<C.Record>)

  datatype Flight = Flight(key: C.Key, input: C.Digest, leader: UploadId, result: Future)

  datatype Answer = Timing(record: C.Record) | Conflict | Unavailable

  datatype Stage = Leading(flight: FlightId) | Joining(flight: FlightId) | Answered(answer: Answer)

  datatype Upload = Upload(key: C.Key, input: C.Digest, stage: Stage)

  /** `futures` holds every flight ever made, `flights` the join table. */
  datatype State = State(
    dir: C.Directory, flights: map<C.Key, FlightId>, futures: map<FlightId, Flight>, uploads: map<UploadId, Upload>)

  datatype Event =
    | Arrive(u: UploadId, key: C.Key, input: C.Digest, f: FlightId, now: int)
    | LeaderReturns(u: UploadId, content: Option<nat>, size: nat, now: int, listing: seq<C.Key>)
    | Wake(u: UploadId)
    | GiveUp(u: UploadId)
    | Lookup(key: C.Key, now: int)

  const INIT := State(map[], map[], map[], map[])

  /** The await-free span from the first cache lookup to joining, leading or answering. */
  function Arrived(s: State, u: UploadId, key: C.Key, input: C.Digest, f: FlightId, now: int): State
    requires f !in s.futures
  {
    var (dir, hit) := C.Get(s.dir, key, Some(input), now);
    var (stage, t) :=
      if hit.Some? then (Answered(Timing(hit.value)), s.(dir := dir))
      else if key in s.dir then (Answered(Conflict), s)
      else if key in s.flights && s.flights[key] in s.futures then
        if s.futures[s.flights[key]].input != input then (Answered(Conflict), s)
        else (Joining(s.flights[key]), s)
      else
        (Leading(f), s.(flights := s.flights[key := f], futures := s.futures[f := Flight(key, input, u, Pending)]));
    t.(uploads := t.uploads[u := Upload(key, input, stage)])
  }

  /** The end of the leader: put, resolve, answer, and leave the join table. */
  function Returned(s: State, u: UploadId, dir: C.Directory, value: Option<C.Record>): State
    requires u in s.uploads && s.uploads[u].stage.Leading? && s.uploads[u].stage.flight in s.futures
  {
    var upload := s.uploads[u];
    var f := upload.stage.flight;
    var result := if s.futures[f].result == Pending then Done(value) else s.futures[f].result;
    State(dir, s.flights - {upload.key}, s.futures[f := s.futures[f].(result := result)],
          s.uploads[u := upload.(stage := Answered(if value.Some? then Timing(value.value) else Unavailable))])
  }

  ghost predicate Enabled(s: State, e: Event, maxBytes: nat) {
    match e
    case Arrive(u, _, _, f, _) => u !in s.uploads && f !in s.futures
    case LeaderReturns(u, content, size, now, listing) =>
      && u in s.uploads && s.uploads[u].stage.Leading? && s.uploads[u].stage.flight in s.futures
      && (content.Some? ==>
            C.Legal(s.dir, C.PutOp(s.uploads[u].key, C.Record(s.uploads[u].input, content.value),
                                  size, now, listing), maxBytes))
    case Wake(u) =>
      && u in s.uploads && s.uploads[u].stage.Joining? && s.uploads[u].stage.flight in s.futures
      && s.futures[s.uploads[u].stage.flight].result.Done?
    case GiveUp(u) => u in s.uploads && s.uploads[u].stage.Joining?
    case Lookup(_, _) => true
  }

  ghost function Step(s: State, e: Event, maxBytes: nat): State {
    if !Enabled(s, e, maxBytes) then s
    else
      match e
      case Arrive(u, key, input, f, now) => Arrived(s, u, key, input, f, now)
      case LeaderReturns(u, content, size, now, listing) =>
        if content == None then Returned(s, u, s.dir, None)
        else
          var record := C.Record(s.uploads[u].input, content.value);
          var (dir, answer) := C.Put(s.dir, s.uploads[u].key, record, size, now, listing, maxBytes);
          Returned(s, u, dir, if answer == C.Stored then Some(record) else None)
      case Wake(u) =>
        var value := s.futures[s.uploads[u].stage.flight].result.value;
        s.(uploads := s.uploads[u := s.uploads[u].(
          stage := Answered(if value.Some? then Timing(value.value) else Unavailable))])
      case GiveUp(u) => s.(uploads := s.uploads[u := s.uploads[u].(stage := Answered(Unavailable))])
      case Lookup(key, now) => s.(dir := C.Get(s.dir, key, None, now).0)
  }

  ghost function Run(events: seq<Event>, maxBytes: nat): State {
    if events == [] then INIT
    else Step(Run(events[..|events| - 1], maxBytes), events[|events| - 1], maxBytes)
  }

  // ---------------------------------------------------------------- what every run keeps

  ghost predicate FlightsSound(s: State) {
    && (forall k | k in s.flights ::
          && s.flights[k] in s.futures && k !in s.dir
          && s.futures[s.flights[k]].key == k && s.futures[s.flights[k]].result == Pending)
    && (forall f | f in s.futures ::
          && (s.futures[f].result == Pending ==>
                && s.futures[f].key in s.flights && s.flights[s.futures[f].key] == f
                && s.futures[f].leader in s.uploads && s.uploads[s.futures[f].leader].stage == Leading(f))
          && (s.futures[f].result.Done? && s.futures[f].result.value.Some? ==>
                s.futures[f].result.value.value.input == s.futures[f].input))
  }

  ghost predicate UploadSound(s: State, u: UploadId)
    requires u in s.uploads
  {
    var upload := s.uploads[u];
    match upload.stage
    case Leading(f) =>
      f in s.futures && s.futures[f] == Flight(upload.key, upload.input, u, Pending)
    case Joining(f) => f in s.futures && s.futures[f].key == upload.key && s.futures[f].input == upload.input
    case Answered(answer) => answer.Timing? ==> answer.record.input == upload.input
  }

  ghost predicate FlightSound(s: State) {
    FlightsSound(s) && forall u | u in s.uploads :: UploadSound(s, u)
  }

  lemma PutOnlyAddsItsKey(dir: C.Directory, op: C.Op, maxBytes: nat)
    requires C.Legal(dir, op, maxBytes) && op.PutOp?
    ensures var after := C.Apply(dir, op, maxBytes);
      forall k | k in after :: (k in dir || k == op.key) && (k != op.key ==> after[k] == dir[k])
  {
  }

  lemma LeadKeepsTable(s: State, u: UploadId, key: C.Key, input: C.Digest, f: FlightId)
    requires FlightsSound(s) && u !in s.uploads && f !in s.futures && key !in s.dir && key !in s.flights
    ensures FlightsSound(s.(flights := s.flights[key := f], futures := s.futures[f := Flight(key, input, u, Pending)],
                            uploads := s.uploads[u := Upload(key, input, Leading(f))]))
  {
  }

  lemma OtherKeepsTable(s: State, dir: C.Directory, u: UploadId, upload: Upload)
    requires FlightsSound(s) && u !in s.uploads && dir.Keys == s.dir.Keys
    ensures FlightsSound(s.(dir := dir, uploads := s.uploads[u := upload]))
  {
  }

  lemma ArriveKeeps(s: State, u: UploadId, key: C.Key, input: C.Digest, f: FlightId, now: int)
    requires FlightSound(s) && u !in s.uploads && f !in s.futures
    ensures FlightSound(Arrived(s, u, key, input, f, now))
  {
    var t := Arrived(s, u, key, input, f, now);
    if t.uploads[u].stage.Leading? {
      LeadKeepsTable(s, u, key, input, f);
    } else {
      OtherKeepsTable(s, t.dir, u, t.uploads[u]);
    }
    forall v | v in t.uploads ensures UploadSound(t, v) {
      if v != u { assert UploadSound(s, v); }
    }
  }

  lemma ReturnKeeps(s: State, u: UploadId, dir: C.Directory, value: Option<C.Record>)
    requires FlightSound(s) && u in s.uploads && s.uploads[u].stage.Leading?
    requires s.uploads[u].stage.flight in s.futures
    requires forall k | k in dir :: k in s.dir || k == s.uploads[u].key
    requires value.Some? ==> value.value.input == s.uploads[u].input
    ensures FlightSound(Returned(s, u, dir, value))
  {
    assert UploadSound(s, u);
    var t := Returned(s, u, dir, value);
    assert FlightsSound(t);
    forall v | v in t.uploads ensures UploadSound(t, v) {
      assert UploadSound(s, v);
    }
  }

  lemma StepKeepsFlights(s: State, e: Event, maxBytes: nat)
    requires FlightSound(s)
    ensures FlightSound(Step(s, e, maxBytes))
  {
    if Enabled(s, e, maxBytes) {
      match e
      case Arrive(u, key, input, f, now) => ArriveKeeps(s, u, key, input, f, now);
      case LeaderReturns(u, content, size, now, listing) =>
        if content == None {
          ReturnKeeps(s, u, s.dir, None);
        } else {
          var record := C.Record(s.uploads[u].input, content.value);
          var (dir, answer) := C.Put(s.dir, s.uploads[u].key, record, size, now, listing, maxBytes);
          PutOnlyAddsItsKey(s.dir, C.PutOp(s.uploads[u].key, record, size, now, listing), maxBytes);
          ReturnKeeps(s, u, dir, if answer == C.Stored then Some(record) else None);
        }
      case Wake(u) =>
        assert UploadSound(s, u);
        var t := Step(s, e, maxBytes);
        forall v | v in t.uploads ensures UploadSound(t, v) { assert UploadSound(s, v); }
      case GiveUp(u) =>
        assert UploadSound(s, u);
        var t := Step(s, e, maxBytes);
        forall v | v in t.uploads ensures UploadSound(t, v) { assert UploadSound(s, v); }
      case Lookup(key, now) =>
        var t := Step(s, e, maxBytes);
        forall v | v in t.uploads ensures UploadSound(t, v) { assert UploadSound(s, v); }
    }
  }

  lemma {:induction false} RunsKeepFlights(events: seq<Event>, maxBytes: nat)
    ensures FlightSound(Run(events, maxBytes))
    decreases |events|
  {
    if events != [] {
      RunsKeepFlights(events[..|events| - 1], maxBytes);
      StepKeepsFlights(Run(events[..|events| - 1], maxBytes), events[|events| - 1], maxBytes);
    }
  }

  // ---------------------------------------------------------------- consequences

  /** At every await point a key has at most one unfinished flight, that flight has its leader at work, and a key in
      flight is not cached. */
  lemma OneFlightPerKey(events: seq<Event>, maxBytes: nat, f: FlightId, g: FlightId)
    ensures var s := Run(events, maxBytes);
      f in s.futures && s.futures[f].result == Pending ==>
        && s.futures[f].key !in s.dir
        && s.futures[f].leader in s.uploads && s.uploads[s.futures[f].leader].stage == Leading(f)
        && (g in s.futures && s.futures[g].result == Pending && s.futures[g].key == s.futures[f].key ==> f == g)
  {
    RunsKeepFlights(events, maxBytes);
  }

  /** Every upload that is answered with a timing gets one computed for its own input. */
  lemma AnswersBelongToTheirInput(events: seq<Event>, maxBytes: nat, u: UploadId)
    ensures var s := Run(events, maxBytes);
      u in s.uploads && s.uploads[u].stage.Answered? && s.uploads[u].stage.answer.Timing? ==>
        s.uploads[u].stage.answer.record.input == s.uploads[u].input
  {
    RunsKeepFlights(events, maxBytes);
    var s := Run(events, maxBytes);
    if u in s.uploads { assert UploadSound(s, u); }
  }

  /** A returning leader resolves its own pending flight and removes that entry of the join table and no other. */
  lemma LeaderRemovesItsOwnEntry(events: seq<Event>, maxBytes: nat, e: Event)
    requires e.LeaderReturns? && Enabled(Run(events, maxBytes), e, maxBytes)
    ensures var s := Run(events, maxBytes);
      var t := Step(s, e, maxBytes);
      var upload := s.uploads[e.u];
      && upload.key in s.flights && s.flights[upload.key] == upload.stage.flight
      && s.futures[upload.stage.flight].result == Pending
      && t.flights == s.flights - {upload.key}
      && t.futures[upload.stage.flight].result.Done?
      && forall f | f in s.futures && f != upload.stage.flight :: f in t.futures && t.futures[f] == s.futures[f]
  {
    RunsKeepFlights(events, maxBytes);
    assert UploadSound(Run(events, maxBytes), e.u);
  }

  /** The input a key stands for now: that of its cached record or of its flight. */
  function Bound(s: State, key: C.Key): Option<C.Digest> {
    if key in s.dir then Some(s.dir[key].record.input)
    else if key in s.flights && s.flights[key] in s.futures then Some(s.futures[s.flights[key]].input)
    else None
  }

  /** An upload is refused exactly when its key stands for another input; otherwise it is answered, joins or leads. */
  lemma RefusedExactlyWhenBoundElsewhere(events: seq<Event>, maxBytes: nat, e: Event)
    requires e.Arrive? && Enabled(Run(events, maxBytes), e, maxBytes)
    ensures var s := Run(events, maxBytes);
      var t := Step(s, e, maxBytes);
      && (t.uploads[e.u].stage == Answered(Conflict) <==> Bound(s, e.key).Some? && Bound(s, e.key).value != e.input)
      && (t.uploads[e.u].stage == Leading(e.f) <==> Bound(s, e.key) == None)
      && (t.uploads[e.u].stage != Answered(Conflict) ==> Bound(t, e.key) == Some(e.input))
  {
    RunsKeepFlights(events, maxBytes);
  }

  /** A returning leader leaves its key with its own input or free, and other keys as they were or free. */
  lemma ReturnKeepsBound(s: State, e: Event, maxBytes: nat, key: C.Key)
    requires FlightSound(s) && e.LeaderReturns? && Enabled(s, e, maxBytes)
    ensures var t := Step(s, e, maxBytes);
      Bound(s, key).Some? && Bound(t, key).Some? ==> Bound(t, key) == Bound(s, key)
  {
    assert UploadSound(s, e.u);
    if e.content.Some? {
      var record := C.Record(s.uploads[e.u].input, e.content.value);
      PutOnlyAddsItsKey(s.dir, C.PutOp(s.uploads[e.u].key, record, e.size, e.now, e.listing), maxBytes);
    }
  }

  lemma OthersKeepBound(s: State, e: Event, maxBytes: nat, key: C.Key)
    requires FlightSound(s) && !e.LeaderReturns?
    ensures var t := Step(s, e, maxBytes);
      Bound(s, key).Some? && Bound(t, key).Some? ==> Bound(t, key) == Bound(s, key)
  {
  }

  /** A key never passes from one input to another without first being free: evicted, or its flight failed. */
  lemma BoundNeverSwitches(events: seq<Event>, maxBytes: nat, e: Event, key: C.Key)
    ensures var s := Run(events, maxBytes);
      var t := Step(s, e, maxBytes);
      Bound(s, key).Some? && Bound(t, key).Some? ==> Bound(t, key) == Bound(s, key)
  {
    RunsKeepFlights(events, maxBytes);
    var s := Run(events, maxBytes);
    if e.LeaderReturns? {
      if Enabled(s, e, maxBytes) { ReturnKeepsBound(s, e, maxBytes, key); }
    } else {
      OthersKeepBound(s, e, maxBytes, key);
    }
  }
}
