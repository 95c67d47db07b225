/** What the uploads of one task under one capability are answered, over whole runs. */
module SharedAnswers {
  import opened Basics
  import C = TimingCache
  import opened SingleFlight

  // ---------------------------------------------------------------- one step

  /** The backend gave content and the cache takes a file of its size. */
  predicate Succeeds(e: Event, maxBytes: nat) {
    e.LeaderReturns? && e.content.Some? && e.size <= maxBytes
  }

  /** A leader that returns with content the cache takes is answered with it, under its own input, and its flight
      resolves to that same record; any other leader is told that nothing is available, and its flight resolves to
      None. */
  lemma LeadersAreAnsweredWithTheirContent(events: seq<Event>, maxBytes: nat, e: Event)
    requires e.LeaderReturns? && Enabled(Run(events, maxBytes), e, maxBytes)
    ensures var s := Run(events, maxBytes);
      var t := Step(s, e, maxBytes);
      var upload := s.uploads[e.u];
      var f := upload.stage.flight;
      && s.futures[f].result == Pending && f in t.futures && e.u in t.uploads
      && (Succeeds(e, maxBytes) ==>
            && t.uploads[e.u].stage == Answered(Timing(C.Record(upload.input, e.content.value)))
            && t.futures[f].result == Done(Some(C.Record(upload.input, e.content.value))))
      && (!Succeeds(e, maxBytes) ==>
            && t.uploads[e.u].stage == Answered(Unavailable)
            && t.futures[f].result == Done(None) && t.dir == s.dir)
  {
    RunsKeepFlights(events, maxBytes);
    assert UploadSound(Run(events, maxBytes), e.u);
  }

  /** An arrival is answered with a timing exactly when its key is cached for its input: at once, with the cached
      record, which is stamped and stays. */
  lemma CachedArrivalsAreAnsweredAtOnce(events: seq<Event>, maxBytes: nat, e: Event)
    requires e.Arrive? && Enabled(Run(events, maxBytes), e, maxBytes)
    ensures var s := Run(events, maxBytes);
      var t := Step(s, e, maxBytes);
      var cached := e.key in s.dir && s.dir[e.key].record.input == e.input;
      && e.u in t.uploads && t.uploads[e.u].key == e.key && t.uploads[e.u].input == e.input
      && (cached ==>
            && t.uploads[e.u].stage == Answered(Timing(s.dir[e.key].record))
            && t.dir == s.dir[e.key := C.File(s.dir[e.key].record, s.dir[e.key].size, e.now)]
            && t.flights == s.flights && t.futures == s.futures)
      && (!cached ==> t.dir == s.dir && t.uploads[e.u].stage != Answered(Unavailable)
                      && !(t.uploads[e.u].stage.Answered? && t.uploads[e.u].stage.answer.Timing?))
  {
  }

  ghost predicate UnderWay(s: State, f: FlightId, key: C.Key, input: C.Digest) {
    f in s.futures && s.futures[f].result == Pending && s.futures[f].key == key && s.futures[f].input == input
  }

  /** An arrival joins exactly when a flight for its key and input is under way, and then that one. */
  lemma ArrivalsJoinTheirFlight(events: seq<Event>, maxBytes: nat, e: Event)
    requires e.Arrive? && Enabled(Run(events, maxBytes), e, maxBytes)
    ensures var s := Run(events, maxBytes);
      var stage := Step(s, e, maxBytes).uploads[e.u].stage;
      && (stage.Joining? <==> exists f :: UnderWay(s, f, e.key, e.input))
      && (stage.Joining? ==> UnderWay(s, stage.flight, e.key, e.input))
  {
    RunsKeepFlights(events, maxBytes);
    var s := Run(events, maxBytes);
    var stage := Step(s, e, maxBytes).uploads[e.u].stage;
    if stage.Joining? { assert UnderWay(s, stage.flight, e.key, e.input); }
    if exists f :: UnderWay(s, f, e.key, e.input) {
      var f :| UnderWay(s, f, e.key, e.input);
      assert s.flights[e.key] == f && e.key !in s.dir;
    }
  }

  // ---------------------------------------------------------------- what stays

  lemma StepKeepsResolved(s: State, e: Event, maxBytes: nat)
    requires FlightSound(s)
    ensures var t := Step(s, e, maxBytes);
      forall f | f in s.futures ::
        && f in t.futures && t.futures[f].key == s.futures[f].key && t.futures[f].input == s.futures[f].input
        && (s.futures[f].result.Done? ==> t.futures[f].result == s.futures[f].result)
  {
    if e.LeaderReturns? && Enabled(s, e, maxBytes) { assert UploadSound(s, e.u); }
  }

  lemma StepKeepsAnswers(s: State, e: Event, maxBytes: nat)
    ensures var t := Step(s, e, maxBytes);
      forall u | u in s.uploads ::
        && u in t.uploads && t.uploads[u].key == s.uploads[u].key && t.uploads[u].input == s.uploads[u].input
        && (s.uploads[u].stage.Answered? ==> t.uploads[u].stage == s.uploads[u].stage)
        && (e.Lookup? || e.u != u ==> t.uploads[u] == s.uploads[u])
  {
  }

  /** A resolved flight stays as it is, however the run goes on. */
  lemma {:induction false} ResolvedFlightsStay(events: seq<Event>, n: nat, maxBytes: nat, f: FlightId)
    requires n <= |events|
    requires var s := Run(events[..n], maxBytes); f in s.futures && s.futures[f].result.Done?
    ensures var t := Run(events, maxBytes);
      f in t.futures && t.futures[f].result == Run(events[..n], maxBytes).futures[f].result
    decreases |events|
  {
    if n == |events| {
      assert events[..n] == events;
    } else {
      var front := events[..|events| - 1];
      assert front[..n] == events[..n];
      ResolvedFlightsStay(front, n, maxBytes, f);
      RunsKeepFlights(front, maxBytes);
      StepKeepsResolved(Run(front, maxBytes), events[|events| - 1], maxBytes);
    }
  }

  /** An upload joined to a flight whose leader succeeded can wake, whatever has happened since, and is then answered
      with the leader's record. */
  lemma JoinersShareTheLeadersRecord(events: seq<Event>, n: nat, maxBytes: nat, u: UploadId)
    requires n < |events| && Succeeds(events[n], maxBytes) && Enabled(Run(events[..n], maxBytes), events[n], maxBytes)
    requires var leader := Run(events[..n], maxBytes).uploads[events[n].u];
      var t := Run(events, maxBytes);
      u in t.uploads && t.uploads[u].stage == Joining(leader.stage.flight)
    ensures var leader := Run(events[..n], maxBytes).uploads[events[n].u];
      var t := Run(events, maxBytes);
      && Enabled(t, Wake(u), maxBytes)
      && Step(t, Wake(u), maxBytes).uploads[u].stage
         == Answered(Timing(C.Record(leader.input, events[n].content.value)))
  {
    var front := events[..n];
    var f := Run(front, maxBytes).uploads[events[n].u].stage.flight;
    assert events[..n + 1][..n] == front && events[..n + 1][n] == events[n];
    LeadersAreAnsweredWithTheirContent(front, maxBytes, events[n]);
    assert Run(events[..n + 1], maxBytes) == Step(Run(front, maxBytes), events[n], maxBytes);
    ResolvedFlightsStay(events, n + 1, maxBytes, f);
  }

  // ---------------------------------------------------------------- where a timing comes from

  /** Step n of the run is the success of a leader for that key with that record. */
  ghost predicate Produces(events: seq<Event>, n: nat, maxBytes: nat, key: C.Key, record: C.Record)
    requires n < |events|
  {
    var s, e := Run(events[..n], maxBytes), events[n];
    && Succeeds(e, maxBytes) && Enabled(s, e, maxBytes) && s.uploads[e.u].key == key
    && record == C.Record(s.uploads[e.u].input, e.content.value)
  }

  ghost predicate Produced(events: seq<Event>, maxBytes: nat, key: C.Key, record: C.Record) {
    exists n: nat | n < |events| :: Produces(events, n, maxBytes, key, record)
  }

  lemma ProducedStays(events: seq<Event>, maxBytes: nat, key: C.Key, record: C.Record)
    requires events != [] && Produced(events[..|events| - 1], maxBytes, key, record)
    ensures Produced(events, maxBytes, key, record)
  {
    var front := events[..|events| - 1];
    var n: nat :| n < |front| && Produces(front, n, maxBytes, key, record);
    assert front[..n] == events[..n];
    assert Produces(events, n, maxBytes, key, record);
  }

  /** Cached records, resolved flights and answers all come from leaders of their key. */
  ghost predicate Sourced(events: seq<Event>, maxBytes: nat) {
    var s := Run(events, maxBytes);
    && (forall k | k in s.dir :: Produced(events, maxBytes, k, s.dir[k].record))
    && (forall f | f in s.futures && s.futures[f].result.Done? && s.futures[f].result.value.Some? ::
          Produced(events, maxBytes, s.futures[f].key, s.futures[f].result.value.value))
    && (forall u | u in s.uploads && s.uploads[u].stage.Answered? && s.uploads[u].stage.answer.Timing? ::
          Produced(events, maxBytes, s.uploads[u].key, s.uploads[u].stage.answer.record))
  }

  /** What a step adds to the cache, the flights or the answers was there before or is the leader's own record. */
  ghost predicate NothingElse(s: State, t: State, key: C.Key, made: Option<C.Record>) {
    && (forall k | k in t.dir ::
          (k in s.dir && t.dir[k].record == s.dir[k].record) || (k == key && made == Some(t.dir[k].record)))
    && (forall f | f in t.futures && t.futures[f].result.Done? && t.futures[f].result.value.Some? ::
          || (f in s.futures && t.futures[f].key == s.futures[f].key && t.futures[f].result == s.futures[f].result)
          || (t.futures[f].key == key && made == t.futures[f].result.value))
    && (forall u | u in t.uploads && t.uploads[u].stage.Answered? && t.uploads[u].stage.answer.Timing? ::
          || (u in s.uploads && t.uploads[u] == s.uploads[u])
          || (t.uploads[u].key == key && made == Some(t.uploads[u].stage.answer.record))
          || (t.uploads[u].key in s.dir && s.dir[t.uploads[u].key].record == t.uploads[u].stage.answer.record)
          || (exists f | f in s.futures :: s.futures[f].key == t.uploads[u].key
                && s.futures[f].result == Done(Some(t.uploads[u].stage.answer.record))))
  }

  lemma PutAddsItsRecord(dir: C.Directory, op: C.Op, maxBytes: nat)
    requires C.Legal(dir, op, maxBytes) && op.PutOp?
    ensures var (after, answer) := C.Put(dir, op.key, op.record, op.size, op.now, op.listing, maxBytes);
      && (answer == C.Stored <==> op.size <= maxBytes)
      && (answer != C.Stored ==> after == dir)
      && forall k | k in after ::
        (k in dir && after[k].record == dir[k].record) || (k == op.key && after[k].record == op.record)
  {
  }

  lemma ReturnsAddTheirRecord(s: State, e: Event, maxBytes: nat)
    requires FlightSound(s) && e.LeaderReturns? && Enabled(s, e, maxBytes)
    ensures NothingElse(s, Step(s, e, maxBytes), s.uploads[e.u].key,
                        if Succeeds(e, maxBytes) then Some(C.Record(s.uploads[e.u].input, e.content.value)) else None)
  {
    assert UploadSound(s, e.u);
    if e.content.Some? {
      PutAddsItsRecord(s.dir, C.PutOp(s.uploads[e.u].key, C.Record(s.uploads[e.u].input, e.content.value),
                                      e.size, e.now, e.listing), maxBytes);
    }
  }

  lemma OthersAddNothing(s: State, e: Event, maxBytes: nat, key: C.Key)
    requires FlightSound(s) && !e.LeaderReturns?
    ensures NothingElse(s, Step(s, e, maxBytes), key, None)
  {
    if e.Wake? && Enabled(s, e, maxBytes) { assert UploadSound(s, e.u); }
  }

  lemma NothingElseIsSourced(events: seq<Event>, maxBytes: nat, key: C.Key, made: Option<C.Record>)
    requires events != [] && Sourced(events[..|events| - 1], maxBytes)
    requires NothingElse(Run(events[..|events| - 1], maxBytes), Run(events, maxBytes), key, made)
    requires made.Some? ==> Produced(events, maxBytes, key, made.value)
    ensures Sourced(events, maxBytes)
  {
    forall k, r | Produced(events[..|events| - 1], maxBytes, k, r) ensures Produced(events, maxBytes, k, r) {
      ProducedStays(events, maxBytes, k, r);
    }
  }

  lemma {:induction false} RunsAreSourced(events: seq<Event>, maxBytes: nat)
    ensures Sourced(events, maxBytes)
    decreases |events|
  {
    if events != [] {
      var front, e := events[..|events| - 1], events[|events| - 1];
      RunsAreSourced(front, maxBytes);
      RunsKeepFlights(front, maxBytes);
      var s := Run(front, maxBytes);
      if e.LeaderReturns? && Enabled(s, e, maxBytes) {
        var key := s.uploads[e.u].key;
        var made := if Succeeds(e, maxBytes) then Some(C.Record(s.uploads[e.u].input, e.content.value)) else None;
        ReturnsAddTheirRecord(s, e, maxBytes);
        if made.Some? { assert Produces(events, |events| - 1, maxBytes, key, made.value); }
        NothingElseIsSourced(events, maxBytes, key, made);
      } else {
        StayingAddsNothing(s, e, maxBytes);
        NothingElseIsSourced(events, maxBytes, C.Key(0, 0), None);
      }
    }
  }

  lemma StayingAddsNothing(s: State, e: Event, maxBytes: nat)
    requires FlightSound(s) && !(e.LeaderReturns? && Enabled(s, e, maxBytes))
    ensures NothingElse(s, Step(s, e, maxBytes), C.Key(0, 0), None)
  {
    if !e.LeaderReturns? { OthersAddNothing(s, e, maxBytes, C.Key(0, 0)); }
  }

  /** Every timing an upload is answered with was computed for its own input, by a leader of its own task and
      capability that returned with that very content earlier in the run. */
  lemma EveryTimingComesFromALeader(events: seq<Event>, maxBytes: nat, u: UploadId)
    requires var s := Run(events, maxBytes);
      u in s.uploads && s.uploads[u].stage.Answered? && s.uploads[u].stage.answer.Timing?
    ensures var upload := Run(events, maxBytes).uploads[u];
      && upload.stage.answer.record.input == upload.input
      && Produced(events, maxBytes, upload.key, upload.stage.answer.record)
  {
    RunsAreSourced(events, maxBytes);
    AnswersBelongToTheirInput(events, maxBytes, u);
  }

  // ---------------------------------------------------------------- when nothing is available

  /** The leader of flight f returned, with or without success. */
  ghost predicate Led(events: seq<Event>, maxBytes: nat, f: FlightId, success: bool) {
    if events == [] then false
    else
      var front, e := events[..|events| - 1], events[|events| - 1];
      var s := Run(front, maxBytes);
      || Led(front, maxBytes, f, success)
      || (e.LeaderReturns? && Enabled(s, e, maxBytes) && s.uploads[e.u].stage == Leading(f)
          && success == Succeeds(e, maxBytes))
  }

  /** A flight is over exactly when its leader has returned, and has a record exactly when it succeeded. */
  lemma {:induction false} FlightsEndWithTheirLeader(events: seq<Event>, maxBytes: nat, f: FlightId)
    ensures var s := Run(events, maxBytes);
      && (Led(events, maxBytes, f, true) <==>
            f in s.futures && s.futures[f].result.Done? && s.futures[f].result.value.Some?)
      && (Led(events, maxBytes, f, false) <==> f in s.futures && s.futures[f].result == Done(None))
    decreases |events|
  {
    if events != [] {
      var front, e := events[..|events| - 1], events[|events| - 1];
      FlightsEndWithTheirLeader(front, maxBytes, f);
      RunsKeepFlights(front, maxBytes);
      var s := Run(front, maxBytes);
      StepKeepsResolved(s, e, maxBytes);
      if e.LeaderReturns? && Enabled(s, e, maxBytes) {
        assert UploadSound(s, e.u);
        LeadersAreAnsweredWithTheirContent(front, maxBytes, e);
        OtherFlightsStay(s, e, maxBytes, f);
      } else {
        OnlyLeadersResolve(s, e, maxBytes, f);
      }
    }
  }

  lemma OtherFlightsStay(s: State, e: Event, maxBytes: nat, f: FlightId)
    requires e.LeaderReturns? && Enabled(s, e, maxBytes)
    ensures var t := Step(s, e, maxBytes);
      s.uploads[e.u].stage.flight != f ==> (f in t.futures <==> f in s.futures)
                                           && (f in s.futures ==> t.futures[f] == s.futures[f])
  {
  }

  lemma OnlyLeadersResolve(s: State, e: Event, maxBytes: nat, f: FlightId)
    requires !(e.LeaderReturns? && Enabled(s, e, maxBytes))
    ensures var t := Step(s, e, maxBytes);
      f in t.futures && t.futures[f].result.Done? ==> f in s.futures && s.futures[f].result == t.futures[f].result
  {
  }

  /** Upload u led and failed, or gave up, or woke on a flight whose leader had failed. */
  ghost predicate Disappointed(events: seq<Event>, maxBytes: nat, u: UploadId) {
    if events == [] then false
    else
      var front, e := events[..|events| - 1], events[|events| - 1];
      var s := Run(front, maxBytes);
      || Disappointed(front, maxBytes, u)
      || (Enabled(s, e, maxBytes)
          && (|| (e == GiveUp(u))
              || (e.LeaderReturns? && e.u == u && !Succeeds(e, maxBytes))
              || (e == Wake(u) && Led(front, maxBytes, s.uploads[u].stage.flight, false))))
  }

  /** Of a step of upload u itself: whether it is told now that nothing is available. */
  lemma AnsweredNow(front: seq<Event>, maxBytes: nat, e: Event)
    requires Enabled(Run(front, maxBytes), e, maxBytes) && !e.Lookup?
    ensures var s, t := Run(front, maxBytes), Step(Run(front, maxBytes), e, maxBytes);
      e.u in t.uploads
      && (t.uploads[e.u].stage == Answered(Unavailable) <==>
            || e.GiveUp?
            || (e.LeaderReturns? && !Succeeds(e, maxBytes))
            || (e.Wake? && Led(front, maxBytes, s.uploads[e.u].stage.flight, false)))
  {
    var s := Run(front, maxBytes);
    match e
    case LeaderReturns(_, _, _, _, _) => LeadersAreAnsweredWithTheirContent(front, maxBytes, e);
    case Wake(u) => FlightsEndWithTheirLeader(front, maxBytes, s.uploads[u].stage.flight);
    case Arrive(_, _, _, _, _) => CachedArrivalsAreAnsweredAtOnce(front, maxBytes, e);
    case GiveUp(_) =>
  }

  lemma OneMoreAnswer(events: seq<Event>, maxBytes: nat, u: UploadId)
    requires events != []
    requires var s := Run(events[..|events| - 1], maxBytes);
      !(u in s.uploads && s.uploads[u].stage == Answered(Unavailable))
      && !Disappointed(events[..|events| - 1], maxBytes, u)
    ensures var t := Run(events, maxBytes);
      Disappointed(events, maxBytes, u) <==> u in t.uploads && t.uploads[u].stage == Answered(Unavailable)
  {
    var front, e := events[..|events| - 1], events[|events| - 1];
    var s := Run(front, maxBytes);
    if Enabled(s, e, maxBytes) {
      if !e.Lookup? { AnsweredNow(front, maxBytes, e); }
      StepKeepsAnswers(s, e, maxBytes);
      if u !in s.uploads && (e.Lookup? || e.u != u) { OthersStayAway(s, e, maxBytes, u); }
    }
  }

  lemma OthersStayAway(s: State, e: Event, maxBytes: nat, u: UploadId)
    requires u !in s.uploads && (e.Lookup? || e.u != u)
    ensures u !in Step(s, e, maxBytes).uploads
  {
  }

  /** In any run an upload has been told that nothing is available if and only if it led and the backend gave nothing
      or more than the cache takes, or it gave up waiting, or it woke on a flight whose leader had failed so. */
  lemma {:induction false} UnavailableExactlyWhenDisappointed(events: seq<Event>, maxBytes: nat, u: UploadId)
    ensures var s := Run(events, maxBytes);
      u in s.uploads && s.uploads[u].stage == Answered(Unavailable) <==> Disappointed(events, maxBytes, u)
    decreases |events|
  {
    if events != [] {
      var front := events[..|events| - 1];
      UnavailableExactlyWhenDisappointed(front, maxBytes, u);
      RunsKeepFlights(front, maxBytes);
      StepKeepsAnswers(Run(front, maxBytes), events[|events| - 1], maxBytes);
      if !Disappointed(front, maxBytes, u) { OneMoreAnswer(events, maxBytes, u); }
    }
  }
}
