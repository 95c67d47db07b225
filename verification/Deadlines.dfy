/** How official attempts share the time before the swarm's reserve. */
module Deadlines {
  datatype Settings = Settings(queueSeconds: real, leaseSeconds: real, backendTimeout: real) {
    predicate Valid() { queueSeconds > 0.0 && leaseSeconds > 0.0 && backendTimeout > 0.0 }
  }

  const PROBE_SECONDS := 5.0

  function Lesser(a: real, b: real): real { if a <= b then a else b }

  function Greater(a: real, b: real): real { if a >= b then a else b }

  function OfficialDeadline(cfg: Settings, ownerDeadline: real, now: real): real {
    var remaining := Greater(0.0, ownerDeadline - now);
    ownerDeadline - Lesser(cfg.queueSeconds + cfg.leaseSeconds, remaining / 2.0)
  }

  /** One backend as the network happens to behave: how long each exchange would take if nothing cut it off, and
      whether it ends the search. `Post` is a transcription or draft; `Probed` asks for health before it streams. */
  datatype Backend =
    | Post(duration: real, answers: bool)
    | Probed(probe: real, capable: bool, duration: real, answers: bool)

  predicate Natural(b: Backend) {
    b.duration >= 0.0 && (b.Probed? ==> b.probe >= 0.0)
  }

  /** Time spent on a backend that is cut off after `timeout`, and whether it answered. */
  function Spend(b: Backend, timeout: real): (r: (real, bool))
    requires Natural(b) && timeout > 0.0
    ensures 0.0 <= r.0 <= timeout
  {
    match b
    case Post(duration, answers) =>
      if duration <= timeout then (duration, answers) else (timeout, false)
    case Probed(probe, capable, duration, answers) =>
      var patience := Lesser(PROBE_SECONDS, timeout);
      if probe > patience then (patience, false)
      else if !capable || timeout - probe <= 0.0 then (probe, false)
      else if duration <= timeout - probe then (probe + duration, answers)
      else (timeout, false)
  }

  /** When each attempt began and which share of the remaining time it got; when the search ended; whether answered.
      `late[i]` is the time lost after attempt i beyond its timeout. */
  datatype Search = Search(starts: seq<real>, end: real, answered: bool)

  function Share(deadline: real, now: real, left: nat): real
    requires left > 0
  {
    (deadline - now) / (left as real)
  }

  function Attempts(cfg: Settings, deadline: real, now: real, backends: seq<Backend>, late: seq<real>): Search
    requires cfg.Valid() && |late| == |backends| && forall b | b in backends :: Natural(b)
    decreases |backends|
  {
    if backends == [] || Share(deadline, now, |backends|) <= 0.0 then Search([], now, false)
    else
      var (spent, answered) := Spend(backends[0], Lesser(cfg.backendTimeout, Share(deadline, now, |backends|)));
      var next := now + spent + late[0];
      if answered then Search([now], next, true)
      else
        var rest := Attempts(cfg, deadline, next, backends[1..], late[1..]);
        Search([now] + rest.starts, rest.end, rest.answered)
  }

  method TryBackends(cfg: Settings, deadline: real, begin: real, backends: seq<Backend>, late: seq<real>)
    returns (search: Search)
    requires cfg.Valid() && |late| == |backends| && forall b | b in backends :: Natural(b)
    ensures search == Attempts(cfg, deadline, begin, backends, late)
  {
    var now, starts := begin, [];
    for index := 0 to |backends|
      invariant var rest := Attempts(cfg, deadline, now, backends[index..], late[index..]);
        Attempts(cfg, deadline, begin, backends, late) == Search(starts + rest.starts, rest.end, rest.answered)
    {
      var remaining := (deadline - now) / ((|backends| - index) as real);
      if remaining <= 0.0 { return Search(starts, now, false); }
      assert backends[index..][1..] == backends[index + 1..] && late[index..][1..] == late[index + 1..];
      var (spent, answered) := Spend(backends[index], Lesser(cfg.backendTimeout, remaining));
      starts := starts + [now];
      now := now + spent + late[index];
      if answered { return Search(starts, now, true); }
    }
    return Search(starts, now, false);
  }

  function Sum(late: seq<real>, n: nat): real
    requires n <= |late|
  {
    if n == 0 then 0.0 else Sum(late, n - 1) + late[n - 1]
  }

  lemma {:induction false} SumSplit(late: seq<real>, n: nat)
    requires 0 < n <= |late|
    ensures Sum(late, n) == late[0] + Sum(late[1..], n - 1)
  {
    if n > 1 { SumSplit(late, n - 1); }
  }

  lemma TimesMonotone(x: real, y: real, z: real)
    requires x <= y && z >= 0.0
    ensures x * z <= y * z
  {
  }

  lemma Quotient(x: real, z: real) returns (q: real)
    requires z > 0.0
    ensures q == x / z && q * z == x
  {
    q := x / z;
  }

  lemma QuotientAtLeast(x: real, s: real, z: real)
    requires z > 0.0 && x >= s * z
    ensures x / z >= s
  {
    var q := Quotient(x, z);
    if q < s {
      assert (s - q) * z > 0.0;
      assert s * z == q * z + (s - q) * z;
    }
  }

  /** The arithmetic of one attempt: the next share falls short by no more than the lateness spread over the rest. */
  lemma ShareCarries(share: real, next: real, a: real, b: real, o: real)
    requires 0.0 <= a <= b && o >= 0.0 && next * b >= share * b - o
    ensures next * a + o >= share * a
  {
    if share > next {
      TimesMonotone(a, b, share - next);
      assert (share - next) * b == share * b - next * b;
      assert (share - next) * a == share * a - next * a;
    } else {
      TimesMonotone(share, next, a);
    }
  }

  lemma ShareFacts(r: real, n: nat)
    requires n > 0 && r > 0.0
    ensures var share := r / (n as real); 0.0 < share <= r && (n > 1 ==> share < r)
  {
    var share := Quotient(r, n as real);
    if share <= 0.0 { TimesMonotone(share, 0.0, n as real); }
    TimesMonotone(1.0, n as real, share);
    if n > 1 { TimesMonotone(2.0, n as real, share); }
  }

  lemma FirstAttempt(cfg: Settings, deadline: real, now: real, backends: seq<Backend>, late: seq<real>)
    requires cfg.Valid() && |late| == |backends| && forall b | b in backends :: Natural(b)
    requires Attempts(cfg, deadline, now, backends, late).starts != []
    ensures backends != [] && Attempts(cfg, deadline, now, backends, late).starts[0] == now
  {
  }

  /** What n fair shares of the time from `now` come to, for the n - i backends still to try. */
  function Fair(deadline: real, now: real, n: nat, i: nat): real
    requires i < n
  {
    Share(deadline, now, n) * ((n - i) as real)
  }

  lemma FairFromTheStart(deadline: real, now: real, n: nat)
    requires n > 0
    ensures Fair(deadline, now, n, 0) == deadline - now
  {
    var share := Quotient(deadline - now, n as real);
  }

  /** Any attempt after the first belongs to the search that starts when the first is over. */
  lemma LaterAttempt(cfg: Settings, deadline: real, now: real, backends: seq<Backend>, late: seq<real>, i: nat)
    returns (next: real)
    requires cfg.Valid() && |late| == |backends| && forall b | b in backends :: Natural(b)
    requires 0 < i < |Attempts(cfg, deadline, now, backends, late).starts|
    ensures next <= now + Share(deadline, now, |backends|) + late[0]
    ensures i - 1 < |Attempts(cfg, deadline, next, backends[1..], late[1..]).starts|
    ensures Attempts(cfg, deadline, now, backends, late).starts[i]
         == Attempts(cfg, deadline, next, backends[1..], late[1..]).starts[i - 1]
  {
    next := now + Spend(backends[0], Lesser(cfg.backendTimeout, Share(deadline, now, |backends|))).0 + late[0];
  }

  lemma NextShare(deadline: real, now: real, next: real, n: nat, i: nat, o: real)
    requires 0 < i < n && o >= 0.0 && next <= now + Share(deadline, now, n) + o
    ensures Fair(deadline, next, n - 1, i - 1) + o >= Fair(deadline, now, n, i)
  {
    var share := Quotient(deadline - now, n as real);
    var share' := Quotient(deadline - next, (n - 1) as real);
    assert share * (n as real) == share * ((n - 1) as real) + share;
    ShareCarries(share, share', (n - i) as real, (n - 1) as real, o);
  }

  /** When attempt i of n begins, n - i fair shares are left, less what was lost to lateness: however the earlier
      backends stalled. */
  lemma {:induction false} SharesStayFair(
    cfg: Settings, deadline: real, now: real, backends: seq<Backend>, late: seq<real>, i: nat)
    requires cfg.Valid() && |late| == |backends| && forall b | b in backends :: Natural(b)
    requires forall k | 0 <= k < |late| :: late[k] >= 0.0
    requires i < |Attempts(cfg, deadline, now, backends, late).starts|
    ensures i < |backends|
    ensures deadline - Attempts(cfg, deadline, now, backends, late).starts[i]
         >= Fair(deadline, now, |backends|, i) - Sum(late, i)
    decreases |backends|
  {
    if i == 0 {
      FirstAttempt(cfg, deadline, now, backends, late);
      FairFromTheStart(deadline, now, |backends|);
    } else {
      var next := LaterAttempt(cfg, deadline, now, backends, late, i);
      var rest := late[1..];
      SharesStayFair(cfg, deadline, next, backends[1..], rest, i - 1);
      assert |backends[1..]| - (i - 1) == |backends| - i;
      NextShare(deadline, now, next, |backends|, i, late[0]);
      SumSplit(late, i);
    }
  }

  /** Without lateness the shares never shrink below the fair one, no backend is skipped for want of time, and the
      search ends inside its phase. */
  lemma {:induction false} PunctualSearchReachesEveryBackend(
    cfg: Settings, deadline: real, now: real, backends: seq<Backend>, late: seq<real>)
    requires cfg.Valid() && |late| == |backends| && now < deadline
    requires forall b | b in backends :: Natural(b)
    requires forall k | 0 <= k < |late| :: late[k] == 0.0
    ensures var search := Attempts(cfg, deadline, now, backends, late);
      && now <= search.end <= deadline
      && |search.starts| <= |backends|
      && (!search.answered ==> |search.starts| == |backends|)
    decreases |backends|
  {
    if backends != [] {
      var n := |backends|;
      ShareFacts(deadline - now, n);
      var (spent, answered) := Spend(backends[0], Lesser(cfg.backendTimeout, Share(deadline, now, n)));
      var next := now + spent + late[0];
      if !answered && n > 1 {
        PunctualSearchReachesEveryBackend(cfg, deadline, next, backends[1..], late[1..]);
      }
    }
  }

  // ---------------------------------------------------------------- what a search does, attempt by attempt

  /** The backend ends the search within that time: the probe within five seconds and the whole within the time. */
  predicate AnswersWithin(b: Backend, time: real) {
    match b
    case Post(duration, answers) => answers && duration <= time
    case Probed(probe, capable, duration, answers) =>
      capable && answers && probe <= 5.0 && probe < time && probe + duration <= time
  }

  /** The time of attempt i: the share of what was left when it began, but at most the backend timeout. */
  function Allowed(cfg: Settings, deadline: real, start: real, left: nat): real
    requires left > 0
  {
    Lesser(cfg.backendTimeout, Share(deadline, start, left))
  }

  lemma SpendAnswersWithin(b: Backend, time: real)
    requires Natural(b) && time > 0.0
    ensures Spend(b, time).1 <==> AnswersWithin(b, time)
    ensures Spend(b, time).1 ==> Spend(b, time).0 == b.duration + (if b.Probed? then b.probe else 0.0)
  {
  }

  /** Attempt i has time, is followed at once by the next or by the end, and answers only as the last. */
  ghost predicate AttemptOk(cfg: Settings, deadline: real, backends: seq<Backend>, late: seq<real>, s: Search, i: nat)
    requires cfg.Valid() && |late| == |backends| && forall b | b in backends :: Natural(b)
    requires i < |s.starts| <= |backends|
  {
    var time := Allowed(cfg, deadline, s.starts[i], |backends| - i);
    && time > 0.0
    && s.starts[i] + Spend(backends[i], time).0 + late[i] == (if i + 1 < |s.starts| then s.starts[i + 1] else s.end)
    && (AnswersWithin(backends[i], time) <==> i + 1 == |s.starts| && s.answered)
  }

  ghost predicate AttemptsOk(cfg: Settings, deadline: real, backends: seq<Backend>, late: seq<real>, s: Search)
    requires cfg.Valid() && |late| == |backends| && forall b | b in backends :: Natural(b)
    requires |s.starts| <= |backends|
  {
    forall i: nat | i < |s.starts| :: AttemptOk(cfg, deadline, backends, late, s, i)
  }

  /** The attempts begin now, and the search ends answered, or with all backends tried, or with no time left. */
  ghost predicate Proceeds(cfg: Settings, deadline: real, now: real, backends: seq<Backend>, late: seq<real>, s: Search)
    requires cfg.Valid() && |late| == |backends| && forall b | b in backends :: Natural(b)
  {
    var n, m := |backends|, |s.starts|;
    && m <= n && (if m > 0 then s.starts[0] == now else s.end == now && !s.answered)
    && AttemptsOk(cfg, deadline, backends, late, s)
    && (!s.answered && m < n ==> Share(deadline, s.end, n - m) <= 0.0)
  }

  lemma AttemptShifts(cfg: Settings, deadline: real, now: real, backends: seq<Backend>, late: seq<real>, rest: Search,
                      i: nat)
    requires cfg.Valid() && |late| == |backends| > 0 && forall b | b in backends :: Natural(b)
    requires i < |rest.starts| <= |backends| - 1 && AttemptOk(cfg, deadline, backends[1..], late[1..], rest, i)
    ensures AttemptOk(cfg, deadline, backends, late, Search([now] + rest.starts, rest.end, rest.answered), i + 1)
  {
    assert backends[1..][i] == backends[i + 1] && late[1..][i] == late[i + 1];
    assert ([now] + rest.starts)[i + 1] == rest.starts[i];
    assert |backends[1..]| - i == |backends| - (i + 1);
  }

  lemma LaterProceed(cfg: Settings, deadline: real, now: real, next: real, backends: seq<Backend>, late: seq<real>,
                     rest: Search)
    requires cfg.Valid() && |late| == |backends| > 0 && forall b | b in backends :: Natural(b)
    requires Proceeds(cfg, deadline, next, backends[1..], late[1..], rest)
    requires var time := Allowed(cfg, deadline, now, |backends|);
      time > 0.0 && !AnswersWithin(backends[0], time) && next == now + Spend(backends[0], time).0 + late[0]
    ensures Proceeds(cfg, deadline, now, backends, late, Search([now] + rest.starts, rest.end, rest.answered))
  {
    var s := Search([now] + rest.starts, rest.end, rest.answered);
    forall i: nat | i < |s.starts| ensures AttemptOk(cfg, deadline, backends, late, s, i) {
      if i > 0 { AttemptShifts(cfg, deadline, now, backends, late, rest, i - 1); }
    }
    assert |backends[1..]| - |rest.starts| == |backends| - |s.starts|;
  }

  lemma LastAttempt(cfg: Settings, deadline: real, now: real, backends: seq<Backend>, late: seq<real>)
    requires cfg.Valid() && |late| == |backends| > 0 && forall b | b in backends :: Natural(b)
    requires var time := Allowed(cfg, deadline, now, |backends|); time > 0.0 && Spend(backends[0], time).1
    ensures var end := now + Spend(backends[0], Allowed(cfg, deadline, now, |backends|)).0 + late[0];
      Proceeds(cfg, deadline, now, backends, late, Search([now], end, true))
  {
    SpendAnswersWithin(backends[0], Allowed(cfg, deadline, now, |backends|));
    var end := now + Spend(backends[0], Allowed(cfg, deadline, now, |backends|)).0 + late[0];
    assert AttemptOk(cfg, deadline, backends, late, Search([now], end, true), 0);
  }

  /** A search is answered exactly when the last backend it tried answers within its time; none before it did; and it
      stops unanswered only when no backend or no time is left. */
  lemma {:induction false} SearchesProceed(
    cfg: Settings, deadline: real, now: real, backends: seq<Backend>, late: seq<real>)
    requires cfg.Valid() && |late| == |backends| && forall b | b in backends :: Natural(b)
    ensures Proceeds(cfg, deadline, now, backends, late, Attempts(cfg, deadline, now, backends, late))
    decreases |backends|
  {
    if backends != [] && Share(deadline, now, |backends|) > 0.0 {
      var time := Allowed(cfg, deadline, now, |backends|);
      SpendAnswersWithin(backends[0], time);
      if Spend(backends[0], time).1 {
        LastAttempt(cfg, deadline, now, backends, late);
      } else {
        var next := now + Spend(backends[0], time).0 + late[0];
        SearchesProceed(cfg, deadline, next, backends[1..], late[1..]);
        LaterProceed(cfg, deadline, now, next, backends, late, Attempts(cfg, deadline, next, backends[1..], late[1..]));
      }
    }
  }

  /** The whole official phase: every attempt's share is at least (phase)/n, and what remains for the swarm is the
      queue and lease time, or half of what the owner had when the phase began, whichever is less. */
  lemma OfficialPhaseIsFairAndLeavesTheReserve(
    cfg: Settings, ownerDeadline: real, now: real, backends: seq<Backend>, late: seq<real>, i: nat)
    requires cfg.Valid() && |late| == |backends| && now < ownerDeadline
    requires forall b | b in backends :: Natural(b)
    requires forall k | 0 <= k < |late| :: late[k] == 0.0
    ensures var deadline := OfficialDeadline(cfg, ownerDeadline, now);
      var search := Attempts(cfg, deadline, now, backends, late);
      && (ownerDeadline - deadline == cfg.queueSeconds + cfg.leaseSeconds <= (ownerDeadline - now) / 2.0
          || ownerDeadline - deadline == (ownerDeadline - now) / 2.0 <= cfg.queueSeconds + cfg.leaseSeconds)
      && search.end <= deadline
      && (!search.answered ==> |search.starts| == |backends|)
      && (i < |search.starts| ==>
            i < |backends|
            && Share(deadline, search.starts[i], |backends| - i) >= Share(deadline, now, |backends|))
  {
    var deadline := OfficialDeadline(cfg, ownerDeadline, now);
    PunctualSearchReachesEveryBackend(cfg, deadline, now, backends, late);
    if i < |Attempts(cfg, deadline, now, backends, late).starts| {
      PunctualShare(cfg, deadline, now, backends, late, i);
    }
  }

  lemma PunctualShare(cfg: Settings, deadline: real, now: real, backends: seq<Backend>, late: seq<real>, i: nat)
    requires cfg.Valid() && |late| == |backends| && forall b | b in backends :: Natural(b)
    requires forall k | 0 <= k < |late| :: late[k] == 0.0
    requires i < |Attempts(cfg, deadline, now, backends, late).starts|
    ensures i < |backends|
    ensures Share(deadline, Attempts(cfg, deadline, now, backends, late).starts[i], |backends| - i)
         >= Share(deadline, now, |backends|)
  {
    SharesStayFair(cfg, deadline, now, backends, late, i);
    NoLateness(late, i);
    var start, fair := Attempts(cfg, deadline, now, backends, late).starts[i], Share(deadline, now, |backends|);
    QuotientAtLeast(deadline - start, fair, (|backends| - i) as real);
  }

  lemma {:induction false} NoLateness(late: seq<real>, n: nat)
    requires n <= |late| && forall k | 0 <= k < |late| :: late[k] == 0.0
    ensures Sum(late, n) == 0.0
  {
    if n > 0 { NoLateness(late, n - 1); }
  }
}
