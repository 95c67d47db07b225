/** The object `InferenceQueue`: the waiting line with its table of active tickets, the recently completed request
    ids and the last progress report of each. */
module InferenceQueueObject {
  import opened Basics
  import opened Memory
  import Fifo

  type Id = string
  datatype Field = Text(text: string) | Number(number: int)
  type Report = map<string, Field>

  /** A completed request id and the instant it is forgotten. */
  type Entry = Remembered<Id, ()>

  datatype StatusName = QueuedNow | RunningNow | CompletedLately
  datatype Status = Status(name: StatusName, position: nat, queuedCount: nat, progress: Option<Report>)

  function FirstLive(waiting: seq<QueueTicket>, active: map<Id, QueueTicket>): (k: nat)
    ensures k <= |waiting|
    ensures k < |waiting| ==> Live(waiting[k], active)
  {
    if waiting == [] || Live(waiting[0], active) then 0 else 1 + FirstLive(waiting[1..], active)
  }

  predicate Live(t: QueueTicket, active: map<Id, QueueTicket>) {
    t.requestId in active && active[t.requestId] == t
  }

  // ---------------------------------------------------------------- what the tables keep, on values

  predicate AllLive(tickets: seq<QueueTicket>, active: map<Id, QueueTicket>) {
    forall t | t in tickets :: Live(t, active)
  }

  /** The table of active tickets lists exactly the tickets in the line. */
  predicate TableIsLine(line: seq<QueueTicket>, active: map<Id, QueueTicket>) {
    && AllLive(line, active)
    && (forall id | id in active :: active[id] in line && active[id].requestId == id)
  }

  predicate MemorySound(completed: seq<Entry>, active: map<Id, QueueTicket>, bound: real) {
    && DistinctIds(completed) && ExpiriesRise(completed)
    && (forall e | e in completed :: e.id !in active && e.expiry <= bound)
  }

  /** Reports exist only for the running ticket and the completed ids. */
  predicate ReportsSound(progress: map<Id, Report>, line: seq<QueueTicket>, completed: seq<Entry>) {
    forall id | id in progress :: (line != [] && id == line[0].requestId) || id in Ids(completed)
  }

  /** All three tables agree with the line. */
  predicate TablesAgree(line: seq<QueueTicket>, active: map<Id, QueueTicket>, completed: seq<Entry>,
                        progress: map<Id, Report>, bound: real, most: nat) {
    && TableIsLine(line, active)
    && MemorySound(completed, active, bound) && |completed| <= most
    && ReportsSound(progress, line, completed)
  }

  lemma PushKeepsTheTable(line: seq<QueueTicket>, active: map<Id, QueueTicket>, t: QueueTicket)
    requires TableIsLine(line, active) && t.requestId !in active
    ensures t !in line && TableIsLine(line + [t], active[t.requestId := t])
  {
  }

  lemma RemovalKeepsTheTable(line: seq<QueueTicket>, active: map<Id, QueueTicket>, t: QueueTicket)
    requires TableIsLine(line, active) && Distinct(line) && t in line
    ensures TableIsLine(Without(line, t), active - {t.requestId})
  {
    WithoutMembers(line, t);
    var active' := active - {t.requestId};
    assert Live(t, active);
    forall u | u in Without(line, t)
      ensures Live(u, active')
    {
      assert Live(u, active) && u != t;
    }
    forall id | id in active'
      ensures active'[id] in Without(line, t) && active'[id].requestId == id
    {
      assert id in active && active[id] in line && active[id] != t;
    }
  }

  lemma PruningKeepsTheMemory(completed: seq<Entry>, active: map<Id, QueueTicket>, bound: real, later: real,
                              now: real, most: nat)
    requires MemorySound(completed, active, bound) && bound <= later
    ensures MemorySound(Pruned(completed, now, most), active, later) && |Pruned(completed, now, most)| <= most
  {
    PrunedStaysSound(completed, now, most);
  }

  lemma PruningKeepsTheReports(progress: map<Id, Report>, line: seq<QueueTicket>, completed: seq<Entry>,
                               now: real, most: nat)
    requires ReportsSound(progress, line, completed) && DistinctIds(completed)
    ensures ReportsSound(progress - Dropped(completed, now, most), line, Pruned(completed, now, most))
  {
    PrunedAndDropped(completed, now, most);
  }

  lemma RememberKeepsTheMemory(completed: seq<Entry>, active: map<Id, QueueTicket>, id: Id, bound: real, expiry: real)
    requires MemorySound(completed, active, bound) && bound <= expiry && id in active
    ensures MemorySound(completed + [Remembered(id, expiry, ())], active - {id}, expiry)
  {
    var entries := completed + [Remembered(id, expiry, ())];
    assert forall i | 0 <= i < |completed| :: entries[i] in completed;
  }

  lemma RememberKeepsTheReports(progress: map<Id, Report>, line: seq<QueueTicket>, completed: seq<Entry>, expiry: real)
    requires ReportsSound(progress, line, completed) && line != []
    ensures ReportsSound(progress, line[1..], completed + [Remembered(line[0].requestId, expiry, ())])
  {
    var e := Remembered(line[0].requestId, expiry, ());
    assert e in completed + [e];
    assert forall id | id in Ids(completed) :: id in Ids(completed + [e]);
  }

  lemma RemovalKeepsTheReports(progress: map<Id, Report>, line: seq<QueueTicket>, completed: seq<Entry>, t: QueueTicket)
    requires ReportsSound(progress, line, completed) && Distinct(line) && t in line
    ensures ReportsSound(progress - {t.requestId}, Without(line, t), completed)
  {
    if t != line[0] { assert Without(line, t)[0] == line[0]; }
  }

  lemma FirstLiveIsFirst(waiting: seq<QueueTicket>, active: map<Id, QueueTicket>)
    requires AllLive(waiting, active)
    ensures FirstLive(waiting, active) == 0
  {
  }

  lemma DistinctTails(s: seq<QueueTicket>)
    requires Distinct(s) && s != []
    ensures s[0] !in s[1..] && Distinct(s[1..])
  {
  }

  /** `complete` on values: the head leaves the table and enters the memory. */
  lemma CompletionKeeps(line: seq<QueueTicket>, active: map<Id, QueueTicket>, completed: seq<Entry>,
                        progress: map<Id, Report>, bound: real, expiry: real, now: real, most: nat)
    requires TablesAgree(line, active, completed, progress, bound, most)
    requires Distinct(line) && line != [] && bound <= expiry
    ensures var id := line[0].requestId;
      var entries := completed + [Remembered(id, expiry, ())];
      TablesAgree(line[1..], active - {id}, Pruned(entries, now, most), progress - Dropped(entries, now, most),
                  expiry, most)
  {
    var id := line[0].requestId;
    assert Live(line[0], active);
    assert Without(line, line[0]) == line[1..];
    RemovalKeepsTheTable(line, active, line[0]);
    RememberKeepsTheMemory(completed, active, id, bound, expiry);
    RememberKeepsTheReports(progress, line, completed, expiry);
    var entries := completed + [Remembered(id, expiry, ())];
    PruningKeepsTheMemory(entries, active - {id}, expiry, expiry, now, most);
    PruningKeepsTheReports(progress, line[1..], entries, now, most);
  }

  /** `abandon` on values. */
  lemma AbandonKeeps(line: seq<QueueTicket>, active: map<Id, QueueTicket>, completed: seq<Entry>,
                     progress: map<Id, Report>, bound: real, most: nat, t: QueueTicket)
    requires TablesAgree(line, active, completed, progress, bound, most) && Distinct(line) && t in line
    ensures TablesAgree(Without(line, t), active - {t.requestId}, completed, progress - {t.requestId}, bound, most)
  {
    RemovalKeepsTheTable(line, active, t);
    RemovalKeepsTheReports(progress, line, completed, t);
  }

  lemma NotActiveNotInLine(line: seq<QueueTicket>, active: map<Id, QueueTicket>, id: Id)
    requires TableIsLine(line, active)
    ensures id in active <==> exists t :: t in line && t.requestId == id
    ensures id !in active ==> forall i | 0 <= i < |line| :: line[i].requestId != id
  {
    assert forall i | 0 <= i < |line| :: Live(line[i], active);
  }

  lemma StaleIsNotInLine(line: seq<QueueTicket>, active: map<Id, QueueTicket>, t: QueueTicket)
    requires TableIsLine(line, active) && Distinct(line)
    ensures Live(t, active) <==> t in line
    ensures !Live(t, active) ==> Without(line, t) == line
  {
    WithoutMembers(line, t);
  }

  lemma TableIsLive(line: seq<QueueTicket>, active: map<Id, QueueTicket>)
    requires TableIsLine(line, active)
    ensures AllLive(line, active)
  {
  }

  lemma HeadLeaves(line: seq<QueueTicket>)
    requires line != []
    ensures Without(line, line[0]) == line[1..]
  {
  }

  lemma TailIsBehindTheHead(line: seq<QueueTicket>, waiting: seq<QueueTicket>, t: QueueTicket)
    requires Distinct(line) && line != [] && line[1..] == waiting && t in waiting
    ensures t != line[0] && forall u | u in Without(waiting, t) :: u in waiting
  {
    DistinctTails(line);
    WithoutIsPart(waiting, t);
  }

  lemma NoIdTwice(line: seq<QueueTicket>, active: map<Id, QueueTicket>, i: nat, j: nat)
    requires TableIsLine(line, active) && Distinct(line) && i < |line| && j < |line|
    requires line[i].requestId == line[j].requestId
    ensures i == j
  {
    assert Live(line[i], active) && Live(line[j], active);
  }

  function Lookup<K, V>(m: map<K, V>, k: K): Option<V> {
    if k in m then Some(m[k]) else None
  }

  // ---------------------------------------------------------------- the objects

  class QueueTicket {
    const requestId: Id
    var ready: bool

    constructor (id: Id)
      ensures requestId == id && !ready
    {
      requestId, ready := id, false;
    }
  }

  class InferenceQueue {
    const ttl: real
    const maxCompleted: nat
    var running: QueueTicket?
    var waiting: seq<QueueTicket>
    var active: map<Id, QueueTicket>
    var completed: seq<Entry>
    var progress: map<Id, Report>
    ghost var latest: real

    function View(): Fifo.Queue<QueueTicket>
      reads this
    {
      Fifo.Queue(if running == null then None else Some(running), waiting)
    }

    function Line(): seq<QueueTicket>
      reads this
    {
      Fifo.Line(View())
    }

    /** Of the tickets in the line, exactly the running one has been told so. */
    ghost predicate ReadyIsRunning()
      reads this, running, waiting
    {
      (running != null ==> running.ready) && forall t | t in waiting :: !t.ready
    }

    ghost predicate Valid()
      reads this, running, waiting
    {
      && ttl > 0.0 && maxCompleted > 0
      && Fifo.Sound(View()) && ReadyIsRunning()
      && TablesAgree(Line(), active, completed, progress, latest + ttl, maxCompleted)
    }

    constructor (ttl: real, maxCompleted: nat)
      requires ttl > 0.0 && maxCompleted > 0
      ensures Valid() && Line() == [] && completed == [] && latest == 0.0
      ensures this.ttl == ttl && this.maxCompleted == maxCompleted
    {
      this.ttl, this.maxCompleted := ttl, maxCompleted;
      running, waiting, active, completed, progress, latest := null, [], map[], [], map[], 0.0;
    }

    /** `_promote_next`: tickets that are no longer active are passed over. */
    method PromoteNext()
      requires running == null
      modifies this`running, this`waiting, waiting
      ensures var k := FirstLive(old(waiting), active);
        if k < |old(waiting)| then running == old(waiting)[k] && waiting == old(waiting)[k + 1..]
        else running == null && waiting == []
      ensures forall t | t in old(waiting) :: t.ready == (old(t.ready) || t == running)
    {
      ghost var passed := 0;
      while waiting != []
        invariant running == null && passed <= |old(waiting)| && waiting == old(waiting)[passed..]
        invariant FirstLive(old(waiting), active) == passed + FirstLive(waiting, active)
        invariant forall t | t in old(waiting) :: t.ready == old(t.ready)
        decreases |waiting|
      {
        var ticket := waiting[0];
        assert ticket == old(waiting)[passed];
        waiting := waiting[1..];
        if Live(ticket, active) {
          running := ticket;
          ticket.ready := true;
          return;
        }
        passed := passed + 1;
      }
    }

    /** `_prune_completed`. */
    method PruneCompleted(now: real)
      modifies this`completed, this`progress, this`latest
      ensures completed == Pruned(old(completed), now, maxCompleted) && latest == now
      ensures progress == old(progress) - Dropped(old(completed), now, maxCompleted)
    {
      latest := now;
      ghost var gone: set<Id> := {};
      while completed != []
        invariant Pruned(old(completed), now, maxCompleted) == Pruned(completed, now, maxCompleted)
        invariant Dropped(old(completed), now, maxCompleted) == gone + Dropped(completed, now, maxCompleted)
        invariant progress == old(progress) - gone && latest == now
        decreases |completed|
      {
        if completed[0].expiry > now && |completed| <= maxCompleted { break; }
        var id := completed[0].id;
        completed := completed[1..];
        progress := progress - {id};
        gone := gone + {id};
      }
    }

    /** Pruning at the start of `register` and `status` keeps everything in order. */
    method PruneFirst(now: real)
      requires Valid() && now >= latest
      modifies this`completed, this`progress, this`latest
      ensures Valid() && completed == Pruned(old(completed), now, maxCompleted) && latest == now
      ensures progress == old(progress) - Dropped(old(completed), now, maxCompleted)
    {
      PruningKeepsTheMemory(completed, active, latest + ttl, now + ttl, now, maxCompleted);
      PruningKeepsTheReports(progress, Line(), completed, now, maxCompleted);
      PruneCompleted(now);
    }

    /** `register`; `None` is the duplicate-id error. */
    method Register(id: Id, now: real) returns (ticket: Option<QueueTicket>)
      requires Valid() && now >= latest
      modifies this
      ensures Valid() && latest == now
      ensures completed == Pruned(old(completed), now, maxCompleted)
      ensures ticket == None <==> (exists t :: t in old(Line()) && t.requestId == id) || id in Ids(completed)
      ensures ticket == None ==> View() == old(View())
      ensures ticket != None ==> fresh(ticket.value) && ticket.value.requestId == id
      ensures ticket != None ==> View() == Fifo.Push(old(View()), ticket.value)
      ensures ticket != None ==> Line() == old(Line()) + [ticket.value]
      ensures progress == old(progress) - Dropped(old(completed), now, maxCompleted)
    {
      PruneFirst(now);
      if id in active {
        assert active[id] in old(Line());
        return None;
      }
      if id in Ids(completed) { return None; }
      var t := new QueueTicket(id);
      PushKeepsTheTable(Line(), active, t);
      Fifo.PushAppends(View(), t);
      active := active[id := t];
      if running == null {
        running := t;
        t.ready := true;
      } else {
        waiting := waiting + [t];
      }
      ticket := Some(t);
    }

    /** The head leaves: `_running` is cleared and the next in line promoted. */
    method DropHead()
      requires running != null && Fifo.Sound(View()) && ReadyIsRunning()
      requires AllLive(waiting, active)
      modifies this`running, this`waiting, waiting
      ensures Line() == old(Line())[1..] && Fifo.Sound(View()) && ReadyIsRunning()
    {
      DistinctTails(Line());
      assert Line()[1..] == waiting;
      FirstLiveIsFirst(waiting, active);
      if waiting != [] { DistinctTails(waiting); }
      running := null;
      PromoteNext();
    }

    /** `abandon`: a ticket leaves the line wherever it stands; a stale one changes nothing. */
    method Abandon(ticket: QueueTicket)
      requires Valid()
      modifies this, waiting
      ensures Valid() && latest == old(latest) && completed == old(completed)
      ensures Line() == Without(old(Line()), ticket)
      ensures progress == if ticket in old(Line()) then old(progress) - {ticket.requestId} else old(progress)
    {
      StaleIsNotInLine(Line(), active, ticket);
      if !Live(ticket, active) {
      } else if running == ticket {
        AbandonRunning();
      } else {
        AbandonWaiting(ticket);
      }
    }

    method AbandonRunning()
      requires Valid() && running != null
      modifies this, waiting
      ensures Valid() && latest == old(latest) && completed == old(completed)
      ensures Line() == Without(old(Line()), old(running)) && progress == old(progress) - {old(running).requestId}
    {
      HeadLeaves(Line());
      Forget(running);
      HeadGone();
    }

    /** A ticket's id leaves the active ones, and its report goes. */
    method Forget(ticket: QueueTicket)
      requires TablesAgree(Line(), active, completed, progress, latest + ttl, maxCompleted)
      requires Distinct(Line()) && ticket in Line()
      modifies this`active, this`progress
      ensures TablesAgree(Without(Line(), ticket), active, completed, progress, latest + ttl, maxCompleted)
      ensures progress == old(progress) - {ticket.requestId}
    {
      AbandonKeeps(Line(), active, completed, progress, latest + ttl, maxCompleted, ticket);
      progress := progress - {ticket.requestId};
      active := active - {ticket.requestId};
    }

    method AbandonWaiting(ticket: QueueTicket)
      requires Valid() && ticket in waiting
      modifies this`waiting, this`active, this`progress
      ensures Valid()
      ensures Line() == Without(old(Line()), ticket) && progress == old(progress) - {ticket.requestId}
    {
      Fifo.AbandonRemovesOne(View(), ticket);
      TailIsBehindTheHead(Line(), waiting, ticket);
      Forget(ticket);
      waiting := Without(waiting, ticket);
    }

    /** `complete`: the running ticket leaves the head of the line and its id is remembered for a while. */
    method Complete(ticket: QueueTicket, now: real)
      requires Valid() && now >= latest
      modifies this, waiting
      ensures Valid()
      ensures old(running) != ticket ==>
        Line() == old(Line()) && completed == old(completed) && progress == old(progress)
      ensures old(running) == ticket ==> Line() == old(Line())[1..]
      ensures old(running) == ticket ==>
        var entries := old(completed) + [Remembered(ticket.requestId, now + ttl, ())];
        completed == Pruned(entries, now, maxCompleted)
        && progress == old(progress) - Dropped(entries, now, maxCompleted)
    {
      if running == ticket { CompleteRunning(now); }
    }

    method CompleteRunning(now: real)
      requires Valid() && now >= latest && running != null
      modifies this, waiting
      ensures Valid() && Line() == old(Line())[1..]
      ensures var entries := old(completed) + [Remembered(old(running).requestId, now + ttl, ())];
        completed == Pruned(entries, now, maxCompleted)
        && progress == old(progress) - Dropped(entries, now, maxCompleted)
    {
      MoveToCompleted(now);
      HeadGone();
    }

    /** Once the tables have let go of the head, dropping it makes everything agree again. */
    method HeadGone()
      requires ttl > 0.0 && maxCompleted > 0 && running != null && Fifo.Sound(View()) && ReadyIsRunning()
      requires TablesAgree(Line()[1..], active, completed, progress, latest + ttl, maxCompleted)
      modifies this`running, this`waiting, waiting
      ensures Valid() && Line() == old(Line())[1..]
    {
      TableIsLive(Line()[1..], active);
      assert Line()[1..] == waiting;
      DropHead();
    }

    /** The head's id moves from the active to the completed ones. */
    method MoveToCompleted(now: real)
      requires TablesAgree(Line(), active, completed, progress, latest + ttl, maxCompleted)
      requires Distinct(Line()) && running != null && now >= latest
      modifies this`active, this`completed, this`progress, this`latest
      ensures TablesAgree(Line()[1..], active, completed, progress, latest + ttl, maxCompleted)
      ensures var entries := old(completed) + [Remembered(running.requestId, now + ttl, ())];
        completed == Pruned(entries, now, maxCompleted)
        && progress == old(progress) - Dropped(entries, now, maxCompleted)
    {
      CompletionKeeps(Line(), active, completed, progress, latest + ttl, now + ttl, now, maxCompleted);
      active := active - {running.requestId};
      completed := completed + [Remembered(running.requestId, now + ttl, ())];
      PruneCompleted(now);
    }

    /** `update_progress`: only the running ticket may report. */
    method UpdateProgress(ticket: QueueTicket, report: Report)
      requires Valid()
      modifies this`progress
      ensures Valid()
      ensures progress == if old(running) == ticket then old(progress)[ticket.requestId := report] else old(progress)
    {
      if running == ticket && Live(ticket, active) {
        progress := progress[ticket.requestId := report];
      } else {
        assert running != null ==> running in Line();
      }
    }

    /** Where the loop of `status` finds an active ticket that is not running. */
    method PositionOf(ticket: QueueTicket) returns (position: nat)
      requires ticket in waiting
      ensures 1 <= position <= |waiting| && waiting[position - 1] == ticket
    {
      position := 1;
      while waiting[position - 1] != ticket
        invariant 1 <= position <= |waiting| && ticket !in waiting[..position - 1]
        decreases |waiting| - position
      {
        position := position + 1;
      }
    }

    /** What `status` must answer: a live id's position is its index in the line. */
    ghost predicate Answers(status: Option<Status>, id: Id)
      reads this
    {
      && (forall i | 0 <= i < |Line()| && Line()[i].requestId == id ::
            status == Some(Status(if i == 0 then RunningNow else QueuedNow, i, |waiting|,
                                  if i == 0 then Lookup(progress, id) else None)))
      && ((forall t | t in Line() :: t.requestId != id) ==>
            status == if id in Ids(completed)
                      then Some(Status(CompletedLately, 0, |waiting|, Lookup(progress, id))) else None)
    }

    lemma IndexDecides(id: Id, i: nat, status: Option<Status>)
      requires Valid() && i < |Line()| && Line()[i].requestId == id
      requires status == Some(Status(if i == 0 then RunningNow else QueuedNow, i, |waiting|,
                                     if i == 0 then Lookup(progress, id) else None))
      ensures Answers(status, id)
    {
      forall j | 0 <= j < |Line()| && Line()[j].requestId == id
        ensures j == i
      {
        NoIdTwice(Line(), active, i, j);
      }
    }

    /** `status`. */
    method StatusOf(id: Id, now: real) returns (status: Option<Status>)
      requires Valid() && now >= latest
      modifies this`completed, this`progress, this`latest
      ensures Valid() && latest == now && completed == Pruned(old(completed), now, maxCompleted)
      ensures Answers(status, id)
    {
      PruneFirst(now);
      NotActiveNotInLine(Line(), active, id);
      if running != null && running.requestId == id {
        status := Some(Status(RunningNow, 0, |waiting|, Lookup(progress, id)));
        IndexDecides(id, 0, status);
      } else if id in active {
        assert active[id] in Line();
        var position := PositionOf(active[id]);
        status := Some(Status(QueuedNow, position, |waiting|, None));
        IndexDecides(id, position, status);
      } else if id in Ids(completed) {
        status := Some(Status(CompletedLately, 0, |waiting|, Lookup(progress, id)));
      } else {
        status := None;
      }
    }
  }
}
