/** The waiting line of `InferenceQueue` as a value: one running ticket and those behind it. */
module Fifo {
  import opened Basics

  datatype Queue<+T> = Queue(running: Option<T>, waiting: seq<T>)

  /** The one sequence the queue stands for; its head is the running ticket. */
  function Line<T>(q: Queue<T>): seq<T> {
    match q.running
    case None => q.waiting
    case Some(t) => [t] + q.waiting
  }

  /** No ticket stands twice, and nothing waits while nothing runs. */
  predicate Sound<T(==)>(q: Queue<T>) {
    Distinct(Line(q)) && (q.running == None ==> q.waiting == [])
  }

  function Push<T>(q: Queue<T>, t: T): Queue<T> {
    if q.running == None then q.(running := Some(t)) else q.(waiting := q.waiting + [t])
  }

  function Promote<T>(q: Queue<T>): Queue<T> {
    if q.running != None || q.waiting == [] then q else Queue(Some(q.waiting[0]), q.waiting[1..])
  }

  function Complete<T(==)>(q: Queue<T>, t: T): Queue<T> {
    if q.running != Some(t) then q else Promote(q.(running := None))
  }

  function Abandon<T(==)>(q: Queue<T>, t: T): Queue<T> {
    if q.running == Some(t) then Promote(q.(running := None)) else q.(waiting := Without(q.waiting, t))
  }

  // ---------------------------------------------------------------- one first-in first-out sequence

  lemma PushAppends<T>(q: Queue<T>, t: T)
    requires Sound(q) && t !in Line(q)
    ensures Line(Push(q, t)) == Line(q) + [t] && Sound(Push(q, t))
  {
  }

  lemma PromoteKeepsTheLine<T>(q: Queue<T>)
    ensures Line(Promote(q)) == Line(q)
    ensures Promote(q).running == None ==> Promote(q).waiting == []
  {
  }

  lemma CompleteDropsTheHead<T>(q: Queue<T>, t: T)
    requires Sound(q)
    ensures Line(Complete(q, t)) == if Line(q) != [] && Line(q)[0] == t then Line(q)[1..] else Line(q)
    ensures Sound(Complete(q, t))
  {
    PromoteKeepsTheLine(q.(running := None));
  }

  lemma AbandonRemovesOne<T>(q: Queue<T>, t: T)
    requires Sound(q)
    ensures Line(Abandon(q, t)) == Without(Line(q), t)
    ensures Sound(Abandon(q, t))
  {
    PromoteKeepsTheLine(q.(running := None));
    if q.running.Some? { assert Line(q)[1..] == q.waiting; }
    WithoutMembers(Line(q), t);
  }
}
