/** The short memory of finished request ids that the coordinator and the inference queue both keep: oldest first, each
    with the instant it is forgotten. */
module Memory {

  datatype Remembered<+K, +V> = Remembered(id: K, expiry: real, note: V)

  /** Both prune from the front, while the front is out of time or there are too many. */
  function Pruned<K, V>(entries: seq<Remembered<K, V>>, now: real, most: nat): seq<Remembered<K, V>> {
    if |entries| == 0 || (entries[0].expiry > now && |entries| <= most) then entries
    else Pruned(entries[1..], now, most)
  }

  function Ids<K(==), V(==)>(entries: seq<Remembered<K, V>>): set<K> {
    set e | e in entries :: e.id
  }

  predicate ExpiriesRise<K, V>(entries: seq<Remembered<K, V>>) {
    forall i, j | 0 <= i < j < |entries| :: entries[i].expiry <= entries[j].expiry
  }

  predicate DistinctIds<K(==), V>(entries: seq<Remembered<K, V>>) {
    forall i, j | 0 <= i < j < |entries| :: entries[i].id != entries[j].id
  }

  /** In time and one of the `most` newest. */
  predicate FreshAt<K, V>(entries: seq<Remembered<K, V>>, now: real, most: nat, i: nat)
    requires i < |entries|
  {
    entries[i].expiry > now && |entries| - i <= most
  }

  lemma {:induction false} PrunedIsASuffix<K, V>(entries: seq<Remembered<K, V>>, now: real, most: nat)
    ensures var kept := Pruned(entries, now, most);
      |kept| <= |entries| && |kept| <= most && kept == entries[|entries| - |kept|..]
  {
    if |entries| != 0 && !(entries[0].expiry > now && |entries| <= most) { PrunedIsASuffix(entries[1..], now, most); }
  }

  /** An entry survives exactly when it is fresh. */
  lemma {:induction false} PrunedKeepsTheFresh<K, V>(entries: seq<Remembered<K, V>>, now: real, most: nat, i: nat)
    requires ExpiriesRise(entries) && i < |entries|
    ensures i >= |entries| - |Pruned(entries, now, most)| <==> FreshAt(entries, now, most, i)
  {
    PrunedIsASuffix(entries, now, most);
    if entries[0].expiry > now && |entries| <= most {
      assert i > 0 ==> entries[0].expiry <= entries[i].expiry;
    } else if |entries| > 1 {
      var rest := entries[1..];
      assert forall k | 0 <= k < |rest| :: rest[k] == entries[k + 1];
      PrunedIsASuffix(rest, now, most);
      PrunedKeepsTheFresh(rest, now, most, if i > 0 then i - 1 else 0);
    }
  }

  /** The ids that pruning forgets. */
  function Dropped<K(==), V>(entries: seq<Remembered<K, V>>, now: real, most: nat): set<K> {
    if |entries| == 0 || (entries[0].expiry > now && |entries| <= most) then {}
    else {entries[0].id} + Dropped(entries[1..], now, most)
  }

  lemma FirstIdSplits<K, V>(entries: seq<Remembered<K, V>>)
    requires DistinctIds(entries) && |entries| > 0
    ensures Ids(entries) == {entries[0].id} + Ids(entries[1..]) && entries[0].id !in Ids(entries[1..])
    ensures DistinctIds(entries[1..])
  {
    var rest := entries[1..];
    assert entries == [entries[0]] + rest;
    assert forall i | 0 <= i < |rest| :: rest[i] == entries[i + 1] && rest[i].id != entries[0].id;
  }

  /** Pruning splits the remembered ids in two. */
  lemma {:induction false} PrunedAndDropped<K, V>(entries: seq<Remembered<K, V>>, now: real, most: nat)
    requires DistinctIds(entries)
    ensures Ids(entries) == Dropped(entries, now, most) + Ids(Pruned(entries, now, most))
    ensures Dropped(entries, now, most) !! Ids(Pruned(entries, now, most))
    ensures DistinctIds(Pruned(entries, now, most))
  {
    if |entries| != 0 && !(entries[0].expiry > now && |entries| <= most) {
      FirstIdSplits(entries);
      PrunedAndDropped(entries[1..], now, most);
    }
  }

  /** What the memory keeps through pruning. */
  lemma PrunedStaysSound<K, V>(entries: seq<Remembered<K, V>>, now: real, most: nat)
    requires DistinctIds(entries) && ExpiriesRise(entries)
    ensures var kept := Pruned(entries, now, most);
      DistinctIds(kept) && ExpiriesRise(kept) && |kept| <= most && forall e | e in kept :: e in entries
  {
    PrunedIsASuffix(entries, now, most);
  }
}
