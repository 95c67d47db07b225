/** The on-disk timing cache, as an ordered store of files with sizes and modification times. */
module TimingCache {
  import opened Basics

  /** A task id with the digest of the bearer token; the file name is injective in it. */
  datatype Key = Key(taskId: nat, token: nat)

  type Digest = nat

  datatype Record = Record(input: Digest, content: nat)

  datatype File = File(record: Record, size: nat, mtime: int)

  type Directory = map<Key, File>

  /** `listing` is the directory in the arbitrary order the file system reports it. */
  ghost predicate Lists(dir: Directory, listing: seq<Key>) {
    Distinct(listing) && forall k :: k in listing <==> k in dir
  }

  // ---------------------------------------------------------------- sorting by age, stable

  predicate All(dir: Directory, keys: seq<Key>) {
    forall i | 0 <= i < |keys| :: keys[i] in dir
  }

  predicate ByAge(dir: Directory, keys: seq<Key>) {
    All(dir, keys) && forall i, j | 0 <= i < j < |keys| :: dir[keys[i]].mtime <= dir[keys[j]].mtime
  }

  function Insert(dir: Directory, k: Key, keys: seq<Key>): seq<Key>
    requires k in dir && All(dir, keys)
  {
    if keys == [] || dir[k].mtime <= dir[keys[0]].mtime then [k] + keys
    else [keys[0]] + Insert(dir, k, keys[1..])
  }

  function SortByAge(dir: Directory, listing: seq<Key>): seq<Key>
    requires All(dir, listing)
    ensures All(dir, SortByAge(dir, listing))
  {
    if listing == [] then []
    else
      InsertSorts(dir, listing[0], SortByAge(dir, listing[1..]));
      Insert(dir, listing[0], SortByAge(dir, listing[1..]))
  }

  lemma {:induction false} InsertAdds(dir: Directory, k: Key, keys: seq<Key>)
    requires k in dir && All(dir, keys)
    ensures All(dir, Insert(dir, k, keys))
    ensures multiset(Insert(dir, k, keys)) == multiset{k} + multiset(keys)
  {
    if keys != [] && !(dir[k].mtime <= dir[keys[0]].mtime) {
      assert keys == [keys[0]] + keys[1..];
      InsertAdds(dir, k, keys[1..]);
    } else {
      assert Insert(dir, k, keys) == [k] + keys;
    }
  }

  lemma AgesAfterFirst(dir: Directory, first: Key, rest: seq<Key>)
    requires first in dir && ByAge(dir, rest)
    requires forall x | x in rest :: x in dir && dir[first].mtime <= dir[x].mtime
    ensures ByAge(dir, [first] + rest)
  {
  }

  lemma {:induction false} InsertSorts(dir: Directory, k: Key, keys: seq<Key>)
    requires k in dir && All(dir, keys)
    ensures All(dir, Insert(dir, k, keys))
    ensures multiset(Insert(dir, k, keys)) == multiset{k} + multiset(keys)
    ensures ByAge(dir, keys) ==> ByAge(dir, Insert(dir, k, keys))
  {
    InsertAdds(dir, k, keys);
    if ByAge(dir, keys) {
      if keys == [] || dir[k].mtime <= dir[keys[0]].mtime {
        AgesAfterFirst(dir, k, keys);
      } else {
        var rest := keys[1..];
        InsertAdds(dir, k, rest);
        InsertSorts(dir, k, rest);
        var placed := Insert(dir, k, rest);
        forall x | x in placed ensures x in dir && dir[keys[0]].mtime <= dir[x].mtime {
          assert x in multiset(placed);
          assert x == k || x in rest;
        }
        AgesAfterFirst(dir, keys[0], placed);
      }
    }
  }

  lemma {:induction false} SortsByAge(dir: Directory, listing: seq<Key>)
    requires All(dir, listing)
    ensures ByAge(dir, SortByAge(dir, listing))
    ensures multiset(SortByAge(dir, listing)) == multiset(listing)
  {
    if listing != [] {
      assert listing == [listing[0]] + listing[1..];
      SortsByAge(dir, listing[1..]);
      InsertSorts(dir, listing[0], SortByAge(dir, listing[1..]));
    }
  }

  lemma OrderIsAListing(dir: Directory, listing: seq<Key>)
    requires Lists(dir, listing) && All(dir, listing)
    ensures Lists(dir, SortByAge(dir, listing)) && ByAge(dir, SortByAge(dir, listing))
  {
    SortsByAge(dir, listing);
    var order := SortByAge(dir, listing);
    forall k ensures k in order <==> k in dir {
      assert k in multiset(order) <==> k in multiset(listing);
    }
    SameElementsStayDistinct(listing, order);
  }

  lemma {:induction false} CountOnce<T>(s: seq<T>, x: T)
    requires Distinct(s) && x in s
    ensures multiset(s)[x] == 1
  {
    var rest := s[1..];
    assert s == [s[0]] + rest;
    assert forall i | 0 <= i < |rest| :: rest[i] == s[i + 1];
    if x != s[0] { CountOnce(rest, x); }
  }

  lemma SameElementsStayDistinct<T>(a: seq<T>, b: seq<T>)
    requires Distinct(a) && multiset(a) == multiset(b)
    ensures Distinct(b)
  {
    forall i, j | 0 <= i < j < |b| ensures b[i] != b[j] {
      if b[i] == b[j] {
        assert b == b[..i] + [b[i]] + b[i + 1..j] + [b[j]] + b[j + 1..];
        assert multiset(b)[b[i]] >= 2;
        assert b[i] in multiset(a);
        CountOnce(a, b[i]);
      }
    }
  }

  // ---------------------------------------------------------------- rotation

  function Size(dir: Directory, keys: seq<Key>): nat
    requires All(dir, keys)
  {
    if keys == [] then 0 else dir[keys[0]].size + Size(dir, keys[1..])
  }

  /** What the eviction loop leaves of `order`, given the running total. */
  function Kept(dir: Directory, order: seq<Key>, total: int, maxBytes: nat): seq<Key>
    requires All(dir, order)
  {
    if order == [] || total <= maxBytes then order
    else Kept(dir, order[1..], total - dir[order[0]].size, maxBytes)
  }

  function Restrict(dir: Directory, keys: seq<Key>): Directory {
    map k | k in dir && k in keys :: dir[k]
  }

  function Rotate(dir: Directory, listing: seq<Key>, maxBytes: nat): Directory
    requires All(dir, listing)
  {
    var order := SortByAge(dir, listing);
    Restrict(dir, Kept(dir, order, Size(dir, order), maxBytes))
  }

  /** The loop drops the shortest prefix whose removal makes the rest fit. */
  lemma {:induction false} KeptDropsShortestPrefix(dir: Directory, order: seq<Key>, maxBytes: nat) returns (k: nat)
    requires All(dir, order)
    ensures k <= |order| && Kept(dir, order, Size(dir, order), maxBytes) == order[k..]
    ensures Size(dir, order[k..]) <= maxBytes
    ensures forall i | 0 <= i < k :: Size(dir, order[i..]) > maxBytes
  {
    if order == [] || Size(dir, order) <= maxBytes {
      k := 0;
      assert order[0..] == order;
    } else {
      var rest := KeptDropsShortestPrefix(dir, order[1..], maxBytes);
      k := rest + 1;
      assert order[1..][rest..] == order[k..];
      forall i | 0 <= i < k ensures Size(dir, order[i..]) > maxBytes {
        if i > 0 { assert order[i..] == order[1..][i - 1..]; } else { assert order[0..] == order; }
      }
    }
  }

  datatype Answer = Stored | TooLarge

  function Put(dir: Directory, key: Key, record: Record, size: nat, now: int, listing: seq<Key>, maxBytes: nat)
    : (Directory, Answer)
    requires size <= maxBytes ==> All(dir[key := File(record, size, now)], listing)
  {
    if size > maxBytes then (dir, TooLarge)
    else (Rotate(dir[key := File(record, size, now)], listing, maxBytes), Stored)
  }

  function Get(dir: Directory, key: Key, input: Option<Digest>, now: int): (Directory, Option<Record>) {
    if key !in dir then (dir, None)
    else if input.Some? && dir[key].record.input != input.value then (dir, None)
    else (dir[key := dir[key].(mtime := now)], Some(dir[key].record))
  }

  lemma {:induction false} SameSize(a: Directory, b: Directory, keys: seq<Key>)
    requires All(a, keys) && forall i | 0 <= i < |keys| :: keys[i] in b && b[keys[i]] == a[keys[i]]
    ensures All(b, keys) && Size(a, keys) == Size(b, keys)
  {
    if keys != [] { SameSize(a, b, keys[1..]); }
  }

  /** `after` is `before` without the first k files of `order`, everything left fits, and no smaller k would do. */
  ghost predicate EvictsShortestPrefix(before: Directory, after: Directory, order: seq<Key>, k: nat, maxBytes: nat) {
    && Lists(before, order) && ByAge(before, order) && k <= |order|
    && after.Keys == (set i | k <= i < |order| :: order[i])
    && (forall f | f in after :: f in before && after[f] == before[f])
    && Size(before, order[k..]) <= maxBytes
    && (forall i | 0 <= i < k :: Size(before, order[i..]) > maxBytes)
  }

  /** After every rotation, hence after every successful put, everything fits; what went is a least-recently-used
      prefix, and no shorter one would do. */
  lemma {:induction false} RotationEvictsShortestOldestPrefix(dir: Directory, listing: seq<Key>, maxBytes: nat)
    returns (order: seq<Key>, k: nat)
    requires Lists(dir, listing) && All(dir, listing)
    ensures order == SortByAge(dir, listing)
    ensures EvictsShortestPrefix(dir, Rotate(dir, listing, maxBytes), order, k, maxBytes)
  {
    OrderIsAListing(dir, listing);
    order := SortByAge(dir, listing);
    k := KeptDropsShortestPrefix(dir, order, maxBytes);
    SuffixMembers(order, k);
    assert forall f :: f in order[k..] ==> f in order;
  }

  lemma SuffixMembers(order: seq<Key>, k: nat)
    requires k <= |order|
    ensures forall f :: f in order[k..] <==> f in set i | k <= i < |order| :: order[i]
  {
    forall f | f in set i | k <= i < |order| :: order[i] ensures f in order[k..] {
      var i :| k <= i < |order| && order[i] == f;
      assert order[k..][i - k] == f;
    }
    forall f | f in order[k..] ensures f in set i | k <= i < |order| :: order[i] {
      var i :| 0 <= i < |order[k..]| && order[k..][i] == f;
      assert order[k + i] == f;
    }
  }

  lemma {:induction false} SuffixesShrink(dir: Directory, keys: seq<Key>, i: nat, j: nat)
    requires All(dir, keys) && i <= j <= |keys|
    ensures Size(dir, keys[j..]) <= Size(dir, keys[i..])
    decreases j - i
  {
    if i < j {
      SuffixesShrink(dir, keys, i + 1, j);
      assert keys[i..][1..] == keys[i + 1..];
    }
  }

  /** The file at place `at` of the age order survives the rotation exactly when it fits with everything newer. */
  lemma {:induction false} SurvivesExactlyWhenItFitsWithNewer(dir: Directory, listing: seq<Key>, maxBytes: nat, at: nat)
    requires Lists(dir, listing) && All(dir, listing) && at < |SortByAge(dir, listing)|
    ensures var order := SortByAge(dir, listing);
      order[at] in Rotate(dir, listing, maxBytes) <==> Size(dir, order[at..]) <= maxBytes
  {
    var order, k := RotationEvictsShortestOldestPrefix(dir, listing, maxBytes);
    if k <= at {
      SuffixesShrink(dir, order, k, at);
    } else {
      assert Size(dir, order[at..]) > maxBytes;
    }
  }

  /** So a put whose time stamp is later than every other one is never lost. */
  lemma StrictlyNewestSurvives(
    dir: Directory, key: Key, record: Record, size: nat, now: int, listing: seq<Key>, maxBytes: nat)
    requires size <= maxBytes && Lists(dir[key := File(record, size, now)], listing)
    requires All(dir[key := File(record, size, now)], listing)
    requires forall k | k in dir && k != key :: dir[k].mtime < now
    ensures var after := Put(dir, key, record, size, now, listing, maxBytes).0;
      key in after && after[key].record == record
  {
    var before := dir[key := File(record, size, now)];
    var at := PlaceOfNewest(before, listing, key);
    assert SortByAge(before, listing)[at..] == [key];
    assert Size(before, [key]) == size + Size(before, []);
    SurvivesExactlyWhenItFitsWithNewer(before, listing, maxBytes, at);
  }

  lemma PlaceOfNewest(dir: Directory, listing: seq<Key>, key: Key) returns (at: nat)
    requires Lists(dir, listing) && All(dir, listing) && key in dir
    requires forall k | k in dir && k != key :: dir[k].mtime < dir[key].mtime
    ensures at == |SortByAge(dir, listing)| - 1 && SortByAge(dir, listing)[at] == key
  {
    OrderIsAListing(dir, listing);
    var order := SortByAge(dir, listing);
    assert key in order;
    at :| 0 <= at < |order| && order[at] == key;
    var last := order[|order| - 1];
    assert last in order && dir[key].mtime <= dir[last].mtime;
  }

  /** With equal time stamps the guarantee fails: the new record itself can be the one that goes. */
  lemma ATieCanLoseTheNewRecord()
    ensures var first, second := Key(1, 1), Key(2, 2);
      var dir: Directory := map[first := File(Record(7, 7), 6, 100)];
      && Lists(dir[second := File(Record(8, 8), 6, 100)], [second, first])
      && Put(dir, second, Record(8, 8), 6, 100, [second, first], 10) == (dir, Stored)
  {
    var first, second := Key(1, 1), Key(2, 2);
    var dir: Directory := map[first := File(Record(7, 7), 6, 100)];
    var before := dir[second := File(Record(8, 8), 6, 100)];
    assert SortByAge(before, [first]) == [first];
    assert SortByAge(before, [second, first]) == [second, first];
    assert Size(before, [first]) == 6 + Size(before, []);
    assert Size(before, [second, first]) == 6 + Size(before, [first]);
    assert Kept(before, [second, first], 12, 10) == [first];
    assert Restrict(before, [first]) == dir;
  }

  // ---------------------------------------------------------------- when a put is safe under every listing

  /** The bytes of a set of files. */
  ghost function Weight(dir: Directory, keys: set<Key>): nat
    requires keys <= dir.Keys
  {
    if keys == {} then 0 else var k :| k in keys; dir[k].size + Weight(dir, keys - {k})
  }

  lemma {:induction false} WeightOfOne(dir: Directory, keys: set<Key>, k: Key)
    requires keys <= dir.Keys && k in keys
    ensures Weight(dir, keys) == dir[k].size + Weight(dir, keys - {k})
  {
    var l :| l in keys && Weight(dir, keys) == dir[l].size + Weight(dir, keys - {l});
    if l != k {
      WeightOfOne(dir, keys - {l}, k);
      WeightOfOne(dir, keys - {k}, l);
      assert keys - {l} - {k} == keys - {k} - {l};
    }
  }

  lemma {:induction false} WeightGrows(dir: Directory, some: set<Key>, keys: set<Key>)
    requires some <= keys <= dir.Keys
    ensures Weight(dir, some) <= Weight(dir, keys)
  {
    if some != {} {
      var k :| k in some;
      WeightOfOne(dir, some, k);
      WeightOfOne(dir, keys, k);
      WeightGrows(dir, some - {k}, keys - {k});
    }
  }

  function Members(keys: seq<Key>): set<Key> {
    set k | k in keys
  }

  lemma MembersOfTail(keys: seq<Key>)
    requires Distinct(keys) && keys != []
    ensures Distinct(keys[1..]) && keys[0] in Members(keys) && Members(keys) - {keys[0]} == Members(keys[1..])
  {
    var rest := keys[1..];
    assert keys == [keys[0]] + rest;
    assert forall i | 0 <= i < |rest| :: rest[i] == keys[i + 1];
  }

  lemma {:induction false} SizeIsWeight(dir: Directory, keys: seq<Key>)
    requires All(dir, keys) && Distinct(keys) && Members(keys) <= dir.Keys
    ensures Size(dir, keys) == Weight(dir, Members(keys))
  {
    if keys != [] {
      MembersOfTail(keys);
      SizeIsWeight(dir, keys[1..]);
      WeightOfOne(dir, Members(keys), keys[0]);
    }
  }

  lemma {:induction false} SomeListing(keys: set<Key>) returns (listing: seq<Key>)
    ensures Distinct(listing) && forall k :: k in listing <==> k in keys
  {
    if keys == {} {
      listing := [];
    } else {
      var k :| k in keys;
      var rest := SomeListing(keys - {k});
      listing := [k] + rest;
    }
  }

  function NotOlder(dir: Directory, now: int): set<Key> {
    set k | k in dir && dir[k].mtime >= now
  }

  /** Place `at` of the order parts the files older than `now` from the others. */
  ghost predicate PartsAges(dir: Directory, order: seq<Key>, now: int, at: nat)
    requires All(dir, order)
  {
    && at <= |order|
    && (forall i | 0 <= i < at :: dir[order[i]].mtime < now)
    && (forall i | at <= i < |order| :: dir[order[i]].mtime >= now)
  }

  /** The sort is stable: what is listed first comes before everything of its own age. */
  lemma {:induction false} InsertedBeforeTies(dir: Directory, k: Key, keys: seq<Key>) returns (at: nat)
    requires k in dir && ByAge(dir, keys)
    ensures All(dir, Insert(dir, k, keys)) && PartsAges(dir, Insert(dir, k, keys), dir[k].mtime, at)
    ensures at < |Insert(dir, k, keys)| && Insert(dir, k, keys)[at] == k
  {
    InsertAdds(dir, k, keys);
    if keys == [] || dir[k].mtime <= dir[keys[0]].mtime {
      at := 0;
    } else {
      var rest := keys[1..];
      assert forall i | 0 <= i < |rest| :: rest[i] == keys[i + 1];
      var p := InsertedBeforeTies(dir, k, rest);
      at := p + 1;
      OlderFirst(dir, keys[0], Insert(dir, k, rest), dir[k].mtime, p);
    }
  }

  lemma OlderFirst(dir: Directory, first: Key, order: seq<Key>, now: int, at: nat)
    requires first in dir && dir[first].mtime < now && All(dir, order) && PartsAges(dir, order, now, at)
    ensures All(dir, [first] + order) && PartsAges(dir, [first] + order, now, at + 1)
  {
  }

  lemma LastAreNotOlder(dir: Directory, order: seq<Key>, now: int, at: nat)
    requires Lists(dir, order) && All(dir, order) && PartsAges(dir, order, now, at)
    ensures Members(order[at..]) == NotOlder(dir, now)
  {
    forall k | k in NotOlder(dir, now)
      ensures k in order[at..]
    {
      var i :| 0 <= i < |order| && order[i] == k;
      assert order[at..][i - at] == k;
    }
    forall k | k in order[at..]
      ensures k in NotOlder(dir, now)
    {
      var i :| 0 <= i < |order[at..]| && order[at..][i] == k;
      assert order[at + i] == k;
    }
  }

  lemma SortedFromIsNotOlder(dir: Directory, order: seq<Key>, at: nat)
    requires ByAge(dir, order) && at < |order|
    ensures Members(order[at..]) <= NotOlder(dir, dir[order[at]].mtime)
  {
    forall k | k in order[at..]
      ensures k in NotOlder(dir, dir[order[at]].mtime)
    {
      var i :| 0 <= i < |order[at..]| && order[at..][i] == k;
      assert order[at + i] == k;
    }
  }

  lemma SuffixSize(dir: Directory, order: seq<Key>, at: nat)
    requires Lists(dir, order) && All(dir, order) && at <= |order|
    ensures Members(order[at..]) <= dir.Keys && Size(dir, order[at..]) == Weight(dir, Members(order[at..]))
  {
    SuffixIsDistinct(order, at);
    assert forall k | k in order[at..] :: k in order;
    SizeIsWeight(dir, order[at..]);
  }

  ghost predicate Survives(dir: Directory, key: Key, file: File, listing: seq<Key>, maxBytes: nat)
    requires file.size <= maxBytes && Lists(dir[key := file], listing)
  {
    assert forall i | 0 <= i < |listing| :: listing[i] in listing;
    key in Put(dir, key, file.record, file.size, file.mtime, listing, maxBytes).0
  }

  lemma ListsAll(dir: Directory, listing: seq<Key>)
    requires Lists(dir, listing)
    ensures All(dir, listing)
  {
    assert forall i | 0 <= i < |listing| :: listing[i] in listing;
  }

  lemma SuffixIsDistinct(keys: seq<Key>, at: nat)
    requires Distinct(keys) && at <= |keys|
    ensures Distinct(keys[at..])
  {
  }

  /** Enough room for everything at least as new keeps the new file, however the directory is listed. */
  lemma RoomIsEnough(dir: Directory, key: Key, file: File, listing: seq<Key>, maxBytes: nat)
    requires file.size <= maxBytes && Lists(dir[key := file], listing)
    requires Weight(dir[key := file], NotOlder(dir[key := file], file.mtime)) <= maxBytes
    ensures Survives(dir, key, file, listing, maxBytes)
  {
    var before := dir[key := file];
    ListsAll(before, listing);
    OrderIsAListing(before, listing);
    var order := SortByAge(before, listing);
    assert key in order;
    var at :| 0 <= at < |order| && order[at] == key;
    SuffixSize(before, order, at);
    SortedFromIsNotOlder(before, order, at);
    WeightGrows(before, Members(order[at..]), NotOlder(before, file.mtime));
    SurvivesExactlyWhenItFitsWithNewer(before, listing, maxBytes, at);
  }

  /** Listed first, the new file needs room for exactly those. */
  lemma ListedFirstNeedsRoom(dir: Directory, key: Key, file: File, maxBytes: nat) returns (listing: seq<Key>)
    requires file.size <= maxBytes
    ensures Lists(dir[key := file], listing)
    ensures Survives(dir, key, file, listing, maxBytes) ==>
      Weight(dir[key := file], NotOlder(dir[key := file], file.mtime)) <= maxBytes
  {
    var before := dir[key := file];
    var rest := SomeListing(before.Keys - {key});
    listing := [key] + rest;
    assert listing[1..] == rest;
    ListsAll(before, listing);
    assert All(before, rest) by { assert forall i | 0 <= i < |rest| :: rest[i] in rest; }
    SortsByAge(before, rest);
    var at := InsertedBeforeTies(before, key, SortByAge(before, rest));
    OrderIsAListing(before, listing);
    SuffixSize(before, SortByAge(before, listing), at);
    LastAreNotOlder(before, SortByAge(before, listing), file.mtime, at);
    SurvivesExactlyWhenItFitsWithNewer(before, listing, maxBytes, at);
  }

  /** A put keeps its record under every order in which the directory may be listed exactly when the files stamped at
      or after its own time, itself included, fit together. */
  lemma PutIsSafeExactlyWhenNotOlderFit(dir: Directory, key: Key, file: File, maxBytes: nat)
    requires file.size <= maxBytes
    ensures (forall listing | Lists(dir[key := file], listing) :: Survives(dir, key, file, listing, maxBytes)) <==>
            Weight(dir[key := file], NotOlder(dir[key := file], file.mtime)) <= maxBytes
  {
    if Weight(dir[key := file], NotOlder(dir[key := file], file.mtime)) <= maxBytes {
      forall listing | Lists(dir[key := file], listing)
        ensures Survives(dir, key, file, listing, maxBytes)
      {
        RoomIsEnough(dir, key, file, listing, maxBytes);
      }
    } else {
      var listing := ListedFirstNeedsRoom(dir, key, file, maxBytes);
      assert !Survives(dir, key, file, listing, maxBytes);
    }
  }

  // ---------------------------------------------------------------- runs against a plain map

  /** The clock is read when an operation starts; `listing` is what the file system reports after the write. */
  datatype Op =
    | PutOp(key: Key, record: Record, size: nat, now: int, listing: seq<Key>)
    | GetOp(key: Key, input: Option<Digest>, now: int)

  ghost predicate Legal(dir: Directory, op: Op, maxBytes: nat) {
    op.PutOp? && op.size <= maxBytes ==>
      Lists(dir[op.key := File(op.record, op.size, op.now)], op.listing)
      && All(dir[op.key := File(op.record, op.size, op.now)], op.listing)
  }

  ghost function Apply(dir: Directory, op: Op, maxBytes: nat): Directory {
    if !Legal(dir, op, maxBytes) then dir
    else match op
      case PutOp(key, record, size, now, listing) => Put(dir, key, record, size, now, listing, maxBytes).0
      case GetOp(key, input, now) => Get(dir, key, input, now).0
  }

  /** The reference: an unbounded map that remembers the last record put and the last time it was put or hit. */
  datatype Reference = Reference(record: map<Key, Record>, used: map<Key, int>)

  ghost function Refer(dir: Directory, ref: Reference, op: Op, maxBytes: nat): Reference {
    if !Legal(dir, op, maxBytes) then ref
    else match op
      case PutOp(key, record, size, now, _) =>
        if size > maxBytes then ref else Reference(ref.record[key := record], ref.used[key := now])
      case GetOp(key, input, now) =>
        if Get(dir, key, input, now).1.Some? then ref.(used := ref.used[key := now]) else ref
  }

  ghost function RunOps(ops: seq<Op>, maxBytes: nat): (Directory, Reference) {
    if ops == [] then (map[], Reference(map[], map[]))
    else
      var (dir, ref) := RunOps(ops[..|ops| - 1], maxBytes);
      var op := ops[|ops| - 1];
      (Apply(dir, op, maxBytes), Refer(dir, ref, op, maxBytes))
  }

  ghost predicate Agrees(dir: Directory, ref: Reference) {
    forall k | k in dir ::
      k in ref.record && k in ref.used && dir[k].record == ref.record[k] && dir[k].mtime == ref.used[k]
  }

  ghost predicate Fits(dir: Directory, maxBytes: nat) {
    exists listing :: Lists(dir, listing) && All(dir, listing) && Size(dir, listing) <= maxBytes
  }

  lemma ApplyAgrees(dir: Directory, ref: Reference, op: Op, maxBytes: nat)
    requires Agrees(dir, ref)
    ensures Agrees(Apply(dir, op, maxBytes), Refer(dir, ref, op, maxBytes))
  {
  }

  /** Whatever is put and looked up, every file holds the last record put under its key, stamped with its last use,
      so the order of eviction is the order of last use. */
  lemma {:induction false} CacheAgreesWithAPlainMap(ops: seq<Op>, maxBytes: nat)
    ensures Agrees(RunOps(ops, maxBytes).0, RunOps(ops, maxBytes).1)
    decreases |ops|
  {
    if ops != [] {
      CacheAgreesWithAPlainMap(ops[..|ops| - 1], maxBytes);
      var (dir, ref) := RunOps(ops[..|ops| - 1], maxBytes);
      ApplyAgrees(dir, ref, ops[|ops| - 1], maxBytes);
    }
  }

  /** A hit is the last record put under that very pair, with the asked input when one is asked. */
  lemma HitsAreTheLastPut(ops: seq<Op>, maxBytes: nat, key: Key, input: Option<Digest>, now: int)
    ensures var (dir, ref) := RunOps(ops, maxBytes);
      var hit := Get(dir, key, input, now).1;
      && (hit.Some? ==> key in ref.record && hit.value == ref.record[key]
                        && (input.Some? ==> hit.value.input == input.value))
      && (hit == None ==> key !in dir || (input.Some? && dir[key].record.input != input.value))
  {
    CacheAgreesWithAPlainMap(ops, maxBytes);
  }

  lemma TouchingKeepsSize(dir: Directory, key: Key, now: int, listing: seq<Key>)
    requires key in dir && All(dir, listing)
    ensures var after := dir[key := dir[key].(mtime := now)];
      All(after, listing) && Size(after, listing) == Size(dir, listing)
  {
    if listing != [] { TouchingKeepsSize(dir, key, now, listing[1..]); }
  }

  /** The cache never exceeds its bound between operations. */
  lemma {:induction false} CacheAlwaysFits(ops: seq<Op>, maxBytes: nat)
    ensures Fits(RunOps(ops, maxBytes).0, maxBytes)
    decreases |ops|
  {
    if ops == [] {
      assert Lists(map[], []) && All(map[], []) && Size(map[], []) <= maxBytes;
    } else {
      CacheAlwaysFits(ops[..|ops| - 1], maxBytes);
      var (dir, ref) := RunOps(ops[..|ops| - 1], maxBytes);
      ApplyFits(dir, ops[|ops| - 1], maxBytes);
    }
  }

  lemma SuffixListsTheRest(dir: Directory, after: Directory, order: seq<Key>, k: nat, maxBytes: nat)
    requires EvictsShortestPrefix(dir, after, order, k, maxBytes)
    ensures Lists(after, order[k..]) && All(after, order[k..])
  {
    SuffixMembers(order, k);
  }

  lemma RotationFits(dir: Directory, listing: seq<Key>, maxBytes: nat)
    requires Lists(dir, listing) && All(dir, listing)
    ensures Fits(Rotate(dir, listing, maxBytes), maxBytes)
  {
    var order, k := RotationEvictsShortestOldestPrefix(dir, listing, maxBytes);
    var after := Rotate(dir, listing, maxBytes);
    SuffixListsTheRest(dir, after, order, k, maxBytes);
    SameSize(dir, after, order[k..]);
  }

  lemma PutFits(dir: Directory, op: Op, maxBytes: nat)
    requires Fits(dir, maxBytes) && op.PutOp? && Legal(dir, op, maxBytes)
    ensures Fits(Apply(dir, op, maxBytes), maxBytes)
  {
    if op.size <= maxBytes {
      RotationFits(dir[op.key := File(op.record, op.size, op.now)], op.listing, maxBytes);
    }
  }

  lemma GetFits(dir: Directory, op: Op, maxBytes: nat)
    requires Fits(dir, maxBytes) && op.GetOp?
    ensures Fits(Get(dir, op.key, op.input, op.now).0, maxBytes)
  {
    var after := Get(dir, op.key, op.input, op.now).0;
    if after != dir {
      var listing :| Lists(dir, listing) && All(dir, listing) && Size(dir, listing) <= maxBytes;
      TouchingKeepsSize(dir, op.key, op.now, listing);
      assert Lists(after, listing);
    }
  }

  lemma ApplyFits(dir: Directory, op: Op, maxBytes: nat)
    requires Fits(dir, maxBytes)
    ensures Fits(Apply(dir, op, maxBytes), maxBytes)
  {
    if Legal(dir, op, maxBytes) {
      if op.PutOp? { PutFits(dir, op, maxBytes); } else { GetFits(dir, op, maxBytes); }
    }
  }

  lemma RestOfListing(dir: Directory, order: seq<Key>, k: nat)
    requires Lists(dir, order) && k <= |order|
    ensures dir - (set e | e in order[..k]) == Restrict(dir, order[k..])
  {
    forall f | f in dir ensures f in order[k..] <==> f !in order[..k] {
      assert f in order;
      var i :| 0 <= i < |order| && order[i] == f;
      if i < k { assert order[..k][i] == f; } else { assert order[k..][i - k] == f; }
    }
  }

  // ---------------------------------------------------------------- the object

  class Cache {
    const maxBytes: nat
    var files: Directory

    constructor (maxBytes: nat)
      ensures this.maxBytes == maxBytes && files == map[]
    {
      this.maxBytes, files := maxBytes, map[];
    }

    method TotalSize(entries: seq<Key>) returns (total: int)
      requires All(files, entries)
      ensures total == Size(files, entries)
    {
      total := 0;
      for i := 0 to |entries|
        invariant total + Size(files, entries[i..]) == Size(files, entries)
      {
        assert entries[i..][0] == entries[i] && entries[i..][1..] == entries[i + 1..];
        total := total + files[entries[i]].size;
      }
    }

    method RotateFiles(listing: seq<Key>)
      requires Lists(files, listing) && All(files, listing)
      modifies this`files
      ensures files == Rotate(old(files), listing, maxBytes)
    {
      var stats, entries := files, SortByAge(files, listing);
      var total := TotalSize(entries);
      var i := 0;
      assert entries[0..] == entries;
      while i < |entries| && total > maxBytes
        invariant i <= |entries| && files == stats - (set e | e in entries[..i])
        invariant Kept(stats, entries[i..], total, maxBytes) == Kept(stats, entries, Size(stats, entries), maxBytes)
      {
        assert entries[i..][0] == entries[i] && entries[i..][1..] == entries[i + 1..];
        assert entries[..i + 1] == entries[..i] + [entries[i]];
        files := files - {entries[i]};
        total := total - stats[entries[i]].size;
        i := i + 1;
      }
      OrderIsAListing(stats, listing);
      RestOfListing(stats, entries, i);
    }

    /** `listing` is what the file system reports once the new file is in place. */
    method PutTiming(key: Key, record: Record, size: nat, now: int, listing: seq<Key>) returns (answer: Answer)
      requires size <= maxBytes ==>
        Lists(files[key := File(record, size, now)], listing) && All(files[key := File(record, size, now)], listing)
      modifies this`files
      ensures (files, answer) == Put(old(files), key, record, size, now, listing, maxBytes)
    {
      if size > maxBytes { return TooLarge; }
      files := files[key := File(record, size, now)];
      RotateFiles(listing);
      return Stored;
    }

    method GetTiming(key: Key, input: Option<Digest>, now: int) returns (hit: Option<Record>)
      modifies this`files
      ensures (files, hit) == Get(old(files), key, input, now)
    {
      if key !in files { return None; }
      var file := files[key];
      if input.Some? && file.record.input != input.value { return None; }
      files := files[key := file.(mtime := now)];
      return Some(file.record);
    }
  }
}
