/** Small vocabulary shared by the other modules. */
module Basics {

  datatype Option<+T> = None | Some(value: T)

  function Min(a: int, b: int): int { if a <= b then a else b }

  function Max(a: int, b: int): int { if a >= b then a else b }

  predicate Distinct<T(==)>(s: seq<T>) {
    forall i, j | 0 <= i < j < |s| :: s[i] != s[j]
  }

  /** Python's `list.remove`: the first occurrence goes, the order of the rest stays. */
  function Without<T(==)>(s: seq<T>, x: T): seq<T> {
    if s == [] then []
    else if s[0] == x then s[1..]
    else [s[0]] + Without(s[1..], x)
  }

  lemma {:induction false} WithoutMembers<T>(s: seq<T>, x: T)
    requires Distinct(s)
    ensures Distinct(Without(s, x))
    ensures forall y :: y in Without(s, x) <==> y in s && y != x
    ensures x !in s ==> Without(s, x) == s
  {
    if s != [] {
      var rest := s[1..];
      assert s == [s[0]] + rest;
      assert forall i | 0 <= i < |rest| :: rest[i] == s[i + 1] && rest[i] != s[0];
      WithoutMembers(rest, x);
      assert s[0] !in Without(rest, x);
    }
  }

  lemma {:induction false} WithoutIsPart<T>(s: seq<T>, x: T)
    ensures forall i | 0 <= i < |Without(s, x)| :: Without(s, x)[i] in s
  {
    if s != [] && s[0] != x {
      WithoutIsPart(s[1..], x);
      assert forall i | 0 < i < |Without(s, x)| :: Without(s, x)[i] == Without(s[1..], x)[i - 1];
    }
  }

  /** Removing an element from the middle leaves what was before it and what was after it. */
  lemma {:induction false} WithoutSplit<T>(before: seq<T>, x: T, after: seq<T>)
    requires x !in before
    ensures Without(before + [x] + after, x) == before + after
  {
    var s := before + [x] + after;
    if before == [] {
      assert s[0] == x && s[1..] == after;
      assert before + after == after;
    } else {
      assert s[1..] == before[1..] + [x] + after;
      WithoutSplit(before[1..], x, after);
      assert [before[0]] + (before[1..] + after) == before + after;
    }
  }
}
