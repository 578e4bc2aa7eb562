/** Insertion into lists kept in order. */
module Sorting {

  /** One value comes before another. */
  type Before<!T> = (T, T) -> bool

  ghost predicate Transitive<T(!new)>(before: Before<T>) {
    forall a, b, c :: before(a, b) && before(b, c) ==> before(a, c)
  }

  /** Each value comes before all that follow it. */
  ghost predicate Sorted<T>(before: Before<T>, s: seq<T>) {
    forall i, j :: 0 <= i < j < |s| ==> before(s[i], s[j])
  }

  /** Puts x in front of the first value that it comes before. */
  function Insert<T>(before: Before<T>, x: T, s: seq<T>): (r: seq<T>)
    ensures |r| == |s| + 1
    decreases |s|
  {
    if s == [] then [x] else if before(x, s[0]) then [x] + s else [s[0]] + Insert(before, x, s[1..])
  }

  lemma HeadTail<T(!new)>(before: Before<T>, s: seq<T>)
    requires Sorted(before, s) && s != []
    ensures Sorted(before, s[1..])
    ensures forall y :: y in s[1..] ==> before(s[0], y)
    ensures forall y :: y in s <==> y == s[0] || y in s[1..]
  {
    assert s == [s[0]] + s[1..];
  }

  lemma ConsSorts<T(!new)>(before: Before<T>, x: T, s: seq<T>)
    requires Sorted(before, s) && forall y :: y in s ==> before(x, y)
    ensures Sorted(before, [x] + s)
  {
    assert forall i :: 0 <= i < |s| ==> s[i] in s;
  }

  lemma {:induction false} InsertSorts<T(!new)>(before: Before<T>, x: T, s: seq<T>)
    requires Transitive(before) && Sorted(before, s)
    requires forall y :: y in s ==> before(x, y) || before(y, x)
    ensures Sorted(before, Insert(before, x, s))
    ensures forall y :: y in Insert(before, x, s) <==> y == x || y in s
    decreases |s|
  {
    if s != [] {
      HeadTail(before, s);
      if before(x, s[0]) {
        ConsSorts(before, x, s);
      } else {
        InsertSorts(before, x, s[1..]);
        ConsSorts(before, s[0], Insert(before, x, s[1..]));
      }
    }
  }
}
