/** Facts about lists with the same elements. */
module Permutations {

  ghost predicate Differ<T, U>(f: T -> U, s: seq<T>) {
    forall i, j :: 0 <= i < j < |s| ==> f(s[i]) != f(s[j])
  }

  lemma TwiceCounts<T>(s: seq<T>, i: nat, j: nat)
    requires i < j < |s| && s[i] == s[j]
    ensures multiset(s)[s[i]] >= 2
  {
    assert s == s[..j] + s[j..];
    assert s[i] in s[..j] by { assert s[..j][i] == s[i]; }
    assert s[j] in s[j..] by { assert s[j..][0] == s[j]; }
    assert multiset(s) == multiset(s[..j]) + multiset(s[j..]);
  }

  lemma {:induction false} CountedTwice<T>(s: seq<T>, x: T) returns (i: nat, j: nat)
    requires multiset(s)[x] >= 2
    ensures i < j < |s| && s[i] == s[j] == x
  {
    assert s == [s[0]] + s[1..];
    if s[0] == x {
      i := 0;
      assert multiset(s[1..])[x] >= 1;
      assert x in s[1..];
      var k :| 0 <= k < |s[1..]| && s[1..][k] == x;
      j := k + 1;
    } else {
      i, j := CountedTwice(s[1..], x);
      i, j := i + 1, j + 1;
    }
  }

  lemma SameElements<T>(a: seq<T>, b: seq<T>, x: T)
    requires multiset(a) == multiset(b)
    ensures x in a <==> x in b
  {
    assert x in a <==> x in multiset(a);
    assert x in b <==> x in multiset(b);
  }

  lemma DifferPermuted<T, U>(f: T -> U, a: seq<T>, b: seq<T>)
    requires multiset(a) == multiset(b) && Differ(f, a)
    ensures Differ(f, b)
  {
    forall i, j | 0 <= i < j < |b| ensures f(b[i]) != f(b[j]) {
      if b[i] == b[j] {
        TwiceCounts(b, i, j);
        var k, l := CountedTwice(a, b[i]);
      } else {
        SameElements(a, b, b[i]);
        SameElements(a, b, b[j]);
        var k :| 0 <= k < |a| && a[k] == b[i];
        var l :| 0 <= l < |a| && a[l] == b[j];
        assert k < l || l < k;
      }
    }
  }

  /** What each element contributes, one after the other. */
  function Collected<T, X>(f: T -> seq<X>, s: seq<T>): seq<X> {
    if s == [] then [] else f(s[0]) + Collected(f, s[1..])
  }

  lemma {:induction false} CollectedAlike<T, X>(f: T -> seq<X>, g: T -> seq<X>, s: seq<T>)
    requires forall i :: 0 <= i < |s| ==> f(s[i]) == g(s[i])
    ensures Collected(f, s) == Collected(g, s)
  {
    if s != [] {
      assert forall i :: 0 <= i < |s[1..]| ==> s[1..][i] == s[i + 1];
      CollectedAlike(f, g, s[1..]);
    }
  }

  lemma Associates<X>(a: seq<X>, b: seq<X>, c: seq<X>)
    ensures a + (b + c) == (a + b) + c
  {
  }

  lemma {:induction false} CollectedConcat<T, X>(f: T -> seq<X>, a: seq<T>, b: seq<T>)
    ensures Collected(f, a + b) == Collected(f, a) + Collected(f, b)
  {
    if a == [] {
      assert a + b == b;
    } else {
      CollectedConcat(f, a[1..], b);
      assert (a + b)[1..] == a[1..] + b;
      Associates(f(a[0]), Collected(f, a[1..]), Collected(f, b));
    }
  }

  lemma {:induction false} TakenOut<T>(before: seq<T>, x: T, after: seq<T>)
    ensures multiset(before + ([x] + after)) == multiset(before + after) + multiset{x}
  {
  }

  lemma {:induction false} FirstOut<T>(a: seq<T>)
    requires a != []
    ensures multiset(a) == multiset(a[1..]) + multiset{a[0]}
  {
    assert a == [a[0]] + a[1..];
  }

  lemma {:induction false} CutAt<T>(b: seq<T>, k: nat)
    requires k < |b|
    ensures b == b[..k] + ([b[k]] + b[k + 1..])
  {
  }

  lemma CancelOne<T>(a: multiset<T>, b: multiset<T>, x: T)
    requires a + multiset{x} == b + multiset{x}
    ensures a == b
  {
    assert a == (a + multiset{x}) - multiset{x};
    assert b == (b + multiset{x}) - multiset{x};
  }

  /** Where the first element of one permutation stands in the other. */
  lemma {:induction false} FirstRemoved<T>(a: seq<T>, b: seq<T>) returns (b1: seq<T>, b2: seq<T>)
    requires multiset(a) == multiset(b) && a != []
    ensures b == b1 + ([a[0]] + b2) && multiset(a[1..]) == multiset(b1 + b2)
  {
    assert a[0] in multiset(a);
    SameElements(a, b, a[0]);
    var k :| 0 <= k < |b| && b[k] == a[0];
    b1, b2 := b[..k], b[k + 1..];
    CutAt(b, k);
    FirstOut(a);
    TakenOut(b1, a[0], b2);
    CancelOne(multiset(a[1..]), multiset(b1 + b2), a[0]);
  }

  lemma {:induction false} CollectedPermuted<T, X>(f: T -> seq<X>, a: seq<T>, b: seq<T>)
    requires multiset(a) == multiset(b)
    ensures multiset(Collected(f, a)) == multiset(Collected(f, b))
    decreases |a|
  {
    if a == [] {
      assert |multiset(b)| == 0 && b == [];
    } else {
      var b1, b2 := FirstRemoved(a, b);
      CollectedPermuted(f, a[1..], b1 + b2);
      CollectedConcat(f, b1, b2);
      CollectedConcat(f, b1, [a[0]] + b2);
      assert ([a[0]] + b2)[1..] == b2;
    }
  }
}
