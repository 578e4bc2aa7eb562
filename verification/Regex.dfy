/** Regular expressions with the matching order of a backtracking engine. */
module Regex {
  import opened Text

  datatype Re =
    | Empty
    | Sym(p: char -> bool)
    | Cat(left: Re, right: Re)
    | Alt(first: Re, second: Re)
    | Star(body: Re)   // greedy
    | Bound            // \b

  predicate IsBound(t: string, i: nat)
    requires i <= |t|
  {
    (i > 0 && IsWord(t[i - 1])) != (i < |t| && IsWord(t[i]))
  }

  function After(es: seq<nat>, i: nat): (fs: seq<nat>)
    ensures forall k :: 0 <= k < |fs| ==> fs[k] > i && fs[k] in es
  {
    if es == [] then [] else (if es[0] > i then [es[0]] else []) + After(es[1..], i)
  }

  /** Where a match that starts at i can end, in the order in which the engine tries. */
  function Ends(r: Re, t: string, i: nat): (es: seq<nat>)
    requires i <= |t|
    ensures forall k :: 0 <= k < |es| ==> i <= es[k] <= |t|
    decreases r, |t| - i, 0
  {
    match r
    case Empty => [i]
    case Bound => if IsBound(t, i) then [i] else []
    case Sym(p) => if i < |t| && p(t[i]) then [i + 1] else []
    case Cat(a, b) => Then(Ends(a, t, i), b, t, i)
    case Alt(a, b) => Ends(a, t, i) + Ends(b, t, i)
    case Star(a) =>
      var es := Ends(a, t, i);
      (if i < |t| then Then(After(es, i), r, t, i + 1) else []) + [i]
  }

  /** Continue with r from each of the positions, in order. */
  function Then(es: seq<nat>, r: Re, t: string, from: nat): (fs: seq<nat>)
    requires from <= |t|
    requires forall k :: 0 <= k < |es| ==> from <= es[k] <= |t|
    ensures forall k :: 0 <= k < |fs| ==> from <= fs[k] <= |t|
    decreases r, |t| - from, |es|
  {
    if es == [] then [] else Ends(r, t, es[0]) + Then(es[1..], r, t, from)
  }

  // -- the language of an expression --

  /** r matches t[i..j] in its place in t. */
  ghost predicate Matches(r: Re, t: string, i: nat, j: nat)
    requires i <= j <= |t|
    decreases r, j - i
  {
    match r
    case Empty => i == j
    case Bound => i == j && IsBound(t, i)
    case Sym(p) => j == i + 1 && p(t[i])
    case Cat(a, b) => exists e :: i <= e <= j && Matches(a, t, i, e) && Matches(b, t, e, j)
    case Alt(a, b) => Matches(a, t, i, j) || Matches(b, t, i, j)
    case Star(a) => i == j || exists e :: i < e <= j && Matches(a, t, i, e) && Matches(r, t, e, j)
  }

  lemma CatSplit(a: Re, b: Re, t: string, i: nat, j: nat) returns (e: nat)
    requires i <= j <= |t| && Matches(Cat(a, b), t, i, j)
    ensures i <= e <= j && Matches(a, t, i, e) && Matches(b, t, e, j)
  {
    e :| i <= e <= j && Matches(a, t, i, e) && Matches(b, t, e, j);
  }

  lemma CatJoin(a: Re, b: Re, t: string, i: nat, e: nat, j: nat)
    requires i <= e <= j <= |t| && Matches(a, t, i, e) && Matches(b, t, e, j)
    ensures Matches(Cat(a, b), t, i, j)
  {
  }

  lemma StarSplit(a: Re, t: string, i: nat, j: nat) returns (e: nat)
    requires i < j <= |t| && Matches(Star(a), t, i, j)
    ensures i < e <= j && Matches(a, t, i, e) && Matches(Star(a), t, e, j)
  {
    e :| i < e <= j && Matches(a, t, i, e) && Matches(Star(a), t, e, j);
  }

  lemma StarJoin(a: Re, t: string, i: nat, e: nat, j: nat)
    requires i < e <= j <= |t| && Matches(a, t, i, e) && Matches(Star(a), t, e, j)
    ensures Matches(Star(a), t, i, j)
  {
  }

  lemma {:induction false} AfterMember(es: seq<nat>, i: nat, e: nat)
    ensures e in After(es, i) <==> e in es && e > i
  {
    if es != [] {
      AfterMember(es[1..], i, e);
      assert es == [es[0]] + es[1..];
    }
  }

  lemma {:induction false} ThenMember(es: seq<nat>, r: Re, t: string, from: nat, j: nat)
    requires from <= |t|
    requires forall k :: 0 <= k < |es| ==> from <= es[k] <= |t|
    ensures j in Then(es, r, t, from) <==> exists k :: 0 <= k < |es| && j in Ends(r, t, es[k])
    decreases |es|
  {
    if es != [] {
      ThenMember(es[1..], r, t, from, j);
      if j in Then(es[1..], r, t, from) {
        var k :| 0 <= k < |es[1..]| && j in Ends(r, t, es[1..][k]);
        assert j in Ends(r, t, es[k + 1]);
      }
      if exists k :: 0 <= k < |es| && j in Ends(r, t, es[k]) {
        var k :| 0 <= k < |es| && j in Ends(r, t, es[k]);
        assert k == 0 || es[k] == es[1..][k - 1];
      }
    }
  }

  /** The engine tries exactly the ends that the language allows. */
  lemma {:induction false} EndsAreMatches(r: Re, t: string, i: nat, j: nat)
    requires i <= |t|
    ensures j in Ends(r, t, i) <==> i <= j <= |t| && Matches(r, t, i, j)
    decreases r, |t| - i, 1
  {
    match r
    case Alt(a, b) =>
      EndsAreMatches(a, t, i, j);
      EndsAreMatches(b, t, i, j);
    case Cat(a, b) =>
      ThenMember(Ends(a, t, i), b, t, i, j);
      forall e: nat ensures e in Ends(a, t, i) <==> i <= e <= |t| && Matches(a, t, i, e) {
        EndsAreMatches(a, t, i, e);
      }
      forall e | i <= e <= |t| ensures j in Ends(b, t, e) <==> e <= j <= |t| && Matches(b, t, e, j) {
        EndsAreMatches(b, t, e, j);
      }
    case Star(a) =>
      StarEndsAreMatches(a, t, i, j);
    case _ =>
  }

  lemma {:induction false} StarEndsAreMatches(a: Re, t: string, i: nat, j: nat)
    requires i <= |t|
    ensures j in Ends(Star(a), t, i) <==> i <= j <= |t| && Matches(Star(a), t, i, j)
    decreases Star(a), |t| - i, 0
  {
    if i < |t| {
      var es := After(Ends(a, t, i), i);
      ThenMember(es, Star(a), t, i + 1, j);
      if j in Then(es, Star(a), t, i + 1) {
        var k :| 0 <= k < |es| && j in Ends(Star(a), t, es[k]);
        EndsAreMatches(a, t, i, es[k]);
        EndsAreMatches(Star(a), t, es[k], j);
        StarJoin(a, t, i, es[k], j);
      }
      if i < j <= |t| && Matches(Star(a), t, i, j) {
        var e := StarSplit(a, t, i, j);
        EndsAreMatches(a, t, i, e);
        AfterMember(Ends(a, t, i), i, e);
        EndsAreMatches(Star(a), t, e, j);
        var k :| 0 <= k < |es| && es[k] == e;
      }
    }
  }

  ghost predicate NoMatch(r: Re, t: string) {
    forall i: nat, j: nat :: i <= j <= |t| ==> !Matches(r, t, i, j)
  }

  // -- derived forms --

  function Plus(r: Re): Re {
    Cat(r, Star(r))
  }

  function Times(n: nat, r: Re): Re {
    if n == 0 then Empty else Cat(r, Times(n - 1, r))
  }

  /** r{n,} */
  function AtLeast(n: nat, r: Re): Re {
    Cat(Times(n, r), Star(r))
  }

  function Opt(r: Re): Re {
    Alt(r, Empty)
  }

  /** A literal under the flag i; letters of `s` are lower case. */
  function Lit(s: string): Re {
    if s == "" then Empty
    else
      var c := s[0];
      Cat(Sym(x => LowerChar(x) == c), Lit(s[1..]))
  }

  function AnyOf(words: seq<string>): Re
    requires words != []
  {
    if |words| == 1 then Lit(words[0]) else Alt(Lit(words[0]), AnyOf(words[1..]))
  }

  // -- what every match has in common --

  function MinLength(r: Re): nat {
    match r
    case Empty => 0
    case Bound => 0
    case Sym(_) => 1
    case Cat(a, b) => MinLength(a) + MinLength(b)
    case Alt(a, b) => if MinLength(a) < MinLength(b) then MinLength(a) else MinLength(b)
    case Star(_) => 0
  }

  lemma {:induction false} MatchIsLong(r: Re, t: string, i: nat, j: nat)
    requires i <= j <= |t| && Matches(r, t, i, j)
    ensures i + MinLength(r) <= j
    decreases r
  {
    match r
    case Cat(a, b) =>
      var e :| i <= e <= j && Matches(a, t, i, e) && Matches(b, t, e, j);
      MatchIsLong(a, t, i, e);
      MatchIsLong(b, t, e, j);
    case Alt(a, b) =>
      if Matches(a, t, i, j) { MatchIsLong(a, t, i, j); } else { MatchIsLong(b, t, i, j); }
    case _ =>
  }

  predicate BoundFree(r: Re) {
    match r
    case Bound => false
    case Cat(a, b) => BoundFree(a) && BoundFree(b)
    case Alt(a, b) => BoundFree(a) && BoundFree(b)
    case Star(a) => BoundFree(a)
    case _ => true
  }

  /** No class of r contains the character. */
  predicate Avoids(r: Re, c: char) {
    match r
    case Sym(p) => !p(c)
    case Cat(a, b) => Avoids(a, c) && Avoids(b, c)
    case Alt(a, b) => Avoids(a, c) && Avoids(b, c)
    case Star(a) => Avoids(a, c)
    case _ => true
  }

  lemma {:induction false} MatchAvoids(r: Re, t: string, i: nat, j: nat, c: char)
    requires i <= j <= |t| && Matches(r, t, i, j) && Avoids(r, c)
    ensures forall k :: i <= k < j ==> t[k] != c
    decreases r, j - i
  {
    match r
    case Cat(a, b) =>
      var e :| i <= e <= j && Matches(a, t, i, e) && Matches(b, t, e, j);
      MatchAvoids(a, t, i, e, c);
      MatchAvoids(b, t, e, j, c);
    case Alt(a, b) =>
      if Matches(a, t, i, j) { MatchAvoids(a, t, i, j, c); } else { MatchAvoids(b, t, i, j, c); }
    case Star(a) =>
      if j != i {
        var e :| i < e <= j && Matches(a, t, i, e) && Matches(r, t, e, j);
        MatchAvoids(a, t, i, e, c);
        MatchAvoids(r, t, e, j, c);
      }
    case _ =>
  }

  /** Without \b a match depends on nothing but the text it covers: it is a match of the
      whole text .. */
  lemma {:induction false} MatchOfWindow(r: Re, t: string, p: nat, q: nat, i: nat, j: nat)
    requires p <= q <= |t| && i <= j <= q - p && BoundFree(r)
    requires Matches(r, t[p..q], i, j)
    ensures Matches(r, t, p + i, p + j)
    decreases r, j - i
  {
    var s := t[p..q];
    match r
    case Alt(a, b) =>
      if Matches(a, s, i, j) { MatchOfWindow(a, t, p, q, i, j); } else { MatchOfWindow(b, t, p, q, i, j); }
    case Cat(a, b) =>
      var e := CatSplit(a, b, s, i, j);
      MatchOfWindow(a, t, p, q, i, e);
      MatchOfWindow(b, t, p, q, e, j);
      CatJoin(a, b, t, p + i, p + e, p + j);
    case Star(a) =>
      if i != j {
        var e := StarSplit(a, s, i, j);
        MatchOfWindow(a, t, p, q, i, e);
        MatchOfWindow(r, t, p, q, e, j);
        StarJoin(a, t, p + i, p + e, p + j);
      }
    case _ =>
  }

  /** .. and a match of the whole text that lies in a window is a match of the window. */
  lemma {:induction false} MatchInWindow(r: Re, t: string, p: nat, q: nat, i: nat, j: nat)
    requires p <= q <= |t| && i <= j <= q - p && BoundFree(r)
    requires Matches(r, t, p + i, p + j)
    ensures Matches(r, t[p..q], i, j)
    decreases r, j - i
  {
    var s := t[p..q];
    match r
    case Alt(a, b) =>
      if Matches(a, t, p + i, p + j) { MatchInWindow(a, t, p, q, i, j); } else { MatchInWindow(b, t, p, q, i, j); }
    case Cat(a, b) =>
      var f := CatSplit(a, b, t, p + i, p + j);
      MatchInWindow(a, t, p, q, i, f - p);
      MatchInWindow(b, t, p, q, f - p, j);
      CatJoin(a, b, s, i, f - p, j);
    case Star(a) =>
      if i != j {
        var f := StarSplit(a, t, p + i, p + j);
        MatchInWindow(a, t, p, q, i, f - p);
        MatchInWindow(r, t, p, q, f - p, j);
        StarJoin(a, s, i, f - p, j);
      }
    case _ =>
  }

  /** n copies of one class match exactly the n characters that follow. */
  lemma {:induction false} TimesOfClass(n: nat, p: char -> bool, t: string, i: nat, j: nat)
    requires i <= j <= |t|
    ensures Matches(Times(n, Sym(p)), t, i, j) <==> j == i + n && forall k :: i <= k < j ==> p(t[k])
    decreases n
  {
    if n > 0 {
      if i < j {
        TimesOfClass(n - 1, p, t, i + 1, j);
      }
      if Matches(Times(n, Sym(p)), t, i, j) {
        var e := CatSplit(Sym(p), Times(n - 1, Sym(p)), t, i, j);
        assert e == i + 1;
      }
      if j == i + n && forall k :: i <= k < j ==> p(t[k]) {
        CatJoin(Sym(p), Times(n - 1, Sym(p)), t, i, i + 1, j);
      }
    }
  }
}
