/** The generator's random numbers: FNV-1a seeds and mulberry32, on 32-bit words. */
module Random {
  import opened Prelude

  /** What mulberry32 makes of its state. */
  function Mix(t: bv32): bv32 {
    var r := (t ^ (t >> 15)) * (t | 1);
    var s := r ^ (r + (r ^ (r >> 7)) * (r | 61));
    s ^ (s >> 14)
  }

  /** The drawn word as a fraction of 2^32. */
  function Fraction(word: bv32): (x: real)
    ensures 0.0 <= x < 1.0
  {
    (word as int) as real / 4294967296.0
  }

  /** Math.floor(x * n) */
  function Scaled(x: real, n: int): int {
    (x * n as real).Floor
  }

  lemma ScaledIndex(x: real, n: int)
    requires 0.0 <= x < 1.0 && n > 0
    ensures 0 <= Scaled(x, n) < n
  {
    assert x * n as real < n as real;
  }

  /** Math.round(x * (max - min) + min), for values in hundredths. */
  function Rounded(x: real, min: int, max: int): int {
    (x * (max - min) as real + min as real + 0.5).Floor
  }

  lemma RoundedInRange(x: real, min: int, max: int)
    requires 0.0 <= x < 1.0 && min <= max
    ensures min <= Rounded(x, min, max) <= max
  {
    var d := (max - min) as real;
    assert 0.0 <= x * d <= d;
    assert min as real + d == max as real;
  }

  /** Math.floor(x * (max - min + 1)) + min, the draw of an integer. */
  function DrawnInt(x: real, min: int, max: int): int {
    Scaled(x, max - min + 1) + min
  }

  /** The fractions a generator draws, in order. */
  type Tape = nat -> real

  ghost predicate Fractions(f: Tape) {
    forall i: nat :: 0.0 <= f(i) < 1.0
  }

  /** What mulberry32 does to its state before a draw. */
  function Step(t: bv32): bv32 {
    t + 0x6d2b79f5
  }

  /** The fraction it draws in a state. */
  function Output(t: bv32): (x: real)
    ensures 0.0 <= x < 1.0
  {
    Fraction(Mix(t))
  }

  /** The state after n draws. */
  function Advanced(step: bv32 -> bv32, seed: bv32, n: nat): bv32 {
    if n == 0 then seed else step(Advanced(step, seed, n - 1))
  }

  /** Everything a seed leads to. */
  function TapeOf(step: bv32 -> bv32, output: bv32 -> real, seed: bv32): Tape {
    (i: nat) => output(Advanced(step, seed, i + 1))
  }

  /** What each draw becomes: draw i as an integer from min to max, as a number of hundredths
      from min to max, as an index below n. */
  datatype Draws = Draws(integer: (nat, int, int) -> int, float: (nat, int, int) -> int, index: (nat, int) -> int)

  function DrawsOf(f: Tape): Draws {
    Draws((i: nat, min: int, max: int) => DrawnInt(f(i), min, max),
          (i: nat, min: int, max: int) => Rounded(f(i), min, max),
          (i: nat, n: int) => Scaled(f(i), n))
  }

  /** The draws are those of the tape; the triggers keep the arithmetic away from callers. */
  ghost predicate Follows(d: Draws, f: Tape) {
    && (forall i: nat, min: int, max: int {:trigger DrawnInt(f(i), min, max)} ::
          d.integer(i, min, max) == DrawnInt(f(i), min, max))
    && (forall i: nat, min: int, max: int {:trigger Rounded(f(i), min, max)} ::
          d.float(i, min, max) == Rounded(f(i), min, max))
    && (forall i: nat, n: int {:trigger Scaled(f(i), n)} :: d.index(i, n) == Scaled(f(i), n))
  }

  lemma DrawsFollow(f: Tape)
    ensures Follows(DrawsOf(f), f)
  {
  }

  /** Draws keep to their bounds. */
  ghost predicate Proper(d: Draws) {
    && (forall i: nat, min: int, max: int :: min <= max ==> min <= d.integer(i, min, max) <= max)
    && (forall i: nat, min: int, max: int :: min <= max ==> min <= d.float(i, min, max) <= max)
    && (forall i: nat, n: int :: n > 0 ==> 0 <= d.index(i, n) < n)
  }

  lemma DrawsAreProper(d: Draws, f: Tape)
    requires Fractions(f) && Follows(d, f)
    ensures Proper(d)
  {
    forall i: nat, min: int, max: int | min <= max ensures min <= d.integer(i, min, max) <= max {
      ScaledIndex(f(i), max - min + 1);
      assert d.integer(i, min, max) == DrawnInt(f(i), min, max);
    }
    forall i: nat, min: int, max: int | min <= max ensures min <= d.float(i, min, max) <= max {
      RoundedInRange(f(i), min, max);
    }
    forall i: nat, n: int | n > 0 ensures 0 <= d.index(i, n) < n {
      ScaledIndex(f(i), n);
    }
  }

  /** The value that draw i picks; None where the source throws. */
  function Picked<T>(d: Draws, i: nat, values: seq<T>): (r: Option<T>)
    ensures r.Some? ==> r.value in values
  {
    if values != [] && 0 <= d.index(i, |values|) < |values| then Some(values[d.index(i, |values|)]) else None
  }

  /** createRng, on a generator given by its step and its output. */
  class Rng {
    const step: bv32 -> bv32
    const output: bv32 -> real
    var t: bv32
    ghost const seed: bv32

    /** What the seed leads to, and how many draws were made. */
    ghost const draws: Draws
    ghost var at: nat

    ghost function Tape(): Tape {
      TapeOf(step, output, seed)
    }

    ghost predicate Valid()
      reads this
    {
      && t == Advanced(step, seed, at) && Follows(draws, Tape())
      && forall w {:trigger output(w)} :: 0.0 <= output(w) < 1.0
    }

    constructor (start: bv32)
      ensures Valid() && t == seed == start && at == 0 && step == Step && output == Output
    {
      step, output := Step, Output;
      t, seed, draws, at := start, start, DrawsOf(TapeOf(Step, Output, start)), 0;
    }

    lemma DrawsInBounds()
      requires Valid()
      ensures Proper(draws)
    {
      DrawsAreProper(draws, Tape());
    }

    method Next() returns (x: real)
      requires Valid()
      modifies this
      ensures Valid() && t == step(old(t)) && at == old(at) + 1
      ensures x == output(t) == Tape()(old(at)) && 0.0 <= x < 1.0
    {
      t := step(t);
      at := at + 1;
      x := output(t);
    }

    method Int(min: int, max: int) returns (n: int)
      requires Valid()
      modifies this
      ensures Valid() && at == old(at) + 1 && n == draws.integer(old(at), min, max)
      ensures min <= max ==> min <= n <= max
    {
      var x := Next();
      n := DrawnInt(x, min, max);
      if min <= max {
        ScaledIndex(x, max - min + 1);
      }
    }

    /** None where the source throws. */
    method Pick<T>(values: seq<T>) returns (r: Option<T>)
      requires Valid()
      modifies this
      ensures Valid() && at == old(at) + (if values == [] then 0 else 1)
      ensures r == Picked(draws, old(at), values) && (r == None <==> values == [])
    {
      if values == [] {
        return None;
      }
      var x := Next();
      ScaledIndex(x, |values|);
      r := Some(values[Scaled(x, |values|)]);
    }

    /** chooseFloat, in hundredths. */
    method Choose(min: int, max: int) returns (n: int)
      requires Valid()
      modifies this
      ensures Valid() && at == old(at) + 1 && n == draws.float(old(at), min, max)
      ensures min <= max ==> min <= n <= max
    {
      var x := Next();
      n := Rounded(x, min, max);
      if min <= max {
        RoundedInRange(x, min, max);
      }
    }

    /** Math.floor(next() * n) */
    method Index(n: nat) returns (j: nat)
      requires Valid() && n > 0
      modifies this
      ensures Valid() && at == old(at) + 1 && j < n && j == draws.index(old(at), n)
    {
      var x := Next();
      ScaledIndex(x, n);
      j := Scaled(x, n);
    }

    /** shuffle: swaps each place from the last down with a drawn place at or before it. */
    method Shuffle<T>(values: seq<T>) returns (copy: array<T>, ghost picks: seq<nat>)
      requires Valid()
      modifies this
      ensures Valid() && fresh(copy) && Picks(picks, |values|) && copy[..] == Shuffled(values, picks)
      ensures |picks| == (if values == [] then 0 else |values| - 1) && at == old(at) + |picks|
      ensures multiset(copy[..]) == multiset(values)
    {
      copy := new T[|values|](i requires 0 <= i < |values| => values[i]);
      assert copy[..] == values;
      picks := [];
      var i := |values| - 1;
      while i > 0
        invariant -1 <= i < |values| && (i == -1 ==> values == [])
        invariant Valid() && |picks| == |values| - 1 - i && at == old(at) + |picks|
        invariant Picks(picks, |values|)
        invariant fresh(copy) && copy[..] == Shuffled(values, picks)
      {
        var j := Index(i + 1);
        ShuffledSnoc(values, picks, j);
        SwapCells(copy, i, j);
        picks := picks + [j];
        i := i - 1;
      }
      ShuffleKeepsElements(values, picks);
    }
  }

  method SwapCells<T>(a: array<T>, i: nat, j: nat)
    requires i < a.Length && j < a.Length
    modifies a
    ensures a[..] == Swapped(old(a[..]), i, j)
  {
    a[i], a[j] := a[j], a[i];
  }

  // -- the shuffle --

  function Swapped<T>(s: seq<T>, i: nat, j: nat): (r: seq<T>)
    requires i < |s| && j < |s|
    ensures |r| == |s|
  {
    s[i := s[j]][j := s[i]]
  }

  /** One pick per place, from the last place down, each at or before its place. */
  ghost predicate Picks(picks: seq<nat>, n: nat) {
    |picks| <= n && forall k :: 0 <= k < |picks| ==> picks[k] <= n - 1 - k
  }

  function Shuffled<T>(s: seq<T>, picks: seq<nat>): (r: seq<T>)
    requires Picks(picks, |s|)
    ensures |r| == |s|
    decreases |picks|
  {
    if picks == [] then s
    else
      var k := |picks| - 1;
      Swapped(Shuffled(s, picks[..k]), |s| - 1 - k, picks[k])
  }

  lemma SwapKeepsElements<T>(s: seq<T>, i: nat, j: nat)
    requires i < |s| && j < |s|
    ensures multiset(Swapped(s, i, j)) == multiset(s)
  {
  }

  lemma {:induction false} ShuffleKeepsElements<T>(s: seq<T>, picks: seq<nat>)
    requires Picks(picks, |s|)
    ensures multiset(Shuffled(s, picks)) == multiset(s)
    decreases |picks|
  {
    if picks != [] {
      var k := |picks| - 1;
      ShuffleKeepsElements(s, picks[..k]);
      SwapKeepsElements(Shuffled(s, picks[..k]), |s| - 1 - k, picks[k]);
    }
  }

  lemma CutLast<T>(a: seq<T>, b: seq<T>, x: T)
    requires multiset(a + [x]) == multiset(b + [x])
    ensures multiset(a) == multiset(b)
  {
    assert multiset(a) == multiset(a + [x]) - multiset{x};
    assert multiset(b) == multiset(b + [x]) - multiset{x};
  }

  lemma SwapPrefix<T>(cur: seq<T>, m: nat, j: nat)
    requires 0 < m <= |cur| && j < m
    ensures Swapped(cur, m - 1, j)[..m - 1] + [cur[j]] == Swapped(cur[..m], m - 1, j)
    ensures Swapped(cur, m - 1, j)[m - 1..] == [cur[j]] + cur[m..]
  {
  }

  lemma {:induction false} SwapToEnd<T>(cur: seq<T>, p: seq<T>, m: nat, j: nat)
    requires 0 < m <= |cur| == |p| && cur[m..] == p[m..] && multiset(cur[..m]) == multiset(p[..m])
    requires j < m && cur[j] == p[m - 1]
    ensures
      var next := Swapped(cur, m - 1, j);
      next[m - 1..] == p[m - 1..] && multiset(next[..m - 1]) == multiset(p[..m - 1])
  {
    SwapPrefix(cur, m, j);
    SwapKeepsElements(cur[..m], m - 1, j);
    assert p[m - 1..] == [p[m - 1]] + p[m..];
    assert p[..m] == p[..m - 1] + [p[m - 1]];
    CutLast(Swapped(cur, m - 1, j)[..m - 1], p[..m - 1], p[m - 1]);
  }

  lemma SameOne<T>(a: seq<T>, b: seq<T>)
    requires |a| == |b| == 1 && multiset(a) == multiset(b)
    ensures a == b
  {
    assert a[0] in multiset(a);
    assert a[0] in b;
  }

  lemma PlaceOf<T>(a: seq<T>, b: seq<T>, i: nat) returns (j: nat)
    requires multiset(a) == multiset(b) && i < |b|
    ensures j < |a| && a[j] == b[i]
  {
    assert b[i] in multiset(b);
    assert b[i] in a;
    j :| j < |a| && a[j] == b[i];
  }

  lemma OneLeft<T>(cur: seq<T>, p: seq<T>)
    requires 1 <= |cur| == |p| && cur[1..] == p[1..] && multiset(cur[..1]) == multiset(p[..1])
    ensures cur == p
  {
    SameOne(cur[..1], p[..1]);
    assert cur == cur[..1] + cur[1..] && p == p[..1] + p[1..];
  }

  lemma {:induction false} ShuffledSnoc<T>(s: seq<T>, picks: seq<nat>, j: nat)
    requires Picks(picks, |s|) && |picks| < |s| && j <= |s| - 1 - |picks|
    ensures Picks(picks + [j], |s|)
    ensures Shuffled(s, picks + [j]) == Swapped(Shuffled(s, picks), |s| - 1 - |picks|, j)
  {
    var more := picks + [j];
    assert more[..|more| - 1] == picks && more[|more| - 1] == j;
  }

  lemma {:induction false} ReachFrom<T>(s: seq<T>, p: seq<T>, picks: seq<nat>) returns (all: seq<nat>)
    requires Picks(picks, |s|) && |p| == |s| && |picks| < |s|
    requires
      var cur, m := Shuffled(s, picks), |s| - |picks|;
      cur[m..] == p[m..] && multiset(cur[..m]) == multiset(p[..m])
    ensures Picks(all, |s|) && |all| == |s| - 1 && Shuffled(s, all) == p
    decreases |s| - |picks|
  {
    var cur, m := Shuffled(s, picks), |s| - |picks|;
    if m == 1 {
      all := picks;
      OneLeft(cur, p);
    } else {
      var j := PlaceOf(cur[..m], p[..m], m - 1);
      SwapToEnd(cur, p, m, j);
      ShuffledSnoc(s, picks, j);
      all := ReachFrom(s, p, picks + [j]);
    }
  }

  /** The shuffle leaves no order out: some picks lead to any given one. */
  lemma EveryOrderIsReached<T>(s: seq<T>, p: seq<T>) returns (picks: seq<nat>)
    requires s != [] && multiset(p) == multiset(s)
    ensures Picks(picks, |s|) && |picks| == |s| - 1 && Shuffled(s, picks) == p
  {
    assert |multiset(s)| == |s| && |multiset(p)| == |p|;
    assert s[..|s|] == s && p[..|s|] == p;
    picks := ReachFrom(s, p, []);
  }

  // -- the seed --

  const OFFSET_BASIS: bv32 := 2166136261

  type Round = (bv32, bv32) -> bv32

  function Hashed(round: Round, codes: seq<bv32>, hash: bv32): bv32
    decreases |codes|
  {
    if codes == [] then hash else Hashed(round, codes[1..], round(hash, codes[0]))
  }

  /** One round of hashSeed: xor the character code in, multiply by the FNV prime. */
  function HashStep(hash: bv32, code: bv32): bv32 {
    (hash ^ code) * 16777619
  }

  /** hashSeed: a 32-bit FNV-1a hash. */
  method HashSeed(codes: seq<bv32>) returns (hash: bv32)
    ensures hash == Hashed(HashStep, codes, OFFSET_BASIS)
  {
    hash := FoldCodes(HashStep, codes);
  }

  lemma {:induction false} HashedCons(round: Round, code: bv32, rest: seq<bv32>, hash: bv32, next: bv32)
    requires round(hash, code) == next
    ensures Hashed(round, [code] + rest, hash) == Hashed(round, rest, next)
  {
    assert ([code] + rest)[1..] == rest;
  }

  /** The hashes of the empty text, of "a" and of "foobar" are those published for FNV-1a. */
  lemma {:induction false} KnownHashes()
    ensures Hashed(HashStep, [], OFFSET_BASIS) == 0x811c9dc5
    ensures Hashed(HashStep, [0x61] + [], OFFSET_BASIS) == 0xe40c292c
    ensures
      Hashed(HashStep, [0x66] + ([0x6f] + ([0x6f] + ([0x62] + ([0x61] + ([0x72] + []))))), OFFSET_BASIS) == 0xbf9cf968
  {
    assert HashStep(0x811c9dc5, 0x61) == 0xe40c292c;
    HashedCons(HashStep, 0x61, [], 0x811c9dc5, 0xe40c292c);
    assert HashStep(0x39aaa18a, 0x72) == 0xbf9cf968;
    HashedCons(HashStep, 0x72, [], 0x39aaa18a, 0xbf9cf968);
    assert HashStep(0x3f5076ef, 0x61) == 0x39aaa18a;
    HashedCons(HashStep, 0x61, [0x72] + [], 0x3f5076ef, 0x39aaa18a);
    assert HashStep(0xa9f37ed7, 0x62) == 0x3f5076ef;
    HashedCons(HashStep, 0x62, [0x61] + ([0x72] + []), 0xa9f37ed7, 0x3f5076ef);
    assert HashStep(0x6222e842, 0x6f) == 0xa9f37ed7;
    HashedCons(HashStep, 0x6f, [0x62] + ([0x61] + ([0x72] + [])), 0x6222e842, 0xa9f37ed7);
    assert HashStep(0xe30c2799, 0x6f) == 0x6222e842;
    HashedCons(HashStep, 0x6f, [0x6f] + ([0x62] + ([0x61] + ([0x72] + []))), 0xe30c2799, 0x6222e842);
    assert HashStep(0x811c9dc5, 0x66) == 0xe30c2799;
    HashedCons(HashStep, 0x66, [0x6f] + ([0x6f] + ([0x62] + ([0x61] + ([0x72] + [])))), 0x811c9dc5, 0xe30c2799);
  }

  method FoldCodes(round: Round, codes: seq<bv32>) returns (hash: bv32)
    ensures hash == Hashed(round, codes, OFFSET_BASIS)
  {
    hash := OFFSET_BASIS;
    for i := 0 to |codes|
      invariant Hashed(round, codes[i..], hash) == Hashed(round, codes, OFFSET_BASIS)
    {
      assert codes[i..][0] == codes[i] && codes[i..][1..] == codes[i + 1..];
      hash := round(hash, codes[i]);
    }
  }

  /** A round that tells hashes apart and characters apart. */
  ghost predicate TellsApart(round: Round) {
    && (forall a, b, c :: round(a, c) == round(b, c) ==> a == b)
    && (forall a, c, d :: round(a, c) == round(a, d) ==> c == d)
  }

  /** Multiplies by the inverse of the FNV prime, which is odd. */
  function TimesInverse(x: bv32): bv32 {
    x * 899433627
  }

  lemma InverseTakesBack(x: bv32)
    ensures TimesInverse(x * 16777619) == x
  {
  }

  /** With `back`, what a round multiplied can be read again. */
  lemma StepsDiffer(back: bv32 -> bv32, a: bv32, b: bv32, c: bv32, d: bv32)
    requires back((a ^ c) * 16777619) == a ^ c && back((b ^ d) * 16777619) == b ^ d
    ensures HashStep(a, c) == HashStep(b, d) ==> a ^ c == b ^ d
  {
  }

  lemma XorTellsApart(a: bv32, b: bv32, c: bv32)
    ensures (a ^ c == b ^ c ==> a == b) && (c ^ a == c ^ b ==> a == b)
  {
  }

  lemma StepTellsApart()
    ensures TellsApart(HashStep)
  {
    forall a, b, c ensures HashStep(a, c) == HashStep(b, c) ==> a == b {
      SameStep(a, b, c, c);
      XorTellsApart(a, b, c);
    }
    forall a, c, d ensures HashStep(a, c) == HashStep(a, d) ==> c == d {
      SameStep(a, a, c, d);
      XorTellsApart(c, d, a);
    }
  }

  lemma SameStep(a: bv32, b: bv32, c: bv32, d: bv32)
    ensures HashStep(a, c) == HashStep(b, d) ==> a ^ c == b ^ d
  {
    InverseTakesBack(a ^ c);
    InverseTakesBack(b ^ d);
    StepsDiffer(TimesInverse, a, b, c, d);
  }

  /** The same text never brings two hashes together. */
  lemma {:induction false} HashedTellsApart(round: Round, codes: seq<bv32>, a: bv32, b: bv32)
    requires TellsApart(round) && Hashed(round, codes, a) == Hashed(round, codes, b)
    ensures a == b
    decreases |codes|
  {
    if codes != [] {
      var c := codes[0];
      HashedTellsApart(round, codes[1..], round(a, c), round(b, c));
      assert round(a, c) == round(b, c);
    }
  }

  lemma {:induction false} OneChangeMatters(round: Round, codes: seq<bv32>, i: nat, c: bv32, hash: bv32)
    requires TellsApart(round) && i < |codes| && c != codes[i]
    ensures Hashed(round, codes[i := c], hash) != Hashed(round, codes, hash)
    decreases |codes|
  {
    var tail := codes[1..];
    if i > 0 {
      assert codes[i := c][1..] == tail[i - 1 := c];
      OneChangeMatters(round, tail, i - 1, c, round(hash, codes[0]));
    } else {
      assert codes[0 := c][1..] == tail;
      if Hashed(round, codes[0 := c], hash) == Hashed(round, codes, hash) {
        HashedTellsApart(round, tail, round(hash, c), round(hash, codes[0]));
      }
    }
  }

  /** Two seed texts that differ in one character, wherever it is, give different seeds. */
  lemma OneCharacterMatters(codes: seq<bv32>, i: nat, c: bv32)
    requires i < |codes| && c != codes[i]
    ensures Hashed(HashStep, codes[i := c], OFFSET_BASIS) != Hashed(HashStep, codes, OFFSET_BASIS)
  {
    StepTellsApart();
    OneChangeMatters(HashStep, codes, i, c, OFFSET_BASIS);
  }
}
