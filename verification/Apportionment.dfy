/** Largest-remainder apportionment, in exact fractions: the share of weight w is the
    rational count * w / total. */
module Apportionment {
  import opened Sorting

  function Sum(s: seq<nat>): nat {
    if s == [] then 0 else s[0] + Sum(s[1..])
  }

  // -- sorting by fraction --

  ghost predicate Indices(fracs: seq<nat>, order: seq<nat>) {
    forall i :: 0 <= i < |order| ==> order[i] < |fracs|
  }

  /** Ahead by a larger fraction, or by place when the fractions are equal. */
  function Ahead(fracs: seq<nat>): Before<nat> {
    (x: nat, y: nat) =>
      x < |fracs| && y < |fracs| && (fracs[x] > fracs[y] || (fracs[x] == fracs[y] && x < y))
  }

  /** The indices from i on, by descending fraction, equal ones in their order. */
  function Order(fracs: seq<nat>, i: nat): seq<nat>
    requires i <= |fracs|
    decreases |fracs| - i
  {
    if i == |fracs| then [] else Insert(Ahead(fracs), i, Order(fracs, i + 1))
  }

  ghost predicate Descending(fracs: seq<nat>, order: seq<nat>)
    requires Indices(fracs, order)
  {
    forall i, j :: 0 <= i < j < |order| ==> fracs[order[i]] >= fracs[order[j]]
  }

  ghost predicate Distinct(order: seq<nat>) {
    forall i, j :: 0 <= i < j < |order| ==> order[i] != order[j]
  }

  lemma {:induction false} OrderIsSorted(fracs: seq<nat>, i: nat)
    requires i <= |fracs|
    ensures Sorted(Ahead(fracs), Order(fracs, i)) && |Order(fracs, i)| == |fracs| - i
    ensures forall y :: y in Order(fracs, i) <==> i <= y < |fracs|
    decreases |fracs| - i
  {
    if i < |fracs| {
      OrderIsSorted(fracs, i + 1);
      InsertSorts(Ahead(fracs), i, Order(fracs, i + 1));
    }
  }

  lemma SortedDescends(fracs: seq<nat>, order: seq<nat>)
    requires Sorted(Ahead(fracs), order) && Indices(fracs, order)
    ensures Descending(fracs, order) && Distinct(order)
  {
  }

  lemma {:induction false} OrderSorts(fracs: seq<nat>, i: nat)
    requires i <= |fracs|
    ensures Indices(fracs, Order(fracs, i)) && |Order(fracs, i)| == |fracs| - i
    ensures Descending(fracs, Order(fracs, i)) && Distinct(Order(fracs, i))
    ensures forall y :: y in Order(fracs, i) <==> i <= y < |fracs|
  {
    OrderIsSorted(fracs, i);
    assert forall k :: 0 <= k < |Order(fracs, i)| ==> Order(fracs, i)[k] in Order(fracs, i);
    SortedDescends(fracs, Order(fracs, i));
  }

  // -- the counts --

  /** One more for each of the first k indices of the order. */
  function Counts(floors: seq<nat>, order: seq<nat>, k: nat): (r: seq<nat>)
    requires k <= |order|
    ensures |r| == |floors| && forall i :: 0 <= i < |r| ==> r[i] == floors[i] + if i in order[..k] then 1 else 0
  {
    seq(|floors|, i requires 0 <= i < |floors| => floors[i] + if i in order[..k] then 1 else 0)
  }

  lemma {:induction false} SumUpdate(s: seq<nat>, i: nat, v: nat)
    requires i < |s|
    ensures Sum(s[i := v]) == Sum(s) - s[i] + v
    decreases |s|
  {
    if i == 0 {
      assert s[0 := v][1..] == s[1..];
    } else {
      SumUpdate(s[1..], i - 1, v);
      assert s[i := v][1..] == s[1..][i - 1 := v];
    }
  }

  lemma CountsStep(floors: seq<nat>, order: seq<nat>, k: nat)
    requires k < |order| && Distinct(order) && order[k] < |floors|
    ensures Counts(floors, order, k)[order[k]] == floors[order[k]]
    ensures Counts(floors, order, k + 1) == Counts(floors, order, k)[order[k] := floors[order[k]] + 1]
  {
    assert order[..k + 1] == order[..k] + [order[k]];
    assert order[k] !in order[..k] by {
      assert forall i :: 0 <= i < k ==> order[..k][i] == order[i];
    }
    var a, b := Counts(floors, order, k + 1), Counts(floors, order, k);
    assert forall i :: 0 <= i < |a| && i != order[k] ==> a[i] == b[i];
  }

  lemma {:induction false} SumCounts(floors: seq<nat>, order: seq<nat>, k: nat)
    requires k <= |order| && Distinct(order) && forall i :: 0 <= i < |order| ==> order[i] < |floors|
    ensures Sum(Counts(floors, order, k)) == Sum(floors) + k
  {
    if k == 0 {
      assert Counts(floors, order, 0) == floors;
    } else {
      SumCounts(floors, order, k - 1);
      CountsStep(floors, order, k - 1);
      var was := Counts(floors, order, k - 1);
      SumUpdate(was, order[k - 1], floors[order[k - 1]] + 1);
    }
  }

  // -- how many are left over --

  /** q is the floor of a / total and r / total its fraction. */
  predicate DividesInto(a: nat, total: nat, q: nat, r: nat) {
    a == total * q + r && r < total
  }

  ghost predicate Divided(nums: seq<nat>, total: nat, floors: seq<nat>, fracs: seq<nat>) {
    && |nums| == |floors| == |fracs|
    && forall i {:trigger DividesInto(nums[i], total, floors[i], fracs[i])} ::
         0 <= i < |nums| ==> DividesInto(nums[i], total, floors[i], fracs[i])
  }

  lemma Distributes(a: nat, b: nat, c: nat)
    ensures a * (b + c) == a * b + a * c
  {
  }

  lemma {:induction false} SumDivided(nums: seq<nat>, total: nat, floors: seq<nat>, fracs: seq<nat>)
    requires Divided(nums, total, floors, fracs)
    ensures total * Sum(floors) + Sum(fracs) == Sum(nums)
    decreases |nums|
  {
    if nums == [] {
      assert total * 0 == 0;
    } else {
      forall i | 0 <= i < |nums[1..]| ensures DividesInto(nums[1..][i], total, floors[1..][i], fracs[1..][i]) {
        assert DividesInto(nums[i + 1], total, floors[i + 1], fracs[i + 1]);
      }
      SumDivided(nums[1..], total, floors[1..], fracs[1..]);
      assert DividesInto(nums[0], total, floors[0], fracs[0]);
      Distributes(total, floors[0], Sum(floors[1..]));
    }
  }

  lemma FracsBelow(nums: seq<nat>, total: nat, floors: seq<nat>, fracs: seq<nat>)
    requires Divided(nums, total, floors, fracs)
    ensures forall i :: 0 <= i < |fracs| ==> fracs[i] < total
  {
    forall i | 0 <= i < |fracs| ensures fracs[i] < total {
      assert DividesInto(nums[i], total, floors[i], fracs[i]);
    }
  }

  lemma NegativeProduct(a: int, total: nat)
    requires a < 0 < total
    ensures a * total < 0
  {
  }

  lemma LargerFactor(a: int, b: int, total: nat)
    requires a <= b
    ensures a * total <= b * total
  {
  }

  lemma SmallerFactor(a: int, b: int, total: nat)
    requires a * total < b * total
    ensures a < b
  {
    if a >= b {
      LargerFactor(b, a, total);
    }
  }

  lemma StrictFactor(j: nat, k: nat, total: nat)
    requires j < k && total > 0
    ensures j * total < k * total
  {
  }

  lemma FactorOut(count: nat, floors: nat, total: nat, product: nat)
    requires product == count * total
    ensures (count - floors) * total == product - total * floors
  {
  }

  function SumAt(fracs: seq<nat>, order: seq<nat>): nat
    requires Indices(fracs, order)
  {
    if order == [] then 0 else fracs[order[0]] + SumAt(fracs, order[1..])
  }

  lemma {:induction false} SumAtInsert(fracs: seq<nat>, before: Before<nat>, x: nat, order: seq<nat>)
    requires x < |fracs| && Indices(fracs, order)
    ensures Indices(fracs, Insert(before, x, order))
    ensures SumAt(fracs, Insert(before, x, order)) == fracs[x] + SumAt(fracs, order)
    decreases |order|
  {
    var r := Insert(before, x, order);
    if order == [] || before(x, order[0]) {
      assert r[1..] == order;
    } else {
      SumAtInsert(fracs, before, x, order[1..]);
      assert r[1..] == Insert(before, x, order[1..]);
    }
  }

  lemma {:induction false} SumAtOrder(fracs: seq<nat>, i: nat)
    requires i <= |fracs|
    ensures Indices(fracs, Order(fracs, i)) && SumAt(fracs, Order(fracs, i)) == Sum(fracs[i..])
    decreases |fracs| - i
  {
    if i < |fracs| {
      SumAtOrder(fracs, i + 1);
      SumAtInsert(fracs, Ahead(fracs), i, Order(fracs, i + 1));
      assert fracs[i..][1..] == fracs[i + 1..];
    }
  }

  /** Fractions that vanish from place j on sum to less than j units. */
  lemma {:induction false} SumAtBound(fracs: seq<nat>, order: seq<nat>, j: nat, total: nat)
    requires Indices(fracs, order) && j <= |order|
    requires forall i :: 0 <= i < |fracs| ==> fracs[i] < total
    requires forall i :: j <= i < |order| ==> fracs[order[i]] == 0
    ensures SumAt(fracs, order) <= j * total && (j > 0 ==> SumAt(fracs, order) < j * total)
    decreases |order|
  {
    if order != [] {
      var rest := order[1..];
      assert forall i :: 0 <= i < |rest| ==> rest[i] == order[i + 1];
      if j == 0 {
        assert fracs[order[0]] == 0;
        SumAtBound(fracs, rest, 0, total);
      } else {
        SumAtBound(fracs, rest, j - 1, total);
        assert (j - 1) * total + total == j * total;
      }
    }
  }

  lemma {:induction false} OrderFacts(fracs: seq<nat>, order: seq<nat>)
    requires order == Order(fracs, 0)
    ensures Indices(fracs, order) && |order| == |fracs|
    ensures Descending(fracs, order) && Distinct(order) && SumAt(fracs, order) == Sum(fracs)
    ensures forall y :: y in order <==> 0 <= y < |fracs|
  {
    OrderSorts(fracs, 0);
    SumAtOrder(fracs, 0);
    assert fracs[0..] == fracs;
  }

  /** What is left after rounding down is less than one per share. */
  lemma {:induction false} LeftOver(nums: seq<nat>, total: nat, floors: seq<nat>, fracs: seq<nat>, count: nat)
    requires Divided(nums, total, floors, fracs) && total > 0 && nums != [] && Sum(nums) == count * total
    ensures 0 <= count - Sum(floors) < |nums| && (count - Sum(floors)) * total == Sum(fracs)
  {
    SumDivided(nums, total, floors, fracs);
    FactorOut(count, Sum(floors), total, Sum(nums));
    if count < Sum(floors) {
      NegativeProduct(count - Sum(floors), total);
    }
    FracsBelow(nums, total, floors, fracs);
    OrderFacts(fracs, Order(fracs, 0));
    SumAtBound(fracs, Order(fracs, 0), |fracs|, total);
    SmallerFactor(count - Sum(floors), |fracs|, total);
  }

  // -- fairness --

  lemma ZeroFrom(fracs: seq<nat>, order: seq<nat>, j: nat, total: nat)
    requires Indices(fracs, order) && Descending(fracs, order) && j < |order| && fracs[order[j]] == 0
    requires forall i :: 0 <= i < |fracs| ==> fracs[i] < total
    ensures SumAt(fracs, order) <= j * total
  {
    SumAtBound(fracs, order, j, total);
  }

  /** Only indices with a fraction are rounded up. */
  lemma RoundedUpHasFraction(fracs: seq<nat>, order: seq<nat>, k: nat, total: nat, j: nat)
    requires Indices(fracs, order) && Descending(fracs, order) && SumAt(fracs, order) == k * total
    requires total > 0 && forall i :: 0 <= i < |fracs| ==> fracs[i] < total
    requires j < k <= |order|
    ensures fracs[order[j]] > 0
  {
    StrictFactor(j, k, total);
    if fracs[order[j]] == 0 {
      ZeroFrom(fracs, order, j, total);
    }
  }

  /** The count differs from the share a / total by less than 1. */
  predicate NearShare(a: nat, total: nat, c: nat) {
    a - total < c * total < a + total
  }

  /** A quotient rounded down, or up when there is a fraction, is near the exact one. */
  lemma NearQuotient(a: nat, total: nat, q: nat, r: nat, up: bool)
    requires DividesInto(a, total, q, r) && (up ==> r > 0)
    ensures NearShare(a, total, q + if up then 1 else 0)
  {
    Distributes(total, q, if up then 1 else 0);
    var c: nat := q + if up then 1 else 0;
    assert c * total == total * c;
  }

  /** Fair counts: they sum to the request, each is within less than 1 of its share, and they
      are rounded up in order of the fractions. */
  ghost predicate Fair(nums: seq<nat>, total: nat, floors: seq<nat>, fracs: seq<nat>, counts: seq<nat>, count: nat) {
    && |counts| == |nums| == |floors| == |fracs| && Sum(counts) == count
    && (forall i :: 0 <= i < |counts| ==> floors[i] <= counts[i] <= floors[i] + 1)
    && (forall i {:trigger NearShare(nums[i], total, counts[i])} ::
          0 <= i < |counts| ==> NearShare(nums[i], total, counts[i]))
    && InOrder(floors, fracs, counts)
  }

  lemma DescendsPast(fracs: seq<nat>, order: seq<nat>, k: nat, i: nat, j: nat)
    requires Indices(fracs, order) && Descending(fracs, order) && k <= |order|
    requires i in order && i !in order[..k] && j in order[..k]
    ensures i < |fracs| && j < |fracs| && fracs[i] <= fracs[j]
  {
    var b :| 0 <= b < k && order[..k][b] == j;
    var a :| 0 <= a < |order| && order[a] == i;
    assert forall c :: 0 <= c < k ==> order[..k][c] == order[c];
  }

  lemma OneIsFair(nums: seq<nat>, total: nat, floors: seq<nat>, fracs: seq<nat>, order: seq<nat>, k: nat, i: nat)
    requires Divided(nums, total, floors, fracs) && total > 0 && i < |nums|
    requires Indices(fracs, order) && Descending(fracs, order) && SumAt(fracs, order) == k * total && k <= |order|
    ensures NearShare(nums[i], total, Counts(floors, order, k)[i])
  {
    FracsBelow(nums, total, floors, fracs);
    assert DividesInto(nums[i], total, floors[i], fracs[i]);
    if i in order[..k] {
      var j :| 0 <= j < k && order[..k][j] == i;
      RoundedUpHasFraction(fracs, order, k, total, j);
    }
    NearQuotient(nums[i], total, floors[i], fracs[i], i in order[..k]);
  }

  lemma {:induction false} AllNearShares(nums: seq<nat>, total: nat, floors: seq<nat>, fracs: seq<nat>,
                                         order: seq<nat>, k: nat, counts: seq<nat>)
    requires Divided(nums, total, floors, fracs) && total > 0
    requires Indices(fracs, order) && Descending(fracs, order) && SumAt(fracs, order) == k * total && k <= |order|
    requires counts == Counts(floors, order, k)
    ensures forall i {:trigger NearShare(nums[i], total, counts[i])} ::
              0 <= i < |counts| ==> NearShare(nums[i], total, counts[i])
  {
    forall i | 0 <= i < |counts| ensures NearShare(nums[i], total, counts[i]) {
      OneIsFair(nums, total, floors, fracs, order, k, i);
    }
  }

  /** No share is rounded down while one with a smaller fraction is rounded up. */
  ghost predicate InOrder(floors: seq<nat>, fracs: seq<nat>, counts: seq<nat>)
    requires |counts| == |floors| == |fracs|
  {
    forall i, j :: 0 <= i < |counts| && 0 <= j < |counts| && counts[i] == floors[i] && counts[j] > floors[j] ==>
                     fracs[i] <= fracs[j]
  }

  lemma {:induction false} RoundedInOrder(floors: seq<nat>, fracs: seq<nat>, order: seq<nat>, k: nat, counts: seq<nat>)
    requires |floors| == |fracs| && k <= |order| && counts == Counts(floors, order, k)
    requires Indices(fracs, order) && Descending(fracs, order) && forall y :: y in order <==> 0 <= y < |fracs|
    ensures InOrder(floors, fracs, counts)
  {
    forall i, j | 0 <= i < |counts| && 0 <= j < |counts| && counts[i] == floors[i] && counts[j] > floors[j]
      ensures fracs[i] <= fracs[j]
    {
      DescendsPast(fracs, order, k, i, j);
    }
  }

  lemma {:induction false} CountsAreFair(nums: seq<nat>, total: nat, floors: seq<nat>, fracs: seq<nat>, count: nat)
    requires Divided(nums, total, floors, fracs) && total > 0 && nums != [] && Sum(nums) == count * total
    ensures 0 <= count - Sum(floors) < |nums| == |Order(fracs, 0)|
    ensures Fair(nums, total, floors, fracs, Counts(floors, Order(fracs, 0), count - Sum(floors)), count)
  {
    var order := Order(fracs, 0);
    LeftOver(nums, total, floors, fracs, count);
    OrderFacts(fracs, order);
    var k := count - Sum(floors);
    var counts := Counts(floors, order, k);
    SumCounts(floors, order, k);
    AllNearShares(nums, total, floors, fracs, order, k, counts);
    RoundedInOrder(floors, fracs, order, k, counts);
  }

  // -- the loops --

  lemma {:induction false} SumSnoc(s: seq<nat>, x: nat)
    ensures Sum(s + [x]) == Sum(s) + x
  {
    if s == [] {
      assert ([] + [x])[1..] == [];
    } else {
      SumSnoc(s[1..], x);
      assert (s + [x])[1..] == s[1..] + [x];
    }
  }

  lemma FactorSum(count: nat, done: nat, weight: nat)
    ensures count * (done + weight) == count * done + count * weight
  {
  }

  lemma QuotientAndRest(a: nat, total: nat)
    requires total > 0
    ensures DividesInto(a, total, a / total, a % total)
  {
  }

  lemma DividedSnoc(nums: seq<nat>, total: nat, floors: seq<nat>, fracs: seq<nat>, a: nat, q: nat, r: nat)
    requires Divided(nums, total, floors, fracs) && DividesInto(a, total, q, r)
    ensures Divided(nums + [a], total, floors + [q], fracs + [r])
  {
    forall i | 0 <= i < |nums| + 1
      ensures DividesInto((nums + [a])[i], total, (floors + [q])[i], (fracs + [r])[i])
    {
      if i < |nums| {
        assert DividesInto(nums[i], total, floors[i], fracs[i]);
      }
    }
  }

  /** The shares of a request: numerators, floors and fractions over the total weight. */
  method Shares(count: nat, weights: seq<nat>, total: nat) returns (nums: seq<nat>, floors: seq<nat>, fracs: seq<nat>)
    requires total > 0
    ensures Divided(nums, total, floors, fracs) && Sum(nums) == count * Sum(weights)
    ensures |nums| == |weights| && forall i :: 0 <= i < |nums| ==> nums[i] == count * weights[i]
  {
    nums, floors, fracs := [], [], [];
    for n := 0 to |weights|
      invariant |nums| == n && Divided(nums, total, floors, fracs)
      invariant Sum(nums) == count * Sum(weights[..n])
      invariant forall i :: 0 <= i < n ==> nums[i] == count * weights[i]
    {
      var a: nat := count * weights[n];
      QuotientAndRest(a, total);
      DividedSnoc(nums, total, floors, fracs, a, a / total, a % total);
      SumSnoc(nums, a);
      SumSnoc(weights[..n], weights[n]);
      FactorSum(count, Sum(weights[..n]), weights[n]);
      assert weights[..n + 1] == weights[..n] + [weights[n]];
      nums, floors, fracs := nums + [a], floors + [a / total], fracs + [a % total];
    }
    assert weights[..|weights|] == weights;
  }

  /** The remaining ones go to the entries in order of their fractions, in place. */
  method HandOut(floors: seq<nat>, order: seq<nat>, remaining: nat, counts: array<nat>)
    requires Distinct(order) && (forall i :: 0 <= i < |order| ==> order[i] < |floors|) && remaining <= |order|
    requires counts[..] == floors
    modifies counts
    ensures counts[..] == Counts(floors, order, remaining)
  {
    assert counts[..] == Counts(floors, order, 0);
    for i := 0 to remaining
      invariant counts[..] == Counts(floors, order, i)
    {
      CountsStep(floors, order, i);
      assert i % |order| == i;
      var x := order[i % |order|];
      assert counts[x] == counts[..][x];
      counts[x] := counts[x] + 1;
    }
  }

  /** The counts of a request by largest remainders. */
  method Apportion(count: nat, weights: seq<nat>)
    returns (counts: seq<nat>, nums: seq<nat>, floors: seq<nat>, fracs: seq<nat>)
    requires Sum(weights) > 0
    ensures |nums| == |weights| && forall i :: 0 <= i < |nums| ==> nums[i] == count * weights[i]
    ensures Divided(nums, Sum(weights), floors, fracs)
    ensures Fair(nums, Sum(weights), floors, fracs, counts, count)
  {
    nums, floors, fracs := Shares(count, weights, Sum(weights));
    CountsAreFair(nums, Sum(weights), floors, fracs, count);
    var order := Order(fracs, 0);
    OrderFacts(fracs, order);
    var a := new nat[|floors|](i requires 0 <= i < |floors| => floors[i]);
    assert a[..] == floors;
    HandOut(floors, order, count - Sum(floors), a);
    counts := a[..];
  }
}
