/** buildScenarioPlan and the vehicle pool of the generator's main loop. */
module ScenarioPlan {
  import opened Prelude
  import opened Random
  import opened Apportionment
  import L = LineItems
  import LineItemRange

  datatype Scenario =
    | RoutineMaintenance | HighDollarDiagnostic | WarrantyRepair | MultiLineMajorRepair | PiiInSemantic | RepeatVisit

  const SCENARIOS: seq<Scenario> :=
    [RoutineMaintenance, HighDollarDiagnostic, WarrantyRepair, MultiLineMajorRepair, PiiInSemantic, RepeatVisit]

  /** SCENARIO_DISTRIBUTION, in the same order. */
  const WEIGHTS: seq<nat> := [300, 150, 150, 200, 100, 100]
  const TOTAL_WEIGHT := 1000

  datatype PlanError = TooFew | CountInvalid(scenario: Scenario)

  datatype Plan = Plan(items: seq<Scenario>, counts: seq<nat>)

  lemma WeightsSum()
    ensures Sum(WEIGHTS) == TOTAL_WEIGHT
  {
    SumOfSix(WEIGHTS);
  }

  lemma SumOfSix(s: seq<nat>)
    requires |s| == 6
    ensures Sum(s) == s[0] + s[1] + s[2] + s[3] + s[4] + s[5]
  {
    assert Sum(s) == s[0] + Sum(s[1..]);
    assert Sum(s[1..]) == s[1] + Sum(s[2..]) by { assert s[1..][1..] == s[2..]; }
    assert Sum(s[2..]) == s[2] + Sum(s[3..]) by { assert s[2..][1..] == s[3..]; }
    assert Sum(s[3..]) == s[3] + Sum(s[4..]) by { assert s[3..][1..] == s[4..]; }
    assert Sum(s[4..]) == s[4] + Sum(s[5..]) by { assert s[4..][1..] == s[5..]; }
    assert Sum(s[5..]) == s[5] + Sum(s[6..]) by { assert s[5..][1..] == s[6..]; }
  }

  // -- which requests can be served --

  ghost predicate AllPositive(counts: seq<nat>) {
    forall i :: 0 <= i < |counts| ==> counts[i] > 0
  }

  ghost predicate Shipped(nums: seq<nat>, count: nat) {
    |nums| == |WEIGHTS| && forall i :: 0 <= i < |nums| ==> nums[i] == count * WEIGHTS[i]
  }

  lemma ManyAreEnough(nums: seq<nat>, floors: seq<nat>, fracs: seq<nat>, counts: seq<nat>, count: nat)
    requires Fair(nums, TOTAL_WEIGHT, floors, fracs, counts, count) && Shipped(nums, count) && count >= 10
    ensures AllPositive(counts)
  {
    forall i | 0 <= i < |counts| ensures counts[i] > 0 {
      assert NearShare(nums[i], TOTAL_WEIGHT, counts[i]);
      assert WEIGHTS[i] >= 100;
      LargerFactor(10, count, WEIGHTS[i]);
    }
  }

  lemma Quotient(nums: seq<nat>, floors: seq<nat>, fracs: seq<nat>, i: nat, k: nat)
    requires Divided(nums, TOTAL_WEIGHT, floors, fracs) && i < |nums|
    requires TOTAL_WEIGHT * k <= nums[i] < TOTAL_WEIGHT * k + TOTAL_WEIGHT
    ensures floors[i] == k && fracs[i] == nums[i] - TOTAL_WEIGHT * k
  {
    assert DividesInto(nums[i], TOTAL_WEIGHT, floors[i], fracs[i]);
  }

  /** The floors and fractions of a small request, from the whole parts of its shares. */
  lemma SmallRequest(nums: seq<nat>, floors: seq<nat>, fracs: seq<nat>, whole: seq<nat>, count: nat)
    requires Divided(nums, TOTAL_WEIGHT, floors, fracs) && Shipped(nums, count) && |whole| == |WEIGHTS|
    requires forall i :: 0 <= i < |WEIGHTS| ==> 0 <= count * WEIGHTS[i] - TOTAL_WEIGHT * whole[i] < TOTAL_WEIGHT
    ensures floors == whole && |fracs| == |WEIGHTS|
    ensures forall i :: 0 <= i < |WEIGHTS| ==> fracs[i] == count * WEIGHTS[i] - TOTAL_WEIGHT * whole[i]
  {
    forall i | 0 <= i < |WEIGHTS|
      ensures floors[i] == whole[i] && fracs[i] == count * WEIGHTS[i] - TOTAL_WEIGHT * whole[i]
    {
      Quotient(nums, floors, fracs, i, whole[i]);
    }
  }

  lemma SixLeavesOneOut(nums: seq<nat>, floors: seq<nat>, fracs: seq<nat>, counts: seq<nat>)
    requires Divided(nums, TOTAL_WEIGHT, floors, fracs)
    requires Fair(nums, TOTAL_WEIGHT, floors, fracs, counts, 6) && Shipped(nums, 6)
    ensures !AllPositive(counts)
  {
    SmallRequest(nums, floors, fracs, [1, 0, 0, 1, 0, 0], 6);
    assert fracs == [800, 900, 900, 200, 600, 600];
    SumOfSix(counts);
  }

  lemma {:induction false} SevenToNineParts(nums: seq<nat>, floors: seq<nat>, fracs: seq<nat>, count: nat)
    requires Divided(nums, TOTAL_WEIGHT, floors, fracs) && 7 <= count < 10 && Shipped(nums, count)
    ensures floors == [2, 1, 1, 1, 0, 0] && |fracs| == 6
    ensures fracs[4] == fracs[5] == 100 * count && forall j :: 0 <= j < 4 ==> fracs[j] < 100 * count
  {
    SmallRequest(nums, floors, fracs, [2, 1, 1, 1, 0, 0], count);
  }

  lemma SevenToNineServe(nums: seq<nat>, floors: seq<nat>, fracs: seq<nat>, counts: seq<nat>, count: nat)
    requires Divided(nums, TOTAL_WEIGHT, floors, fracs) && 7 <= count < 10
    requires Fair(nums, TOTAL_WEIGHT, floors, fracs, counts, count) && Shipped(nums, count)
    ensures AllPositive(counts)
  {
    SevenToNineParts(nums, floors, fracs, count);
    LargestServed(floors, fracs, counts, 4);
    LargestServed(floors, fracs, counts, 5);
    SumOfSix(counts);
    assert counts[4] > 0 && counts[5] > 0;
  }

  /** A share whose fraction exceeds the first four is rounded up before any of these. */
  lemma LargestServed(floors: seq<nat>, fracs: seq<nat>, counts: seq<nat>, i: nat)
    requires |floors| == |fracs| == |counts| == 6 && 4 <= i < 6 && forall j :: 0 <= j < 4 ==> fracs[j] < fracs[i]
    requires forall j :: 0 <= j < 6 ==> floors[j] <= counts[j] <= floors[j] + 1
    requires forall j, k :: 0 <= j < 6 && 0 <= k < 6 && counts[j] == floors[j] && counts[k] > floors[k] ==>
                              fracs[j] <= fracs[k]
    ensures counts[i] == floors[i] ==> forall j :: 0 <= j < 4 ==> counts[j] == floors[j]
  {
  }

  /** A request of 6 leaves a scenario out, although it is not less than the number of
      scenarios; from 7 on every scenario gets its turn. */
  lemma ServedFromSeven(nums: seq<nat>, floors: seq<nat>, fracs: seq<nat>, counts: seq<nat>, count: nat)
    requires Divided(nums, TOTAL_WEIGHT, floors, fracs)
    requires Fair(nums, TOTAL_WEIGHT, floors, fracs, counts, count) && Shipped(nums, count) && count >= 6
    ensures AllPositive(counts) <==> count >= 7
  {
    if count >= 10 {
      ManyAreEnough(nums, floors, fracs, counts, count);
    } else if count >= 7 {
      SevenToNineServe(nums, floors, fracs, counts, count);
    } else {
      SixLeavesOneOut(nums, floors, fracs, counts);
    }
  }

  // -- the plan --

  function Repeated(s: Scenario, n: nat): (r: seq<Scenario>)
    ensures |r| == n && forall i :: 0 <= i < n ==> r[i] == s
  {
    seq(n, i => s)
  }

  /** Every scenario as often as it counts, the first n of them. */
  function Expanded(counts: seq<nat>, n: nat): seq<Scenario>
    requires n <= |counts| == |SCENARIOS|
  {
    if n == 0 then [] else Expanded(counts, n - 1) + Repeated(SCENARIOS[n - 1], counts[n - 1])
  }

  lemma {:induction false} RepeatedCounts(s: Scenario, n: nat, x: Scenario)
    ensures multiset(Repeated(s, n))[x] == if s == x then n else 0
    decreases n
  {
    if n > 0 {
      RepeatedCounts(s, n - 1, x);
      assert Repeated(s, n) == Repeated(s, n - 1) + [s];
    }
  }

  lemma {:induction false} ExpandedCounts(counts: seq<nat>, n: nat, i: nat)
    requires n <= |counts| == |SCENARIOS| && i < |counts|
    ensures multiset(Expanded(counts, n))[SCENARIOS[i]] == if i < n then counts[i] else 0
    decreases n
  {
    if n > 0 {
      ExpandedCounts(counts, n - 1, i);
      RepeatedCounts(SCENARIOS[n - 1], counts[n - 1], SCENARIOS[i]);
      assert SCENARIOS[i] == SCENARIOS[n - 1] ==> i == n - 1;
    }
  }

  lemma {:induction false} ExpandedLength(counts: seq<nat>, n: nat)
    requires n <= |counts| == |SCENARIOS|
    ensures |Expanded(counts, n)| == Sum(counts[..n])
    decreases n
  {
    if n > 0 {
      ExpandedLength(counts, n - 1);
      SumSnoc(counts[..n - 1], counts[n - 1]);
      assert counts[..n] == counts[..n - 1] + [counts[n - 1]];
    }
  }

  method ListScenarios(counts: seq<nat>) returns (list: seq<Scenario>)
    requires |counts| == |SCENARIOS|
    ensures list == Expanded(counts, |counts|)
  {
    list := [];
    for n := 0 to |SCENARIOS|
      invariant list == Expanded(counts, n)
    {
      for i := 0 to counts[n]
        invariant list == Expanded(counts, n) + Repeated(SCENARIOS[n], i)
      {
        list := list + [SCENARIOS[n]];
      }
    }
  }

  /** A plan holds each scenario as often as it counts, and does not begin with a repeat visit. */
  ghost predicate PlanFits(plan: Plan, count: nat) {
    && |plan.items| == count == Sum(plan.counts) && |plan.counts| == |SCENARIOS|
    && (forall i :: 0 <= i < |SCENARIOS| ==> multiset(plan.items)[SCENARIOS[i]] == plan.counts[i] > 0)
    && plan.items[0] != RepeatVisit
  }

  /** Each count is within less than 1 of its exact share of the request. */
  ghost predicate CountsAreNear(counts: seq<nat>, count: nat) {
    |counts| == |WEIGHTS| &&
    forall i :: 0 <= i < |counts| ==> -TOTAL_WEIGHT < TOTAL_WEIGHT * counts[i] - count * WEIGHTS[i] < TOTAL_WEIGHT
  }

  lemma FairIsNear(nums: seq<nat>, floors: seq<nat>, fracs: seq<nat>, counts: seq<nat>, count: nat)
    requires Fair(nums, TOTAL_WEIGHT, floors, fracs, counts, count) && Shipped(nums, count)
    ensures CountsAreNear(counts, count)
  {
    forall i | 0 <= i < |counts|
      ensures -TOTAL_WEIGHT < TOTAL_WEIGHT * counts[i] - count * WEIGHTS[i] < TOTAL_WEIGHT
    {
      assert NearShare(nums[i], TOTAL_WEIGHT, counts[i]);
    }
  }

  method CheckCounts(counts: seq<nat>) returns (e: Option<PlanError>)
    requires |counts| == |SCENARIOS|
    ensures e == None <==> AllPositive(counts)
    ensures e.Some? ==> e.value.CountInvalid?
  {
    for i := 0 to |counts|
      invariant forall j :: 0 <= j < i ==> counts[j] > 0
    {
      if counts[i] <= 0 {
        return Some(CountInvalid(SCENARIOS[i]));
      }
    }
    return None;
  }

  /** Puts the first scenario that is no repeat visit in front. */
  method MoveRepeatVisit(items: array<Scenario>)
    requires items.Length > 0
    modifies items
    ensures multiset(items[..]) == multiset(old(items[..]))
    ensures items[0] == RepeatVisit ==> forall i :: 0 <= i < items.Length ==> items[i] == RepeatVisit
    ensures old(items[0]) != RepeatVisit ==> items[..] == old(items[..])
  {
    if items[0] == RepeatVisit {
      var swapIndex := 0;
      while swapIndex < items.Length && items[swapIndex] == RepeatVisit
        invariant 0 <= swapIndex <= items.Length
        invariant forall i :: 0 <= i < swapIndex ==> items[i] == RepeatVisit
      {
        swapIndex := swapIndex + 1;
      }
      if swapIndex < items.Length {
        SwapKeepsElements(items[..], 0, swapIndex);
        SwapCells(items, 0, swapIndex);
      }
    }
  }

  lemma OthersInPlan(items: seq<Scenario>, counts: seq<nat>)
    requires |counts| == |SCENARIOS| && AllPositive(counts) && multiset(items)[RoutineMaintenance] == counts[0]
    ensures !(forall i :: 0 <= i < |items| ==> items[i] == RepeatVisit)
  {
    assert RoutineMaintenance in multiset(items);
    assert RoutineMaintenance in items;
    var i :| 0 <= i < |items| && items[i] == RoutineMaintenance;
  }

  lemma SameLength<T>(a: seq<T>, b: seq<T>)
    requires multiset(a) == multiset(b)
    ensures |a| == |b|
  {
    assert |multiset(a)| == |a| && |multiset(b)| == |b|;
  }

  lemma {:induction false} PlanKeepsCounts(items: seq<Scenario>, counts: seq<nat>)
    requires |counts| == |SCENARIOS| && AllPositive(counts) && multiset(items) == multiset(Expanded(counts, |counts|))
    ensures forall i :: 0 <= i < |SCENARIOS| ==> multiset(items)[SCENARIOS[i]] == counts[i]
    ensures !(forall i :: 0 <= i < |items| ==> items[i] == RepeatVisit)
  {
    forall i | 0 <= i < |SCENARIOS| ensures multiset(items)[SCENARIOS[i]] == counts[i] {
      ExpandedCounts(counts, |counts|, i);
    }
    assert SCENARIOS[0] == RoutineMaintenance;
    OthersInPlan(items, counts);
  }

  method ArrangePlan(list: seq<Scenario>, counts: seq<nat>, rng: Rng) returns (items: seq<Scenario>)
    requires rng.Valid() && |counts| == |SCENARIOS| && AllPositive(counts) && list == Expanded(counts, |counts|)
    requires list != []
    modifies rng
    ensures rng.Valid() && multiset(items) == multiset(list) && |items| == |list|
    ensures items[0] != RepeatVisit
  {
    var shuffled, picks := rng.Shuffle(list);
    SameLength(shuffled[..], list);
    MoveRepeatVisit(shuffled);
    PlanKeepsCounts(shuffled[..], counts);
    return shuffled[..];
  }

  /** buildScenarioPlan succeeds exactly for requests of at least 7 orders. */
  method BuildScenarioPlan(count: int, rng: Rng) returns (r: Result<Plan, PlanError>)
    requires rng.Valid()
    modifies rng
    ensures rng.Valid()
    ensures r.Ok? <==> count >= 7
    ensures r == Err(TooFew) <==> count < 6
    ensures r.Ok? ==> PlanFits(r.value, count) && CountsAreNear(r.value.counts, count)
  {
    if count < |SCENARIOS| {
      return Err(TooFew);
    }
    WeightsSum();
    var counts, nums, floors, fracs := Apportion(count, WEIGHTS);
    ServedFromSeven(nums, floors, fracs, counts, count);
    FairIsNear(nums, floors, fracs, counts, count);
    var e := CheckCounts(counts);
    if e.Some? {
      return Err(e.value);
    }
    var list := ListScenarios(counts);
    ExpandedLength(counts, |counts|);
    assert counts[..|counts|] == counts;
    var items := ArrangePlan(list, counts, rng);
    PlanKeepsCounts(items, counts);
    return Ok(Plan(items, counts));
  }

  // -- the vehicles --

  datatype Vehicle = Vehicle(vin: string, profile: string)

  datatype VinError = NoPriorVins | NoPriorProfile

  /** The vehicle of order i is its own, or, on a repeat visit, that of an earlier order which
      is none. */
  ghost predicate VehicleFits(plan: seq<Scenario>, made: seq<Vehicle>, i: nat, vehicle: Vehicle)
    requires i < |plan| == |made|
  {
    if plan[i] == RepeatVisit then exists j :: 0 <= j < i && plan[j] != RepeatVisit && vehicle == made[j]
    else vehicle == made[i]
  }

  /** The VIN pool of main, with `made` the vehicles as they are generated: neither error is
      raised exactly when the plan does not begin with a repeat visit. */
  method ChooseVehicles(plan: seq<Scenario>, made: seq<Vehicle>, rng: Rng) returns (r: Result<seq<Vehicle>, VinError>)
    requires |made| == |plan| && rng.Valid()
    modifies rng
    ensures rng.Valid()
    ensures r.Ok? <==> plan == [] || plan[0] != RepeatVisit
    ensures r.Err? ==> r.error == NoPriorVins
    ensures r.Ok? ==> |r.value| == |plan| && forall i :: 0 <= i < |plan| ==> VehicleFits(plan, made, i, r.value[i])
  {
    var vinPool: seq<string> := [];
    var vehicleByVin: map<string, Vehicle> := map[];
    var chosen: seq<Vehicle> := [];
    for i := 0 to |plan|
      invariant rng.Valid() && |chosen| == i && forall k :: 0 <= k < i ==> VehicleFits(plan, made, k, chosen[k])
      invariant i > 0 ==> plan[0] != RepeatVisit && vinPool != []
      invariant i == 0 ==> vinPool == []
      invariant forall v :: v in vinPool ==> v in vehicleByVin
      invariant forall v :: v in vehicleByVin ==>
                              exists j :: 0 <= j < i && plan[j] != RepeatVisit && vehicleByVin[v] == made[j]
    {
      var vehicle := made[i];
      if plan[i] == RepeatVisit {
        if vinPool == [] {
          return Err(NoPriorVins);
        }
        var selectedVin := rng.Pick(vinPool);
        if selectedVin.value !in vehicleByVin {
          return Err(NoPriorProfile);
        }
        vehicle := vehicleByVin[selectedVin.value];
      } else {
        vinPool := vinPool + [vehicle.vin];
        vehicleByVin := vehicleByVin[vehicle.vin := vehicle];
      }
      chosen := chosen + [vehicle];
    }
    return Ok(chosen);
  }

  // -- the shipped parameters --

  /** SCENARIO_PARAMS, in hundredths. */
  function ParamsOf(s: Scenario): L.Params {
    match s
    case RoutineMaintenance => L.Params((1, 1), (0, 1), (50, 100), (15000, 30000), false)
    case HighDollarDiagnostic => L.Params((1, 1), (0, 1), (600, 1000), (150000, 300000), false)
    case WarrantyRepair => L.Params((1, 2), (1, 2), (100, 400), (0, 5000), true)
    case MultiLineMajorRepair => L.Params((3, 5), (1, 4), (800, 2500), (300000, 800000), false)
    case PiiInSemantic => L.Params((1, 2), (0, 2), (50, 250), (20000, 90000), false)
    case RepeatVisit => L.Params((1, 2), (0, 2), (50, 250), (20000, 90000), false)
  }

  lemma ShippedParamsAreValid(s: Scenario)
    ensures L.ValidParams(ParamsOf(s))
  {
  }

  /** The scenarios whose parts can come to more than the top of their range. */
  predicate Dear(s: Scenario) {
    s == MultiLineMajorRepair || s == PiiInSemantic || s == RepeatVisit
  }

  lemma DearMeetCondition(s: Scenario)
    ensures LineItemRange.CanGiveUp(ParamsOf(s)) <==> Dear(s)
  {
    var p := ParamsOf(s);
    assert Dear(s) ==> p.laborLines.0 <= p.laborLines.1 && LineItemRange.CountCanGiveUp(p, p.laborLines.1);
  }
}
