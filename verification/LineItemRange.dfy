/** When some draws make buildLineItems stop because no grand total in range can be reached. */
module LineItemRange {
  import opened Prelude
  import opened Random
  import opened LineItems
  import opened LineItemLaws

  /** The dearest a part can be. */
  const PART_CEILING := MAX_QUANTITY * MAX_PRICE

  /** The largest number of parts on n labor lines. */
  function MostParts(p: Params, n: int): int {
    n * Max(p.partsPerLabor.1, 0)
  }

  /** With n labor lines: the most labor alone exceeds the range, or the most labor that stays
      below its top exceeds it together with the dearest parts but one. */
  predicate CountCanGiveUp(p: Params, n: int) {
    var top := p.totalRange.1;
    var least, most := Clamped(p.hoursRange.0, n), Clamped(p.hoursRange.1, n);
    var below := Min(most, (top - 1) / RATE);
    || RATE * most > top + 1
    || (least <= below && RATE * below + PART_CEILING * (MostParts(p, n) - 1) > top + 1)
  }

  /** A condition on the parameters alone. */
  predicate CanGiveUp(p: Params) {
    !p.warranty && exists n :: p.laborLines.0 <= n <= p.laborLines.1 && CountCanGiveUp(p, n)
  }

  // -- draws that give up meet the condition --

  lemma {:induction false} PartPriceBound(p: PartLine)
    requires PartIsDrawn(p)
    ensures 0 < p.extended <= PART_CEILING
  {
    assert p.quantity == 1 || p.quantity == 2;
  }

  lemma {:induction false} PartsTotalBound(parts: seq<PartLine>)
    requires PartsAreDrawn(parts)
    ensures 0 <= PartsTotal(parts) <= PART_CEILING * |parts|
    decreases |parts|
  {
    if parts != [] {
      PartsTotalBound(parts[..|parts| - 1]);
      PartPriceBound(parts[|parts| - 1]);
    }
  }

  lemma {:induction false} StuckNeedsCondition(p: Params, n: int, total: int, parts: seq<PartLine>, target: int)
    requires PartsAreDrawn(parts) && |parts| <= MostParts(p, n) && target <= p.totalRange.1
    requires Clamped(p.hoursRange.0, n) <= total <= Clamped(p.hoursRange.1, n)
    requires CannotFit(parts, RATE * total, p.totalRange, target)
    ensures CountCanGiveUp(p, n)
  {
    if RATE * total <= p.totalRange.1 + 1 {
      PartsTotalBound(parts[..|parts| - 1]);
    }
  }

  lemma {:induction false} ClampedBetween(low: int, hours: int, high: int, n: int)
    requires low <= hours <= high
    ensures Clamped(low, n) <= Clamped(hours, n) <= Clamped(high, n)
  {
  }

  /** Lines that were drawn stop the closing only under the condition. */
  lemma {:induction false} ClosingNeedsCondition(d: Draws, w: Work, n: int, total: int, params: Params,
                                                 templates: Templates)
    requires Proper(d) && ValidParams(params) && WorkIsDrawn(w, n, total, params)
    requires Clamped(params.hoursRange.0, n) <= total <= Clamped(params.hoursRange.1, n)
    requires ClosedAt(d, w, params, templates) == Err(OutOfRange)
    ensures !params.warranty && CountCanGiveUp(params, n)
  {
    FittedFits(d, w.next, templates, w.parts, n, LaborTotal(w.labor), params.totalRange);
    StuckNeedsCondition(params, n, total, w.parts, d.float(w.next, params.totalRange.0, params.totalRange.1));
  }

  lemma {:induction false} HoursNeedCondition(d: Draws, i: nat, m: Maker, params: Params, templates: Templates,
                                              hours: seq<int>)
    requires Proper(d) && ValidParams(params) && Makes(m, params.partsPerLabor.1, Filled(templates))
    requires EndsFrom(m, d, params, templates) && WithinLine(hours) && hours != []
    requires Clamped(params.hoursRange.0, |hours|) <= Sum(hours) <= Clamped(params.hoursRange.1, |hours|)
    requires BuiltOn(m, i, hours) == Err(OutOfRange)
    ensures !params.warranty && CountCanGiveUp(params, |hours|)
  {
    var w := BuiltOnFits(d, i, m, params, templates, hours);
    ClosingNeedsCondition(d, w, |hours|, Sum(hours), params, templates);
  }

  lemma {:induction false} GivingUpNeedsCondition(d: Draws, i: nat, m: Maker, params: Params, templates: Templates)
    requires Proper(d) && ValidParams(params) && Makes(m, params.partsPerLabor.1, Filled(templates))
    requires EndsFrom(m, d, params, templates)
    requires BuiltBy(m, i) == Err(OutOfRange)
    ensures CanGiveUp(params)
  {
    HoursFit(d, i, params);
    var hours := HoursAt(d, i, params).value;
    ClampedBetween(params.hoursRange.0, d.float(i + 1, params.hoursRange.0, params.hoursRange.1), params.hoursRange.1,
                   |hours|);
    HoursNeedCondition(d, i + 1 + Max(|hours|, 1), m, params, templates, hours);
  }

  /** Whatever the draws, the builder gives up only under the condition. */
  lemma {:induction false} GivingUpMeans(d: Draws, i: nat, params: Params, templates: Templates)
    requires Proper(d) && ValidParams(params)
    ensures Built(d, i, params, templates) == Err(OutOfRange) ==> CanGiveUp(params)
  {
    if Built(d, i, params, templates) == Err(OutOfRange) {
      MakerOfMakes(d, params, templates);
      GivingUpNeedsCondition(d, i, MakerOf(d, params, templates), params, templates);
    }
  }

  // -- draws for parameters that meet it --

  /** From draw `from` on every draw is as high as it can be. */
  ghost predicate High(d: Draws, p: Params, from: nat) {
    && (forall i :: i >= from ==> d.integer(i, p.partsPerLabor.0, p.partsPerLabor.1) == p.partsPerLabor.1)
    && (forall i :: i >= from ==> d.integer(i, 1, MAX_QUANTITY) == MAX_QUANTITY)
    && (forall i :: i >= from ==> d.float(i, MIN_PRICE, MAX_PRICE) == MAX_PRICE)
    && (forall i :: i >= from ==> d.float(i, p.totalRange.0, p.totalRange.1) == p.totalRange.1)
  }

  /** From draw `from` on every line gets the most and the dearest parts. */
  ghost predicate MakesDear(m: Maker, most: int, from: nat) {
    && (forall i: nat :: i >= from ==> m.count(i) == most)
    && (forall i: nat, labor: int, index: int :: i >= from && m.part(i, labor, index).Ok? ==>
          m.part(i, labor, index).value.extended == PART_CEILING)
  }

  lemma {:induction false} HighPart(d: Draws, templates: Templates, i: nat, labor: int, index: int)
    requires d.integer(i, 1, MAX_QUANTITY) == MAX_QUANTITY && d.float(i + 1, MIN_PRICE, MAX_PRICE) == MAX_PRICE
    ensures
      var part := PartAt(d, i, templates, labor, index);
      part.Ok? ==> part.value.extended == PART_CEILING
  {
  }

  lemma {:induction false} HighMakesDear(d: Draws, params: Params, templates: Templates, from: nat)
    requires High(d, params, from)
    ensures MakesDear(MakerOf(d, params, templates), params.partsPerLabor.1, from)
  {
    var m := MakerOf(d, params, templates);
    forall i: nat, labor: int, index: int | i >= from && m.part(i, labor, index).Ok?
      ensures m.part(i, labor, index).value.extended == PART_CEILING
    {
      assert d.integer(i, 1, MAX_QUANTITY) == MAX_QUANTITY && d.float(i + 1, MIN_PRICE, MAX_PRICE) == MAX_PRICE;
      HighPart(d, templates, i, labor, index);
    }
  }

  ghost predicate AllDear(parts: seq<PartLine>) {
    forall i :: 0 <= i < |parts| ==> parts[i].extended == PART_CEILING
  }

  lemma {:induction false} DearTotal(parts: seq<PartLine>)
    requires AllDear(parts)
    ensures PartsTotal(parts) == PART_CEILING * |parts|
    decreases |parts|
  {
    if parts != [] {
      DearTotal(parts[..|parts| - 1]);
    }
  }

  lemma {:induction false} DearParts(m: Maker, most: int, from: nat, i: nat, labor: int, parts: seq<PartLine>, p: nat,
                                     count: int)
    requires Makes(m, most, true) && MakesDear(m, most, from) && i >= from && AllDear(parts)
    ensures
      var r := PartsAt(m, i, labor, parts, p, count);
      r.Ok? && AllDear(r.value) && |r.value| == |parts| + Max(count - p, 0)
    decreases count - p
  {
    if p < count {
      var part := m.part(i, labor, p + 1);
      assert PartIsMade(part, labor, p + 1, true);
      DearParts(m, most, from, i + PART_DRAWS, labor, parts + [part.value], p + 1, count);
    }
  }

  lemma {:induction false} DearLines(m: Maker, most: int, from: nat, w: Work, hours: seq<int>)
    requires Makes(m, most, true) && MakesDear(m, most, from) && w.next >= from
    requires |w.labor| <= |hours| && AllDear(w.parts) && |w.parts| == |w.labor| * Max(most, 0)
    ensures
      var r := Lines(m, w, hours);
      r.Ok? && AllDear(r.value.parts) && |r.value.parts| == |hours| * Max(most, 0) && r.value.next >= from
    decreases |hours| - |w.labor|
  {
    if |w.labor| < |hours| {
      var k, i := |w.labor|, w.next + m.lineDraws;
      assert LineIsMade(m.line(w.next, k + 1, hours[k]), k + 1, hours[k], true);
      DearParts(m, most, from, i + 1, k + 1, w.parts, 0, m.count(i));
      OneLineMore(k, Max(most, 0));
      DearLines(m, most, from, NextLine(m, w, hours[k]).value, hours);
    }
  }

  /** The condition for n lines and the total hours drawn. */
  predicate Exceeds(p: Params, n: int, total: int) {
    var top := p.totalRange.1;
    || RATE * total > top + 1
    || (RATE * total < top && RATE * total + PART_CEILING * (MostParts(p, n) - 1) > top + 1)
  }

  lemma {:induction false} DearIsStuck(p: Params, n: int, total: int, parts: seq<PartLine>)
    requires Exceeds(p, n, total) && AllDear(parts) && |parts| == MostParts(p, n)
    ensures Outside(RATE * total + PartsTotal(parts), p.totalRange)
    ensures CannotFit(parts, RATE * total, p.totalRange, p.totalRange.1)
  {
    DearTotal(parts);
    if parts != [] {
      DearTotal(parts[..|parts| - 1]);
    }
  }

  lemma {:induction false} HighGivesUpBy(d: Draws, i: nat, m: Maker, params: Params, templates: Templates)
    requires Proper(d) && ValidParams(params) && Filled(templates) && !params.warranty && High(d, params, i + 2)
    requires Makes(m, params.partsPerLabor.1, true) && MakesDear(m, params.partsPerLabor.1, i + 2)
    requires EndsFrom(m, d, params, templates)
    requires
      var n := d.integer(i, params.laborLines.0, params.laborLines.1);
      Exceeds(params, n, Clamped(d.float(i + 1, params.hoursRange.0, params.hoursRange.1), n))
    ensures BuiltBy(m, i) == Err(OutOfRange)
  {
    HoursFit(d, i, params);
    var hours := HoursAt(d, i, params).value;
    var j := i + 1 + Max(|hours|, 1);
    var w := BuiltOnFits(d, j, m, params, templates, hours);
    DearLines(m, params.partsPerLabor.1, i + 2, Work([], [], j), hours);
    DearIsStuck(params, |hours|, Sum(hours), w.parts);
    FittedFits(d, w.next, templates, w.parts, |hours|, LaborTotal(w.labor), params.totalRange);
  }

  lemma {:induction false} HighGivesUp(d: Draws, i: nat, params: Params, templates: Templates)
    requires Proper(d) && ValidParams(params) && Filled(templates) && !params.warranty && High(d, params, i + 2)
    requires
      var n := d.integer(i, params.laborLines.0, params.laborLines.1);
      Exceeds(params, n, Clamped(d.float(i + 1, params.hoursRange.0, params.hoursRange.1), n))
    ensures Built(d, i, params, templates) == Err(OutOfRange)
  {
    MakerOfMakes(d, params, templates);
    HighMakesDear(d, params, templates, i + 2);
    HighGivesUpBy(d, i, MakerOf(d, params, templates), params, templates);
  }

  // -- fractions for every draw --

  lemma {:induction false} ProperFraction(a: real, b: real)
    requires 0.0 <= a < b
    ensures 0.0 <= a / b < 1.0 && (a / b) * b == a
  {
    var x := a / b;
    assert x * b == a;
    assert x >= 1.0 ==> x * b >= b;
  }

  lemma {:induction false} IntegerReached(min: int, max: int, n: int) returns (x: real)
    requires min <= n <= max
    ensures 0.0 <= x < 1.0 && DrawnInt(x, min, max) == n
  {
    var width := (max - min + 1) as real;
    x := (n - min) as real / width;
    ProperFraction((n - min) as real, width);
  }

  lemma {:induction false} FloatReached(min: int, max: int, n: int) returns (x: real)
    requires min <= n <= max
    ensures 0.0 <= x < 1.0 && Rounded(x, min, max) == n
  {
    var width, part := (max - min) as real, (n - min) as real;
    x := part / (width + 0.5);
    ProperFraction(part, width + 0.5);
    assert x * width == part - 0.5 * x;
  }

  /** A fraction so high that it reaches the top of every range up to the width. */
  function Highest(width: nat): (x: real)
    ensures 0.0 <= x < 1.0
  {
    1.0 - 1.0 / (2 * width + 2) as real
  }

  /** m / (2 * width + 2) is at most a half, and less for m up to the width. */
  lemma {:induction false} HighestTimes(width: nat, m: nat)
    requires m <= width + 1
    ensures m as real - 0.5 <= Highest(width) * m as real
    ensures if m > 0 then Highest(width) * m as real < m as real else Highest(width) * m as real == 0.0
    ensures m <= width ==> m as real - 0.5 < Highest(width) * m as real
  {
    var q, k := (2 * width + 2) as real, m as real;
    var u := 1.0 / q;
    assert u * q == 1.0;
    assert Highest(width) * k == k - u * k;
    assert u * (q * 0.5) == 0.5;
    assert k <= q * 0.5 && (m <= width ==> k < q * 0.5);
    assert u * k <= u * (q * 0.5);
    assert k < q * 0.5 ==> u * k < u * (q * 0.5);
  }

  lemma {:induction false} HighestInteger(width: nat, min: int, max: int)
    requires min <= max <= min + width
    ensures DrawnInt(Highest(width), min, max) == max
  {
    HighestTimes(width, max - min + 1);
  }

  lemma {:induction false} HighestFloat(width: nat, min: int, max: int)
    requires min <= max <= min + width
    ensures Rounded(Highest(width), min, max) == max
  {
    var m := max - min;
    HighestTimes(width, m);
    var y := Highest(width) * m as real;
    assert m as real - 0.5 < y <= m as real && max as real == m as real + min as real;
  }

  /** Every draw as high as it gets, but for the numbers of lines and hours. */
  function HighTape(i: nat, lines: real, hours: real, width: nat): (f: Tape)
    requires 0.0 <= lines < 1.0 && 0.0 <= hours < 1.0
    ensures Fractions(f)
  {
    var top := Highest(width);
    (j: nat) => if j == i then lines else if j == i + 1 then hours else top
  }

  function Width(p: Params): nat
    requires ValidParams(p)
  {
    Max(MAX_PRICE, Max(p.partsPerLabor.1 - p.partsPerLabor.0, p.totalRange.1 - p.totalRange.0))
  }

  lemma {:induction false} HighestIsHigh(f: Tape, p: Params, from: nat, width: nat)
    requires ValidParams(p) && Width(p) <= width && forall j :: j >= from ==> f(j) == Highest(width)
    ensures High(DrawsOf(f), p, from)
  {
    HighestInteger(width, p.partsPerLabor.0, p.partsPerLabor.1);
    HighestInteger(width, 1, MAX_QUANTITY);
    HighestFloat(width, MIN_PRICE, MAX_PRICE);
    HighestFloat(width, p.totalRange.0, p.totalRange.1);
  }

  /** Hours that a clamped total comes from. */
  function Unclamped(total: int, low: int, high: int): int {
    Max(low, Min(total, high))
  }

  lemma {:induction false} UnclampedClamps(total: int, low: int, high: int, n: int)
    requires low <= high && n >= 0 && Clamped(low, n) <= total <= Clamped(high, n)
    ensures low <= Unclamped(total, low, high) <= high && Clamped(Unclamped(total, low, high), n) == total
  {
  }

  /** Hours that exceed, for a number of lines that meets the condition. */
  function ExceedingHours(p: Params, n: int): int {
    var most := Clamped(p.hoursRange.1, n);
    if RATE * most > p.totalRange.1 + 1 then most else Min(most, (p.totalRange.1 - 1) / RATE)
  }

  lemma {:induction false} ConditionExceeds(p: Params, n: int)
    requires ValidParams(p) && n >= 1 && CountCanGiveUp(p, n)
    ensures Clamped(p.hoursRange.0, n) <= ExceedingHours(p, n) <= Clamped(p.hoursRange.1, n)
    ensures Exceeds(p, n, ExceedingHours(p, n))
  {
    ClampedBetween(p.hoursRange.0, p.hoursRange.0, p.hoursRange.1, n);
  }

  /** A tape with given numbers of lines and hours, and all else as high as it gets. */
  lemma {:induction false} TapeReached(i: nat, p: Params, n: int, hours: int) returns (f: Tape)
    requires ValidParams(p) && p.laborLines.0 <= n <= p.laborLines.1 && p.hoursRange.0 <= hours <= p.hoursRange.1
    ensures Fractions(f) && High(DrawsOf(f), p, i + 2)
    ensures DrawsOf(f).integer(i, p.laborLines.0, p.laborLines.1) == n
    ensures DrawsOf(f).float(i + 1, p.hoursRange.0, p.hoursRange.1) == hours
  {
    var x := IntegerReached(p.laborLines.0, p.laborLines.1, n);
    var y := FloatReached(p.hoursRange.0, p.hoursRange.1, hours);
    f := HighTape(i, x, y, Width(p));
    assert f(i) == x && f(i + 1) == y;
    HighestIsHigh(f, p, i + 2, Width(p));
  }

  lemma {:induction false} HoursThatExceed(p: Params, n: int) returns (hours: int)
    requires ValidParams(p) && n >= 1 && CountCanGiveUp(p, n)
    ensures p.hoursRange.0 <= hours <= p.hoursRange.1 && Exceeds(p, n, Clamped(hours, n))
  {
    ConditionExceeds(p, n);
    hours := Unclamped(ExceedingHours(p, n), p.hoursRange.0, p.hoursRange.1);
    UnclampedClamps(ExceedingHours(p, n), p.hoursRange.0, p.hoursRange.1, n);
  }

  lemma {:induction false} TapeThatGivesUp(i: nat, params: Params, templates: Templates) returns (f: Tape)
    requires ValidParams(params) && Filled(templates) && CanGiveUp(params)
    ensures Fractions(f) && Built(DrawsOf(f), i, params, templates) == Err(OutOfRange)
  {
    var n :| params.laborLines.0 <= n <= params.laborLines.1 && CountCanGiveUp(params, n);
    var hours := HoursThatExceed(params, n);
    f := TapeReached(i, params, n, hours);
    DrawsFollow(f);
    DrawsAreProper(DrawsOf(f), f);
    HighGivesUp(DrawsOf(f), i, params, templates);
  }

  /** The builder can stop with GEN_RANGE exactly for parameters that meet the condition: for
      all others it returns a bundle whatever is drawn. */
  lemma {:induction false} GivesUpIff(i: nat, params: Params, templates: Templates)
    requires ValidParams(params) && Filled(templates)
    ensures
      CanGiveUp(params) <==>
      exists f: Tape :: Fractions(f) && Built(DrawsOf(f), i, params, templates) == Err(OutOfRange)
  {
    if CanGiveUp(params) {
      var f := TapeThatGivesUp(i, params, templates);
    }
    forall f: Tape | Fractions(f) && Built(DrawsOf(f), i, params, templates) == Err(OutOfRange)
      ensures CanGiveUp(params)
    {
      DrawsFollow(f);
      DrawsAreProper(DrawsOf(f), f);
      GivingUpMeans(DrawsOf(f), i, params, templates);
    }
  }
}
