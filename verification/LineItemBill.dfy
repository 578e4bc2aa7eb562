/** Exactly which draws make buildLineItems stop: the bill that they lead to, and its target. */
module LineItemBill {
  import opened Prelude
  import opened Random
  import opened LineItems
  import opened LineItemLaws

  // -- the bill --

  /** What counts for the bill: the draws of a labor line, the number of parts that a draw
      gives, and the extended price of the part whose first draw it is. */
  datatype Pricing = Pricing(lineDraws: nat, count: nat -> int, price: nat -> int)

  function PricingOf(d: Draws, params: Params): Pricing {
    Pricing(LaborDraws(params.warranty),
            (i: nat) => d.integer(i, params.partsPerLabor.0, params.partsPerLabor.1),
            (i: nat) => d.float(i + 1, MIN_PRICE, MAX_PRICE) * d.integer(i, 1, MAX_QUANTITY))
  }

  /** The extended prices of parts drawn one after the other. */
  function PricesAt(price: nat -> int, i: nat, count: int): seq<int>
    decreases count
  {
    if count <= 0 then [] else [price(i)] + PricesAt(price, i + PART_DRAWS, count - 1)
  }

  /** Extended prices of all parts, and the next draw. */
  datatype Bill = Bill(prices: seq<int>, next: nat)

  /** The bill of n labor lines from draw i on. */
  function BillAt(p: Pricing, i: nat, n: nat): Bill
    decreases n
  {
    if n == 0 then Bill([], i)
    else
      var j := i + p.lineDraws;
      var count := p.count(j);
      var rest := BillAt(p, j + 1 + PART_DRAWS * Max(count, 0), n - 1);
      Bill(PricesAt(p.price, j + 1, count) + rest.prices, rest.next)
  }

  lemma {:induction false} BillStep(p: Pricing, i: nat, n: nat, j: nat, count: int)
    requires n > 0 && j == i + p.lineDraws && count == p.count(j)
    ensures
      var rest := BillAt(p, j + 1 + PART_DRAWS * Max(count, 0), n - 1);
      BillAt(p, i, n) == Bill(PricesAt(p.price, j + 1, count) + rest.prices, rest.next)
  {
  }

  function Extended(parts: seq<PartLine>): (r: seq<int>)
    ensures |r| == |parts| && forall i :: 0 <= i < |r| ==> r[i] == parts[i].extended
  {
    seq(|parts|, i requires 0 <= i < |parts| => parts[i].extended)
  }

  lemma {:induction false} TotalIsSum(parts: seq<PartLine>)
    ensures PartsTotal(parts) == Sum(Extended(parts))
    decreases |parts|
  {
    if parts != [] {
      var init := parts[..|parts| - 1];
      TotalIsSum(init);
      assert Extended(parts)[..|parts| - 1] == Extended(init);
    }
  }

  lemma {:induction false} OthersIsSum(parts: seq<PartLine>)
    requires parts != []
    ensures OthersTotal(parts) == Sum(Extended(parts)[..|parts| - 1])
  {
    TotalIsSum(parts[..|parts| - 1]);
    assert Extended(parts)[..|parts| - 1] == Extended(parts[..|parts| - 1]);
  }

  // -- the lines have the prices of the bill --

  /** The maker's lines have these prices. */
  ghost predicate Prices(m: Maker, p: Pricing) {
    && m.lineDraws == p.lineDraws && (forall i: nat :: m.count(i) == p.count(i))
    && (forall i: nat, labor: int, index: int :: m.part(i, labor, index).Ok? ==>
          m.part(i, labor, index).value.extended == p.price(i))
  }

  lemma {:induction false} MakerOfPrices(d: Draws, params: Params, templates: Templates)
    ensures Prices(MakerOf(d, params, templates), PricingOf(d, params))
  {
  }

  lemma ExtendedSnoc(parts: seq<PartLine>, part: PartLine)
    ensures Extended(parts + [part]) == Extended(parts) + [part.extended]
  {
  }

  lemma {:induction false} PartsHavePrices(m: Maker, pricing: Pricing, most: int, i: nat, labor: int,
                                           parts: seq<PartLine>, p: nat, count: int)
    requires Makes(m, most, true) && Prices(m, pricing)
    ensures
      var r := PartsAt(m, i, labor, parts, p, count);
      r.Ok? && Extended(r.value) == Extended(parts) + PricesAt(pricing.price, i, count - p)
    decreases count - p
  {
    if p < count {
      var part := m.part(i, labor, p + 1);
      assert PartIsMade(part, labor, p + 1, true);
      PartsHavePrices(m, pricing, most, i + PART_DRAWS, labor, parts + [part.value], p + 1, count);
      ExtendedSnoc(parts, part.value);
    }
  }

  /** One line more, with its prices. */
  ghost predicate LineIsBilled(r: Result<Work, BuildError>, w: Work, pricing: Pricing) {
    var j := w.next + pricing.lineDraws;
    && r.Ok? && |r.value.labor| == |w.labor| + 1
    && Extended(r.value.parts) == Extended(w.parts) + PricesAt(pricing.price, j + 1, pricing.count(j))
    && r.value.next == j + 1 + PART_DRAWS * Max(pricing.count(j), 0)
  }

  lemma {:induction false} NextLinePrices(m: Maker, pricing: Pricing, most: int, w: Work, hours: int)
    requires Makes(m, most, true) && Prices(m, pricing)
    ensures LineIsBilled(NextLine(m, w, hours), w, pricing)
  {
    var k, i := |w.labor|, w.next + m.lineDraws;
    assert LineIsMade(m.line(w.next, k + 1, hours), k + 1, hours, true);
    PartsHavePrices(m, pricing, most, i + 1, k + 1, w.parts, 0, m.count(i));
  }

  lemma Regroup(a: seq<int>, b: seq<int>, c: seq<int>)
    ensures (a + b) + c == a + (b + c)
  {
  }

  /** The lines built behind those before have the prices of the bill. */
  ghost predicate HasBill(r: Result<Work, BuildError>, before: seq<int>, bill: Bill) {
    r.Ok? && Extended(r.value.parts) == before + bill.prices && r.value.next == bill.next
  }

  lemma {:induction false} LinesStep(m: Maker, w: Work, hours: seq<int>)
    requires |w.labor| < |hours| && NextLine(m, w, hours[|w.labor|]).Ok?
    ensures Lines(m, w, hours) == Lines(m, NextLine(m, w, hours[|w.labor|]).value, hours)
  {
  }

  /** One line more on the bill. */
  lemma {:induction false} HasBillStep(r: Result<Work, BuildError>, pricing: Pricing, w: Work, next: Work, n: nat)
    requires n > 0 && LineIsBilled(Ok(next), w, pricing)
    requires HasBill(r, Extended(next.parts), BillAt(pricing, next.next, n - 1))
    ensures HasBill(r, Extended(w.parts), BillAt(pricing, w.next, n))
  {
    var j := w.next + pricing.lineDraws;
    BillStep(pricing, w.next, n, j, pricing.count(j));
    Regroup(Extended(w.parts), PricesAt(pricing.price, j + 1, pricing.count(j)),
            BillAt(pricing, next.next, n - 1).prices);
  }

  lemma {:induction false} LinesHavePrices(m: Maker, pricing: Pricing, most: int, w: Work, hours: seq<int>)
    requires Makes(m, most, true) && Prices(m, pricing) && |w.labor| <= |hours|
    ensures HasBill(Lines(m, w, hours), Extended(w.parts), BillAt(pricing, w.next, |hours| - |w.labor|))
    decreases |hours| - |w.labor|
  {
    if |w.labor| == |hours| {
      assert Extended(w.parts) + [] == Extended(w.parts);
    } else {
      NextLinePrices(m, pricing, most, w, hours[|w.labor|]);
      LinesStep(m, w, hours);
      var next := NextLine(m, w, hours[|w.labor|]).value;
      LinesHavePrices(m, pricing, most, next, hours);
      HasBillStep(Lines(m, next, hours), pricing, w, next, |hours| - |w.labor|);
    }
  }

  // -- which draws stop the builder --

  /** The first draws: number of labor lines and total hours. */
  function LineCount(d: Draws, i: nat, params: Params): nat {
    Max(d.integer(i, params.laborLines.0, params.laborLines.1), 0)
  }

  function TotalHours(d: Draws, i: nat, params: Params): int {
    Clamped(d.float(i + 1, params.hoursRange.0, params.hoursRange.1), LineCount(d, i, params))
  }

  /** No price of the last part brings the total into range. */
  predicate Stuck(laborTotal: int, prices: seq<int>, range: (int, int), target: int) {
    && Outside(laborTotal + Sum(prices), range)
    && (|| laborTotal > range.1 + 1
        || (laborTotal < target && prices != [] && laborTotal + Sum(prices[..|prices| - 1]) > range.1 + 1))
  }

  function BillOf(d: Draws, i: nat, p: Pricing, params: Params): Bill {
    var n := LineCount(d, i, params);
    BillAt(p, i + 1 + n, n)
  }

  /** Labor and bill stop the builder. */
  predicate StopsWith(d: Draws, laborTotal: int, bill: Bill, params: Params) {
    Stuck(laborTotal, bill.prices, params.totalRange,
          d.float(bill.next, params.totalRange.0, params.totalRange.1))
  }

  /** The draws from draw i on stop the builder, at these prices. */
  predicate StopsAt(d: Draws, i: nat, p: Pricing, params: Params) {
    StopsWith(d, RATE * TotalHours(d, i, params), BillOf(d, i, p, params), params)
  }

  /** The draws from draw i on stop the builder. */
  predicate Stops(d: Draws, i: nat, params: Params) {
    StopsAt(d, i, PricingOf(d, params), params)
  }

  lemma {:induction false} StuckIs(parts: seq<PartLine>, laborTotal: int, range: (int, int), target: int)
    ensures
      Stuck(laborTotal, Extended(parts), range, target) <==>
      Outside(laborTotal + PartsTotal(parts), range) && CannotFit(parts, laborTotal, range, target)
  {
    TotalIsSum(parts);
    if parts != [] {
      OthersIsSum(parts);
    }
  }

  /** The lines of the draws, with the prices of their bill. */
  ghost predicate IsBilled(w: Work, laborTotal: int, bill: Bill) {
    && w.labor != [] && LaborTotal(w.labor) == laborTotal && PartLinesFit(w.parts, |w.labor|)
    && PartsAreDrawn(w.parts) && Extended(w.parts) == bill.prices && w.next == bill.next
  }

  lemma {:induction false} ClosedStops(d: Draws, w: Work, params: Params, templates: Templates, laborTotal: int,
                                       bill: Bill)
    requires Proper(d) && ValidParams(params) && Filled(templates) && !params.warranty
    requires IsBilled(w, laborTotal, bill)
    ensures
      ClosedAt(d, w, params, templates) == Err(OutOfRange) <==> StopsWith(d, laborTotal, bill, params)
  {
    FittedFits(d, w.next, templates, w.parts, |w.labor|, laborTotal, params.totalRange);
    StuckIs(w.parts, laborTotal, params.totalRange, d.float(w.next, params.totalRange.0, params.totalRange.1));
  }

  lemma {:induction false} LinesAreBilled(d: Draws, i: nat, m: Maker, pricing: Pricing, params: Params,
                                          templates: Templates, hours: seq<int>) returns (w: Work)
    requires Proper(d) && ValidParams(params) && Filled(templates) && EndsFrom(m, d, params, templates)
    requires Makes(m, params.partsPerLabor.1, true) && Prices(m, pricing)
    requires WithinLine(hours) && hours != []
    ensures IsBilled(w, RATE * Sum(hours), BillAt(pricing, i, |hours|))
    ensures BuiltOn(m, i, hours) == m.close(w)
  {
    w := BuiltOnFits(d, i, m, params, templates, hours);
    LinesHavePrices(m, pricing, params.partsPerLabor.1, Work([], [], i), hours);
    assert [] + BillAt(pricing, i, |hours|).prices == BillAt(pricing, i, |hours|).prices;
  }

  lemma {:induction false} StopsOnIff(d: Draws, i: nat, m: Maker, pricing: Pricing, params: Params,
                                      templates: Templates, hours: seq<int>, bill: Bill)
    requires Proper(d) && ValidParams(params) && Filled(templates) && !params.warranty
    requires Makes(m, params.partsPerLabor.1, true) && Prices(m, pricing) && EndsFrom(m, d, params, templates)
    requires WithinLine(hours) && hours != [] && bill == BillAt(pricing, i, |hours|)
    ensures BuiltOn(m, i, hours) == Err(OutOfRange) <==> StopsWith(d, RATE * Sum(hours), bill, params)
  {
    var w := LinesAreBilled(d, i, m, pricing, params, templates, hours);
    ClosedStops(d, w, params, templates, RATE * Sum(hours), bill);
  }

  lemma {:induction false} HoursOf(d: Draws, i: nat, params: Params, n: nat) returns (hours: seq<int>)
    requires Proper(d) && ValidParams(params) && n == LineCount(d, i, params)
    ensures WithinLine(hours) && |hours| == n > 0 && Sum(hours) == TotalHours(d, i, params)
    ensures HoursAt(d, i, params) == Ok(hours)
  {
    HoursFit(d, i, params);
    hours := HoursAt(d, i, params).value;
  }

  lemma {:induction false} StopsByIff(d: Draws, i: nat, m: Maker, pricing: Pricing, params: Params,
                                      templates: Templates)
    requires Proper(d) && ValidParams(params) && Filled(templates) && !params.warranty
    requires Makes(m, params.partsPerLabor.1, true) && Prices(m, pricing) && EndsFrom(m, d, params, templates)
    ensures BuiltBy(m, i) == Err(OutOfRange) <==> StopsAt(d, i, pricing, params)
  {
    var n := LineCount(d, i, params);
    var hours := HoursOf(d, i, params, n);
    StopsOnIff(d, i + 1 + n, m, pricing, params, templates, hours, BillOf(d, i, pricing, params));
  }

  /** The draws stop the builder with GEN_RANGE exactly when their bill is out of range and the
      labor alone, or the labor below the target with all parts but the last, exceeds it. */
  lemma {:induction false} StopsIff(d: Draws, i: nat, params: Params, templates: Templates)
    requires Proper(d) && ValidParams(params) && Filled(templates) && !params.warranty
    ensures Built(d, i, params, templates) == Err(OutOfRange) <==> Stops(d, i, params)
  {
    MakerOfMakes(d, params, templates);
    MakerOfPrices(d, params, templates);
    StopsByIff(d, i, MakerOf(d, params, templates), PricingOf(d, params), params, templates);
  }
}
