/** What the line items keep, whatever the draws. */
module LineItemLaws {
  import opened Prelude
  import opened Random
  import opened LineItems

  // -- the hours --

  lemma {:induction false} SumSnoc(s: seq<int>, x: int)
    ensures Sum(s + [x]) == Sum(s) + x
  {
    assert (s + [x])[..|s|] == s;
  }

  /** A total that n lines can carry is split exactly, each line within its bounds. */
  lemma {:induction false} SplitFits(d: Draws, i: nat, hours: seq<int>, remaining: int, left: int)
    requires Proper(d) && left >= 1 && WithinLine(hours)
    requires MIN_HOURS * left <= remaining <= MAX_HOURS * left
    ensures
      var r := Split(d, i, hours, remaining, left);
      r.Ok? && |r.value| == |hours| + left && WithinLine(r.value) && Sum(r.value) == Sum(hours) + remaining
    decreases left
  {
    if left == 1 {
      SumSnoc(hours, remaining);
    } else {
      var min := Max(MIN_HOURS, remaining - MAX_HOURS * (left - 1));
      var max := Min(MAX_HOURS, remaining - MIN_HOURS * (left - 1));
      var value := LineHours(d, i, remaining, left);
      SumSnoc(hours, value);
      SplitFits(d, i + 1, hours + [value], remaining - value, left - 1);
    }
  }

  /** For any total: the number of lines is right, and the last line keeps to the maximum. */
  lemma {:induction false} SplitEnds(d: Draws, i: nat, hours: seq<int>, remaining: int, left: int)
    requires left >= 1
    ensures
      var r := Split(d, i, hours, remaining, left);
      if r.Ok? then |r.value| == |hours| + left && r.value[|r.value| - 1] <= MAX_HOURS else r.error == HoursInvalid
    decreases left
  {
    if left > 1 {
      var value := LineHours(d, i, remaining, left);
      SplitEnds(d, i + 1, hours + [value], remaining - value, left - 1);
    }
  }

  // -- the lines --

  lemma {:induction false} LaborSnoc(lines: seq<LaborLine>, line: LaborLine)
    ensures LaborTotal(lines + [line]) == LaborTotal(lines) + line.extended
  {
    assert (lines + [line])[..|lines|] == lines;
  }

  lemma {:induction false} PartSnoc(parts: seq<PartLine>, p: PartLine)
    ensures PartsTotal(parts + [p]) == PartsTotal(parts) + p.extended
    ensures forall l :: IndicesOn(parts + [p], l) == IndicesOn(parts, l) + (if p.labor == l then [p.index] else [])
  {
    assert (parts + [p])[..|parts|] == parts;
    assert forall l :: IndicesOn(parts, l) + [] == IndicesOn(parts, l);
  }

  lemma {:induction false} NextPartFits(parts: seq<PartLine>, p: PartLine, laborLines: int)
    requires PartLinesFit(parts, laborLines) && PartFits(p) && 1 <= p.labor <= laborLines
    requires p.index == |IndicesOn(parts, p.labor)| + 1
    ensures PartLinesFit(parts + [p], laborLines)
  {
    PartSnoc(parts, p);
    forall l ensures Counts(IndicesOn(parts + [p], l)) {
      assert Counts(IndicesOn(parts, l));
    }
  }

  lemma {:induction false} PartsFitMore(parts: seq<PartLine>, n: int)
    requires PartLinesFit(parts, n)
    ensures PartLinesFit(parts, n + 1)
  {
  }

  lemma {:induction false} NoneOnLaterLine(parts: seq<PartLine>, n: int, l: int)
    requires (forall i :: 0 <= i < |parts| ==> parts[i].labor <= n) && l > n
    ensures IndicesOn(parts, l) == []
    decreases |parts|
  {
    if parts != [] {
      NoneOnLaterLine(parts[..|parts| - 1], n, l);
    }
  }

  /** Quantity and unit price as drawn. */
  predicate PartIsDrawn(p: PartLine) {
    && 1 <= p.quantity <= MAX_QUANTITY && MIN_PRICE <= p.unitPrice <= MAX_PRICE
    && p.extended == p.unitPrice * p.quantity
  }

  ghost predicate PartsAreDrawn(parts: seq<PartLine>) {
    forall i :: 0 <= i < |parts| ==> PartIsDrawn(parts[i])
  }

  predicate Filled(t: Templates) {
    && t.technicianNotes != [] && t.causes != [] && t.corrections != []
    && t.opDescriptions != [] && t.partDescriptions != []
  }

  /** A labor line as asked for; it fails only when some template list is empty. */
  predicate LineIsMade(r: Result<LaborLine, BuildError>, index: int, hours: int, filled: bool) {
    if r.Err? then r.error == PickFromEmpty && !filled
    else r.value.index == index && r.value.hours == hours && r.value.extended == RATE * hours
  }

  predicate PartIsMade(r: Result<PartLine, BuildError>, labor: int, index: int, filled: bool) {
    if r.Err? then r.error == PickFromEmpty && !filled
    else PartIsDrawn(r.value) && r.value.labor == labor && r.value.index == index
  }

  ghost predicate Makes(m: Maker, most: int, filled: bool) {
    && (forall i: nat, index: int, hours: int :: LineIsMade(m.line(i, index, hours), index, hours, filled))
    && (forall i: nat, labor: int, index: int :: PartIsMade(m.part(i, labor, index), labor, index, filled))
    && (forall i: nat :: m.count(i) <= most)
  }

  lemma {:induction false} LaborLineAtFits(d: Draws, i: nat, templates: Templates, warranty: bool, index: int,
                                           hours: int)
    requires Proper(d)
    ensures
      var r := LaborLineAt(d, i, templates, warranty, index, hours);
      && LineIsMade(r, index, hours, Filled(templates))
      && (r.Ok? ==>
            && (if warranty then r.value.laborType == Warranty else r.value.laborType in LABOR_TYPES)
            && 100 <= r.value.opCode <= 999 && 1 <= r.value.technician <= 35
            && r.value.opDescription in templates.opDescriptions && r.value.notes in templates.technicianNotes
            && r.value.cause in templates.causes && r.value.correction in templates.corrections)
  {
  }

  lemma {:induction false} PartAtFits(d: Draws, i: nat, templates: Templates, labor: int, index: int)
    requires Proper(d)
    ensures
      var r := PartAt(d, i, templates, labor, index);
      && PartIsMade(r, labor, index, templates.partDescriptions != [])
      && (r.Ok? ==> r.value.description in templates.partDescriptions && 1000 <= r.value.number <= 9999)
  {
  }

  lemma {:induction false} MakerOfMakes(d: Draws, params: Params, templates: Templates)
    requires Proper(d) && ValidParams(params)
    ensures Makes(MakerOf(d, params, templates), params.partsPerLabor.1, Filled(templates))
  {
    var m := MakerOf(d, params, templates);
    forall i: nat, index: int, hours: int
      ensures LineIsMade(m.line(i, index, hours), index, hours, Filled(templates))
    {
      LaborLineAtFits(d, i, templates, params.warranty, index, hours);
    }
    forall i: nat, labor: int, index: int ensures PartIsMade(m.part(i, labor, index), labor, index, Filled(templates)) {
      PartAtFits(d, i, templates, labor, index);
    }
  }

  lemma {:induction false} PartsAtFit(m: Maker, most: int, filled: bool, i: nat, labor: int, parts: seq<PartLine>,
                                      p: nat, count: int)
    requires Makes(m, most, filled)
    requires labor >= 1 && PartLinesFit(parts, labor) && |IndicesOn(parts, labor)| == p && PartsAreDrawn(parts)
    ensures
      var r := PartsAt(m, i, labor, parts, p, count);
      if r.Err? then r.error == PickFromEmpty && !filled
      else
        && PartLinesFit(r.value, labor) && PartsAreDrawn(r.value)
        && |r.value| == |parts| + Max(count - p, 0) && parts <= r.value
    decreases count - p
  {
    if p < count {
      var part := m.part(i, labor, p + 1);
      assert PartIsMade(part, labor, p + 1, filled);
      if part.Ok? {
        NextPartFits(parts, part.value, labor);
        PartSnoc(parts, part.value);
        PartsAtFit(m, most, filled, i + PART_DRAWS, labor, parts + [part.value], p + 1, count);
      }
    }
  }

  /** What the lines built so far keep, `most` being the largest number of parts per line. */
  ghost predicate WorkFits(w: Work, hours: seq<int>, most: int) {
    && |w.labor| <= |hours| && LaborLinesFit(w.labor) && LaborTotal(w.labor) == RATE * Sum(hours[..|w.labor|])
    && (forall i :: 0 <= i < |w.labor| ==> w.labor[i].hours == hours[i])
    && PartLinesFit(w.parts, |w.labor|) && PartsAreDrawn(w.parts) && |w.parts| <= |w.labor| * Max(most, 0)
  }

  lemma {:induction false} OneLineMore(k: nat, most: nat)
    ensures (k + 1) * most == k * most + most
  {
  }

  lemma {:induction false} WorkGrows(w: Work, line: LaborLine, parts: seq<PartLine>, next: nat, hours: seq<int>,
                                     most: int)
    requires WithinLine(hours) && WorkFits(w, hours, most) && |w.labor| < |hours|
    requires line.index == |w.labor| + 1 && line.hours == hours[|w.labor|] && line.extended == RATE * line.hours
    requires PartLinesFit(parts, |w.labor| + 1) && PartsAreDrawn(parts) && |parts| <= |w.parts| + Max(most, 0)
    ensures WorkFits(Work(w.labor + [line], parts, next), hours, most)
  {
    var k := |w.labor|;
    LaborSnoc(w.labor, line);
    SumSnoc(hours[..k], hours[k]);
    assert hours[..k + 1] == hours[..k] + [hours[k]];
    OneLineMore(k, Max(most, 0));
  }

  lemma {:induction false} NextLineFits(m: Maker, w: Work, hours: seq<int>, most: int, filled: bool)
    requires Makes(m, most, filled) && WithinLine(hours) && |w.labor| < |hours| && WorkFits(w, hours, most)
    ensures
      var r := NextLine(m, w, hours[|w.labor|]);
      if r.Err? then r.error == PickFromEmpty && !filled else WorkFits(r.value, hours, most)
  {
    var k, i := |w.labor|, w.next + m.lineDraws;
    var line := m.line(w.next, k + 1, hours[k]);
    assert LineIsMade(line, k + 1, hours[k], filled);
    NoneOnLaterLine(w.parts, k, k + 1);
    PartsFitMore(w.parts, k);
    PartsAtFit(m, most, filled, i + 1, k + 1, w.parts, 0, m.count(i));
    var parts := PartsAt(m, i + 1, k + 1, w.parts, 0, m.count(i));
    if line.Ok? && parts.Ok? {
      WorkGrows(w, line.value, parts.value, i + 1 + PART_DRAWS * Max(m.count(i), 0), hours, most);
    }
  }

  lemma {:induction false} LinesFit(m: Maker, w: Work, hours: seq<int>, most: int, filled: bool)
    requires Makes(m, most, filled) && WithinLine(hours) && WorkFits(w, hours, most)
    ensures
      var r := Lines(m, w, hours);
      if r.Err? then r.error == PickFromEmpty && !filled
      else |r.value.labor| == |hours| && WorkFits(r.value, hours, most)
    decreases |hours| - |w.labor|
  {
    if |w.labor| < |hours| {
      NextLineFits(m, w, hours, most, filled);
      var next := NextLine(m, w, hours[|w.labor|]);
      if next.Ok? {
        LinesFit(m, next.value, hours, most, filled);
      }
    }
  }

  // -- fitting the grand total into its range --

  ghost predicate SamePlaces(a: seq<PartLine>, b: seq<PartLine>) {
    |a| == |b| && forall i :: 0 <= i < |a| ==> a[i].labor == b[i].labor && a[i].index == b[i].index
  }

  lemma {:induction false} SameIndices(a: seq<PartLine>, b: seq<PartLine>, l: int)
    requires SamePlaces(a, b)
    ensures IndicesOn(a, l) == IndicesOn(b, l)
    decreases |a|
  {
    if a != [] {
      SameIndices(a[..|a| - 1], b[..|b| - 1], l);
    }
  }

  lemma {:induction false} StillFits(a: seq<PartLine>, b: seq<PartLine>, n: int)
    requires PartLinesFit(a, n) && SamePlaces(a, b) && forall i :: 0 <= i < |b| ==> PartFits(b[i])
    ensures PartLinesFit(b, n)
  {
    forall l ensures Counts(IndicesOn(b, l)) {
      SameIndices(a, b, l);
    }
  }

  lemma {:induction false} ZeroTotal(parts: seq<PartLine>)
    requires forall i :: 0 <= i < |parts| ==> parts[i].extended == 0
    ensures PartsTotal(parts) == 0
    decreases |parts|
  {
    if parts != [] {
      ZeroTotal(parts[..|parts| - 1]);
    }
  }

  lemma {:induction false} RoundingOff(a: int, q: int)
    requires a >= 0 && q > 0
    ensures var u := RoundedQuotient(a, q); u >= 0 && 2 * (u * q - a) <= q && 2 * (a - u * q) <= q
  {
    var x, m := 2 * a + q, 2 * q;
    var u := x / m;
    assert x == u * m + x % m;
    assert u * m == 2 * (u * q);
  }

  /** The parts total that a target leads to. */
  function AdjustedTotal(parts: seq<PartLine>, neededParts: int): int
    requires parts != [] ==> parts[|parts| - 1].quantity > 0
  {
    if neededParts <= 0 then 0
    else if parts == [] then neededParts
    else
      var q := parts[|parts| - 1].quantity;
      OthersTotal(parts) + RoundedQuotient(Max(0, neededParts - OthersTotal(parts)), q) * q
  }

  lemma {:induction false} PricedFits(parts: seq<PartLine>, n: int, neededParts: int)
    requires PartLinesFit(parts, n) && parts != [] && neededParts > 0
    ensures
      var r := Priced(parts, neededParts);
      PartLinesFit(r, n) && SamePlaces(parts, r) && PartsTotal(r) == AdjustedTotal(parts, neededParts)
  {
    var k := |parts| - 1;
    assert PartFits(parts[k]);
    RoundingOff(Max(0, neededParts - OthersTotal(parts)), parts[k].quantity);
    var r := Priced(parts, neededParts);
    assert r[..k] == parts[..k];
    forall i | 0 <= i < |r| ensures PartFits(r[i]) {
      assert PartFits(parts[i]);
    }
    StillFits(parts, r, n);
  }

  lemma {:induction false} AdjustedFits(d: Draws, i: nat, templates: Templates, parts: seq<PartLine>, n: int,
                                        neededParts: int)
    requires Proper(d) && PartLinesFit(parts, n) && n >= 1
    ensures
      var r := AdjustedAt(d, i, templates, parts, neededParts);
      if r.Err? then r.error == PickFromEmpty && templates.partDescriptions == []
      else PartLinesFit(r.value, n) && PartsTotal(r.value) == AdjustedTotal(parts, neededParts)
  {
    var r := AdjustedAt(d, i, templates, parts, neededParts);
    if neededParts <= 0 {
      StillFits(parts, r.value, n);
      ZeroTotal(r.value);
    } else if parts != [] {
      PricedFits(parts, n, neededParts);
    } else if r.Ok? {
      NextPartFits(parts, r.value[0], n);
      PartSnoc(parts, r.value[0]);
      assert parts + [r.value[0]] == r.value;
    }
  }

  /** The labor alone, or the labor with all parts but the last, already exceeds the range. */
  predicate CannotFit(parts: seq<PartLine>, laborTotal: int, range: (int, int), target: int) {
    || laborTotal > range.1 + 1
    || (laborTotal < target && parts != [] && laborTotal + OthersTotal(parts) > range.1 + 1)
  }

  lemma {:induction false} AdjustedInRange(parts: seq<PartLine>, laborTotal: int, range: (int, int), target: int)
    requires PartsAreDrawn(parts) && range.0 <= target <= range.1
    ensures
      var total := laborTotal + AdjustedTotal(parts, target - laborTotal);
      Outside(total, Widened(range)) <==> CannotFit(parts, laborTotal, range, target)
  {
    var needed := target - laborTotal;
    if needed > 0 && parts != [] {
      assert PartIsDrawn(parts[|parts| - 1]);
      var q := parts[|parts| - 1].quantity;
      RoundingOff(Max(0, needed - OthersTotal(parts)), q);
      assert RoundedQuotient(0, q) == 0;
    }
  }

  /** What the re-pricing for a target comes to: `stuck` when the total stays out of range. */
  ghost predicate Adjusts(r: Result<seq<PartLine>, BuildError>, n: int, laborTotal: int, range: (int, int),
                          stuck: bool, filled: bool)
  {
    if r.Err? then r.error == PickFromEmpty && !filled
    else PartLinesFit(r.value, n) && (Outside(laborTotal + PartsTotal(r.value), Widened(range)) <==> stuck)
  }

  lemma {:induction false} AdjustedAtAdjusts(d: Draws, i: nat, templates: Templates, parts: seq<PartLine>, n: int,
                                             laborTotal: int, range: (int, int), target: int)
    requires Proper(d) && PartLinesFit(parts, n) && n >= 1 && PartsAreDrawn(parts) && range.0 <= target <= range.1
    ensures Adjusts(AdjustedAt(d, i, templates, parts, target - laborTotal), n, laborTotal, range,
                    CannotFit(parts, laborTotal, range, target), templates.partDescriptions != [])
  {
    AdjustedInRange(parts, laborTotal, range, target);
    AdjustedFits(d, i, templates, parts, n, target - laborTotal);
  }

  ghost predicate FitEnds(r: Result<seq<PartLine>, BuildError>, n: int, laborTotal: int, range: (int, int),
                          stuck: bool, filled: bool)
  {
    match r
    case Ok(fitted) => !stuck && PartLinesFit(fitted, n) && !Outside(laborTotal + PartsTotal(fitted), Widened(range))
    case Err(e) => if e == OutOfRange then stuck else e == PickFromEmpty && !filled
  }

  lemma {:induction false} FittedEnds(adjust: int -> Result<seq<PartLine>, BuildError>, target: int,
                                      parts: seq<PartLine>, n: int, laborTotal: int, range: (int, int), stuck: bool,
                                      filled: bool)
    requires PartLinesFit(parts, n) && Adjusts(adjust(target - laborTotal), n, laborTotal, range, stuck, filled)
    ensures FitEnds(Fitted(adjust, target, parts, laborTotal, range), n, laborTotal, range,
                    Outside(laborTotal + PartsTotal(parts), range) && stuck, filled)
  {
  }

  /** Re-pricing gives up exactly when the total is out of range and no price of the last part
      can help. */
  lemma {:induction false} FittedFits(d: Draws, i: nat, templates: Templates, parts: seq<PartLine>, n: int,
                                      laborTotal: int, range: (int, int))
    requires Proper(d) && PartLinesFit(parts, n) && n >= 1 && PartsAreDrawn(parts) && range.0 <= range.1
    ensures FitEnds(FittedAt(d, i, templates, parts, laborTotal, range), n, laborTotal, range,
                    (&& Outside(laborTotal + PartsTotal(parts), range)
                     && CannotFit(parts, laborTotal, range, d.float(i, range.0, range.1))),
                    templates.partDescriptions != [])
  {
    var target := d.float(i, range.0, range.1);
    AdjustedAtAdjusts(d, i + 1, templates, parts, n, laborTotal, range, target);
    FittedEnds((needed: int) => AdjustedAt(d, i + 1, templates, parts, needed), target, parts, n, laborTotal, range,
               CannotFit(parts, laborTotal, range, target), templates.partDescriptions != []);
  }

  // -- the bundle --

  /** Number of lines and total hours as drawn, and the lines they lead to. */
  ghost predicate WorkIsDrawn(w: Work, n: int, total: int, params: Params) {
    && |w.labor| == n >= 1 && LaborLinesFit(w.labor) && LaborTotal(w.labor) == RATE * total
    && PartLinesFit(w.parts, n) && PartsAreDrawn(w.parts) && |w.parts| <= n * Max(params.partsPerLabor.1, 0)
  }

  lemma {:induction false} ClosedErrors(d: Draws, w: Work, params: Params, templates: Templates)
    requires Proper(d) && ValidParams(params)
    ensures ClosedAt(d, w, params, templates) == Err(PickFromEmpty) ==> !Filled(templates)
  {
  }

  lemma {:induction false} HoursFit(d: Draws, i: nat, params: Params)
    requires Proper(d) && ValidParams(params)
    ensures
      var n := d.integer(i, params.laborLines.0, params.laborLines.1);
      var r := HoursAt(d, i, params);
      && params.laborLines.0 <= n <= params.laborLines.1 && r.Ok? && |r.value| == n && WithinLine(r.value)
      && Sum(r.value) == Clamped(d.float(i + 1, params.hoursRange.0, params.hoursRange.1), n)
  {
    var n := d.integer(i, params.laborLines.0, params.laborLines.1);
    SplitFits(d, i + 2, [], Clamped(d.float(i + 1, params.hoursRange.0, params.hoursRange.1), n), n);
  }

  /** From the hours to the closing of the bundle nothing but an empty template list stops the
      builder. */
  lemma {:induction false} BuiltOnFits(d: Draws, i: nat, m: Maker, params: Params, templates: Templates,
                                       hours: seq<int>) returns (w: Work)
    requires Proper(d) && ValidParams(params) && Makes(m, params.partsPerLabor.1, Filled(templates))
    requires EndsFrom(m, d, params, templates)
    requires WithinLine(hours) && hours != []
    ensures
      var r := BuiltOn(m, i, hours);
      if r == Err(PickFromEmpty) then !Filled(templates)
      else
        && WorkIsDrawn(w, |hours|, Sum(hours), params) && r == ClosedAt(d, w, params, templates)
        && Lines(m, Work([], [], i), hours) == Ok(w)
  {
    var start := Work([], [], i);
    assert hours[..0] == [] && hours[..|hours|] == hours;
    LinesFit(m, start, hours, params.partsPerLabor.1, Filled(templates));
    var lines := Lines(m, start, hours);
    w := if lines.Ok? then lines.value else start;
    ClosedErrors(d, w, params, templates);
  }

  lemma {:induction false} ClosedIsSound(d: Draws, w: Work, n: int, total: int, params: Params, templates: Templates)
    requires Proper(d) && ValidParams(params) && WorkIsDrawn(w, n, total, params)
    ensures BundleEnds(ClosedAt(d, w, params, templates), n, params, Filled(templates))
  {
    if !params.warranty {
      FittedFits(d, w.next, templates, w.parts, n, LaborTotal(w.labor), params.totalRange);
    }
  }

  ghost predicate BundleEnds(r: Result<Bundle, BuildError>, n: int, params: Params, filled: bool) {
    match r
    case Ok(b) =>
      && Sound(b, params.warranty) && |b.labor| == n
      && (params.warranty || !Outside(b.grandTotal, Widened(params.totalRange)))
    case Err(e) => e != HoursInvalid && (e == OutOfRange ==> !params.warranty) && (e == PickFromEmpty ==> !filled)
  }

  lemma {:induction false} BuiltOnIsSound(d: Draws, i: nat, m: Maker, params: Params, templates: Templates,
                                          hours: seq<int>)
    requires Proper(d) && ValidParams(params) && Makes(m, params.partsPerLabor.1, Filled(templates))
    requires EndsFrom(m, d, params, templates) && WithinLine(hours) && hours != []
    ensures BundleEnds(BuiltOn(m, i, hours), |hours|, params, Filled(templates))
  {
    var w := BuiltOnFits(d, i, m, params, templates, hours);
    if BuiltOn(m, i, hours) != Err(PickFromEmpty) {
      ClosedIsSound(d, w, |hours|, Sum(hours), params, templates);
    }
  }

  lemma {:induction false} BuiltByIsSound(d: Draws, i: nat, m: Maker, params: Params, templates: Templates)
    requires Proper(d) && ValidParams(params) && Makes(m, params.partsPerLabor.1, Filled(templates))
    requires EndsFrom(m, d, params, templates)
    ensures
      var n := d.integer(i, params.laborLines.0, params.laborLines.1);
      && params.laborLines.0 <= n <= params.laborLines.1
      && BundleEnds(BuiltBy(m, i), n, params, Filled(templates))
  {
    HoursFit(d, i, params);
    var hours := HoursAt(d, i, params).value;
    BuiltOnIsSound(d, i + 1 + Max(|hours|, 1), m, params, templates, hours);
  }

  /** Whatever the draws, a returned bundle is sound, has the drawn number of labor lines and a
      grand total in range, zero under warranty; the hours error is never raised. */
  lemma {:induction false} BuiltIsSound(d: Draws, i: nat, params: Params, templates: Templates)
    requires Proper(d) && ValidParams(params)
    ensures
      var n := d.integer(i, params.laborLines.0, params.laborLines.1);
      && params.laborLines.0 <= n <= params.laborLines.1
      && BundleEnds(Built(d, i, params, templates), n, params, Filled(templates))
  {
    MakerOfMakes(d, params, templates);
    BuiltByIsSound(d, i, MakerOf(d, params, templates), params, templates);
  }
}
