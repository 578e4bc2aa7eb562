/** What a bundle takes from the scenario: each text from its own list, and the drawn hours. */
module LineItemTexts {
  import opened Prelude
  import opened Random
  import opened LineItems
  import opened LineItemLaws

  // -- the texts --

  /** Every text comes from the list of its kind, and the labor type fits the scenario. */
  predicate LaborIsDrawn(line: LaborLine, t: Templates, warranty: bool) {
    && line.opDescription in t.opDescriptions && line.notes in t.technicianNotes
    && line.cause in t.causes && line.correction in t.corrections
    && (line.laborType == Warranty <==> warranty)
    && 100 <= line.opCode <= 999 && 1 <= line.technician <= 35
  }

  predicate PartIsNamed(p: PartLine, t: Templates) {
    p.description in t.partDescriptions && 1000 <= p.number <= 9999
  }

  ghost predicate LaborAreDrawn(lines: seq<LaborLine>, t: Templates, warranty: bool) {
    forall i :: 0 <= i < |lines| ==> LaborIsDrawn(lines[i], t, warranty)
  }

  ghost predicate PartsAreNamed(parts: seq<PartLine>, t: Templates) {
    forall i :: 0 <= i < |parts| ==> PartIsNamed(parts[i], t)
  }

  ghost predicate MakesDrawn(m: Maker, t: Templates, warranty: bool) {
    && (forall i: nat, index: int, hours: int :: m.line(i, index, hours).Ok? ==>
          LaborIsDrawn(m.line(i, index, hours).value, t, warranty))
    && (forall i: nat, labor: int, index: int :: m.part(i, labor, index).Ok? ==>
          PartIsNamed(m.part(i, labor, index).value, t))
  }

  lemma {:induction false} MakerOfMakesDrawn(d: Draws, params: Params, t: Templates)
    requires Proper(d)
    ensures MakesDrawn(MakerOf(d, params, t), t, params.warranty)
  {
    var m := MakerOf(d, params, t);
    forall i: nat, index: int, hours: int | m.line(i, index, hours).Ok?
      ensures LaborIsDrawn(m.line(i, index, hours).value, t, params.warranty)
    {
      LaborLineAtFits(d, i, t, params.warranty, index, hours);
    }
    forall i: nat, labor: int, index: int | m.part(i, labor, index).Ok?
      ensures PartIsNamed(m.part(i, labor, index).value, t)
    {
      PartAtFits(d, i, t, labor, index);
    }
  }

  lemma {:induction false} PartsAtNamed(
    m: Maker, t: Templates, warranty: bool, i: nat, labor: int, parts: seq<PartLine>, p: nat, count: int)
    requires MakesDrawn(m, t, warranty) && PartsAreNamed(parts, t)
    ensures PartsAt(m, i, labor, parts, p, count).Ok? ==> PartsAreNamed(PartsAt(m, i, labor, parts, p, count).value, t)
    decreases count - p
  {
    if p < count && m.part(i, labor, p + 1).Ok? {
      var part := m.part(i, labor, p + 1).value;
      PartsAtNamed(m, t, warranty, i + PART_DRAWS, labor, parts + [part], p + 1, count);
    }
  }

  lemma {:induction false} LinesDrawn(m: Maker, t: Templates, warranty: bool, w: Work, hours: seq<int>)
    requires |w.labor| <= |hours| && MakesDrawn(m, t, warranty)
    requires LaborAreDrawn(w.labor, t, warranty) && PartsAreNamed(w.parts, t)
    ensures
      var r := Lines(m, w, hours);
      r.Ok? ==> LaborAreDrawn(r.value.labor, t, warranty) && PartsAreNamed(r.value.parts, t)
    decreases |hours| - |w.labor|
  {
    if |w.labor| < |hours| {
      var i := w.next + m.lineDraws;
      PartsAtNamed(m, t, warranty, i + 1, |w.labor| + 1, w.parts, 0, m.count(i));
      var next := NextLine(m, w, hours[|w.labor|]);
      if next.Ok? {
        LinesDrawn(m, t, warranty, next.value, hours);
      }
    }
  }

  /** Re-pricing changes no text. */
  lemma {:induction false} AdjustedNamed(d: Draws, i: nat, t: Templates, parts: seq<PartLine>, needed: int)
    requires Proper(d) && PartsAreNamed(parts, t)
    ensures AdjustedAt(d, i, t, parts, needed).Ok? ==> PartsAreNamed(AdjustedAt(d, i, t, parts, needed).value, t)
  {
    if needed > 0 && parts != [] {
      assert PartIsNamed(parts[|parts| - 1], t);
    }
  }

  lemma {:induction false} ClosedDrawn(d: Draws, w: Work, params: Params, t: Templates)
    requires Proper(d) && LaborAreDrawn(w.labor, t, params.warranty) && PartsAreNamed(w.parts, t)
    ensures
      var r := ClosedAt(d, w, params, t);
      r.Ok? ==> LaborAreDrawn(r.value.labor, t, params.warranty) && PartsAreNamed(r.value.parts, t)
  {
    var target := d.float(w.next, params.totalRange.0, params.totalRange.1);
    AdjustedNamed(d, w.next + 1, t, w.parts, target - LaborTotal(w.labor));
  }

  lemma {:induction false} BuiltByDrawn(d: Draws, i: nat, m: Maker, params: Params, t: Templates)
    requires Proper(d) && MakesDrawn(m, t, params.warranty) && EndsFrom(m, d, params, t)
    ensures
      var r := BuiltBy(m, i);
      r.Ok? ==> LaborAreDrawn(r.value.labor, t, params.warranty) && PartsAreNamed(r.value.parts, t)
  {
    if m.hours(i).Ok? {
      var hours := m.hours(i).value;
      var start := Work([], [], i + 1 + Max(|hours|, 1));
      LinesDrawn(m, t, params.warranty, start, hours);
      var lines := Lines(m, start, hours);
      if lines.Ok? {
        ClosedDrawn(d, lines.value, params, t);
      }
    }
  }

  /** In every returned bundle the causes come from the causes of the scenario, the corrections from
      its corrections, and so on; the labor type is warranty exactly in a warranty scenario. */
  lemma {:induction false} BuiltTexts(d: Draws, i: nat, params: Params, t: Templates)
    requires Proper(d)
    ensures
      var r := Built(d, i, params, t);
      r.Ok? ==> LaborAreDrawn(r.value.labor, t, params.warranty) && PartsAreNamed(r.value.parts, t)
  {
    MakerOfMakesDrawn(d, params, t);
    MakerOfMakesFrom(d, params, t);
    BuiltByDrawn(d, i, MakerOf(d, params, t), params, t);
  }

  // -- the hours --

  function Distance(a: int, b: int): nat {
    if a < b then b - a else a - b
  }

  /** The hours that n lines can carry and that are closest to the total asked for. */
  ghost predicate Closest(hours: int, total: int, n: int) {
    && 50 * n <= hours <= 2000 * n
    && forall other :: 50 * n <= other <= 2000 * n ==> Distance(total, hours) <= Distance(total, other)
  }

  lemma {:induction false} ClosedLabor(d: Draws, w: Work, params: Params, t: Templates)
    requires ClosedAt(d, w, params, t).Ok?
    ensures
      var b := ClosedAt(d, w, params, t).value;
      b.labor == w.labor && b.laborTotal == LaborTotal(w.labor)
  {
  }

  lemma {:induction false} BuiltOnHours(
    d: Draws, i: nat, m: Maker, params: Params, t: Templates, hours: seq<int>)
    requires Proper(d) && ValidParams(params) && Makes(m, params.partsPerLabor.1, Filled(t))
    requires EndsFrom(m, d, params, t) && WithinLine(hours) && hours != [] && BuiltOn(m, i, hours).Ok?
    ensures
      var b := BuiltOn(m, i, hours).value;
      |b.labor| == |hours| && b.laborTotal == RATE * Sum(hours)
  {
    var w := BuiltOnFits(d, i, m, params, t, hours);
    ClosedLabor(d, w, params, t);
  }

  lemma {:induction false} BuiltByHours(d: Draws, i: nat, m: Maker, params: Params, t: Templates)
    requires Proper(d) && ValidParams(params) && Makes(m, params.partsPerLabor.1, Filled(t))
    requires EndsFrom(m, d, params, t) && BuiltBy(m, i).Ok?
    ensures
      var n := d.integer(i, params.laborLines.0, params.laborLines.1);
      && |BuiltBy(m, i).value.labor| == n
      && BuiltBy(m, i).value.laborTotal ==
         RATE * Clamped(d.float(i + 1, params.hoursRange.0, params.hoursRange.1), n)
  {
    HoursFit(d, i, params);
    var hours := HoursAt(d, i, params).value;
    BuiltOnHours(d, i + 1 + Max(|hours|, 1), m, params, t, hours);
  }

  /** A returned bundle bills, at 275 cents a hundredth, the drawn total hours when its lines can
      carry them, and else the closest hours that they can carry. */
  lemma {:induction false} BuiltHours(d: Draws, i: nat, params: Params, t: Templates) returns (hours: int)
    requires Proper(d) && ValidParams(params) && Built(d, i, params, t).Ok?
    ensures
      var n := d.integer(i, params.laborLines.0, params.laborLines.1);
      && |Built(d, i, params, t).value.labor| == n && Built(d, i, params, t).value.laborTotal == 275 * hours
      && Closest(hours, d.float(i + 1, params.hoursRange.0, params.hoursRange.1), n)
  {
    var n := d.integer(i, params.laborLines.0, params.laborLines.1);
    hours := Clamped(d.float(i + 1, params.hoursRange.0, params.hoursRange.1), n);
    MakerOfMakes(d, params, t);
    MakerOfMakesFrom(d, params, t);
    BuiltByHours(d, i, MakerOf(d, params, t), params, t);
  }
}
