/** Which error validateLineItems raises: the first fault, in the order of the checks. */
module LineItemErrors {
  import opened Prelude
  import opened FieldNames
  import opened LineItemValidation

  /** Equal up to one cent. */
  predicate Cent(x: real, y: real) {
    y - 0.01 <= x <= y + 0.01
  }

  /** What is wrong with a labor line when this error is raised for it. */
  predicate LaborFault(line: Labor, e: LineError) {
    match e
    case HoursInvalid => line.hours == None || line.hours.value <= 0.0 || 20.0 < line.hours.value
    case LaborRateMissing => line.rate == None
    case LaborRateInvalid => line.rate.Some? && !Cent(line.rate.value, 275.0)
    case LaborExtendedMissing => line.extended == None
    case LaborExtendedInvalid =>
      line.hours.Some? && line.extended.Some? && !Cent(line.extended.value, 275.0 * line.hours.value)
    case _ => false
  }

  predicate PartFault(line: Part, e: LineError) {
    match e
    case PartExtendedMissing => line.extended == None
    case PartComponentMissing => line.quantity == None || line.unitPrice == None
    case PartExtendedInvalid =>
      && line.extended.Some? && line.quantity.Some? && line.unitPrice.Some?
      && !Cent(line.extended.value, line.unitPrice.value * line.quantity.value)
    case _ => false
  }

  predicate TotalsFault(t: Totals, laborSum: real, partSum: real, e: LineError) {
    match e
    case LaborTotalMissing => t.labor == None
    case LaborTotalInvalid => t.labor.Some? && !Cent(t.labor.value, laborSum)
    case PartsTotalMissing => t.parts == None
    case PartsTotalInvalid => t.parts.Some? && !Cent(t.parts.value, partSum)
    case ShopFeesMissing => t.shopFees == None
    case EnvironmentalFeesMissing => t.environmentalFees == None
    case TaxTotalMissing => t.tax == None
    case DiscountTotalMissing => t.discount == None
    case GrandTotalMissing => t.grand == None
    case GrandTotalInvalid =>
      && t.shopFees.Some? && t.environmentalFees.Some? && t.tax.Some? && t.discount.Some? && t.grand.Some?
      && !Cent(t.grand.value + t.discount.value,
               laborSum + partSum + t.shopFees.value + t.environmentalFees.value + t.tax.value)
    case _ => false
  }

  /** The checks of a line, or of the totals, in their order. */
  const LABOR_ORDER := [HoursInvalid, LaborRateMissing, LaborRateInvalid, LaborExtendedMissing, LaborExtendedInvalid]
  const PART_ORDER := [PartExtendedMissing, PartComponentMissing, PartExtendedInvalid]
  const TOTALS_ORDER := [LaborTotalMissing, LaborTotalInvalid, PartsTotalMissing, PartsTotalInvalid, ShopFeesMissing,
                         EnvironmentalFeesMissing, TaxTotalMissing, DiscountTotalMissing, GrandTotalMissing,
                         GrandTotalInvalid]

  /** The first of the faults, in the order given. */
  ghost predicate FirstFault(fault: LineError -> bool, order: seq<LineError>, e: LineError) {
    exists n :: 0 <= n < |order| && order[n] == e && fault(e) && forall m :: 0 <= m < n ==> !fault(order[m])
  }

  ghost predicate NoFault(fault: LineError -> bool, order: seq<LineError>) {
    forall n :: 0 <= n < |order| ==> !fault(order[n])
  }

  function OfLabor(line: Labor): LineError -> bool {
    (e: LineError) => LaborFault(line, e)
  }

  function OfPart(line: Part): LineError -> bool {
    (e: LineError) => PartFault(line, e)
  }

  function OfTotals(t: Totals, laborSum: real, partSum: real): LineError -> bool {
    (e: LineError) => TotalsFault(t, laborSum, partSum, e)
  }

  /** What a check in this order raises. */
  ghost predicate Finds(r: Option<LineError>, fault: LineError -> bool, order: seq<LineError>) {
    match r
    case None => NoFault(fault, order)
    case Some(e) => FirstFault(fault, order, e)
  }

  lemma {:induction false} FoundAt(fault: LineError -> bool, order: seq<LineError>, n: nat)
    requires n < |order| && fault(order[n]) && forall m :: 0 <= m < n ==> !fault(order[m])
    ensures FirstFault(fault, order, order[n])
  {
  }

  lemma {:induction false} LaborErrorIs(line: Labor)
    ensures Finds(LaborError(line), OfLabor(line), LABOR_ORDER)
  {
    var r, fault := LaborError(line), OfLabor(line);
    if r.Some? {
      var n := if r.value == HoursInvalid then 0 else if r.value == LaborRateMissing then 1
               else if r.value == LaborRateInvalid then 2 else if r.value == LaborExtendedMissing then 3 else 4;
      assert LABOR_ORDER[n] == r.value;
      FoundAt(fault, LABOR_ORDER, n);
    }
  }

  lemma {:induction false} PartErrorIs(line: Part)
    ensures Finds(PartError(line), OfPart(line), PART_ORDER)
  {
    var r, fault := PartError(line), OfPart(line);
    if r.Some? {
      var n := if r.value == PartExtendedMissing then 0 else if r.value == PartComponentMissing then 1 else 2;
      assert PART_ORDER[n] == r.value;
      FoundAt(fault, PART_ORDER, n);
    }
  }

  lemma {:induction false} TotalsErrorIs(t: Totals, laborSum: real, partSum: real)
    ensures Finds(TotalsError(t, laborSum, partSum), OfTotals(t, laborSum, partSum), TOTALS_ORDER)
  {
    var r, fault := TotalsError(t, laborSum, partSum), OfTotals(t, laborSum, partSum);
    if r.Some? {
      var n :=
        match r.value
        case LaborTotalMissing => 0
        case LaborTotalInvalid => 1
        case PartsTotalMissing => 2
        case PartsTotalInvalid => 3
        case ShopFeesMissing => 4
        case EnvironmentalFeesMissing => 5
        case TaxTotalMissing => 6
        case DiscountTotalMissing => 7
        case GrandTotalMissing => 8
        case _ => 9;
      assert TOTALS_ORDER[n] == r.value;
      FoundAt(fault, TOTALS_ORDER, n);
    }
  }

  /** The first line with a fault, and its first fault. */
  ghost predicate FirstLabor(lines: seq<Labor>, i: nat, e: LineError) {
    && i < |lines| && (forall j :: 0 <= j < i ==> NoFault(OfLabor(lines[j]), LABOR_ORDER))
    && FirstFault(OfLabor(lines[i]), LABOR_ORDER, e)
  }

  ghost predicate FirstPart(lines: seq<Part>, i: nat, e: LineError) {
    && i < |lines| && (forall j :: 0 <= j < i ==> NoFault(OfPart(lines[j]), PART_ORDER))
    && FirstFault(OfPart(lines[i]), PART_ORDER, e)
  }

  ghost predicate LaborRaises(lines: seq<Labor>, e: LineError) {
    exists i: nat :: FirstLabor(lines, i, e)
  }

  ghost predicate PartRaises(lines: seq<Part>, e: LineError) {
    exists i: nat :: FirstPart(lines, i, e)
  }

  lemma {:induction false} FirstLaborIs(lines: seq<Labor>)
    ensures
      match FirstLaborError(lines)
      case None => forall i :: 0 <= i < |lines| ==> NoFault(OfLabor(lines[i]), LABOR_ORDER)
      case Some(e) => LaborRaises(lines, e)
    decreases |lines|
  {
    if lines != [] {
      LaborErrorIs(lines[0]);
      if LaborError(lines[0]).Some? {
        assert FirstLabor(lines, 0, LaborError(lines[0]).value);
      } else {
        var tail := lines[1..];
        FirstLaborIs(tail);
        assert forall i :: 0 < i < |lines| ==> lines[i] == tail[i - 1];
        if FirstLaborError(tail).Some? {
          var e := FirstLaborError(tail).value;
          var i: nat :| FirstLabor(tail, i, e);
          assert FirstLabor(lines, i + 1, e);
        }
      }
    }
  }

  lemma {:induction false} FirstPartIs(lines: seq<Part>)
    ensures
      match FirstPartError(lines)
      case None => forall i :: 0 <= i < |lines| ==> NoFault(OfPart(lines[i]), PART_ORDER)
      case Some(e) => PartRaises(lines, e)
    decreases |lines|
  {
    if lines != [] {
      PartErrorIs(lines[0]);
      if PartError(lines[0]).Some? {
        assert FirstPart(lines, 0, PartError(lines[0]).value);
      } else {
        var tail := lines[1..];
        FirstPartIs(tail);
        assert forall i :: 0 < i < |lines| ==> lines[i] == tail[i - 1];
        if FirstPartError(tail).Some? {
          var e := FirstPartError(tail).value;
          var i: nat :| FirstPart(tail, i, e);
          assert FirstPart(lines, i + 1, e);
        }
      }
    }
  }

  // -- the stages --

  /** There are labor lines, and their indices are 1..n. */
  ghost predicate LaborCounts(items: LineItems) {
    items.labor != [] && Contiguous(LaborIndices(items.labor))
  }

  /** Every part is on a labor line. */
  ghost predicate PartsPlaced(items: LineItems) {
    forall i :: 0 <= i < |items.parts| ==> OnLabor(items.labor, items.parts[i].labor)
  }

  ghost predicate OnLabor(labor: seq<Labor>, index: int) {
    exists j :: 0 <= j < |labor| && labor[j].index == index
  }

  /** The parts of every labor line have the indices 1..n. */
  ghost predicate PartsCount(items: LineItems) {
    forall i :: 0 <= i < |items.parts| ==> Contiguous(PartIndices(items.parts, items.parts[i].labor))
  }

  /** Every part that an entry describes is there. */
  ghost predicate RefsFound(items: LineItems, refs: seq<Ref>) {
    forall r :: 0 <= r < |refs| ==> Listed(items.parts, refs[r])
  }

  ghost predicate Listed(parts: seq<Part>, ref: Ref) {
    exists i :: 0 <= i < |parts| && parts[i].labor == ref.labor && parts[i].index == ref.part
  }

  ghost predicate LaborSound(items: LineItems) {
    forall i :: 0 <= i < |items.labor| ==> NoFault(OfLabor(items.labor[i]), LABOR_ORDER)
  }

  ghost predicate PartsSound(items: LineItems) {
    forall i :: 0 <= i < |items.parts| ==> NoFault(OfPart(items.parts[i]), PART_ORDER)
  }

  /** The structure of the lines is right. */
  ghost predicate Structured(items: LineItems, refs: seq<Ref>) {
    LaborCounts(items) && PartsPlaced(items) && PartsCount(items) && RefsFound(items, refs)
  }

  /** When validation raises this error: the stages before it pass, and this one does not. */
  ghost predicate Raised(items: LineItems, refs: seq<Ref>, e: LineError) {
    var sums := OfTotals(items.totals, LaborSum(items.labor), PartSum(items.parts));
    || (e == LaborMissing && items.labor == [])
    || (e == IndexGap && items.labor != [] && !LaborCounts(items))
    || (e == PartOrphaned && LaborCounts(items) && !PartsPlaced(items))
    || (e == IndexGap && LaborCounts(items) && PartsPlaced(items) && !PartsCount(items))
    || (e == PartDescriptionOrphaned
        && LaborCounts(items) && PartsPlaced(items) && PartsCount(items) && !RefsFound(items, refs))
    || (Structured(items, refs) && LaborRaises(items.labor, e))
    || (Structured(items, refs) && LaborSound(items) && PartRaises(items.parts, e))
    || (Structured(items, refs) && LaborSound(items) && PartsSound(items) && FirstFault(sums, TOTALS_ORDER, e))
  }

  lemma {:induction false} StagesAre(items: LineItems, refs: seq<Ref>)
    ensures HasOrphan(items.labor, items.parts) <==> !PartsPlaced(items)
    ensures PartsHaveGap(items.parts) <==> !PartsCount(items)
    ensures HasLooseRef(items.parts, refs) <==> !RefsFound(items, refs)
  {
    forall i | 0 <= i < |items.parts|
      ensures items.parts[i].labor in LaborIndices(items.labor) <==> OnLabor(items.labor, items.parts[i].labor)
    {
      OnLaborIff(items.labor, items.parts[i].labor);
    }
    forall r | 0 <= r < |refs| ensures HasPart(items.parts, refs[r]) <==> Listed(items.parts, refs[r]) {
      ListedIff(items.parts, refs[r]);
    }
  }

  lemma OnLaborIff(labor: seq<Labor>, index: int)
    ensures index in LaborIndices(labor) <==> OnLabor(labor, index)
  {
    if OnLabor(labor, index) {
      var j :| 0 <= j < |labor| && labor[j].index == index;
      assert LaborIndices(labor)[j] == index;
    }
  }

  lemma ListedIff(parts: seq<Part>, ref: Ref)
    ensures HasPart(parts, ref) <==> Listed(parts, ref)
  {
    if Listed(parts, ref) {
      var i :| 0 <= i < |parts| && parts[i].labor == ref.labor && parts[i].index == ref.part;
      assert Ref(parts[i].labor, parts[i].index) == ref;
    }
  }

  /** The error raised is that of the first stage that fails, of the first line that fails in it,
      of the first check that fails on that line. */
  lemma {:induction false} ErrorIsRaised(items: LineItems, refs: seq<Ref>, e: LineError)
    requires FirstError(items, refs) == Some(e)
    ensures Raised(items, refs, e)
  {
    StagesAre(items, refs);
    if Structured(items, refs) {
      FirstLaborIs(items.labor);
      FirstPartIs(items.parts);
      TotalsErrorIs(items.totals, LaborSum(items.labor), PartSum(items.parts));
    }
  }
}
