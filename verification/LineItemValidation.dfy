/** validateLineItems: indices, line products and totals of a repair order. */
module LineItemValidation {
  import opened Prelude
  import opened FieldNames

  const RATE := 275.0
  const HOURS_MAX := 20.0
  const TOLERANCE := 0.01

  datatype Labor = Labor(index: int, hours: Option<real>, rate: Option<real>, extended: Option<real>)

  datatype Part = Part(labor: int, index: int, quantity: Option<real>, unitPrice: Option<real>, extended: Option<real>)

  datatype Totals = Totals(
    labor: Option<real>,
    parts: Option<real>,
    shopFees: Option<real>,
    environmentalFees: Option<real>,
    tax: Option<real>,
    discount: Option<real>,
    grand: Option<real>)

  datatype LineItems = LineItems(labor: seq<Labor>, parts: seq<Part>, totals: Totals)

  /** A part of a labor line. */
  datatype Ref = Ref(labor: int, part: int)

  datatype LineError =
    | LaborMissing | IndexGap | PartOrphaned | PartDescriptionOrphaned
    | HoursInvalid | LaborRateMissing | LaborRateInvalid | LaborExtendedMissing | LaborExtendedInvalid
    | PartExtendedMissing | PartComponentMissing | PartExtendedInvalid
    | LaborTotalMissing | LaborTotalInvalid | PartsTotalMissing | PartsTotalInvalid
    | ShopFeesMissing | EnvironmentalFeesMissing | TaxTotalMissing | DiscountTotalMissing
    | GrandTotalMissing | GrandTotalInvalid

  function Abs(x: real): real {
    if x < 0.0 then -x else x
  }

  predicate Near(x: real, y: real) {
    Abs(x - y) <= TOLERANCE
  }

  // -- which error is raised --

  function LaborError(line: Labor): Option<LineError> {
    if line.hours == None || line.hours.value <= 0.0 || line.hours.value > HOURS_MAX then Some(HoursInvalid)
    else if line.rate == None then Some(LaborRateMissing)
    else if !Near(line.rate.value, RATE) then Some(LaborRateInvalid)
    else if line.extended == None then Some(LaborExtendedMissing)
    else if !Near(line.extended.value, line.hours.value * RATE) then Some(LaborExtendedInvalid)
    else None
  }

  function PartError(line: Part): Option<LineError> {
    if line.extended == None then Some(PartExtendedMissing)
    else if line.quantity == None || line.unitPrice == None then Some(PartComponentMissing)
    else if !Near(line.extended.value, line.quantity.value * line.unitPrice.value) then Some(PartExtendedInvalid)
    else None
  }

  function FirstLaborError(lines: seq<Labor>): Option<LineError> {
    if lines == [] then None
    else if LaborError(lines[0]).Some? then LaborError(lines[0])
    else FirstLaborError(lines[1..])
  }

  function FirstPartError(lines: seq<Part>): Option<LineError> {
    if lines == [] then None
    else if PartError(lines[0]).Some? then PartError(lines[0])
    else FirstPartError(lines[1..])
  }

  function LaborSum(lines: seq<Labor>): real {
    if lines == [] then 0.0
    else LaborSum(lines[..|lines| - 1]) + Given(lines[|lines| - 1].extended)
  }

  function PartSum(lines: seq<Part>): real {
    if lines == [] then 0.0
    else PartSum(lines[..|lines| - 1]) + Given(lines[|lines| - 1].extended)
  }

  function Given(x: Option<real>): real {
    if x.Some? then x.value else 0.0
  }

  function TotalsError(t: Totals, laborSum: real, partSum: real): Option<LineError> {
    if t.labor == None then Some(LaborTotalMissing)
    else if !Near(t.labor.value, laborSum) then Some(LaborTotalInvalid)
    else if t.parts == None then Some(PartsTotalMissing)
    else if !Near(t.parts.value, partSum) then Some(PartsTotalInvalid)
    else if t.shopFees == None then Some(ShopFeesMissing)
    else if t.environmentalFees == None then Some(EnvironmentalFeesMissing)
    else if t.tax == None then Some(TaxTotalMissing)
    else if t.discount == None then Some(DiscountTotalMissing)
    else if t.grand == None then Some(GrandTotalMissing)
    else
      var computed :=
        laborSum + partSum + t.shopFees.value + t.environmentalFees.value + t.tax.value - t.discount.value;
      if !Near(t.grand.value, computed) then Some(GrandTotalInvalid) else None
  }

  function LaborIndices(lines: seq<Labor>): (s: seq<int>)
    ensures |s| == |lines| && forall i :: 0 <= i < |lines| ==> s[i] == lines[i].index
  {
    seq(|lines|, i requires 0 <= i < |lines| => lines[i].index)
  }

  /** The part indices on one labor line, in order. */
  function PartIndices(lines: seq<Part>, labor: int): seq<int> {
    if lines == [] then []
    else
      var rest := PartIndices(lines[..|lines| - 1], labor);
      if lines[|lines| - 1].labor == labor then rest + [lines[|lines| - 1].index] else rest
  }

  ghost predicate HasOrphan(labor: seq<Labor>, parts: seq<Part>) {
    exists i :: 0 <= i < |parts| && parts[i].labor !in LaborIndices(labor)
  }

  ghost predicate PartsHaveGap(parts: seq<Part>) {
    exists i :: 0 <= i < |parts| && !Contiguous(PartIndices(parts, parts[i].labor))
  }

  ghost predicate HasLooseRef(parts: seq<Part>, refs: seq<Ref>) {
    exists r :: 0 <= r < |refs| && !HasPart(parts, refs[r])
  }

  ghost predicate HasPart(parts: seq<Part>, ref: Ref) {
    exists i :: 0 <= i < |parts| && Ref(parts[i].labor, parts[i].index) == ref
  }

  ghost function FirstError(items: LineItems, refs: seq<Ref>): Option<LineError> {
    if items.labor == [] then Some(LaborMissing)
    else if !Contiguous(LaborIndices(items.labor)) then Some(IndexGap)
    else if HasOrphan(items.labor, items.parts) then Some(PartOrphaned)
    else if PartsHaveGap(items.parts) then Some(IndexGap)
    else if HasLooseRef(items.parts, refs) then Some(PartDescriptionOrphaned)
    else if FirstLaborError(items.labor).Some? then FirstLaborError(items.labor)
    else if FirstPartError(items.parts).Some? then FirstPartError(items.parts)
    else TotalsError(items.totals, LaborSum(items.labor), PartSum(items.parts))
  }

  // -- the loops --

  lemma {:induction false} FirstLaborErrorFrom(lines: seq<Labor>, i: nat)
    requires i <= |lines| && forall j :: 0 <= j < i ==> LaborError(lines[j]) == None
    ensures FirstLaborError(lines) == FirstLaborError(lines[i..])
    decreases i
  {
    if i == 0 {
      assert lines[0..] == lines;
    } else {
      FirstLaborErrorFrom(lines, i - 1);
      assert lines[i - 1..][1..] == lines[i..];
    }
  }

  lemma {:induction false} FirstPartErrorFrom(lines: seq<Part>, i: nat)
    requires i <= |lines| && forall j :: 0 <= j < i ==> PartError(lines[j]) == None
    ensures FirstPartError(lines) == FirstPartError(lines[i..])
    decreases i
  {
    if i == 0 {
      assert lines[0..] == lines;
    } else {
      FirstPartErrorFrom(lines, i - 1);
      assert lines[i - 1..][1..] == lines[i..];
    }
  }

  method CheckOrphans(labor: seq<Labor>, parts: seq<Part>) returns (found: bool)
    ensures found <==> HasOrphan(labor, parts)
  {
    var laborIndexSet := set i | i in LaborIndices(labor);
    for i := 0 to |parts|
      invariant forall j :: 0 <= j < i ==> parts[j].labor in LaborIndices(labor)
    {
      if parts[i].labor !in laborIndexSet {
        return true;
      }
    }
    return false;
  }

  ghost predicate HasLabor(parts: seq<Part>, l: int) {
    exists j :: 0 <= j < |parts| && parts[j].labor == l
  }

  /** The indices of the parts of each labor line, in order, and the lines that have some. */
  ghost predicate Grouped(byLabor: map<int, seq<int>>, keys: seq<int>, parts: seq<Part>) {
    && (forall l :: l in byLabor ==> byLabor[l] == PartIndices(parts, l))
    && (forall l :: l in byLabor <==> HasLabor(parts, l))
    && (forall l :: l in byLabor <==> l in keys)
  }

  lemma {:induction false} NoIndices(parts: seq<Part>, l: int)
    requires !HasLabor(parts, l)
    ensures PartIndices(parts, l) == []
    decreases |parts|
  {
    if parts != [] {
      assert parts[|parts| - 1].labor != l;
      assert forall j :: 0 <= j < |parts| - 1 ==> parts[..|parts| - 1][j] == parts[j];
      NoIndices(parts[..|parts| - 1], l);
    }
  }

  lemma HasLaborSnoc(parts: seq<Part>, part: Part, l: int)
    ensures HasLabor(parts + [part], l) <==> HasLabor(parts, l) || part.labor == l
  {
    var more := parts + [part];
    if HasLabor(parts, l) {
      var j :| 0 <= j < |parts| && parts[j].labor == l;
      assert more[j].labor == l;
    }
    assert more[|parts|].labor == part.labor;
  }

  lemma {:induction false} GroupedSnoc(byLabor: map<int, seq<int>>, keys: seq<int>, parts: seq<Part>, part: Part)
    requires Grouped(byLabor, keys, parts)
    ensures
      var l := part.labor;
      if l in byLabor then Grouped(byLabor[l := byLabor[l] + [part.index]], keys, parts + [part])
      else Grouped(byLabor[l := [part.index]], keys + [l], parts + [part])
  {
    assert (parts + [part])[..|parts|] == parts;
    forall l ensures HasLabor(parts + [part], l) <==> HasLabor(parts, l) || part.labor == l {
      HasLaborSnoc(parts, part, l);
    }
    if part.labor !in byLabor {
      NoIndices(parts, part.labor);
    }
  }

  /** The map of part indices by labor line, with its keys in the order they were added. */
  method GroupParts(parts: seq<Part>) returns (byLabor: map<int, seq<int>>, keys: seq<int>)
    ensures Grouped(byLabor, keys, parts)
  {
    byLabor, keys := map[], [];
    for i := 0 to |parts|
      invariant Grouped(byLabor, keys, parts[..i])
    {
      var l, index := parts[i].labor, parts[i].index;
      GroupedSnoc(byLabor, keys, parts[..i], parts[i]);
      assert parts[..i + 1] == parts[..i] + [parts[i]];
      if l in byLabor {
        byLabor := byLabor[l := byLabor[l] + [index]];
      } else {
        byLabor, keys := byLabor[l := [index]], keys + [l];
      }
    }
    assert parts[..|parts|] == parts;
  }

  /** Each entry of the map is checked. */
  method CheckPartGaps(parts: seq<Part>) returns (gap: bool)
    ensures gap <==> PartsHaveGap(parts)
  {
    var byLabor, keys := GroupParts(parts);
    for k := 0 to |keys|
      invariant forall j :: 0 <= j < k ==> Contiguous(PartIndices(parts, keys[j]))
    {
      assert keys[k] in keys && HasLabor(parts, keys[k]);
      var g := EnsureContiguousIndices(byLabor[keys[k]]);
      if g {
        return true;
      }
    }
    forall i | 0 <= i < |parts| ensures Contiguous(PartIndices(parts, parts[i].labor)) {
      assert HasLabor(parts, parts[i].labor) && parts[i].labor in keys;
    }
    return false;
  }

  method CheckRefs(parts: seq<Part>, refs: seq<Ref>) returns (found: bool)
    ensures found <==> HasLooseRef(parts, refs)
  {
    for r := 0 to |refs|
      invariant forall q :: 0 <= q < r ==> HasPart(parts, refs[q])
    {
      var i := 0;
      while i < |parts| && Ref(parts[i].labor, parts[i].index) != refs[r]
        invariant 0 <= i <= |parts|
        invariant forall j :: 0 <= j < i ==> Ref(parts[j].labor, parts[j].index) != refs[r]
      {
        i := i + 1;
      }
      if i == |parts| {
        assert !HasPart(parts, refs[r]);
        return true;
      }
      assert HasPart(parts, refs[r]);
    }
    return false;
  }

  method CheckLabor(lines: seq<Labor>) returns (e: Option<LineError>, total: real)
    ensures e == FirstLaborError(lines)
    ensures e == None ==> total == LaborSum(lines)
  {
    total := 0.0;
    for i := 0 to |lines|
      invariant forall j :: 0 <= j < i ==> LaborError(lines[j]) == None
      invariant total == LaborSum(lines[..i])
    {
      var line := lines[i];
      e := LaborError(line);
      FirstLaborErrorFrom(lines, i);
      if e.Some? {
        return;
      }
      assert lines[..i + 1][..i] == lines[..i];
      total := total + line.extended.value;
    }
    FirstLaborErrorFrom(lines, |lines|);
    assert lines[..|lines|] == lines;
    e := None;
  }

  method CheckParts(lines: seq<Part>) returns (e: Option<LineError>, total: real)
    ensures e == FirstPartError(lines)
    ensures e == None ==> total == PartSum(lines)
  {
    total := 0.0;
    for i := 0 to |lines|
      invariant forall j :: 0 <= j < i ==> PartError(lines[j]) == None
      invariant total == PartSum(lines[..i])
    {
      var line := lines[i];
      e := PartError(line);
      FirstPartErrorFrom(lines, i);
      if e.Some? {
        return;
      }
      assert lines[..i + 1][..i] == lines[..i];
      total := total + line.extended.value;
    }
    FirstPartErrorFrom(lines, |lines|);
    assert lines[..|lines|] == lines;
    e := None;
  }

  method ValidateLineItems(items: LineItems, refs: seq<Ref>) returns (e: Option<LineError>)
    ensures e == FirstError(items, refs)
  {
    if items.labor == [] {
      return Some(LaborMissing);
    }
    var gap := EnsureContiguousIndices(LaborIndices(items.labor));
    if gap {
      return Some(IndexGap);
    }
    var orphan := CheckOrphans(items.labor, items.parts);
    if orphan {
      return Some(PartOrphaned);
    }
    gap := CheckPartGaps(items.parts);
    if gap {
      return Some(IndexGap);
    }
    var loose := CheckRefs(items.parts, refs);
    if loose {
      return Some(PartDescriptionOrphaned);
    }
    var laborTotal, partsTotal;
    e, laborTotal := CheckLabor(items.labor);
    if e.Some? {
      return;
    }
    e, partsTotal := CheckParts(items.parts);
    if e.Some? {
      return;
    }
    return TotalsError(items.totals, laborTotal, partsTotal);
  }

  // -- what acceptance means --

  ghost predicate LaborLineFits(line: Labor) {
    && line.hours.Some? && 0.0 < line.hours.value <= HOURS_MAX
    && line.rate.Some? && Near(line.rate.value, RATE)
    && line.extended.Some? && Near(line.extended.value, line.hours.value * RATE)
  }

  ghost predicate PartLineFits(line: Part) {
    && line.quantity.Some? && line.unitPrice.Some? && line.extended.Some?
    && Near(line.extended.value, line.quantity.value * line.unitPrice.value)
  }

  ghost predicate TotalsFit(t: Totals, laborSum: real, partSum: real) {
    && t.labor.Some? && Near(t.labor.value, laborSum)
    && t.parts.Some? && Near(t.parts.value, partSum)
    && t.shopFees.Some? && t.environmentalFees.Some? && t.tax.Some? && t.discount.Some? && t.grand.Some?
    && Near(t.grand.value, laborSum + partSum + Fees(t))
  }

  function Fees(t: Totals): real {
    Given(t.shopFees) + Given(t.environmentalFees) + Given(t.tax) - Given(t.discount)
  }

  /** Labor lines 1..n, parts 1..m on existing labor lines, a part for every description,
      every product and every total within the tolerance. */
  ghost predicate Acceptable(items: LineItems, refs: seq<Ref>) {
    && items.labor != [] && Contiguous(LaborIndices(items.labor))
    && (forall i :: 0 <= i < |items.parts| ==> items.parts[i].labor in LaborIndices(items.labor))
    && (forall i :: 0 <= i < |items.parts| ==> Contiguous(PartIndices(items.parts, items.parts[i].labor)))
    && (forall r :: 0 <= r < |refs| ==> HasPart(items.parts, refs[r]))
    && (forall i :: 0 <= i < |items.labor| ==> LaborLineFits(items.labor[i]))
    && (forall i :: 0 <= i < |items.parts| ==> PartLineFits(items.parts[i]))
    && TotalsFit(items.totals, LaborSum(items.labor), PartSum(items.parts))
  }

  lemma {:induction false} NoLaborError(lines: seq<Labor>)
    ensures FirstLaborError(lines) == None <==> forall i :: 0 <= i < |lines| ==> LaborLineFits(lines[i])
    decreases |lines|
  {
    if lines != [] {
      NoLaborError(lines[1..]);
      assert forall i :: 0 < i < |lines| ==> lines[i] == lines[1..][i - 1];
      assert forall i :: 0 <= i < |lines[1..]| ==> lines[1..][i] == lines[i + 1];
    }
  }

  lemma {:induction false} NoPartError(lines: seq<Part>)
    ensures FirstPartError(lines) == None <==> forall i :: 0 <= i < |lines| ==> PartLineFits(lines[i])
    decreases |lines|
  {
    if lines != [] {
      NoPartError(lines[1..]);
      assert forall i :: 0 < i < |lines| ==> lines[i] == lines[1..][i - 1];
      assert forall i :: 0 <= i < |lines[1..]| ==> lines[1..][i] == lines[i + 1];
    }
  }

  lemma NoTotalsError(t: Totals, laborSum: real, partSum: real)
    ensures TotalsError(t, laborSum, partSum) == None <==> TotalsFit(t, laborSum, partSum)
  {
  }

  /** No error is raised exactly for acceptable line items. */
  lemma {:induction false} AcceptedIffAcceptable(items: LineItems, refs: seq<Ref>)
    ensures FirstError(items, refs) == None <==> Acceptable(items, refs)
  {
    NoLaborError(items.labor);
    NoPartError(items.parts);
    NoTotalsError(items.totals, LaborSum(items.labor), PartSum(items.parts));
  }

  // -- what the grand total is worth --

  function Hours(lines: seq<Labor>): real {
    if lines == [] then 0.0 else Hours(lines[..|lines| - 1]) + Given(lines[|lines| - 1].hours)
  }

  function Products(lines: seq<Part>): real {
    if lines == [] then 0.0
    else Products(lines[..|lines| - 1]) + Given(lines[|lines| - 1].quantity) * Given(lines[|lines| - 1].unitPrice)
  }

  lemma {:induction false} LaborSumBound(lines: seq<Labor>)
    requires forall i :: 0 <= i < |lines| ==> LaborLineFits(lines[i])
    ensures Abs(LaborSum(lines) - RATE * Hours(lines)) <= TOLERANCE * |lines| as real
    decreases |lines|
  {
    if lines != [] {
      var init, last := lines[..|lines| - 1], lines[|lines| - 1];
      LaborSumBound(init);
      assert LaborLineFits(last);
      assert |lines| as real == |init| as real + 1.0;
    }
  }

  lemma OneMoreWithin(a: real, b: real, x: real, y: real, n: nat)
    requires Abs(a - b) <= TOLERANCE * n as real && Near(x, y)
    ensures Abs((a + x) - (b + y)) <= TOLERANCE * (n + 1) as real
  {
    assert (n + 1) as real == n as real + 1.0;
  }

  lemma {:induction false} PartSumBound(lines: seq<Part>)
    requires forall i :: 0 <= i < |lines| ==> PartLineFits(lines[i])
    ensures Abs(PartSum(lines) - Products(lines)) <= TOLERANCE * |lines| as real
    decreases |lines|
  {
    if lines != [] {
      var init, last := lines[..|lines| - 1], lines[|lines| - 1];
      PartSumBound(init);
      assert PartLineFits(last);
      var product: real :| product == last.quantity.value * last.unitPrice.value;
      OneMoreWithin(PartSum(init), Products(init), last.extended.value, product, |init|);
    }
  }

  /** The accepted grand total is the one computed from hours, quantities and unit prices, up
      to one cent per line and one more. */
  lemma {:induction false} GrandTotalIsHonest(items: LineItems, refs: seq<Ref>)
    requires FirstError(items, refs) == None
    ensures items.totals.grand.Some?
    ensures Abs(items.totals.grand.value - (RATE * Hours(items.labor) + Products(items.parts) + Fees(items.totals))) <=
            TOLERANCE * (|items.labor| + |items.parts| + 1) as real
  {
    AcceptedIffAcceptable(items, refs);
    LaborSumBound(items.labor);
    PartSumBound(items.parts);
    var l, p := |items.labor| as real, |items.parts| as real;
    assert (|items.labor| + |items.parts| + 1) as real == l + p + 1.0;
  }
}
