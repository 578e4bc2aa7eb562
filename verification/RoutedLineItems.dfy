/** Line items as the router hands them to validation. */
module RoutedLineItems {
  import opened Prelude
  import opened FieldNames
  import opened RoSchema
  import opened SortedLines
  import R = FieldRouting
  import opened RoutingPartition
  import opened LineItemValidation

  function Number(cells: R.Cells, field: string): Option<real> {
    if field in cells && cells[field].Num? then Some(cells[field].number) else None
  }

  function LaborOf(line: Line<nat, R.Cells>): (r: Labor)
    ensures r.index == line.key
  {
    Labor(line.key, Number(line.cells, "ACTUAL_HOURS"), Number(line.cells, "LABOR_RATE"),
          Number(line.cells, "LABOR_EXTENDED_AMOUNT"))
  }

  function PartOf(line: Line<(nat, nat), R.Cells>): (r: Part)
    ensures r.labor == line.key.0 && r.index == line.key.1
  {
    Part(line.key.0, line.key.1, Number(line.cells, "PART_QUANTITY"), Number(line.cells, "PART_UNIT_PRICE"),
         Number(line.cells, "PART_EXTENDED_PRICE"))
  }

  function TotalsOf(header: R.Cells): Totals {
    Totals(Number(header, "LABOR_TOTAL"), Number(header, "PARTS_TOTAL"), Number(header, "SHOP_FEES"),
           Number(header, "ENVIRONMENTAL_FEES"), Number(header, "TAX_TOTAL"), Number(header, "DISCOUNT_TOTAL"),
           Number(header, "GRAND_TOTAL"))
  }

  /** The payload as validateLineItems reads it. */
  function ItemsOf(out: R.Payloads): (r: LineItems)
    ensures |r.labor| == |out.laborLines| && |r.parts| == |out.partLines|
    ensures forall i :: 0 <= i < |r.labor| ==> r.labor[i].index == out.laborLines[i].key
    ensures forall i :: 0 <= i < |r.parts| ==>
                          r.parts[i].labor == out.partLines[i].key.0 && r.parts[i].index == out.partLines[i].key.1
    ensures forall i :: 0 <= i < |r.labor| ==> r.labor[i] == LaborOf(out.laborLines[i])
    ensures forall i :: 0 <= i < |r.parts| ==> r.parts[i] == PartOf(out.partLines[i])
  {
    LineItems(
      seq(|out.laborLines|, i requires 0 <= i < |out.laborLines| => LaborOf(out.laborLines[i])),
      seq(|out.partLines|, i requires 0 <= i < |out.partLines| => PartOf(out.partLines[i])),
      TotalsOf(out.header))
  }

  /** The parts that semantic entries speak of. */
  function RefsOf(entries: seq<R.SemanticEntry>): seq<Ref> {
    if entries == [] then []
    else
      var e := entries[0];
      (if e.labor.Some? && e.part.Some? && e.labor.value != 0 && e.part.value != 0
       then [Ref(e.labor.value, e.part.value)] else []) + RefsOf(entries[1..])
  }

  lemma {:induction false} RefsComeFrom(entries: seq<R.SemanticEntry>, r: nat) returns (k: nat)
    requires r < |RefsOf(entries)|
    ensures k < |entries| && entries[k].labor.Some? && entries[k].part.Some?
    ensures RefsOf(entries)[r] == Ref(entries[k].labor.value, entries[k].part.value)
    decreases |entries|
  {
    var head := RefsOf(entries)[..|RefsOf(entries)| - |RefsOf(entries[1..])|];
    if r < |head| {
      k := 0;
    } else {
      k := RefsComeFrom(entries[1..], r - |head|);
      k := k + 1;
    }
  }

  lemma OtherErrors(items: LineItems, refs: seq<Ref>)
    requires !HasLooseRef(items.parts, refs)
    ensures FirstError(items, refs) != Some(PartDescriptionOrphaned)
  {
    LineErrorsAreOthers(items.labor, items.parts);
  }

  lemma {:induction false} RefHasPart(out: R.Payloads, ref: Ref, j: nat)
    requires j < |out.partLines| && out.partLines[j].key.0 == ref.labor && out.partLines[j].key.1 == ref.part
    ensures HasPart(ItemsOf(out).parts, ref)
  {
    var parts := ItemsOf(out).parts;
    assert Ref(parts[j].labor, parts[j].index) == ref;
  }

  /** After routing, no part description lacks its part line: that error is never raised. */
  lemma {:induction false} NoLooseDescriptions(sch: Schema, classify: R.Classifier, leaves: seq<R.Leaf>,
                                               out: R.Payloads)
    requires R.Route(sch, classify, leaves).Ok? && R.PayloadsOf(R.Route(sch, classify, leaves).value, out)
    ensures !HasLooseRef(ItemsOf(out).parts, RefsOf(out.semantic))
    ensures FirstError(ItemsOf(out), RefsOf(out.semantic)) != Some(PartDescriptionOrphaned)
  {
    var parts, refs := ItemsOf(out).parts, RefsOf(out.semantic);
    forall r | 0 <= r < |refs| ensures HasPart(parts, refs[r]) {
      var k := RefsComeFrom(out.semantic, r);
      PartEntriesHaveLines(sch, classify, leaves, out, k);
      var j :| 0 <= j < |out.partLines| &&
               out.partLines[j].key == (out.semantic[k].labor.value, out.semantic[k].part.value);
      RefHasPart(out, refs[r], j);
    }
    OtherErrors(ItemsOf(out), refs);
  }

  /** The per-line checks raise their own errors only. */
  lemma {:induction false} LineErrorsAreOthers(labor: seq<Labor>, parts: seq<Part>)
    ensures FirstLaborError(labor) != Some(PartDescriptionOrphaned)
    ensures FirstPartError(parts) != Some(PartDescriptionOrphaned)
    decreases |labor| + |parts|
  {
    if labor != [] {
      LineErrorsAreOthers(labor[1..], parts);
    } else if parts != [] {
      LineErrorsAreOthers(labor, parts[1..]);
    }
  }

  lemma {:induction false} PartIndicesFrom(parts: seq<Part>, labor: int, x: int)
    ensures x in PartIndices(parts, labor) <==>
            exists i :: 0 <= i < |parts| && parts[i].labor == labor && parts[i].index == x
    decreases |parts|
  {
    if parts != [] {
      var init, last := parts[..|parts| - 1], parts[|parts| - 1];
      PartIndicesFrom(init, labor, x);
      assert forall i :: 0 <= i < |init| ==> init[i] == parts[i];
    }
  }

  ghost predicate InOrder(parts: seq<Part>) {
    forall i, j :: 0 <= i < j < |parts| ==>
                     parts[i].labor < parts[j].labor ||
                     (parts[i].labor == parts[j].labor && parts[i].index < parts[j].index)
  }

  lemma SnocAscends(s: seq<int>, x: int)
    requires Ascending(s) && forall y :: y in s ==> y < x
    ensures Ascending(s + [x])
  {
    assert forall i :: 0 <= i < |s| ==> s[i] in s;
  }

  lemma {:induction false} PartIndicesAscend(parts: seq<Part>, labor: int)
    requires InOrder(parts)
    ensures Ascending(PartIndices(parts, labor))
    decreases |parts|
  {
    if parts != [] {
      var n := |parts| - 1;
      var init, last := parts[..n], parts[n];
      assert forall i :: 0 <= i < n ==> init[i] == parts[i];
      PartIndicesAscend(init, labor);
      if last.labor == labor {
        forall y | y in PartIndices(init, labor) ensures y < last.index {
          PartIndicesFrom(init, labor, y);
        }
        SnocAscends(PartIndices(init, labor), last.index);
      }
    }
  }

  lemma LaborCounts(items: LineItems, out: R.Payloads)
    requires Increasing(NatBefore, out.laborLines) && items == ItemsOf(out) && Contiguous(LaborIndices(items.labor))
    ensures forall i :: 0 <= i < |out.laborLines| ==> out.laborLines[i].key == i + 1
    ensures forall l :: l in LaborIndices(items.labor) ==> 1 <= l <= |out.laborLines|
  {
    var indices := LaborIndices(items.labor);
    forall i, j | 0 <= i < j < |indices| ensures indices[i] < indices[j] {
      assert NatBefore(out.laborLines[i].key, out.laborLines[j].key);
    }
    ContiguousWhenAscending(indices);
    forall i | 0 <= i < |out.laborLines| ensures out.laborLines[i].key == i + 1 {
      assert indices[i] == i + 1;
    }
  }

  /** When routed line items pass validation, labor line i has index i + 1, and the parts of
      each labor line are numbered 1, 2, 3 .. in the order they are listed. */
  lemma {:induction false} ValidatedIndices(sch: Schema, readers: R.Readers, leaves: seq<R.Leaf>, out: R.Payloads,
                                            refs: seq<Ref>)
    requires PositiveNames(readers.parseName)
    requires R.Route(sch, R.ClassifyBy(sch, readers), leaves).Ok?
    requires R.PayloadsOf(R.Route(sch, R.ClassifyBy(sch, readers), leaves).value, out)
    requires FirstError(ItemsOf(out), refs) == None
    ensures forall i :: 0 <= i < |out.laborLines| ==> out.laborLines[i].key == i + 1
    ensures InOrder(ItemsOf(out).parts)
    ensures forall p :: 0 <= p < |out.partLines| ==> 1 <= out.partLines[p].key.0 <= |out.laborLines|
    ensures forall l, k ::
              0 <= k < |PartIndices(ItemsOf(out).parts, l)| ==> PartIndices(ItemsOf(out).parts, l)[k] == k + 1
  {
    var items := ItemsOf(out);
    LinesAreIndexed(sch, readers, leaves, out);
    AcceptedIffAcceptable(items, refs);
    LaborCounts(items, out);
    PartsInOrder(out);
    forall p | 0 <= p < |out.partLines| ensures 1 <= out.partLines[p].key.0 <= |out.laborLines| {
      assert items.parts[p].labor in LaborIndices(items.labor);
    }
    forall l, k | 0 <= k < |PartIndices(items.parts, l)| ensures PartIndices(items.parts, l)[k] == k + 1 {
      PartsCount(items, refs, l);
    }
  }

  lemma PartsInOrder(out: R.Payloads)
    requires Increasing(PairBefore, out.partLines)
    ensures InOrder(ItemsOf(out).parts)
  {
    var parts := ItemsOf(out).parts;
    forall i, j | 0 <= i < j < |parts|
      ensures parts[i].labor < parts[j].labor || (parts[i].labor == parts[j].labor && parts[i].index < parts[j].index)
    {
      assert PairBefore(out.partLines[i].key, out.partLines[j].key);
    }
  }

  lemma PartsCount(items: LineItems, refs: seq<Ref>, l: int)
    requires Acceptable(items, refs) && InOrder(items.parts)
    ensures forall k :: 0 <= k < |PartIndices(items.parts, l)| ==> PartIndices(items.parts, l)[k] == k + 1
  {
    var s := PartIndices(items.parts, l);
    PartIndicesAscend(items.parts, l);
    if s != [] {
      PartIndicesFrom(items.parts, l, s[0]);
      assert s[0] in s;
      ContiguousWhenAscending(s);
    }
  }

  // -- the amounts of routed lines --

  /** The cell is a number. */
  predicate IsNumber(cells: R.Cells, field: string) {
    field in cells && cells[field].Num?
  }

  function NumberAt(cells: R.Cells, field: string): real
    requires IsNumber(cells, field)
  {
    cells[field].number
  }

  predicate LaborCellsFit(cells: R.Cells) {
    && IsNumber(cells, "ACTUAL_HOURS") && IsNumber(cells, "LABOR_RATE") && IsNumber(cells, "LABOR_EXTENDED_AMOUNT")
    && var hours := NumberAt(cells, "ACTUAL_HOURS");
       && 0.0 < hours <= 20.0
       && Abs(NumberAt(cells, "LABOR_RATE") - 275.0) <= 0.01
       && Abs(NumberAt(cells, "LABOR_EXTENDED_AMOUNT") - 275.0 * hours) <= 0.01
  }

  predicate PartCellsFit(cells: R.Cells) {
    && IsNumber(cells, "PART_QUANTITY") && IsNumber(cells, "PART_UNIT_PRICE")
    && IsNumber(cells, "PART_EXTENDED_PRICE")
    && Abs(NumberAt(cells, "PART_EXTENDED_PRICE") -
           NumberAt(cells, "PART_QUANTITY") * NumberAt(cells, "PART_UNIT_PRICE")) <= 0.01
  }

  predicate TotalCellsFit(cells: R.Cells) {
    && IsNumber(cells, "LABOR_TOTAL") && IsNumber(cells, "PARTS_TOTAL") && IsNumber(cells, "SHOP_FEES")
    && IsNumber(cells, "ENVIRONMENTAL_FEES") && IsNumber(cells, "TAX_TOTAL") && IsNumber(cells, "DISCOUNT_TOTAL")
    && IsNumber(cells, "GRAND_TOTAL")
    && Abs(NumberAt(cells, "GRAND_TOTAL") -
           (NumberAt(cells, "LABOR_TOTAL") + NumberAt(cells, "PARTS_TOTAL") + NumberAt(cells, "SHOP_FEES") +
            NumberAt(cells, "ENVIRONMENTAL_FEES") + NumberAt(cells, "TAX_TOTAL") -
            NumberAt(cells, "DISCOUNT_TOTAL"))) <= 0.03
  }

  lemma {:induction false} LaborCells(line: Line<nat, R.Cells>)
    requires LaborLineFits(LaborOf(line))
    ensures LaborCellsFit(line.cells)
  {
  }

  lemma {:induction false} PartCells(line: Line<(nat, nat), R.Cells>)
    requires PartLineFits(PartOf(line))
    ensures PartCellsFit(line.cells)
  {
    var quantity, price := PartOf(line).quantity.value, PartOf(line).unitPrice.value;
    var product :| product == quantity * price;
    assert Near(PartOf(line).extended.value, product);
  }

  lemma {:induction false} TotalsFitCells(header: R.Cells, laborSum: real, partSum: real)
    requires TotalsFit(TotalsOf(header), laborSum, partSum)
    ensures TotalCellsFit(header)
  {
  }

  /** When routed line items pass validation, the cells of every labor line, of every part line and
      of the header hold numbers that fit each other. */
  lemma {:induction false} ValidatedAmounts(out: R.Payloads, refs: seq<Ref>)
    requires FirstError(ItemsOf(out), refs) == None
    ensures forall i :: 0 <= i < |out.laborLines| ==> LaborCellsFit(out.laborLines[i].cells)
    ensures forall i :: 0 <= i < |out.partLines| ==> PartCellsFit(out.partLines[i].cells)
    ensures TotalCellsFit(out.header)
  {
    var items := ItemsOf(out);
    AcceptedIffAcceptable(items, refs);
    forall i | 0 <= i < |out.laborLines| ensures LaborCellsFit(out.laborLines[i].cells) {
      LaborCells(out.laborLines[i]);
    }
    forall i | 0 <= i < |out.partLines| ensures PartCellsFit(out.partLines[i].cells) {
      PartCells(out.partLines[i]);
    }
    TotalsFitCells(out.header, LaborSum(items.labor), PartSum(items.parts));
  }
}
