/** The generator's line items pass the ingest validation. */
module BuiltLineItems {
  import opened Prelude
  import FieldNames
  import B = LineItems
  import opened LineItemValidation

  /** Hundredths as a decimal number. */
  function Hundredths(n: int): real {
    n as real / 100.0
  }

  function LaborOf(line: B.LaborLine): Labor {
    Labor(line.index, Some(Hundredths(line.hours)), Some(RATE), Some(Hundredths(line.extended)))
  }

  function PartOf(line: B.PartLine): Part {
    Part(line.labor, line.index, Some(line.quantity as real), Some(Hundredths(line.unitPrice)),
         Some(Hundredths(line.extended)))
  }

  function TotalsOf(b: B.Bundle): Totals {
    Totals(Some(Hundredths(b.laborTotal)), Some(Hundredths(b.partsTotal)), Some(Hundredths(b.shopFees)),
           Some(Hundredths(b.environmentalFees)), Some(Hundredths(b.taxTotal)), Some(Hundredths(b.discountTotal)),
           Some(Hundredths(b.grandTotal)))
  }

  function LaborLines(lines: seq<B.LaborLine>): (r: seq<Labor>)
    ensures |r| == |lines| && forall i :: 0 <= i < |r| ==> r[i] == LaborOf(lines[i])
  {
    seq(|lines|, i requires 0 <= i < |lines| => LaborOf(lines[i]))
  }

  function PartLines(lines: seq<B.PartLine>): (r: seq<Part>)
    ensures |r| == |lines| && forall i :: 0 <= i < |r| ==> r[i] == PartOf(lines[i])
  {
    seq(|lines|, i requires 0 <= i < |lines| => PartOf(lines[i]))
  }

  function ItemsOf(b: B.Bundle): LineItems {
    LineItems(LaborLines(b.labor), PartLines(b.parts), TotalsOf(b))
  }

  /** The generator writes a description for every part. */
  function RefsOf(parts: seq<B.PartLine>): (r: seq<Ref>)
    ensures |r| == |parts| && forall i :: 0 <= i < |r| ==> r[i] == Ref(parts[i].labor, parts[i].index)
  {
    seq(|parts|, i requires 0 <= i < |parts| => Ref(parts[i].labor, parts[i].index))
  }

  lemma {:induction false} LaborSums(lines: seq<B.LaborLine>)
    ensures LaborSum(LaborLines(lines)) == Hundredths(B.LaborTotal(lines))
    decreases |lines|
  {
    if lines != [] {
      var init := lines[..|lines| - 1];
      LaborSums(init);
      assert LaborLines(lines)[..|lines| - 1] == LaborLines(init);
    }
  }

  lemma {:induction false} PartSums(lines: seq<B.PartLine>)
    ensures PartSum(PartLines(lines)) == Hundredths(B.PartsTotal(lines))
    decreases |lines|
  {
    if lines != [] {
      var init := lines[..|lines| - 1];
      PartSums(init);
      assert PartLines(lines)[..|lines| - 1] == PartLines(init);
    }
  }

  lemma {:induction false} SameIndices(lines: seq<B.PartLine>, l: int)
    ensures PartIndices(PartLines(lines), l) == B.IndicesOn(lines, l)
    decreases |lines|
  {
    if lines != [] {
      var init := lines[..|lines| - 1];
      SameIndices(init, l);
      assert PartLines(lines)[..|lines| - 1] == PartLines(init);
    }
  }

  lemma CountingIsContiguous(s: seq<int>)
    requires B.Counts(s)
    ensures FieldNames.Contiguous(s)
  {
    FieldNames.ContiguousWhenAscending(s);
  }

  lemma LaborLineExact(line: B.LaborLine)
    requires B.MIN_HOURS <= line.hours <= B.MAX_HOURS && line.extended == B.RATE * line.hours
    ensures LaborLineFits(LaborOf(line))
  {
    assert line.extended as real == 275.0 * line.hours as real;
  }

  lemma PartLineExact(line: B.PartLine)
    requires B.PartFits(line)
    ensures PartLineFits(PartOf(line))
  {
    var q, u := line.quantity, line.unitPrice;
    assert (u * q) as real == q as real * u as real;
    assert q as real * (u as real / 100.0) == (q as real * u as real) / 100.0;
  }

  lemma {:induction false} TotalsExact(b: B.Bundle)
    requires b.laborTotal == B.LaborTotal(b.labor) && b.partsTotal == B.PartsTotal(b.parts)
    requires b.shopFees == b.environmentalFees == b.taxTotal == 0
    requires b.grandTotal == b.laborTotal + b.partsTotal - b.discountTotal
    ensures TotalsFit(TotalsOf(b), LaborSum(LaborLines(b.labor)), PartSum(PartLines(b.parts)))
  {
    LaborSums(b.labor);
    PartSums(b.parts);
  }

  lemma {:induction false} BuiltIndices(b: B.Bundle, warranty: bool)
    requires B.Sound(b, warranty)
    ensures
      var items := ItemsOf(b);
      && FieldNames.Contiguous(LaborIndices(items.labor))
      && (forall i :: 0 <= i < |items.parts| ==> items.parts[i].labor in LaborIndices(items.labor))
      && forall i :: 0 <= i < |items.parts| ==> Contiguous(items.parts, items.parts[i].labor)
  {
    var items := ItemsOf(b);
    CountingIsContiguous(LaborIndices(items.labor));
    forall i | 0 <= i < |items.parts| ensures items.parts[i].labor in LaborIndices(items.labor) {
      assert LaborIndices(items.labor)[b.parts[i].labor - 1] == b.parts[i].labor;
    }
    forall i | 0 <= i < |items.parts| ensures Contiguous(items.parts, items.parts[i].labor) {
      SameIndices(b.parts, items.parts[i].labor);
      CountingIsContiguous(B.IndicesOn(b.parts, items.parts[i].labor));
    }
  }

  lemma {:induction false} BuiltAmounts(b: B.Bundle, warranty: bool)
    requires B.Sound(b, warranty)
    ensures
      var items := ItemsOf(b);
      && (forall i :: 0 <= i < |items.labor| ==> LaborLineFits(items.labor[i]))
      && (forall i :: 0 <= i < |items.parts| ==> PartLineFits(items.parts[i]))
  {
    forall i | 0 <= i < |b.labor| ensures LaborLineFits(ItemsOf(b).labor[i]) {
      LaborLineExact(b.labor[i]);
    }
    forall i | 0 <= i < |b.parts| ensures PartLineFits(ItemsOf(b).parts[i]) {
      PartLineExact(b.parts[i]);
    }
  }

  /** Valid by construction: whatever buildLineItems returns, validateLineItems accepts. */
  lemma {:induction false} BuiltIsAccepted(b: B.Bundle, warranty: bool)
    requires B.Sound(b, warranty)
    ensures FirstError(ItemsOf(b), RefsOf(b.parts)) == None
  {
    var items, refs := ItemsOf(b), RefsOf(b.parts);
    forall r | 0 <= r < |refs| ensures HasPart(items.parts, refs[r]) {
      assert Ref(items.parts[r].labor, items.parts[r].index) == refs[r];
    }
    BuiltIndices(b, warranty);
    BuiltAmounts(b, warranty);
    TotalsExact(b);
    AcceptedIffAcceptable(items, refs);
  }

  ghost predicate Contiguous(parts: seq<Part>, l: int) {
    FieldNames.Contiguous(PartIndices(parts, l))
  }
}
