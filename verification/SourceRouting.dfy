/** The laws of routing for the source's own schema and readers: Schema V2 and
    parseIndexedFieldName, with any way of reading numbers. */
module SourceRouting {
  import opened Prelude
  import opened Text
  import opened FieldNames
  import opened RoSchema
  import opened FieldRouting
  import opened Permutations
  import opened RoutingLaws
  import opened RoutingOrder
  import opened RoutingPartition
  import LineItemValidation
  import RoutedLineItems

  /** The schema and the name parser of the source, with any way of reading numbers. */
  ghost predicate IsSource(sch: Schema, readers: Readers) {
    sch == V2 && readers.parseName == ParseIndexedFieldName
  }

  // -- names --

  /** A name whose last segment holds more than digits. */
  predicate EndsPlainly(b: string) {
    |b| >= 2 && (!IsDigit(b[|b| - 1]) || (!IsDigit(b[|b| - 2]) && b[|b| - 2] != '_'))
  }

  lemma {:induction false} PlainEndIsNoNumber(b: string)
    requires EndsPlainly(b)
    ensures !Numeric(LastSegment(b))
  {
    var r := LastUnderscore(b);
    var k := if IsDigit(b[|b| - 1]) then |b| - 2 else |b| - 1;
    if r < k {
      assert LastSegment(b)[k - r - 1] == b[k];
    } else {
      assert LastSegment(b) == "";
    }
  }

  lemma {:induction false} LaborBasesEndPlainly(b: string)
    requires b in LABOR_BASE_FIELDS
    ensures EndsPlainly(b)
  {
  }

  lemma {:induction false} PartBasesEndPlainly(b: string)
    requires b in PART_BASE_FIELDS
    ensures EndsPlainly(b)
  {
  }

  /** No labor or part field of Schema V2 ends in a numeric segment. */
  lemma {:induction false} LineFieldsEndPlainly(b: string)
    requires b in V2.labor + V2.part
    ensures !Numeric(LastSegment(b))
  {
    if b in V2.labor {
      LaborBasesEndPlainly(b);
    } else {
      PartBasesEndPlainly(b);
    }
    PlainEndIsNoNumber(b);
  }

  function NameText(name: Indexed): string {
    match name
    case Plain(b) => b
    case OfLabor(b, l) => b + "_" + Digits(l)
    case OfPart(b, l, p) => b + "_" + Digits(l) + "_" + Digits(p)
  }

  /** Every indexed name of Schema V2 is read back as it was printed. */
  lemma {:induction false} LineNamesReadBack(base: string, l: nat, p: nat)
    requires l > 0 && p > 0
    ensures base in V2.labor ==> ParseIndexedFieldName(NameText(OfLabor(base, l))) == Ok(OfLabor(base, l))
    ensures base in V2.part ==> ParseIndexedFieldName(NameText(OfPart(base, l, p))) == Ok(OfPart(base, l, p))
  {
    ParseDigits(l);
    ParseDigits(p);
    if base in V2.labor {
      LineFieldsEndPlainly(base);
      LaborNameReadBack(base, Digits(l));
    }
    PartNameReadBack(base, Digits(l), Digits(p));
  }

  /** The name is printed as it is read: its indices have no leading zeros. */
  ghost predicate Canonical(leaf: Leaf) {
    var name := ParseIndexedFieldName(leaf.path);
    name.Ok? ==> leaf.path == NameText(name.value)
  }

  // -- the laws --

  lemma {:induction false} SourceIsValid(sch: Schema, readers: Readers)
    requires IsSource(sch, readers)
    ensures ValidSchema(sch) && PositiveNames(readers.parseName) && readers.parseName == ParseIndexedFieldName
  {
    V2IsValid();
    ParsedIndicesArePositive();
  }

  /** Accepted are exactly the documents of differing names whose fields Schema V2 allows. */
  lemma {:induction false} SourceAccepts(sch: Schema, readers: Readers, leaves: seq<Leaf>)
    requires IsSource(sch, readers)
    ensures Route(sch, ClassifyBy(sch, readers), leaves).Ok? <==>
            PathsDiffer(leaves) && forall i :: 0 <= i < |leaves| ==> AllowedLeaf(sch, readers, leaves[i])
  {
    SourceIsValid(sch, readers);
    RouterAccepts(sch, readers, leaves);
  }

  /** Each field of an accepted document lands in exactly one payload. */
  lemma {:induction false} SourceLandsOnce(sch: Schema, readers: Readers, leaves: seq<Leaf>, i: nat)
    requires IsSource(sch, readers) && Route(sch, ClassifyBy(sch, readers), leaves).Ok? && i < |leaves|
    ensures
      var st := Route(sch, ClassifyBy(sch, readers), leaves).value;
      ExactlyOne(InPii(sch, ParseIndexedFieldName, st, leaves[i]),
                 InDeterministic(ParseIndexedFieldName, st, leaves[i]), InSemantic(st, leaves[i]))
  {
    SourceIsValid(sch, readers);
    LandsOnce(sch, readers, leaves, i);
  }

  lemma {:induction false} SourceNoPiiInSemantic(sch: Schema, readers: Readers, leaves: seq<Leaf>)
    requires IsSource(sch, readers) && Route(sch, ClassifyBy(sch, readers), leaves).Ok?
    ensures
      var semantic := Route(sch, ClassifyBy(sch, readers), leaves).value.semantic;
      forall k :: 0 <= k < |semantic| ==>
                    ParseIndexedFieldName(semantic[k].path).Ok? &&
                    ParseIndexedFieldName(semantic[k].path).value.base !in V2.pii
  {
    SourceIsValid(sch, readers);
    NoPiiInSemantic(sch, readers, leaves);
  }

  /** Names without leading zeros that differ also parse to different indexed names. */
  lemma {:induction false} CanonicalNamesDiffer(leaves: seq<Leaf>)
    requires PathsDiffer(leaves) && forall i :: 0 <= i < |leaves| ==> Canonical(leaves[i])
    requires forall i :: 0 <= i < |leaves| ==> ParseIndexedFieldName(leaves[i].path).Ok?
    ensures Differ(Names(ParseIndexedFieldName), leaves)
  {
    forall i, j | 0 <= i < j < |leaves|
      ensures Names(ParseIndexedFieldName)(leaves[i]) != Names(ParseIndexedFieldName)(leaves[j])
    {
      assert Canonical(leaves[i]) && Canonical(leaves[j]);
    }
  }

  lemma {:induction false} CanonicalIgnoresOrder(sch: Schema, readers: Readers, a: seq<Leaf>, b: seq<Leaf>,
                                                 x: Payloads, y: Payloads)
    requires ValidSchema(sch) && PositiveNames(readers.parseName) && readers.parseName == ParseIndexedFieldName
    requires multiset(a) == multiset(b) && forall i :: 0 <= i < |a| ==> Canonical(a[i])
    requires Route(sch, ClassifyBy(sch, readers), a).Ok?
    requires PayloadsOf(Route(sch, ClassifyBy(sch, readers), a).value, x)
    ensures Route(sch, ClassifyBy(sch, readers), b).Ok?
    ensures PayloadsOf(Route(sch, ClassifyBy(sch, readers), b).value, y) ==>
              SameUpToOrder(sch, ClassifyBy(sch, readers), a, b, x, y)
  {
    RouterAccepts(sch, readers, a);
    assert forall i :: 0 <= i < |a| ==> AllowedLeaf(sch, readers, a[i]);
    CanonicalNamesDiffer(a);
    RoutingIgnoresOrder(sch, readers, a, b, x, y);
  }

  /** A document whose indices have no leading zeros is routed alike in any order of its
      fields. */
  lemma {:induction false} SourceIgnoresOrder(sch: Schema, readers: Readers, a: seq<Leaf>, b: seq<Leaf>,
                                              x: Payloads, y: Payloads)
    requires IsSource(sch, readers)
    requires multiset(a) == multiset(b) && forall i :: 0 <= i < |a| ==> Canonical(a[i])
    requires Route(sch, ClassifyBy(sch, readers), a).Ok?
    requires PayloadsOf(Route(sch, ClassifyBy(sch, readers), a).value, x)
    ensures Route(sch, ClassifyBy(sch, readers), b).Ok?
    ensures PayloadsOf(Route(sch, ClassifyBy(sch, readers), b).value, y) ==>
              SameUpToOrder(sch, ClassifyBy(sch, readers), a, b, x, y)
  {
    SourceIsValid(sch, readers);
    CanonicalIgnoresOrder(sch, readers, a, b, x, y);
  }

  /** When line items routed with these readers, under any schema, pass validation, labor line i
      has index i + 1, and the parts of each labor line are numbered 1, 2, 3 .. in the order they
      are listed. */
  lemma {:induction false} SourceValidatedIndices(sch: Schema, readers: Readers, leaves: seq<Leaf>, out: Payloads,
                                                  refs: seq<LineItemValidation.Ref>)
    requires readers.parseName == ParseIndexedFieldName
    requires Route(sch, ClassifyBy(sch, readers), leaves).Ok?
    requires PayloadsOf(Route(sch, ClassifyBy(sch, readers), leaves).value, out)
    requires LineItemValidation.FirstError(RoutedLineItems.ItemsOf(out), refs) == None
    ensures forall i :: 0 <= i < |out.laborLines| ==> out.laborLines[i].key == i + 1
    ensures forall p :: 0 <= p < |out.partLines| ==> 1 <= out.partLines[p].key.0 <= |out.laborLines|
    ensures
      forall l, k ::
        var indices := LineItemValidation.PartIndices(RoutedLineItems.ItemsOf(out).parts, l);
        0 <= k < |indices| ==> indices[k] == k + 1
  {
    ParsedIndicesArePositive();
    RoutedLineItems.ValidatedIndices(sch, readers, leaves, out, refs);
  }
}
