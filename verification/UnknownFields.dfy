/** The unknown-field error at Schema V2: what it names and what it suggests. */
module UnknownFields {
  import opened Prelude
  import opened FieldNames
  import opened RoSchema
  import opened FieldRouting
  import opened ClosestMatches
  import opened SourceRouting
  import RoutingErrors

  /** A name that is read, and whose base the schema does not know. */
  predicate IsUnknown(sch: Schema, readers: Readers, field: string) {
    readers.parseName(field).Ok? && !RoutingErrors.IsKnown(sch, readers.parseName(field).value.base)
  }

  /** The unknown fields so far: all seen, no two alike, none of them known. */
  ghost predicate Collected(sch: Schema, readers: Readers, st: Routed) {
    && Distinct(st.unknown)
    && forall f :: f in st.unknown ==> f in st.seen && IsUnknown(sch, readers, f)
  }

  lemma {:induction false} StoreCollects(sch: Schema, readers: Readers, st: Routed, leaf: Leaf, target: Target)
    requires Collected(sch, readers, st) && leaf.path !in st.seen && Classify(sch, readers, leaf) == Ok(target)
    ensures Collected(sch, readers, Store(sch, st, leaf, target))
  {
    assert target.Unknown? ==> IsUnknown(sch, readers, leaf.path);
  }

  lemma {:induction false} RunCollects(sch: Schema, readers: Readers, st: Routed, leaves: seq<Leaf>)
    requires Collected(sch, readers, st)
    ensures
      var r := Run(sch, ClassifyBy(sch, readers), st, leaves);
      if r.Ok? then Collected(sch, readers, r.value) else !r.error.FieldsUnknown?
    decreases |leaves|
  {
    if leaves != [] {
      var next := Step(sch, ClassifyBy(sch, readers), st, leaves[0]);
      if next.Ok? {
        StoreCollects(sch, readers, st, leaves[0], ClassifyBy(sch, readers)(leaves[0]).value);
        RunCollects(sch, readers, next.value, leaves[1..]);
      }
    }
  }

  /** The error names unknown fields only, each once: removing duplicates changes nothing, and
      every name was parsed before. */
  lemma {:induction false} UnknownFieldsAreUnknown(sch: Schema, readers: Readers, leaves: seq<Leaf>,
                                                   fields: seq<string>)
    requires Route(sch, ClassifyBy(sch, readers), leaves) == Err(FieldsUnknown(fields))
    ensures fields != [] && Distinct(fields) && forall f :: f in fields ==> IsUnknown(sch, readers, f)
  {
    RunCollects(sch, readers, START, leaves);
  }

  lemma {:induction false} UnknownBases(sch: Schema, readers: Readers, fields: seq<string>)
    requires readers.parseName == ParseIndexedFieldName && forall f :: f in fields ==> IsUnknown(sch, readers, f)
    ensures
      var bases := BasesOf(fields);
      bases.Ok? && |bases.value| == |fields| && forall b :: b in bases.value ==> !RoutingErrors.IsKnown(sch, b)
  {
    assert forall i :: 0 <= i < |fields| ==> IsUnknown(sch, readers, fields[i]);
    BasesAre(fields);
  }

  /** The suggestions are always found: at most five known fields, none of them the base of a
      field complained of, and no known field left out is nearer. */
  lemma {:induction false} SuggestionsAreBest(sch: Schema, readers: Readers, leaves: seq<Leaf>, fields: seq<string>,
                                              before: Order, candidates: seq<string>)
    requires readers.parseName == ParseIndexedFieldName
    requires Route(sch, ClassifyBy(sch, readers), leaves) == Err(FieldsUnknown(fields))
    requires TotalOrder(before) && Distinct(candidates)
    requires forall x :: x in candidates <==> RoutingErrors.IsKnown(sch, x)
    ensures
      var bases := BasesOf(fields);
      && bases.Ok? && bases.value != [] && (forall b :: b in bases.value ==> !RoutingErrors.IsKnown(sch, b))
      && AreBest(bases.value, before, candidates, 5, Closest(bases.value, before, candidates, 5))
  {
    UnknownFieldsAreUnknown(sch, readers, leaves, fields);
    UnknownBases(sch, readers, fields);
    ClosestAreBest(BasesOf(fields).value, before, candidates, 5);
  }

  lemma VinIsKnown(sch: Schema)
    requires sch == V2
    ensures RoutingErrors.IsKnown(sch, "VIN")
  {
  }

  /** At Schema V2 there is always a suggestion. */
  lemma {:induction false} SourceSuggests(sch: Schema, readers: Readers, leaves: seq<Leaf>, fields: seq<string>,
                                          before: Order, candidates: seq<string>)
    requires IsSource(sch, readers) && Route(sch, ClassifyBy(sch, readers), leaves) == Err(FieldsUnknown(fields))
    requires TotalOrder(before) && Distinct(candidates)
    requires forall x :: x in candidates <==> RoutingErrors.IsKnown(sch, x)
    ensures BasesOf(fields).Ok? && Closest(BasesOf(fields).value, before, candidates, 5) != []
  {
    SourceIsValid(sch, readers);
    SuggestionsAreBest(sch, readers, leaves, fields, before, candidates);
    VinIsKnown(sch);
  }
}
