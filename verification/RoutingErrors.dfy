/** Which error stops routing: the first field that is repeated or refused, or else all the
    unknown ones. */
module RoutingErrors {
  import opened Prelude
  import opened FieldNames
  import opened RoSchema
  import opened FieldRouting
  import opened Permutations
  import opened RoutingLaws

  predicate IsKnown(sch: Schema, base: string) {
    base in sch.pii + sch.det + sch.sem
  }

  /** Why a field is refused, by its name, the class of its base and its text. */
  ghost predicate Refuses(sch: Schema, readers: Readers, leaf: Leaf, e: RouteError) {
    match readers.parseName(leaf.path)
    case Err(_) => e == InvalidIndex
    case Ok(name) =>
      var b := name.base;
      match e
      case PiiIndexed => b in sch.pii && !name.Plain?
      case IndexedBaseInvalid => b in sch.det + sch.sem && !name.Plain? && b !in sch.labor + sch.part
      case PartIndexInvalid => name.OfPart? && b in sch.labor
      case LaborIndexInvalid => name.OfLabor? && b in sch.part
      case IndexRequired => name.Plain? && b in sch.labor + sch.part
      case NumberInvalid =>
        && b in sch.det
        && (if name.Plain? then b !in sch.labor + sch.part else if name.OfLabor? then b in sch.labor else b in sch.part)
        && ((b in sch.ints && readers.toInt(leaf.text) == None) ||
            (b in sch.numbers && readers.toNumber(leaf.text) == None))
      case _ => false
  }

  lemma {:induction false} ClassifyRefuses(sch: Schema, readers: Readers, leaf: Leaf, e: RouteError)
    requires ValidSchema(sch)
    ensures Classify(sch, readers, leaf) == Err(e) <==> Refuses(sch, readers, leaf, e)
  {
  }

  lemma {:induction false} ClassifyUnknown(sch: Schema, readers: Readers, leaf: Leaf)
    requires ValidSchema(sch)
    ensures
      Classify(sch, readers, leaf) == Ok(Unknown) <==>
      readers.parseName(leaf.path).Ok? && !IsKnown(sch, readers.parseName(leaf.path).value.base)
  {
  }

  // -- the first field that stops the loop --

  /** The field repeats the path of one before it. */
  ghost predicate Repeats(leaves: seq<Leaf>, i: nat) {
    i < |leaves| && exists j :: 0 <= j < i && leaves[j].path == leaves[i].path
  }

  /** The field at position i is the first that is repeated, here or among the paths seen before, or
      else refused with an error. */
  ghost predicate StopsFrom(classify: Classifier, seen: set<string>, leaves: seq<Leaf>, i: nat, e: RouteError) {
    && i < |leaves|
    && (forall j :: 0 <= j < i ==> leaves[j].path !in seen && !Repeats(leaves, j) && classify(leaves[j]).Ok?)
    && if leaves[i].path in seen || Repeats(leaves, i) then e == DuplicateField(leaves[i].path)
       else classify(leaves[i]) == Err(e)
  }

  lemma {:induction false} RepeatsOfTail(leaves: seq<Leaf>, j: nat)
    requires leaves != [] && j < |leaves| - 1
    ensures Repeats(leaves, j + 1) <==> leaves[j + 1].path == leaves[0].path || Repeats(leaves[1..], j)
  {
    var tail := leaves[1..];
    if Repeats(tail, j) {
      var k :| 0 <= k < j && tail[k].path == tail[j].path;
      assert leaves[k + 1].path == leaves[j + 1].path;
    }
    if Repeats(leaves, j + 1) {
      var k :| 0 <= k < j + 1 && leaves[k].path == leaves[j + 1].path;
      assert k > 0 ==> tail[k - 1].path == tail[j].path;
    }
  }

  lemma {:induction false} StopsOfTail(
    classify: Classifier, seen: set<string>, leaves: seq<Leaf>, i: nat, e: RouteError)
    requires leaves != [] && leaves[0].path !in seen && classify(leaves[0]).Ok?
    requires StopsFrom(classify, seen + {leaves[0].path}, leaves[1..], i, e)
    ensures StopsFrom(classify, seen, leaves, i + 1, e)
  {
    var tail := leaves[1..];
    forall j | 0 <= j < i + 1 ensures leaves[j].path !in seen && !Repeats(leaves, j) && classify(leaves[j]).Ok? {
      if j > 0 {
        RepeatsOfTail(leaves, j - 1);
        assert leaves[j] == tail[j - 1];
      }
    }
    RepeatsOfTail(leaves, i);
    assert leaves[i + 1] == tail[i];
  }

  lemma {:induction false} RunStops(sch: Schema, classify: Classifier, st: Routed, leaves: seq<Leaf>) returns (i: nat)
    requires Run(sch, classify, st, leaves).Err?
    ensures StopsFrom(classify, st.seen, leaves, i, Run(sch, classify, st, leaves).error)
    decreases |leaves|
  {
    var step := Step(sch, classify, st, leaves[0]);
    i := 0;
    if step.Ok? {
      assert step.value.seen == st.seen + {leaves[0].path};
      i := RunStops(sch, classify, step.value, leaves[1..]);
      StopsOfTail(classify, st.seen, leaves, i, Run(sch, classify, st, leaves).error);
      i := i + 1;
    }
  }

  // -- the unknown fields --

  function UnknownPath(classify: Classifier): Leaf -> seq<string> {
    (leaf: Leaf) => if classify(leaf) == Ok(Unknown) then [leaf.path] else []
  }

  lemma {:induction false} StepUnknownPath(sch: Schema, classify: Classifier, st: Routed, leaf: Leaf)
    requires Step(sch, classify, st, leaf).Ok?
    ensures Step(sch, classify, st, leaf).value.unknown == st.unknown + UnknownPath(classify)(leaf)
  {
    assert st.unknown + [] == st.unknown;
  }

  lemma {:induction false} RunUnknownPaths(sch: Schema, classify: Classifier, st: Routed, leaves: seq<Leaf>)
    requires Run(sch, classify, st, leaves).Ok?
    ensures Run(sch, classify, st, leaves).value.unknown == st.unknown + Collected(UnknownPath(classify), leaves)
    decreases |leaves|
  {
    if leaves == [] {
      assert st.unknown + [] == st.unknown;
    } else {
      StepUnknownPath(sch, classify, st, leaves[0]);
      RunUnknownPaths(sch, classify, Step(sch, classify, st, leaves[0]).value, leaves[1..]);
      Associates(st.unknown, UnknownPath(classify)(leaves[0]), Collected(UnknownPath(classify), leaves[1..]));
    }
  }

  /** The paths whose bases the schema does not know. */
  function UnknownOf(sch: Schema, parse: Namer): Leaf -> seq<string> {
    (leaf: Leaf) =>
      if parse(leaf.path).Ok? && parse(leaf.path).value.base !in sch.pii + sch.det + sch.sem then [leaf.path] else []
  }

  /** What a refused document reports: the field that stops the loop and why, or all unknown fields
      in document order. */
  ghost predicate Reports(sch: Schema, readers: Readers, leaves: seq<Leaf>, e: RouteError) {
    if e.FieldsUnknown? then
      e.fields == Collected(UnknownOf(sch, readers.parseName), leaves) != []
    else
      exists i: nat ::
        && i < |leaves| && (forall j, f :: 0 <= j < i ==> !Repeats(leaves, j) && !Refuses(sch, readers, leaves[j], f))
        && if Repeats(leaves, i) then e == DuplicateField(leaves[i].path) else Refuses(sch, readers, leaves[i], e)
  }

  lemma {:induction false} UnknownPathsAre(sch: Schema, readers: Readers, leaves: seq<Leaf>)
    requires ValidSchema(sch)
    ensures
      Collected(UnknownPath(ClassifyBy(sch, readers)), leaves) == Collected(UnknownOf(sch, readers.parseName), leaves)
  {
    var f, g := UnknownPath(ClassifyBy(sch, readers)), UnknownOf(sch, readers.parseName);
    forall i | 0 <= i < |leaves| ensures f(leaves[i]) == g(leaves[i]) {
      ClassifyUnknown(sch, readers, leaves[i]);
    }
    CollectedAlike(f, g, leaves);
  }

  lemma {:induction false} StopIsReported(sch: Schema, readers: Readers, leaves: seq<Leaf>, i: nat, e: RouteError)
    requires ValidSchema(sch) && StopsFrom(ClassifyBy(sch, readers), {}, leaves, i, e)
    ensures Reports(sch, readers, leaves, e)
  {
    forall j, f | 0 <= j < i ensures !Repeats(leaves, j) && !Refuses(sch, readers, leaves[j], f) {
      ClassifyRefuses(sch, readers, leaves[j], f);
    }
    ClassifyRefuses(sch, readers, leaves[i], e);
  }

  /** A refused document reports the first field that repeats a path or is refused for its name,
      its class or its text; when there is none it reports all unknown fields. */
  lemma {:induction false} RefusalIs(sch: Schema, readers: Readers, leaves: seq<Leaf>)
    requires ValidSchema(sch) && Route(sch, ClassifyBy(sch, readers), leaves).Err?
    ensures Reports(sch, readers, leaves, Route(sch, ClassifyBy(sch, readers), leaves).error)
  {
    var classify := ClassifyBy(sch, readers);
    if Run(sch, classify, START, leaves).Err? {
      var i := RunStops(sch, classify, START, leaves);
      StopIsReported(sch, readers, leaves, i, Run(sch, classify, START, leaves).error);
    } else {
      RunUnknownPaths(sch, classify, START, leaves);
      UnknownPathsAre(sch, readers, leaves);
      assert [] + Collected(UnknownPath(classify), leaves) == Collected(UnknownPath(classify), leaves);
    }
  }
}
