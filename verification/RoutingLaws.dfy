/** What routing accepts and where every field ends up, for any classifier of fields. */
module RoutingLaws {
  import opened Prelude
  import opened RoSchema
  import opened FieldRouting
  import opened Permutations

  ghost predicate PathsDiffer(leaves: seq<Leaf>) {
    forall i, j :: 0 <= i < j < |leaves| ==> leaves[i].path != leaves[j].path
  }

  predicate Placed(classify: Classifier, leaf: Leaf) {
    classify(leaf).Ok? && !classify(leaf).value.Unknown?
  }

  // -- acceptance --

  ghost predicate Passes(classify: Classifier, st: Routed, leaves: seq<Leaf>) {
    PathsDiffer(leaves) && forall i :: 0 <= i < |leaves| ==> classify(leaves[i]).Ok? && leaves[i].path !in st.seen
  }

  lemma PathsDifferStep(leaves: seq<Leaf>)
    requires leaves != []
    ensures PathsDiffer(leaves) <==>
            PathsDiffer(leaves[1..]) && forall i :: 0 <= i < |leaves[1..]| ==> leaves[1..][i].path != leaves[0].path
  {
    var tail := leaves[1..];
    assert forall i :: 0 < i < |leaves| ==> leaves[i] == tail[i - 1];
  }

  lemma {:induction false} RunPasses(sch: Schema, classify: Classifier, st: Routed, leaves: seq<Leaf>)
    ensures Run(sch, classify, st, leaves).Ok? <==> Passes(classify, st, leaves)
    decreases |leaves|
  {
    if leaves != [] {
      var tail := leaves[1..];
      PathsDifferStep(leaves);
      assert forall i :: 0 < i < |leaves| ==> leaves[i] == tail[i - 1];
      var step := Step(sch, classify, st, leaves[0]);
      if step.Ok? {
        assert step.value.seen == st.seen + {leaves[0].path};
        RunPasses(sch, classify, step.value, tail);
      }
    }
  }

  lemma {:induction false} RunUnknown(sch: Schema, classify: Classifier, st: Routed, leaves: seq<Leaf>)
    requires Run(sch, classify, st, leaves).Ok? && forall i :: 0 <= i < |leaves| ==> classify(leaves[i]).Ok?
    ensures Run(sch, classify, st, leaves).value.unknown == [] <==>
            st.unknown == [] && forall i :: 0 <= i < |leaves| ==> Placed(classify, leaves[i])
    decreases |leaves|
  {
    if leaves != [] {
      var tail := leaves[1..];
      assert forall i :: 0 < i < |leaves| ==> leaves[i] == tail[i - 1];
      RunUnknown(sch, classify, Step(sch, classify, st, leaves[0]).value, tail);
    }
  }

  /** A document is accepted exactly when its names differ and every field can be placed. */
  lemma AcceptedIff(sch: Schema, classify: Classifier, leaves: seq<Leaf>)
    ensures Route(sch, classify, leaves).Ok? <==>
            PathsDiffer(leaves) && forall i :: 0 <= i < |leaves| ==> Placed(classify, leaves[i])
  {
    RunPasses(sch, classify, START, leaves);
    if Run(sch, classify, START, leaves).Ok? {
      RunUnknown(sch, classify, START, leaves);
    }
  }

  // -- where the values are --

  /** One place in the payloads. */
  datatype Slot =
    | ListSlot(base: string)
    | AddressSlot(base: string)
    | HeaderSlot(base: string)
    | LaborSlot(base: string, labor: nat)
    | PartSlot(base: string, labor: nat, part: nat)

  datatype Content = One(value: Value) | Listed(texts: seq<string>)

  function Cell(st: Routed, slot: Slot): Option<Content> {
    match slot
    case ListSlot(b) => if b in st.pii.lists then Some(Listed(st.pii.lists[b])) else None
    case AddressSlot(b) => if b in st.pii.address then Some(One(Word(st.pii.address[b]))) else None
    case HeaderSlot(b) => if b in st.header then Some(One(st.header[b])) else None
    case LaborSlot(b, l) => if l in st.labor && b in st.labor[l] then Some(One(st.labor[l][b])) else None
    case PartSlot(b, l, p) =>
      if (l, p) in st.parts && b in st.parts[(l, p)] then Some(One(st.parts[(l, p)][b])) else None
  }

  function SlotOf(sch: Schema, target: Target): Option<Slot> {
    match target
    case ToPii(b) =>
      if b in sch.names then None
      else if b in sch.lists then Some(ListSlot(b))
      else if b in sch.addresses then Some(AddressSlot(b))
      else None
    case ToHeader(b, _) => Some(HeaderSlot(b))
    case ToLabor(b, l, _) => Some(LaborSlot(b, l))
    case ToPart(b, l, p, _) => Some(PartSlot(b, l, p))
    case _ => None
  }

  function ContentOf(sch: Schema, leaf: Leaf, target: Target): Content {
    match target
    case ToPii(b) => if b in sch.lists then Listed([leaf.text]) else One(Word(leaf.text))
    case ToHeader(_, v) => One(v)
    case ToLabor(_, _, v) => One(v)
    case ToPart(_, _, _, v) => One(v)
    case _ => Listed([])
  }

  /** Storing a leaf writes its own slot and no other. */
  lemma {:induction false} StoreOtherCell(sch: Schema, st: Routed, leaf: Leaf, target: Target, slot: Slot)
    requires SlotOf(sch, target) != Some(slot)
    ensures Cell(Store(sch, st, leaf, target), slot) == Cell(st, slot)
  {
  }

  lemma {:induction false} StoreOwnCell(sch: Schema, st: Routed, leaf: Leaf, target: Target, slot: Slot)
    requires SlotOf(sch, target) == Some(slot)
    ensures Cell(Store(sch, st, leaf, target), slot).Some?
    ensures Cell(st, slot) == None ==> Cell(Store(sch, st, leaf, target), slot) == Some(ContentOf(sch, leaf, target))
  {
    assert [] + [leaf.text] == [leaf.text];
  }

  lemma {:induction false} StoreCell(sch: Schema, st: Routed, leaf: Leaf, target: Target, slot: Slot)
    ensures SlotOf(sch, target) != Some(slot) ==> Cell(Store(sch, st, leaf, target), slot) == Cell(st, slot)
    ensures SlotOf(sch, target) == Some(slot) ==> Cell(Store(sch, st, leaf, target), slot).Some?
    ensures SlotOf(sch, target) == Some(slot) && Cell(st, slot) == None ==>
              Cell(Store(sch, st, leaf, target), slot) == Some(ContentOf(sch, leaf, target))
  {
    if SlotOf(sch, target) == Some(slot) {
      StoreOwnCell(sch, st, leaf, target, slot);
    } else {
      StoreOtherCell(sch, st, leaf, target, slot);
    }
  }

  ghost predicate AllPlaced(classify: Classifier, leaves: seq<Leaf>) {
    forall i :: 0 <= i < |leaves| ==> Placed(classify, leaves[i])
  }

  ghost predicate Writes(sch: Schema, classify: Classifier, leaf: Leaf, slot: Slot) {
    Placed(classify, leaf) && SlotOf(sch, classify(leaf).value) == Some(slot)
  }

  ghost predicate SomeWrites(sch: Schema, classify: Classifier, leaves: seq<Leaf>, slot: Slot) {
    exists i :: 0 <= i < |leaves| && Writes(sch, classify, leaves[i], slot)
  }

  lemma SomeWritesStep(sch: Schema, classify: Classifier, leaves: seq<Leaf>, slot: Slot)
    requires leaves != []
    ensures SomeWrites(sch, classify, leaves, slot) <==>
            Writes(sch, classify, leaves[0], slot) || SomeWrites(sch, classify, leaves[1..], slot)
  {
    var tail := leaves[1..];
    assert forall i :: 0 < i < |leaves| ==> leaves[i] == tail[i - 1];
    if SomeWrites(sch, classify, tail, slot) {
      var i :| 0 <= i < |tail| && Writes(sch, classify, tail[i], slot);
      assert Writes(sch, classify, leaves[i + 1], slot);
    }
  }

  /** A slot is filled exactly when some leaf writes it. */
  lemma {:induction false} RunFills(sch: Schema, classify: Classifier, st: Routed, leaves: seq<Leaf>, slot: Slot)
    requires Run(sch, classify, st, leaves).Ok? && AllPlaced(classify, leaves)
    ensures Cell(Run(sch, classify, st, leaves).value, slot).Some? <==>
            Cell(st, slot).Some? || SomeWrites(sch, classify, leaves, slot)
    decreases |leaves|
  {
    if leaves != [] {
      var tail := leaves[1..];
      assert forall i :: 0 < i < |leaves| ==> leaves[i] == tail[i - 1];
      assert Placed(classify, leaves[0]);
      StoreCell(sch, st, leaves[0], classify(leaves[0]).value, slot);
      RunFills(sch, classify, Store(sch, st, leaves[0], classify(leaves[0]).value), tail, slot);
      SomeWritesStep(sch, classify, leaves, slot);
    }
  }

  ghost predicate SlotsDiffer(sch: Schema, classify: Classifier, leaves: seq<Leaf>) {
    forall i, j, slot :: 0 <= i < j < |leaves| && Writes(sch, classify, leaves[i], slot) ==>
                           !Writes(sch, classify, leaves[j], slot)
  }

  /** When no two leaves share a slot, it holds what its one leaf carries. */
  lemma {:induction false} RunWrites(sch: Schema, classify: Classifier, st: Routed, leaves: seq<Leaf>, i: nat,
                                     slot: Slot)
    requires Run(sch, classify, st, leaves).Ok? && AllPlaced(classify, leaves) && SlotsDiffer(sch, classify, leaves)
    requires i < |leaves| && Writes(sch, classify, leaves[i], slot) && Cell(st, slot) == None
    ensures Cell(Run(sch, classify, st, leaves).value, slot) ==
            Some(ContentOf(sch, leaves[i], classify(leaves[i]).value))
    decreases |leaves|
  {
    var tail, leaf := leaves[1..], leaves[0];
    assert forall j :: 0 < j < |leaves| ==> leaves[j] == tail[j - 1];
    assert Placed(classify, leaf);
    var next := Store(sch, st, leaf, classify(leaf).value);
    StoreCell(sch, st, leaf, classify(leaf).value, slot);
    if i == 0 {
      RunKeeps(sch, classify, next, tail, slot);
    } else {
      assert !Writes(sch, classify, leaf, slot);
      RunWrites(sch, classify, next, tail, i - 1, slot);
    }
  }

  /** A slot no leaf writes keeps its content. */
  lemma {:induction false} RunKeeps(sch: Schema, classify: Classifier, st: Routed, leaves: seq<Leaf>, slot: Slot)
    requires Run(sch, classify, st, leaves).Ok? && AllPlaced(classify, leaves)
    requires forall i :: 0 <= i < |leaves| ==> !Writes(sch, classify, leaves[i], slot)
    ensures Cell(Run(sch, classify, st, leaves).value, slot) == Cell(st, slot)
    decreases |leaves|
  {
    if leaves != [] {
      var tail, leaf := leaves[1..], leaves[0];
      assert forall j :: 0 < j < |leaves| ==> leaves[j] == tail[j - 1];
      assert Placed(classify, leaf);
      StoreCell(sch, st, leaf, classify(leaf).value, slot);
      RunKeeps(sch, classify, Store(sch, st, leaf, classify(leaf).value), tail, slot);
    }
  }

  // -- the lines, the semantic entries and the name --

  predicate OnLabor(target: Target, l: nat) {
    (target.ToLabor? || target.ToLaborSemantic?) && target.labor == l
  }

  predicate OnPart(target: Target, key: (nat, nat)) {
    (target.ToPart? || target.ToPartSemantic?) && (target.labor, target.part) == key
  }

  ghost predicate HasLabor(classify: Classifier, leaves: seq<Leaf>, l: nat) {
    exists i :: 0 <= i < |leaves| && Placed(classify, leaves[i]) && OnLabor(classify(leaves[i]).value, l)
  }

  ghost predicate HasPart(classify: Classifier, leaves: seq<Leaf>, key: (nat, nat)) {
    exists i :: 0 <= i < |leaves| && Placed(classify, leaves[i]) && OnPart(classify(leaves[i]).value, key)
  }

  lemma HasLaborStep(classify: Classifier, leaves: seq<Leaf>, l: nat)
    requires leaves != []
    ensures HasLabor(classify, leaves, l) <==>
            (Placed(classify, leaves[0]) && OnLabor(classify(leaves[0]).value, l)) || HasLabor(classify, leaves[1..], l)
  {
    var tail := leaves[1..];
    assert forall i :: 0 < i < |leaves| ==> leaves[i] == tail[i - 1];
    assert forall i :: 0 <= i < |tail| ==> tail[i] == leaves[i + 1];
  }

  lemma HasPartStep(classify: Classifier, leaves: seq<Leaf>, key: (nat, nat))
    requires leaves != []
    ensures HasPart(classify, leaves, key) <==>
            (Placed(classify, leaves[0]) && OnPart(classify(leaves[0]).value, key)) ||
            HasPart(classify, leaves[1..], key)
  {
    var tail := leaves[1..];
    assert forall i :: 0 < i < |leaves| ==> leaves[i] == tail[i - 1];
    assert forall i :: 0 <= i < |tail| ==> tail[i] == leaves[i + 1];
  }

  /** A line exists exactly when some leaf, semantic or not, carries its index. */
  lemma {:induction false} RunLines(sch: Schema, classify: Classifier, st: Routed, leaves: seq<Leaf>, l: nat,
                                    key: (nat, nat))
    requires Run(sch, classify, st, leaves).Ok? && AllPlaced(classify, leaves)
    ensures l in Run(sch, classify, st, leaves).value.labor <==> l in st.labor || HasLabor(classify, leaves, l)
    ensures key in Run(sch, classify, st, leaves).value.parts <==> key in st.parts || HasPart(classify, leaves, key)
    decreases |leaves|
  {
    if leaves != [] {
      var tail, leaf := leaves[1..], leaves[0];
      assert forall j :: 0 < j < |leaves| ==> leaves[j] == tail[j - 1];
      assert Placed(classify, leaf);
      HasLaborStep(classify, leaves, l);
      HasPartStep(classify, leaves, key);
      RunLines(sch, classify, Store(sch, st, leaf, classify(leaf).value), tail, l, key);
    }
  }

  function Entries(classify: Classifier): Leaf -> seq<SemanticEntry> {
    (leaf: Leaf) => if Placed(classify, leaf) then SemanticOf(leaf, classify(leaf).value) else []
  }

  function NameTexts(sch: Schema, classify: Classifier): Leaf -> seq<string> {
    (leaf: Leaf) =>
      if Placed(classify, leaf) && classify(leaf).value.ToPii? && classify(leaf).value.base in sch.names
      then [leaf.text] else []
  }

  function JoinNames(name: Option<string>, texts: seq<string>): Option<string>
    decreases |texts|
  {
    if texts == [] then name else JoinNames(Some(JoinName(name, texts[0])), texts[1..])
  }

  /** The semantic payload is the semantic leaves in document order. */
  lemma {:induction false} RunSemantic(sch: Schema, classify: Classifier, st: Routed, leaves: seq<Leaf>)
    requires Run(sch, classify, st, leaves).Ok? && AllPlaced(classify, leaves)
    ensures Run(sch, classify, st, leaves).value.semantic == st.semantic + Collected(Entries(classify), leaves)
    decreases |leaves|
  {
    if leaves == [] {
      assert st.semantic + [] == st.semantic;
    } else {
      var tail, leaf := leaves[1..], leaves[0];
      assert forall j :: 0 < j < |leaves| ==> leaves[j] == tail[j - 1];
      assert Placed(classify, leaf);
      var own, rest := SemanticOf(leaf, classify(leaf).value), Collected(Entries(classify), tail);
      RunSemantic(sch, classify, Store(sch, st, leaf, classify(leaf).value), tail);
      assert (st.semantic + own) + rest == st.semantic + (own + rest);
    }
  }

  lemma {:induction false} NameStep(sch: Schema, classify: Classifier, st: Routed, leaf: Leaf, rest: seq<string>)
    requires Placed(classify, leaf)
    ensures
      JoinNames(Store(sch, st, leaf, classify(leaf).value).pii.customerName, rest) ==
      JoinNames(st.pii.customerName, NameTexts(sch, classify)(leaf) + rest)
  {
    var own := NameTexts(sch, classify)(leaf);
    if own == [] {
      assert own + rest == rest;
    } else {
      assert (own + rest)[1..] == rest;
    }
  }

  /** The customer name is the name parts joined in document order. */
  lemma {:induction false} RunName(sch: Schema, classify: Classifier, st: Routed, leaves: seq<Leaf>)
    requires Run(sch, classify, st, leaves).Ok? && AllPlaced(classify, leaves)
    ensures Run(sch, classify, st, leaves).value.pii.customerName ==
            JoinNames(st.pii.customerName, Collected(NameTexts(sch, classify), leaves))
    decreases |leaves|
  {
    if leaves != [] {
      var tail, leaf := leaves[1..], leaves[0];
      assert forall j :: 0 < j < |leaves| ==> leaves[j] == tail[j - 1];
      assert Placed(classify, leaf);
      var rest := Collected(NameTexts(sch, classify), tail);
      RunName(sch, classify, Store(sch, st, leaf, classify(leaf).value), tail);
      NameStep(sch, classify, st, leaf, rest);
    }
  }
}
