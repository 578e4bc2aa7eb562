/** Every field of an accepted document lands in exactly one payload. */
module RoutingPartition {
  import opened Prelude
  import opened FieldNames
  import opened RoSchema
  import opened FieldRouting
  import opened Permutations
  import opened RoutingLaws
  import opened RoutingOrder
  import opened SortedLines

  lemma {:induction false} CollectedMember<T(!new), X(!new)>(f: T -> seq<X>, s: seq<T>, x: X)
    ensures x in Collected(f, s) <==> exists i :: 0 <= i < |s| && x in f(s[i])
    decreases |s|
  {
    if s != [] {
      CollectedMember(f, s[1..], x);
      assert forall i :: 0 < i < |s| ==> s[i] == s[1..][i - 1];
      if i :| 0 <= i < |s[1..]| && x in f(s[1..][i]) {
        assert x in f(s[i + 1]);
      }
    }
  }

  /** The fields the schema allows: labor and part fields with an index of their kind, all
      others without, and numbers where numbers are due. */
  predicate Allowed(sch: Schema, readers: Readers, name: Indexed, text: string) {
    && (name.base in sch.ints ==> readers.toInt(text).Some?)
    && (name.base in sch.numbers ==> readers.toNumber(text).Some?)
    && match name
       case Plain(b) => b in sch.pii + sch.det + sch.sem && b !in sch.labor + sch.part
       case OfLabor(b, _) => b in sch.labor
       case OfPart(b, _, _) => b in sch.part
  }

  lemma AllowedIff(sch: Schema, readers: Readers, name: Indexed, text: string)
    requires ValidSchema(sch)
    ensures
      var c := ClassifyName(sch, readers, name, text);
      c.Ok? && !c.value.Unknown? <==> Allowed(sch, readers, name, text)
  {
  }

  ghost predicate AllowedLeaf(sch: Schema, readers: Readers, leaf: Leaf) {
    var name := readers.parseName(leaf.path);
    name.Ok? && Allowed(sch, readers, name.value, leaf.text)
  }

  lemma PlacedIff(sch: Schema, readers: Readers, leaf: Leaf)
    requires ValidSchema(sch)
    ensures Placed(ClassifyBy(sch, readers), leaf) <==> AllowedLeaf(sch, readers, leaf)
  {
    var name := readers.parseName(leaf.path);
    if name.Ok? {
      AllowedIff(sch, readers, name.value, leaf.text);
    }
  }

  /** The router accepts exactly the documents whose field names differ and whose fields the
      schema all allows. */
  lemma {:induction false} RouterAccepts(sch: Schema, readers: Readers, leaves: seq<Leaf>)
    requires ValidSchema(sch)
    ensures Route(sch, ClassifyBy(sch, readers), leaves).Ok? <==>
            PathsDiffer(leaves) && forall i :: 0 <= i < |leaves| ==> AllowedLeaf(sch, readers, leaves[i])
  {
    AcceptedIff(sch, ClassifyBy(sch, readers), leaves);
    forall i | 0 <= i < |leaves|
      ensures Placed(ClassifyBy(sch, readers), leaves[i]) <==> AllowedLeaf(sch, readers, leaves[i])
    {
      PlacedIff(sch, readers, leaves[i]);
    }
  }

  /** The field is among the personal data. */
  ghost predicate InPii(sch: Schema, parse: Namer, st: Routed, leaf: Leaf) {
    && parse(leaf.path).Ok? && parse(leaf.path).value.Plain?
    && var b := parse(leaf.path).value.base;
       || b in st.pii.lists
       || b in st.pii.address
       || (b in sch.names && st.pii.customerName.Some?)
  }

  /** The field is among the header values or on its labor or part line. */
  ghost predicate InDeterministic(parse: Namer, st: Routed, leaf: Leaf) {
    parse(leaf.path).Ok? &&
    match parse(leaf.path).value
    case Plain(b) => b in st.header
    case OfLabor(b, l) => l in st.labor && b in st.labor[l]
    case OfPart(b, l, p) => (l, p) in st.parts && b in st.parts[(l, p)]
  }

  /** There is a semantic entry for the field. */
  ghost predicate InSemantic(st: Routed, leaf: Leaf) {
    exists k :: 0 <= k < |st.semantic| && st.semantic[k].path == leaf.path
  }

  lemma {:induction false} Filled(sch: Schema, classify: Classifier, leaves: seq<Leaf>, slot: Slot)
    requires Route(sch, classify, leaves).Ok?
    ensures Cell(Route(sch, classify, leaves).value, slot).Some? <==> SomeWrites(sch, classify, leaves, slot)
  {
    RouteIsRun(sch, classify, leaves);
    RunFills(sch, classify, START, leaves, slot);
  }

  /** A filled slot is personal or deterministic as its base is. */
  lemma {:induction false} FilledBase(sch: Schema, parse: Namer, classify: Classifier, leaves: seq<Leaf>, slot: Slot)
    requires Faithful(sch, parse, classify) && Route(sch, classify, leaves).Ok?
    requires Cell(Route(sch, classify, leaves).value, slot).Some?
    ensures slot.base in (if slot.ListSlot? || slot.AddressSlot? then sch.pii else sch.det)
  {
    Filled(sch, classify, leaves, slot);
    var i :| 0 <= i < |leaves| && Writes(sch, classify, leaves[i], slot);
    assert Named(sch, parse(leaves[i].path), classify(leaves[i]).value);
  }

  lemma {:induction false} WriterFills(sch: Schema, classify: Classifier, leaves: seq<Leaf>, i: nat, slot: Slot)
    requires Route(sch, classify, leaves).Ok? && i < |leaves| && Writes(sch, classify, leaves[i], slot)
    ensures Cell(Route(sch, classify, leaves).value, slot).Some?
  {
    Filled(sch, classify, leaves, slot);
  }

  /** The semantic entries are those of the semantic leaves. */
  lemma SemanticEntryLeaf(sch: Schema, classify: Classifier, leaves: seq<Leaf>, e: SemanticEntry)
    requires Route(sch, classify, leaves).Ok?
    ensures e in Route(sch, classify, leaves).value.semantic <==>
            exists i :: 0 <= i < |leaves| && e in Entries(classify)(leaves[i])
  {
    RouteIsRun(sch, classify, leaves);
    RunSemantic(sch, classify, START, leaves);
    assert Route(sch, classify, leaves).value.semantic == Collected(Entries(classify), leaves);
    CollectedMember(Entries(classify), leaves, e);
  }

  predicate Semantic(target: Target) {
    target.ToSemantic? || target.ToLaborSemantic? || target.ToPartSemantic?
  }

  /** A semantic entry under the path of a field is the entry of that field. */
  lemma EntryOfLeaf(sch: Schema, classify: Classifier, leaves: seq<Leaf>, i: nat, e: SemanticEntry)
    requires Route(sch, classify, leaves).Ok? && i < |leaves|
    requires e in Route(sch, classify, leaves).value.semantic && e.path == leaves[i].path
    ensures e in Entries(classify)(leaves[i])
  {
    AcceptedIff(sch, classify, leaves);
    SemanticEntryLeaf(sch, classify, leaves, e);
    var j :| 0 <= j < |leaves| && e in Entries(classify)(leaves[j]);
    assert leaves[j].path == leaves[i].path;
    assert j == i;
  }

  lemma InSemanticIff(sch: Schema, classify: Classifier, leaves: seq<Leaf>, i: nat)
    requires Route(sch, classify, leaves).Ok? && i < |leaves|
    ensures Placed(classify, leaves[i])
    ensures InSemantic(Route(sch, classify, leaves).value, leaves[i]) <==> Semantic(classify(leaves[i]).value)
  {
    AcceptedIff(sch, classify, leaves);
    var st, target := Route(sch, classify, leaves).value, classify(leaves[i]).value;
    if Semantic(target) {
      var e := SemanticOf(leaves[i], target)[0];
      assert e in Entries(classify)(leaves[i]);
      SemanticEntryLeaf(sch, classify, leaves, e);
    }
    if k :| 0 <= k < |st.semantic| && st.semantic[k].path == leaves[i].path {
      EntryOfLeaf(sch, classify, leaves, i, st.semantic[k]);
    }
  }

  lemma {:induction false} InDeterministicIff(sch: Schema, parse: Namer, classify: Classifier, leaves: seq<Leaf>,
                                              i: nat)
    requires ValidSchema(sch) && Faithful(sch, parse, classify)
    requires Route(sch, classify, leaves).Ok? && i < |leaves| && Placed(classify, leaves[i])
    ensures
      var t := classify(leaves[i]).value;
      InDeterministic(parse, Route(sch, classify, leaves).value, leaves[i]) <==> t.ToHeader? || t.ToLabor? || t.ToPart?
  {
    var leaf, st := leaves[i], Route(sch, classify, leaves).value;
    var t := classify(leaf).value;
    assert Named(sch, parse(leaf.path), t);
    if t.ToHeader? || t.ToLabor? || t.ToPart? {
      WriterFills(sch, classify, leaves, i, SlotOf(sch, t).value);
    }
    if InDeterministic(parse, st, leaf) {
      var slot := match parse(leaf.path).value
        case Plain(b) => HeaderSlot(b)
        case OfLabor(b, l) => LaborSlot(b, l)
        case OfPart(b, l, p) => PartSlot(b, l, p);
      FilledBase(sch, parse, classify, leaves, slot);
    }
  }

  lemma NameIsKept(sch: Schema, classify: Classifier, leaves: seq<Leaf>, i: nat)
    requires Route(sch, classify, leaves).Ok? && i < |leaves| && Placed(classify, leaves[i])
    requires classify(leaves[i]).value.ToPii? && classify(leaves[i]).value.base in sch.names
    ensures Route(sch, classify, leaves).value.pii.customerName.Some?
  {
    RouteIsRun(sch, classify, leaves);
    RunName(sch, classify, START, leaves);
    var f := NameTexts(sch, classify);
    assert leaves[i].text in f(leaves[i]);
    CollectedMember(f, leaves, leaves[i].text);
    JoinNamesSome(None, Collected(f, leaves));
  }

  lemma {:induction false} InPiiIff(sch: Schema, parse: Namer, classify: Classifier, leaves: seq<Leaf>, i: nat)
    requires ValidSchema(sch) && Faithful(sch, parse, classify)
    requires Route(sch, classify, leaves).Ok? && i < |leaves| && Placed(classify, leaves[i])
    ensures InPii(sch, parse, Route(sch, classify, leaves).value, leaves[i]) <==> classify(leaves[i]).value.ToPii?
  {
    var leaf, st := leaves[i], Route(sch, classify, leaves).value;
    var t := classify(leaf).value;
    assert Named(sch, parse(leaf.path), t);
    if t.ToPii? {
      if t.base in sch.names {
        NameIsKept(sch, classify, leaves, i);
      } else {
        WriterFills(sch, classify, leaves, i, SlotOf(sch, t).value);
      }
    }
    if InPii(sch, parse, st, leaf) {
      var b := parse(leaf.path).value.base;
      if b in st.pii.lists {
        FilledBase(sch, parse, classify, leaves, ListSlot(b));
      } else if b in st.pii.address {
        FilledBase(sch, parse, classify, leaves, AddressSlot(b));
      }
    }
  }

  ghost predicate ExactlyOne(a: bool, b: bool, c: bool) {
    (a && !b && !c) || (!a && b && !c) || (!a && !b && c)
  }

  /** Each field of an accepted document is in one of the three payloads and in no other. */
  lemma {:induction false} LandsOnce(sch: Schema, readers: Readers, leaves: seq<Leaf>, i: nat)
    requires ValidSchema(sch) && i < |leaves|
    requires Route(sch, ClassifyBy(sch, readers), leaves).Ok?
    ensures
      var st := Route(sch, ClassifyBy(sch, readers), leaves).value;
      ExactlyOne(InPii(sch, readers.parseName, st, leaves[i]),
                 InDeterministic(readers.parseName, st, leaves[i]),
                 InSemantic(st, leaves[i]))
  {
    ClassifyIsFaithful(sch, readers);
    LandsOnceWith(sch, readers.parseName, ClassifyBy(sch, readers), leaves, i);
  }

  lemma {:induction false} LandsOnceWith(sch: Schema, parse: Namer, classify: Classifier, leaves: seq<Leaf>, i: nat)
    requires ValidSchema(sch) && Faithful(sch, parse, classify) && i < |leaves| && Route(sch, classify, leaves).Ok?
    ensures
      var st := Route(sch, classify, leaves).value;
      ExactlyOne(InPii(sch, parse, st, leaves[i]), InDeterministic(parse, st, leaves[i]), InSemantic(st, leaves[i]))
  {
    InSemanticIff(sch, classify, leaves, i);
    InDeterministicIff(sch, parse, classify, leaves, i);
    InPiiIff(sch, parse, classify, leaves, i);
  }

  /** Under different names, a deterministic or listed value is stored as it was read. */
  lemma {:induction false} StoredAsRead(sch: Schema, readers: Readers, leaves: seq<Leaf>, i: nat, slot: Slot)
    requires Differ(Names(readers.parseName), leaves) && i < |leaves|
    requires Route(sch, ClassifyBy(sch, readers), leaves).Ok?
    requires Writes(sch, ClassifyBy(sch, readers), leaves[i], slot)
    ensures Cell(Route(sch, ClassifyBy(sch, readers), leaves).value, slot) ==
            Some(ContentOf(sch, leaves[i], Classify(sch, readers, leaves[i]).value))
  {
    var classify := ClassifyBy(sch, readers);
    ClassifyIsFaithful(sch, readers);
    RouteIsRun(sch, classify, leaves);
    NamesGiveSlots(sch, readers.parseName, classify, leaves);
    RunWrites(sch, classify, START, leaves, i, slot);
  }

  lemma {:induction false} SemanticIsNotPii(sch: Schema, parse: Namer, classify: Classifier, leaves: seq<Leaf>, k: nat)
    requires ValidSchema(sch) && Faithful(sch, parse, classify) && Route(sch, classify, leaves).Ok?
    requires k < |Route(sch, classify, leaves).value.semantic|
    ensures
      var name := parse(Route(sch, classify, leaves).value.semantic[k].path);
      name.Ok? && name.value.base !in sch.pii
  {
    var e := Route(sch, classify, leaves).value.semantic[k];
    SemanticEntryLeaf(sch, classify, leaves, e);
    var i :| 0 <= i < |leaves| && e in Entries(classify)(leaves[i]);
    assert Named(sch, parse(leaves[i].path), classify(leaves[i]).value);
  }

  /** assertNoPiiInSemantic never fires on what was routed: every entry has a name that can be
      parsed and a base that is not personal. */
  lemma {:induction false} NoPiiInSemantic(sch: Schema, readers: Readers, leaves: seq<Leaf>)
    requires ValidSchema(sch) && Route(sch, ClassifyBy(sch, readers), leaves).Ok?
    ensures
      var semantic := Route(sch, ClassifyBy(sch, readers), leaves).value.semantic;
      forall k :: 0 <= k < |semantic| ==>
                    readers.parseName(semantic[k].path).Ok? &&
                    readers.parseName(semantic[k].path).value.base !in sch.pii
  {
    var classify := ClassifyBy(sch, readers);
    ClassifyIsFaithful(sch, readers);
    var semantic := Route(sch, classify, leaves).value.semantic;
    forall k | 0 <= k < |semantic|
      ensures
        readers.parseName(semantic[k].path).Ok? && readers.parseName(semantic[k].path).value.base !in sch.pii
    {
      SemanticIsNotPii(sch, readers.parseName, classify, leaves, k);
    }
  }

  /** Every semantic entry of a part has its part line, so no description is orphaned. */
  lemma {:induction false} PartEntriesHaveLines(sch: Schema, classify: Classifier, leaves: seq<Leaf>, out: Payloads,
                                                k: nat)
    requires Route(sch, classify, leaves).Ok? && PayloadsOf(Route(sch, classify, leaves).value, out)
    requires k < |out.semantic| && out.semantic[k].part.Some?
    ensures out.semantic[k].labor.Some?
    ensures exists j :: 0 <= j < |out.partLines| &&
                        out.partLines[j].key == (out.semantic[k].labor.value, out.semantic[k].part.value)
  {
    var st, e := Route(sch, classify, leaves).value, out.semantic[k];
    SemanticEntryLeaf(sch, classify, leaves, e);
    var i :| 0 <= i < |leaves| && e in Entries(classify)(leaves[i]);
    var key := (e.labor.value, e.part.value);
    RouteIsRun(sch, classify, leaves);
    RunLines(sch, classify, START, leaves, 0, key);
    assert OnPart(classify(leaves[i]).value, key);
    assert Line(key, st.parts[key]) in out.partLines;
  }

  predicate Positive(name: Indexed) {
    match name
    case Plain(_) => true
    case OfLabor(_, l) => l > 0
    case OfPart(_, l, p) => l > 0 && p > 0
  }

  ghost predicate PositiveNames(parse: Namer) {
    forall n :: parse(n).Ok? ==> Positive(parse(n).value)
  }

  lemma ParsedIndicesArePositive()
    ensures PositiveNames(ParseIndexedFieldName)
  {
  }

  lemma {:induction false} LinesArePositive(sch: Schema, parse: Namer, classify: Classifier, leaves: seq<Leaf>,
                                            l: nat, key: (nat, nat))
    requires Faithful(sch, parse, classify) && PositiveNames(parse) && Route(sch, classify, leaves).Ok?
    ensures l in Route(sch, classify, leaves).value.labor ==> l > 0
    ensures key in Route(sch, classify, leaves).value.parts ==> key.0 > 0 && key.1 > 0
  {
    RouteIsRun(sch, classify, leaves);
    RunLines(sch, classify, START, leaves, l, key);
    if j :| 0 <= j < |leaves| && Placed(classify, leaves[j]) && OnLabor(classify(leaves[j]).value, l) {
      assert Named(sch, parse(leaves[j].path), classify(leaves[j]).value);
    }
    if j :| 0 <= j < |leaves| && Placed(classify, leaves[j]) && OnPart(classify(leaves[j]).value, key) {
      assert Named(sch, parse(leaves[j].path), classify(leaves[j]).value);
    }
  }

  ghost predicate WellIndexed(out: Payloads) {
    && Increasing(NatBefore, out.laborLines) && Increasing(PairBefore, out.partLines)
    && (forall i :: 0 <= i < |out.laborLines| ==> out.laborLines[i].key > 0)
    && (forall i :: 0 <= i < |out.partLines| ==> out.partLines[i].key.0 > 0 && out.partLines[i].key.1 > 0)
  }

  lemma {:induction false} LinesAreIndexedWith(sch: Schema, parse: Namer, classify: Classifier, leaves: seq<Leaf>,
                                               out: Payloads)
    requires Faithful(sch, parse, classify) && PositiveNames(parse)
    requires Route(sch, classify, leaves).Ok? && PayloadsOf(Route(sch, classify, leaves).value, out)
    ensures WellIndexed(out)
  {
    forall i | 0 <= i < |out.laborLines| ensures out.laborLines[i].key > 0 {
      assert out.laborLines[i] in out.laborLines;
      LinesArePositive(sch, parse, classify, leaves, out.laborLines[i].key, (0, 0));
    }
    forall i | 0 <= i < |out.partLines| ensures out.partLines[i].key.0 > 0 && out.partLines[i].key.1 > 0 {
      assert out.partLines[i] in out.partLines;
      LinesArePositive(sch, parse, classify, leaves, 0, out.partLines[i].key);
    }
  }

  /** The lines come in strictly increasing order of their indices, which are all positive. */
  lemma {:induction false} LinesAreIndexed(sch: Schema, readers: Readers, leaves: seq<Leaf>, out: Payloads)
    requires PositiveNames(readers.parseName)
    requires Route(sch, ClassifyBy(sch, readers), leaves).Ok?
    requires PayloadsOf(Route(sch, ClassifyBy(sch, readers), leaves).value, out)
    ensures WellIndexed(out)
  {
    ClassifyIsFaithful(sch, readers);
    LinesAreIndexedWith(sch, readers.parseName, ClassifyBy(sch, readers), leaves, out);
  }
}
