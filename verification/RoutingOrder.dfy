/** Routing does not depend on the order of the fields, and sends each field to one payload. */
module RoutingOrder {
  import opened Prelude
  import opened FieldNames
  import opened RoSchema
  import opened FieldRouting
  import opened Permutations
  import opened RoutingLaws
  import opened SortedLines

  /** What a target says about the name of its leaf. */
  ghost predicate Named(sch: Schema, name: Result<Indexed, IndexError>, target: Target) {
    match target
    case ToPii(b) => name == Ok(Plain(b)) && b in sch.pii
    case ToHeader(b, _) => name == Ok(Plain(b)) && b in sch.det
    case ToLabor(b, l, _) => name == Ok(OfLabor(b, l)) && b in sch.det
    case ToPart(b, l, p, _) => name == Ok(OfPart(b, l, p)) && b in sch.det
    case ToSemantic => name.Ok? && name.value.Plain? && name.value.base in sch.sem
    case ToLaborSemantic(l) => name.Ok? && name.value == OfLabor(name.value.base, l) && name.value.base in sch.sem
    case ToPartSemantic(l, p) => name.Ok? && name.value == OfPart(name.value.base, l, p) && name.value.base in sch.sem
    case Unknown => true
  }

  ghost predicate Faithful(sch: Schema, parse: Namer, classify: Classifier) {
    forall leaf :: Placed(classify, leaf) ==> Named(sch, parse(leaf.path), classify(leaf).value)
  }

  lemma ClassifyIsFaithful(sch: Schema, readers: Readers)
    ensures Faithful(sch, readers.parseName, ClassifyBy(sch, readers))
  {
  }

  function NameOf(slot: Slot): Indexed {
    match slot
    case ListSlot(b) => Plain(b)
    case AddressSlot(b) => Plain(b)
    case HeaderSlot(b) => Plain(b)
    case LaborSlot(b, l) => OfLabor(b, l)
    case PartSlot(b, l, p) => OfPart(b, l, p)
  }

  function Names(parse: Namer): Leaf -> Result<Indexed, IndexError> {
    (leaf: Leaf) => parse(leaf.path)
  }

  lemma WriterHasName(sch: Schema, parse: Namer, classify: Classifier, leaf: Leaf, slot: Slot)
    requires Faithful(sch, parse, classify) && Writes(sch, classify, leaf, slot)
    ensures parse(leaf.path) == Ok(NameOf(slot))
  {
    assert Named(sch, parse(leaf.path), classify(leaf).value);
  }

  lemma NamesGiveSlots(sch: Schema, parse: Namer, classify: Classifier, leaves: seq<Leaf>)
    requires Faithful(sch, parse, classify) && Differ(Names(parse), leaves)
    ensures SlotsDiffer(sch, classify, leaves)
  {
    forall i, j, slot | 0 <= i < j < |leaves| && Writes(sch, classify, leaves[i], slot)
      ensures !Writes(sch, classify, leaves[j], slot)
    {
      assert Names(parse)(leaves[i]) != Names(parse)(leaves[j]);
      WriterHasName(sch, parse, classify, leaves[i], slot);
      if Writes(sch, classify, leaves[j], slot) {
        WriterHasName(sch, parse, classify, leaves[j], slot);
      }
    }
  }

  /** Whether a document is accepted does not depend on the order of its fields. */
  lemma {:induction false} AcceptanceIgnoresOrder(sch: Schema, classify: Classifier, a: seq<Leaf>, b: seq<Leaf>)
    requires multiset(a) == multiset(b) && Route(sch, classify, a).Ok?
    ensures Route(sch, classify, b).Ok?
  {
    AcceptedIff(sch, classify, a);
    AcceptedIff(sch, classify, b);
    assert Differ((leaf: Leaf) => leaf.path, a);
    DifferPermuted((leaf: Leaf) => leaf.path, a, b);
    forall i | 0 <= i < |b| ensures Placed(classify, b[i]) {
      SameElements(a, b, b[i]);
    }
    assert PathsDiffer(b) by {
      forall i, j | 0 <= i < j < |b| ensures b[i].path != b[j].path {
        assert ((leaf: Leaf) => leaf.path)(b[i]) != ((leaf: Leaf) => leaf.path)(b[j]);
      }
    }
  }

  lemma {:induction false} RouteIsRun(sch: Schema, classify: Classifier, leaves: seq<Leaf>)
    requires Route(sch, classify, leaves).Ok?
    ensures Run(sch, classify, START, leaves) == Route(sch, classify, leaves) && AllPlaced(classify, leaves)
  {
    AcceptedIff(sch, classify, leaves);
  }

  lemma {:induction false} SameCell(sch: Schema, classify: Classifier, a: seq<Leaf>, b: seq<Leaf>, slot: Slot)
    requires multiset(a) == multiset(b) && Route(sch, classify, a).Ok? && Route(sch, classify, b).Ok?
    requires SlotsDiffer(sch, classify, a) && SlotsDiffer(sch, classify, b)
    ensures Cell(Route(sch, classify, a).value, slot) == Cell(Route(sch, classify, b).value, slot)
  {
    RouteIsRun(sch, classify, a);
    RouteIsRun(sch, classify, b);
    if i :| 0 <= i < |a| && Writes(sch, classify, a[i], slot) {
      SameElements(a, b, a[i]);
      var j :| 0 <= j < |b| && b[j] == a[i];
      RunWrites(sch, classify, START, a, i, slot);
      RunWrites(sch, classify, START, b, j, slot);
    } else {
      forall j | 0 <= j < |b| ensures !Writes(sch, classify, b[j], slot) {
        SameElements(a, b, b[j]);
      }
      RunKeeps(sch, classify, START, a, slot);
      RunKeeps(sch, classify, START, b, slot);
    }
  }

  lemma {:induction false} SameKeys(sch: Schema, classify: Classifier, a: seq<Leaf>, b: seq<Leaf>, l: nat,
                                    key: (nat, nat))
    requires multiset(a) == multiset(b) && Route(sch, classify, a).Ok? && Route(sch, classify, b).Ok?
    ensures l in Route(sch, classify, a).value.labor ==> l in Route(sch, classify, b).value.labor
    ensures key in Route(sch, classify, a).value.parts ==> key in Route(sch, classify, b).value.parts
  {
    RouteIsRun(sch, classify, a);
    RouteIsRun(sch, classify, b);
    RunLines(sch, classify, START, a, l, key);
    RunLines(sch, classify, START, b, l, key);
    if i :| 0 <= i < |a| && Placed(classify, a[i]) && OnLabor(classify(a[i]).value, l) {
      SameElements(a, b, a[i]);
    }
    if i :| 0 <= i < |a| && Placed(classify, a[i]) && OnPart(classify(a[i]).value, key) {
      SameElements(a, b, a[i]);
    }
  }

  ghost predicate SameCells(x: Routed, y: Routed) {
    && (forall slot :: Cell(x, slot) == Cell(y, slot))
    && x.labor.Keys == y.labor.Keys
    && x.parts.Keys == y.parts.Keys
  }

  lemma CellsGiveHeader(x: Routed, y: Routed)
    requires SameCells(x, y)
    ensures x.header == y.header && x.pii.lists == y.pii.lists && x.pii.address == y.pii.address
  {
    forall b ensures (b in x.header <==> b in y.header) && (b in x.header ==> x.header[b] == y.header[b]) {
      assert Cell(x, HeaderSlot(b)) == Cell(y, HeaderSlot(b));
    }
    forall b
      ensures (b in x.pii.lists <==> b in y.pii.lists) && (b in x.pii.lists ==> x.pii.lists[b] == y.pii.lists[b])
    {
      assert Cell(x, ListSlot(b)) == Cell(y, ListSlot(b));
    }
    forall b
      ensures b in x.pii.address <==> b in y.pii.address
      ensures b in x.pii.address ==> x.pii.address[b] == y.pii.address[b]
    {
      assert Cell(x, AddressSlot(b)) == Cell(y, AddressSlot(b));
    }
  }

  lemma CellsGiveLines(x: Routed, y: Routed)
    requires SameCells(x, y)
    ensures x.labor == y.labor && x.parts == y.parts
  {
    forall l | l in x.labor ensures x.labor[l] == y.labor[l] {
      forall b ensures (b in x.labor[l] <==> b in y.labor[l]) && (b in x.labor[l] ==> x.labor[l][b] == y.labor[l][b]) {
        assert Cell(x, LaborSlot(b, l)) == Cell(y, LaborSlot(b, l));
      }
    }
    forall key | key in x.parts ensures x.parts[key] == y.parts[key] {
      forall b
        ensures b in x.parts[key] <==> b in y.parts[key]
        ensures b in x.parts[key] ==> x.parts[key][b] == y.parts[key][b]
      {
        assert Cell(x, PartSlot(b, key.0, key.1)) == Cell(y, PartSlot(b, key.0, key.1));
      }
    }
  }

  lemma {:induction false} SameCellsWhenPermuted(sch: Schema, parse: Namer, classify: Classifier, a: seq<Leaf>,
                                                 b: seq<Leaf>)
    requires Faithful(sch, parse, classify) && multiset(a) == multiset(b) && Differ(Names(parse), a)
    requires Route(sch, classify, a).Ok? && Route(sch, classify, b).Ok?
    ensures SameCells(Route(sch, classify, a).value, Route(sch, classify, b).value)
  {
    DifferPermuted(Names(parse), a, b);
    NamesGiveSlots(sch, parse, classify, a);
    NamesGiveSlots(sch, parse, classify, b);
    forall slot ensures Cell(Route(sch, classify, a).value, slot) == Cell(Route(sch, classify, b).value, slot) {
      SameCell(sch, classify, a, b, slot);
    }
    var x, y := Route(sch, classify, a).value, Route(sch, classify, b).value;
    forall l: nat ensures l in x.labor <==> l in y.labor {
      SameKeys(sch, classify, a, b, l, (0, 0));
      SameKeys(sch, classify, b, a, l, (0, 0));
    }
    forall key ensures key in x.parts <==> key in y.parts {
      SameKeys(sch, classify, a, b, 0, key);
      SameKeys(sch, classify, b, a, 0, key);
    }
  }

  /** The same fields in another order give the same deterministic payload, line by line, the
      same semantic entries in another order, and the same personal data up to the order in
      which the parts of the customer name are joined. */
  ghost predicate SameUpToOrder(sch: Schema, classify: Classifier, a: seq<Leaf>, b: seq<Leaf>, x: Payloads,
                                y: Payloads)
  {
    && x.header == y.header && x.laborLines == y.laborLines && x.partLines == y.partLines
    && multiset(x.semantic) == multiset(y.semantic)
    && (x.pii.Some? <==> y.pii.Some?)
    && (x.pii.Some? ==>
          && x.pii.value.lists == y.pii.value.lists && x.pii.value.address == y.pii.value.address
          && x.pii.value.customerName == JoinNames(None, Collected(NameTexts(sch, classify), a))
          && y.pii.value.customerName == JoinNames(None, Collected(NameTexts(sch, classify), b))
          && multiset(Collected(NameTexts(sch, classify), a)) == multiset(Collected(NameTexts(sch, classify), b)))
  }

  lemma {:induction false} JoinNamesSome(name: Option<string>, texts: seq<string>)
    ensures JoinNames(name, texts).Some? <==> name.Some? || texts != []
    decreases |texts|
  {
    if texts != [] {
      JoinNamesSome(Some(JoinName(name, texts[0])), texts[1..]);
    }
  }

  lemma {:induction false} SameListsAndNames(sch: Schema, classify: Classifier, a: seq<Leaf>, b: seq<Leaf>)
    requires multiset(a) == multiset(b) && Route(sch, classify, a).Ok? && Route(sch, classify, b).Ok?
    ensures multiset(Route(sch, classify, a).value.semantic) == multiset(Route(sch, classify, b).value.semantic)
    ensures
      var f := NameTexts(sch, classify);
      && Route(sch, classify, a).value.pii.customerName == JoinNames(None, Collected(f, a))
      && Route(sch, classify, b).value.pii.customerName == JoinNames(None, Collected(f, b))
      && multiset(Collected(f, a)) == multiset(Collected(f, b))
      && (Collected(f, a) == [] <==> Collected(f, b) == [])
  {
    RouteIsRun(sch, classify, a);
    RouteIsRun(sch, classify, b);
    RunSemantic(sch, classify, START, a);
    RunSemantic(sch, classify, START, b);
    assert forall s: seq<SemanticEntry> :: [] + s == s;
    CollectedPermuted(Entries(classify), a, b);
    RunName(sch, classify, START, a);
    RunName(sch, classify, START, b);
    var f := NameTexts(sch, classify);
    CollectedPermuted(f, a, b);
    assert |multiset(Collected(f, a))| == |Collected(f, a)| && |multiset(Collected(f, b))| == |Collected(f, b)|;
  }

  lemma SameLines(x: Routed, y: Routed, p: Payloads, q: Payloads)
    requires PayloadsOf(x, p) && PayloadsOf(y, q) && x.labor == y.labor && x.parts == y.parts
    ensures p.laborLines == q.laborLines && p.partLines == q.partLines
  {
    OrdersAreTotal();
    LinesAreUnique(NatBefore, p.laborLines, q.laborLines);
    LinesAreUnique(PairBefore, p.partLines, q.partLines);
  }

  lemma {:induction false} OrderDoesNotMatter(sch: Schema, parse: Namer, classify: Classifier, a: seq<Leaf>,
                                              b: seq<Leaf>, x: Payloads, y: Payloads)
    requires Faithful(sch, parse, classify) && multiset(a) == multiset(b) && Differ(Names(parse), a)
    requires Route(sch, classify, a).Ok? && PayloadsOf(Route(sch, classify, a).value, x)
    requires Route(sch, classify, b).Ok? && PayloadsOf(Route(sch, classify, b).value, y)
    ensures SameUpToOrder(sch, classify, a, b, x, y)
  {
    var ra, rb := Route(sch, classify, a).value, Route(sch, classify, b).value;
    SameCellsWhenPermuted(sch, parse, classify, a, b);
    CellsGiveHeader(ra, rb);
    CellsGiveLines(ra, rb);
    SameLines(ra, rb, x, y);
    SameListsAndNames(sch, classify, a, b);
    JoinNamesSome(None, Collected(NameTexts(sch, classify), a));
    JoinNamesSome(None, Collected(NameTexts(sch, classify), b));
  }

  /** The router, for a document and any permutation of its fields whose names parse to
      different (base, labor index, part index). */
  lemma {:induction false} RoutingIgnoresOrder(sch: Schema, readers: Readers, a: seq<Leaf>, b: seq<Leaf>,
                                               x: Payloads, y: Payloads)
    requires multiset(a) == multiset(b) && Differ(Names(readers.parseName), a)
    requires Route(sch, ClassifyBy(sch, readers), a).Ok?
    requires PayloadsOf(Route(sch, ClassifyBy(sch, readers), a).value, x)
    ensures Route(sch, ClassifyBy(sch, readers), b).Ok?
    ensures PayloadsOf(Route(sch, ClassifyBy(sch, readers), b).value, y) ==>
              SameUpToOrder(sch, ClassifyBy(sch, readers), a, b, x, y)
  {
    var classify := ClassifyBy(sch, readers);
    AcceptanceIgnoresOrder(sch, classify, a, b);
    ClassifyIsFaithful(sch, readers);
    if PayloadsOf(Route(sch, classify, b).value, y) {
      OrderDoesNotMatter(sch, readers.parseName, classify, a, b, x, y);
    }
  }
}
