/** What the payloads of an accepted document hold, in terms of the names and texts of its fields. */
module RoutedValues {
  import opened Prelude
  import opened Text
  import opened FieldNames
  import opened RoSchema
  import opened FieldRouting
  import opened Permutations
  import opened SortedLines
  import opened RoutingLaws
  import opened RoutingOrder
  import opened RoutingPartition

  /** How a deterministic field keeps its text: as the number it reads as, or word for word. */
  predicate IsValue(sch: Schema, readers: Readers, base: string, text: string, v: Value) {
    && (base in sch.ints ==> readers.toInt(text).Some? && v == Num(readers.toInt(text).value))
    && (base in sch.numbers ==> readers.toNumber(text).Some? && v == Num(readers.toNumber(text).value))
    && (base !in sch.ints + sch.numbers ==> v == Word(text))
  }

  // -- where a field goes --

  /** The target of a field that can be placed, by its name and the class of its base. */
  ghost predicate TargetFits(sch: Schema, readers: Readers, leaf: Leaf, target: Target) {
    && readers.parseName(leaf.path).Ok?
    && match readers.parseName(leaf.path).value
       case Plain(b) =>
         && (b in sch.pii ==> target == ToPii(b))
         && (b in sch.det ==>
               target.ToHeader? && target.base == b && IsValue(sch, readers, b, leaf.text, target.value))
         && (b in sch.sem ==> target == ToSemantic)
       case OfLabor(b, l) =>
         && (b in sch.det ==>
               && target.ToLabor? && target.base == b && target.labor == l
               && IsValue(sch, readers, b, leaf.text, target.value))
         && (b in sch.sem ==> target == ToLaborSemantic(l))
         && b in sch.det + sch.sem
       case OfPart(b, l, p) =>
         && (b in sch.det ==>
               && target.ToPart? && target.base == b && target.labor == l && target.part == p
               && IsValue(sch, readers, b, leaf.text, target.value))
         && (b in sch.sem ==> target == ToPartSemantic(l, p))
         && b in sch.det + sch.sem
  }

  ghost predicate Fits(sch: Schema, readers: Readers, classify: Classifier) {
    forall leaf :: Placed(classify, leaf) ==> TargetFits(sch, readers, leaf, classify(leaf).value)
  }

  lemma {:induction false} TargetIs(sch: Schema, readers: Readers, leaf: Leaf)
    requires ValidSchema(sch) && Placed(ClassifyBy(sch, readers), leaf)
    ensures TargetFits(sch, readers, leaf, Classify(sch, readers, leaf).value)
  {
  }

  lemma {:induction false} ClassifyFits(sch: Schema, readers: Readers)
    requires ValidSchema(sch)
    ensures Fits(sch, readers, ClassifyBy(sch, readers))
  {
    forall leaf | Placed(ClassifyBy(sch, readers), leaf)
      ensures TargetFits(sch, readers, leaf, ClassifyBy(sch, readers)(leaf).value)
    {
      TargetIs(sch, readers, leaf);
    }
  }

  // -- the values --

  /** The value of the field stands in its place. */
  ghost predicate ValueStands(sch: Schema, readers: Readers, leaf: Leaf, out: Payloads) {
    && readers.parseName(leaf.path).Ok?
    && match readers.parseName(leaf.path).value
       case Plain(b) =>
         && (b in sch.det ==> b in out.header && IsValue(sch, readers, b, leaf.text, out.header[b]))
         && (b in sch.lists ==>
               out.pii.Some? && b in out.pii.value.lists && out.pii.value.lists[b] == [leaf.text])
         && (b in sch.addresses ==>
               out.pii.Some? && b in out.pii.value.address && out.pii.value.address[b] == leaf.text)
       case OfLabor(b, l) =>
         b in sch.det ==>
           exists i :: && 0 <= i < |out.laborLines| && out.laborLines[i].key == l && b in out.laborLines[i].cells
                       && IsValue(sch, readers, b, leaf.text, out.laborLines[i].cells[b])
       case OfPart(b, l, p) =>
         b in sch.det ==>
           exists i :: && 0 <= i < |out.partLines| && out.partLines[i].key == (l, p) && b in out.partLines[i].cells
                       && IsValue(sch, readers, b, leaf.text, out.partLines[i].cells[b])
  }

  lemma LineStands<K(!new), V(!new)>(before: Sorting.Before<K>, m: map<K, V>, lines: seq<Line<K, V>>, k: K)
    requires LinesOf(before, m, lines) && k in m
    ensures exists i :: 0 <= i < |lines| && lines[i].key == k && lines[i].cells == m[k]
  {
    assert Line(k, m[k]) in lines;
    var i :| 0 <= i < |lines| && lines[i] == Line(k, m[k]);
  }

  lemma {:induction false} SlotHolds(sch: Schema, readers: Readers, classify: Classifier, leaves: seq<Leaf>, i: nat,
                                     slot: Slot)
    requires Fits(sch, readers, classify) && Faithful(sch, readers.parseName, classify)
    requires Differ(Names(readers.parseName), leaves) && Route(sch, classify, leaves).Ok? && i < |leaves|
    requires Placed(classify, leaves[i]) && SlotOf(sch, classify(leaves[i]).value) == Some(slot)
    ensures
      Cell(Route(sch, classify, leaves).value, slot) == Some(ContentOf(sch, leaves[i], classify(leaves[i]).value))
  {
    RouteIsRun(sch, classify, leaves);
    NamesGiveSlots(sch, readers.parseName, classify, leaves);
    RunWrites(sch, classify, START, leaves, i, slot);
  }

  lemma {:induction false} ValueStandsWith(sch: Schema, readers: Readers, classify: Classifier, leaves: seq<Leaf>,
                                           i: nat, out: Payloads)
    requires ValidSchema(sch) && Fits(sch, readers, classify) && Faithful(sch, readers.parseName, classify)
    requires Differ(Names(readers.parseName), leaves) && Route(sch, classify, leaves).Ok? && i < |leaves|
    requires PayloadsOf(Route(sch, classify, leaves).value, out)
    ensures ValueStands(sch, readers, leaves[i], out)
  {
    RouteIsRun(sch, classify, leaves);
    var st, leaf := Route(sch, classify, leaves).value, leaves[i];
    assert Placed(classify, leaf);
    var t := classify(leaf).value;
    assert TargetFits(sch, readers, leaf, t);
    if SlotOf(sch, t).Some? {
      SlotHolds(sch, readers, classify, leaves, i, SlotOf(sch, t).value);
    }
    match readers.parseName(leaf.path).value
    case Plain(b) =>
    case OfLabor(b, l) =>
      if b in sch.det {
        LineStands(NatBefore, st.labor, out.laborLines, l);
      }
    case OfPart(b, l, p) =>
      if b in sch.det {
        LineStands(PairBefore, st.parts, out.partLines, (l, p));
      }
  }

  /** Under different names, every value of an accepted document stands in the payloads as it was
      read: deterministic values as numbers or words in the header or on their lines, phone
      numbers, emails and the like as lists of one, addresses word for word. */
  lemma {:induction false} ValuesStand(sch: Schema, readers: Readers, leaves: seq<Leaf>, i: nat, out: Payloads)
    requires ValidSchema(sch) && Differ(Names(readers.parseName), leaves) && i < |leaves|
    requires Route(sch, ClassifyBy(sch, readers), leaves).Ok?
    requires PayloadsOf(Route(sch, ClassifyBy(sch, readers), leaves).value, out)
    ensures ValueStands(sch, readers, leaves[i], out)
  {
    ClassifyFits(sch, readers);
    ClassifyIsFaithful(sch, readers);
    ValueStandsWith(sch, readers, ClassifyBy(sch, readers), leaves, i, out);
  }

  // -- the semantic entries --

  /** The entry that a field has by its name: its path and text, and the indices of its name. */
  function EntriesOf(sch: Schema, parse: Namer): Leaf -> seq<SemanticEntry> {
    (leaf: Leaf) =>
      match parse(leaf.path)
      case Err(_) => []
      case Ok(name) =>
        if name.base !in sch.sem then []
        else
          match name
          case Plain(_) => [SemanticEntry(leaf.path, leaf.text, None, None)]
          case OfLabor(_, l) => [SemanticEntry(leaf.path, leaf.text, Some(l), None)]
          case OfPart(_, l, p) => [SemanticEntry(leaf.path, leaf.text, Some(l), Some(p))]
  }

  lemma {:induction false} EntriesAgree(sch: Schema, readers: Readers, classify: Classifier, leaf: Leaf)
    requires ValidSchema(sch) && Fits(sch, readers, classify) && Placed(classify, leaf)
    requires Faithful(sch, readers.parseName, classify)
    ensures Entries(classify)(leaf) == EntriesOf(sch, readers.parseName)(leaf)
  {
    assert TargetFits(sch, readers, leaf, classify(leaf).value);
    assert Named(sch, readers.parseName(leaf.path), classify(leaf).value);
  }

  /** The semantic payload is one entry for each field of a semantic base, in document order, with
      its path, its text and the indices of its name. */
  lemma {:induction false} SemanticIs(sch: Schema, readers: Readers, leaves: seq<Leaf>, out: Payloads)
    requires ValidSchema(sch) && Route(sch, ClassifyBy(sch, readers), leaves).Ok?
    requires PayloadsOf(Route(sch, ClassifyBy(sch, readers), leaves).value, out)
    ensures out.semantic == Collected(EntriesOf(sch, readers.parseName), leaves)
  {
    ClassifyFits(sch, readers);
    ClassifyIsFaithful(sch, readers);
    SemanticIsWith(sch, readers, ClassifyBy(sch, readers), leaves, out);
  }

  lemma {:induction false} SemanticIsWith(sch: Schema, readers: Readers, classify: Classifier, leaves: seq<Leaf>,
                                          out: Payloads)
    requires ValidSchema(sch) && Fits(sch, readers, classify) && Faithful(sch, readers.parseName, classify)
    requires Route(sch, classify, leaves).Ok? && PayloadsOf(Route(sch, classify, leaves).value, out)
    ensures out.semantic == Collected(EntriesOf(sch, readers.parseName), leaves)
  {
    RouteIsRun(sch, classify, leaves);
    RunSemantic(sch, classify, START, leaves);
    forall i | 0 <= i < |leaves| ensures Entries(classify)(leaves[i]) == EntriesOf(sch, readers.parseName)(leaves[i]) {
      EntriesAgree(sch, readers, classify, leaves[i]);
    }
    CollectedAlike(Entries(classify), EntriesOf(sch, readers.parseName), leaves);
    assert [] + Collected(Entries(classify), leaves) == Collected(Entries(classify), leaves);
  }

  // -- the customer name --

  /** The text of a name field. */
  function NameText(sch: Schema, parse: Namer): Leaf -> seq<string> {
    (leaf: Leaf) =>
      if parse(leaf.path).Ok? && parse(leaf.path).value.Plain? && parse(leaf.path).value.base in sch.names
      then [leaf.text] else []
  }

  /** The text, unless it is empty. */
  function Kept(x: string): seq<string> {
    if x == "" then [] else [x]
  }

  function NonEmpty(texts: seq<string>): seq<string> {
    if texts == [] then [] else Kept(texts[0]) + NonEmpty(texts[1..])
  }

  /** Texts that have no white space at their ends. */
  ghost predicate Trimmed(texts: seq<string>) {
    forall i :: 0 <= i < |texts| ==> Trim(texts[i]) == texts[i]
  }

  lemma {:induction false} NameJoins(name: string, text: string)
    requires Trim(name) == name && Trim(text) == text
    ensures
      JoinName(Some(name), text) ==
      if name == "" then text else if text == "" then name else name + " " + text
  {
    if name != "" {
      SolidIffTrimmed(name);
      var s := name + " " + text;
      if text == "" {
        assert s[..|s| - 1] == name && IsSpace(s[|s| - 1]) && TrimStart(s) == s;
        assert TrimEnd(s) == TrimEnd(name);
      } else {
        SolidIffTrimmed(text);
        SolidIffTrimmed(s);
      }
    }
  }

  lemma {:induction false} JoinFront(a: string, b: string, rest: seq<string>)
    ensures Join([a + " " + b] + rest, " ") == Join([a, b] + rest, " ")
  {
    assert ([a, b] + rest)[1..] == [b] + rest && ([a + " " + b] + rest)[1..] == rest;
    if rest != [] {
      assert ([b] + rest)[1..] == rest;
      assert a + " " + (b + " " + Join(rest, " ")) == a + " " + b + " " + Join(rest, " ");
    }
  }

  lemma NonEmptyCons(x: string, rest: seq<string>)
    ensures NonEmpty([x] + rest) == Kept(x) + NonEmpty(rest)
  {
    assert ([x] + rest)[1..] == rest;
  }

  lemma NothingFirst(rest: seq<string>)
    ensures [] + rest == rest
  {
  }

  lemma TwoFirst(a: string, b: string, rest: seq<string>)
    ensures [a] + ([b] + rest) == [a, b] + rest
  {
  }

  lemma {:induction false} JoinTwo(a: string, b: string, rest: seq<string>)
    ensures
      var joined := if a == "" then b else if b == "" then a else a + " " + b;
      Join(Kept(joined) + rest, " ") == Join(Kept(a) + (Kept(b) + rest), " ")
  {
    NothingFirst(Kept(b) + rest);
    NothingFirst(rest);
    if a != "" && b != "" {
      JoinFront(a, b, rest);
      TwoFirst(a, b, rest);
    }
  }

  lemma {:induction false} NamesJoin(name: string, texts: seq<string>)
    requires Trim(name) == name && Trimmed(texts)
    ensures JoinNames(Some(name), texts) == Some(Join(NonEmpty([name] + texts), " "))
    decreases |texts|
  {
    NonEmptyCons(name, texts);
    if texts != [] {
      var t, rest := texts[0], texts[1..];
      assert texts == [t] + rest && forall i :: 0 <= i < |rest| ==> rest[i] == texts[i + 1];
      NameJoins(name, t);
      var joined := JoinName(Some(name), t);
      JoinedIsTrimmed(name, t);
      NamesJoin(joined, rest);
      NonEmptyCons(t, rest);
      NonEmptyCons(joined, rest);
      JoinTwo(name, t, NonEmpty(rest));
    }
  }

  lemma {:induction false} JoinedIsTrimmed(name: string, text: string)
    requires Trim(name) == name && Trim(text) == text
    ensures Trim(JoinName(Some(name), text)) == JoinName(Some(name), text)
  {
    NameJoins(name, text);
    if name != "" && text != "" {
      SolidIffTrimmed(name);
      SolidIffTrimmed(text);
      SolidIffTrimmed(name + " " + text);
    }
  }

  lemma {:induction false} NameTextsAgree(sch: Schema, readers: Readers, classify: Classifier, leaf: Leaf)
    requires ValidSchema(sch) && Fits(sch, readers, classify) && Faithful(sch, readers.parseName, classify)
    requires Placed(classify, leaf)
    ensures NameTexts(sch, classify)(leaf) == NameText(sch, readers.parseName)(leaf)
  {
    assert TargetFits(sch, readers, leaf, classify(leaf).value);
    assert Named(sch, readers.parseName(leaf.path), classify(leaf).value);
  }

  lemma {:induction false} NameIsWith(sch: Schema, readers: Readers, classify: Classifier, leaves: seq<Leaf>)
    requires ValidSchema(sch) && Fits(sch, readers, classify) && Faithful(sch, readers.parseName, classify)
    requires Route(sch, classify, leaves).Ok? && Trimmed(Collected(NameText(sch, readers.parseName), leaves))
    ensures
      var texts := Collected(NameText(sch, readers.parseName), leaves);
      Route(sch, classify, leaves).value.pii.customerName ==
      if texts == [] then None else Some(Join(NonEmpty(texts), " "))
  {
    RouteIsRun(sch, classify, leaves);
    RunName(sch, classify, START, leaves);
    forall i | 0 <= i < |leaves|
      ensures NameTexts(sch, classify)(leaves[i]) == NameText(sch, readers.parseName)(leaves[i])
    {
      NameTextsAgree(sch, readers, classify, leaves[i]);
    }
    CollectedAlike(NameTexts(sch, classify), NameText(sch, readers.parseName), leaves);
    var texts := Collected(NameText(sch, readers.parseName), leaves);
    if texts != [] {
      assert forall i :: 0 <= i < |texts[1..]| ==> texts[1..][i] == texts[i + 1];
      NamesJoin(texts[0], texts[1..]);
      assert [texts[0]] + texts[1..] == texts;
    }
  }

  /** The customer name is the name fields in document order, the empty ones left out, with one
      space between them. */
  lemma {:induction false} NameIs(sch: Schema, readers: Readers, leaves: seq<Leaf>)
    requires ValidSchema(sch) && Route(sch, ClassifyBy(sch, readers), leaves).Ok?
    requires Trimmed(Collected(NameText(sch, readers.parseName), leaves))
    ensures
      var texts := Collected(NameText(sch, readers.parseName), leaves);
      Route(sch, ClassifyBy(sch, readers), leaves).value.pii.customerName ==
      if texts == [] then None else Some(Join(NonEmpty(texts), " "))
  {
    ClassifyFits(sch, readers);
    ClassifyIsFaithful(sch, readers);
    NameIsWith(sch, readers, ClassifyBy(sch, readers), leaves);
  }

  // -- nothing else is in the payloads --

  /** Some field has this name. */
  ghost predicate HasName(parse: Namer, leaves: seq<Leaf>, name: Indexed) {
    exists i :: 0 <= i < |leaves| && parse(leaves[i].path) == Ok(name)
  }

  /** Some field belongs to the labor line or the part line. */
  ghost predicate HasLine(parse: Namer, leaves: seq<Leaf>, l: nat) {
    exists b :: HasName(parse, leaves, OfLabor(b, l))
  }

  ghost predicate HasPartLine(parse: Namer, leaves: seq<Leaf>, key: (nat, nat)) {
    exists b :: HasName(parse, leaves, OfPart(b, key.0, key.1))
  }

  ghost predicate HasPersonal(sch: Schema, parse: Namer, leaves: seq<Leaf>) {
    exists i :: 0 <= i < |leaves| && parse(leaves[i].path).Ok? && parse(leaves[i].path).value.base in sch.pii
  }

  lemma {:induction false} FilledHasName(sch: Schema, readers: Readers, classify: Classifier, leaves: seq<Leaf>,
                                         slot: Slot)
    requires Faithful(sch, readers.parseName, classify) && Route(sch, classify, leaves).Ok?
    requires Cell(Route(sch, classify, leaves).value, slot).Some?
    ensures HasName(readers.parseName, leaves, NameOf(slot))
    ensures slot.base in (if slot.ListSlot? || slot.AddressSlot? then sch.pii else sch.det)
  {
    Filled(sch, classify, leaves, slot);
    FilledBase(sch, readers.parseName, classify, leaves, slot);
    var i :| 0 <= i < |leaves| && Writes(sch, classify, leaves[i], slot);
    WriterHasName(sch, readers.parseName, classify, leaves[i], slot);
  }

  /** Header values come from plain fields and values of lines from fields of their line. */
  lemma {:induction false} ValuesHaveFields(sch: Schema, readers: Readers, leaves: seq<Leaf>, out: Payloads)
    requires ValidSchema(sch) && Route(sch, ClassifyBy(sch, readers), leaves).Ok?
    requires PayloadsOf(Route(sch, ClassifyBy(sch, readers), leaves).value, out)
    ensures forall b :: b in out.header ==> b in sch.det && HasName(readers.parseName, leaves, Plain(b))
    ensures
      forall i, b :: 0 <= i < |out.laborLines| && b in out.laborLines[i].cells ==>
                       b in sch.det && HasName(readers.parseName, leaves, OfLabor(b, out.laborLines[i].key))
    ensures
      forall i, b :: 0 <= i < |out.partLines| && b in out.partLines[i].cells ==>
                       var key := out.partLines[i].key;
                       b in sch.det && HasName(readers.parseName, leaves, OfPart(b, key.0, key.1))
  {
    var classify := ClassifyBy(sch, readers);
    ClassifyIsFaithful(sch, readers);
    var st := Route(sch, classify, leaves).value;
    forall b | b in out.header ensures b in sch.det && HasName(readers.parseName, leaves, Plain(b)) {
      FilledHasName(sch, readers, classify, leaves, HeaderSlot(b));
    }
    forall i, b | 0 <= i < |out.laborLines| && b in out.laborLines[i].cells
      ensures b in sch.det && HasName(readers.parseName, leaves, OfLabor(b, out.laborLines[i].key))
    {
      assert out.laborLines[i] in out.laborLines;
      FilledHasName(sch, readers, classify, leaves, LaborSlot(b, out.laborLines[i].key));
    }
    forall i, b | 0 <= i < |out.partLines| && b in out.partLines[i].cells
      ensures
        var key := out.partLines[i].key;
        b in sch.det && HasName(readers.parseName, leaves, OfPart(b, key.0, key.1))
    {
      assert out.partLines[i] in out.partLines;
      FilledHasName(sch, readers, classify, leaves, PartSlot(b, out.partLines[i].key.0, out.partLines[i].key.1));
    }
  }

  lemma {:induction false} LaborHasField(sch: Schema, readers: Readers, classify: Classifier, leaves: seq<Leaf>, l: nat)
    requires ValidSchema(sch) && Fits(sch, readers, classify) && Faithful(sch, readers.parseName, classify)
    requires Route(sch, classify, leaves).Ok?
    ensures l in Route(sch, classify, leaves).value.labor <==> HasLine(readers.parseName, leaves, l)
  {
    var parse := readers.parseName;
    RouteIsRun(sch, classify, leaves);
    RunLines(sch, classify, START, leaves, l, (0, 0));
    if i :| 0 <= i < |leaves| && Placed(classify, leaves[i]) && OnLabor(classify(leaves[i]).value, l) {
      assert Named(sch, parse(leaves[i].path), classify(leaves[i]).value);
      assert HasName(parse, leaves, OfLabor(parse(leaves[i].path).value.base, l));
    }
    if b :| HasName(parse, leaves, OfLabor(b, l)) {
      var i :| 0 <= i < |leaves| && parse(leaves[i].path) == Ok(OfLabor(b, l));
      assert TargetFits(sch, readers, leaves[i], classify(leaves[i]).value);
    }
  }

  lemma {:induction false} PartHasField(sch: Schema, readers: Readers, classify: Classifier, leaves: seq<Leaf>,
                                        key: (nat, nat))
    requires ValidSchema(sch) && Fits(sch, readers, classify) && Faithful(sch, readers.parseName, classify)
    requires Route(sch, classify, leaves).Ok?
    ensures key in Route(sch, classify, leaves).value.parts <==> HasPartLine(readers.parseName, leaves, key)
  {
    var parse := readers.parseName;
    RouteIsRun(sch, classify, leaves);
    RunLines(sch, classify, START, leaves, 0, key);
    if i :| 0 <= i < |leaves| && Placed(classify, leaves[i]) && OnPart(classify(leaves[i]).value, key) {
      assert Named(sch, parse(leaves[i].path), classify(leaves[i]).value);
      assert HasName(parse, leaves, OfPart(parse(leaves[i].path).value.base, key.0, key.1));
    }
    if b :| HasName(parse, leaves, OfPart(b, key.0, key.1)) {
      var i :| 0 <= i < |leaves| && parse(leaves[i].path) == Ok(OfPart(b, key.0, key.1));
      assert TargetFits(sch, readers, leaves[i], classify(leaves[i]).value);
    }
  }

  /** There is one labor line, and one part line, for each index that some field carries. */
  lemma {:induction false} LinesHaveFields(sch: Schema, readers: Readers, leaves: seq<Leaf>, out: Payloads, l: nat,
                                           key: (nat, nat))
    requires ValidSchema(sch) && Route(sch, ClassifyBy(sch, readers), leaves).Ok?
    requires PayloadsOf(Route(sch, ClassifyBy(sch, readers), leaves).value, out)
    ensures
      (exists i :: 0 <= i < |out.laborLines| && out.laborLines[i].key == l) <==> HasLine(readers.parseName, leaves, l)
    ensures
      (exists i :: 0 <= i < |out.partLines| && out.partLines[i].key == key) <==>
      HasPartLine(readers.parseName, leaves, key)
  {
    var classify := ClassifyBy(sch, readers);
    ClassifyFits(sch, readers);
    ClassifyIsFaithful(sch, readers);
    LaborHasField(sch, readers, classify, leaves, l);
    PartHasField(sch, readers, classify, leaves, key);
    var st := Route(sch, classify, leaves).value;
    if l in st.labor {
      LineStands(NatBefore, st.labor, out.laborLines, l);
    }
    if key in st.parts {
      LineStands(PairBefore, st.parts, out.partLines, key);
    }
    if i :| 0 <= i < |out.laborLines| && out.laborLines[i].key == l {
      assert out.laborLines[i] in out.laborLines;
    }
    if i :| 0 <= i < |out.partLines| && out.partLines[i].key == key {
      assert out.partLines[i] in out.partLines;
    }
  }

  lemma {:induction false} PersonalIsKept(sch: Schema, readers: Readers, classify: Classifier, leaves: seq<Leaf>)
    requires ValidSchema(sch) && Fits(sch, readers, classify) && Faithful(sch, readers.parseName, classify)
    requires Route(sch, classify, leaves).Ok?
    ensures HasPii(Route(sch, classify, leaves).value.pii) <==> HasPersonal(sch, readers.parseName, leaves)
  {
    var pii, parse := Route(sch, classify, leaves).value.pii, readers.parseName;
    if HasPersonal(sch, parse, leaves) {
      var i :| 0 <= i < |leaves| && parse(leaves[i].path).Ok? && parse(leaves[i].path).value.base in sch.pii;
      RouteIsRun(sch, classify, leaves);
      assert Placed(classify, leaves[i]);
      assert TargetFits(sch, readers, leaves[i], classify(leaves[i]).value);
      InPiiIff(sch, parse, classify, leaves, i);
    }
    if HasPii(pii) {
      PersonalHasField(sch, readers, classify, leaves);
    }
  }

  lemma {:induction false} PersonalHasField(sch: Schema, readers: Readers, classify: Classifier, leaves: seq<Leaf>)
    requires Faithful(sch, readers.parseName, classify) && Route(sch, classify, leaves).Ok?
    requires ValidSchema(sch) && HasPii(Route(sch, classify, leaves).value.pii)
    ensures HasPersonal(sch, readers.parseName, leaves)
  {
    var pii, parse := Route(sch, classify, leaves).value.pii, readers.parseName;
    if b :| b in pii.lists {
      FilledHasName(sch, readers, classify, leaves, ListSlot(b));
    } else if b :| b in pii.address {
      FilledHasName(sch, readers, classify, leaves, AddressSlot(b));
    } else {
      RouteIsRun(sch, classify, leaves);
      RunName(sch, classify, START, leaves);
      var texts := Collected(NameTexts(sch, classify), leaves);
      assert texts[0] in texts;
      CollectedMember(NameTexts(sch, classify), leaves, texts[0]);
      var i :| 0 <= i < |leaves| && texts[0] in NameTexts(sch, classify)(leaves[i]);
      assert Named(sch, parse(leaves[i].path), classify(leaves[i]).value);
    }
  }

  /** There is a payload of personal data exactly when some field is personal. */
  lemma {:induction false} PersonalIff(sch: Schema, readers: Readers, leaves: seq<Leaf>, out: Payloads)
    requires ValidSchema(sch) && Route(sch, ClassifyBy(sch, readers), leaves).Ok?
    requires PayloadsOf(Route(sch, ClassifyBy(sch, readers), leaves).value, out)
    ensures out.pii.Some? <==> HasPersonal(sch, readers.parseName, leaves)
  {
    ClassifyFits(sch, readers);
    ClassifyIsFaithful(sch, readers);
    PersonalIsKept(sch, readers, ClassifyBy(sch, readers), leaves);
  }
}
