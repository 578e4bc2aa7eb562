/** routeXmlToPayloads: every flat field goes to the personal, the deterministic or the
    semantic payload. */
module FieldRouting {
  import opened Prelude
  import opened Text
  import opened FieldNames
  import opened RoSchema
  import opened SortedLines
  import SemanticXml

  type Leaf = SemanticXml.Entry

  type Namer = string -> Result<Indexed, IndexError>

  /** parseIndexedFieldName, toInt and toNumber; the last two are None where they throw. */
  datatype Readers = Readers(parseName: Namer, toInt: string -> Option<real>, toNumber: string -> Option<real>)

  datatype Value = Word(text: string) | Num(number: real)

  /** Where one leaf goes. */
  datatype Target =
    | ToPii(base: string)
    | ToHeader(base: string, value: Value)
    | ToLabor(base: string, labor: nat, value: Value)
    | ToPart(base: string, labor: nat, part: nat, value: Value)
    | ToSemantic
    | ToLaborSemantic(labor: nat)
    | ToPartSemantic(labor: nat, part: nat)
    | Unknown

  datatype RouteError =
    | DuplicateField(field: string)
    | InvalidIndex
    | PiiIndexed
    | IndexedBaseInvalid
    | PartIndexInvalid
    | LaborIndexInvalid
    | IndexRequired
    | NumberInvalid
    | FieldsUnknown(fields: seq<string>)

  /** The value a deterministic field is stored as. */
  function ValueOf(sch: Schema, readers: Readers, base: string, text: string): Option<Value> {
    if base in sch.ints then (match readers.toInt(text) case None => None case Some(n) => Some(Num(n)))
    else if base in sch.numbers then (match readers.toNumber(text) case None => None case Some(n) => Some(Num(n)))
    else Some(Word(text))
  }

  /** The branches of the loop body, for one leaf. */
  function Classify(sch: Schema, readers: Readers, leaf: Leaf): Result<Target, RouteError> {
    match readers.parseName(leaf.path)
    case Err(_) => Err(InvalidIndex)
    case Ok(indexed) => ClassifyName(sch, readers, indexed, leaf.text)
  }

  function ClassifyName(sch: Schema, readers: Readers, indexed: Indexed, text: string): Result<Target, RouteError> {
    var base := indexed.base;
    var value := ValueOf(sch, readers, base, text);
    if base !in sch.pii && base !in sch.det && base !in sch.sem then Ok(Unknown)
    else if base in sch.pii then
      if indexed.Plain? then Ok(ToPii(base)) else Err(PiiIndexed)
    else if !indexed.Plain? then
      if base !in sch.labor && base !in sch.part then Err(IndexedBaseInvalid)
      else if indexed.OfPart? then
        if base !in sch.part then Err(PartIndexInvalid)
        else if base !in sch.det then Ok(ToPartSemantic(indexed.labor, indexed.part))
        else if value == None then Err(NumberInvalid)
        else Ok(ToPart(base, indexed.labor, indexed.part, value.value))
      else if base !in sch.labor then Err(LaborIndexInvalid)
      else if base !in sch.det then Ok(ToLaborSemantic(indexed.labor))
      else if value == None then Err(NumberInvalid)
      else Ok(ToLabor(base, indexed.labor, value.value))
    else if base in sch.labor || base in sch.part then Err(IndexRequired)
    else if base !in sch.det then Ok(ToSemantic)
    else if value == None then Err(NumberInvalid)
    else Ok(ToHeader(base, value.value))
  }

  type Classifier = Leaf -> Result<Target, RouteError>

  function ClassifyBy(sch: Schema, readers: Readers): Classifier {
    leaf => Classify(sch, readers, leaf)
  }

  // -- the payloads --

  type Cells = map<string, Value>

  datatype PiiPayload = PiiPayload(
    customerName: Option<string>,
    lists: map<string, seq<string>>,
    address: map<string, string>)

  datatype SemanticEntry = SemanticEntry(path: string, text: string, labor: Option<nat>, part: Option<nat>)

  /** What the loop has collected so far. */
  datatype Routed = Routed(
    seen: set<string>,
    pii: PiiPayload,
    header: Cells,
    labor: map<nat, Cells>,
    parts: map<(nat, nat), Cells>,
    semantic: seq<SemanticEntry>,
    unknown: seq<string>)

  const START := Routed({}, PiiPayload(None, map[], map[]), map[], map[], map[], [], [])

  function GetOr<K, V>(m: map<K, V>, k: K, default: V): V {
    if k in m then m[k] else default
  }

  function JoinName(name: Option<string>, text: string): string {
    if name.Some? && name.value != "" then Trim(name.value + " " + text) else text
  }

  function SetPiiField(sch: Schema, pii: PiiPayload, base: string, text: string): PiiPayload {
    if base in sch.names then pii.(customerName := Some(JoinName(pii.customerName, text)))
    else if base in sch.lists then pii.(lists := pii.lists[base := GetOr(pii.lists, base, []) + [text]])
    else if base in sch.addresses then pii.(address := pii.address[base := text])
    else pii
  }

  /** The semantic entry of a leaf, if it has one. */
  function SemanticOf(leaf: Leaf, target: Target): seq<SemanticEntry> {
    match target
    case ToSemantic => [SemanticEntry(leaf.path, leaf.text, None, None)]
    case ToLaborSemantic(l) => [SemanticEntry(leaf.path, leaf.text, Some(l), None)]
    case ToPartSemantic(l, p) => [SemanticEntry(leaf.path, leaf.text, Some(l), Some(p))]
    case _ => []
  }

  function WithHeader(st: Routed, target: Target): Cells {
    if target.ToHeader? then st.header[target.base := target.value] else st.header
  }

  function WithLabor(st: Routed, target: Target): map<nat, Cells> {
    match target
    case ToLabor(base, l, v) => st.labor[l := GetOr(st.labor, l, map[])[base := v]]
    case ToLaborSemantic(l) => st.labor[l := GetOr(st.labor, l, map[])]
    case _ => st.labor
  }

  function WithPart(st: Routed, target: Target): map<(nat, nat), Cells> {
    match target
    case ToPart(base, l, p, v) => st.parts[(l, p) := GetOr(st.parts, (l, p), map[])[base := v]]
    case ToPartSemantic(l, p) => st.parts[(l, p) := GetOr(st.parts, (l, p), map[])]
    case _ => st.parts
  }

  function Store(sch: Schema, st: Routed, leaf: Leaf, target: Target): Routed {
    Routed(
      st.seen + {leaf.path},
      if target.ToPii? then SetPiiField(sch, st.pii, target.base, leaf.text) else st.pii,
      WithHeader(st, target),
      WithLabor(st, target),
      WithPart(st, target),
      st.semantic + SemanticOf(leaf, target),
      if target.Unknown? then st.unknown + [leaf.path] else st.unknown)
  }

  function Step(sch: Schema, classify: Classifier, st: Routed, leaf: Leaf): Result<Routed, RouteError> {
    if leaf.path in st.seen then Err(DuplicateField(leaf.path))
    else
      match classify(leaf)
      case Err(e) => Err(e)
      case Ok(target) => Ok(Store(sch, st, leaf, target))
  }

  function Run(sch: Schema, classify: Classifier, st: Routed, leaves: seq<Leaf>): Result<Routed, RouteError>
    decreases |leaves|
  {
    if leaves == [] then Ok(st)
    else
      match Step(sch, classify, st, leaves[0])
      case Err(e) => Err(e)
      case Ok(next) => Run(sch, classify, next, leaves[1..])
  }

  /** After the loop: unknown fields are an error. */
  function Finish(r: Result<Routed, RouteError>): Result<Routed, RouteError> {
    if r.Ok? && r.value.unknown != [] then Err(FieldsUnknown(r.value.unknown)) else r
  }

  /** The fields collected from all leaves; the lines still by index. */
  function Route(sch: Schema, classify: Classifier, leaves: seq<Leaf>): Result<Routed, RouteError> {
    Finish(Run(sch, classify, START, leaves))
  }

  // -- the loop --

  /** The loop over the leaves, with the branches of its body on mutable maps. */
  method CollectWith(sch: Schema, classify: Classifier, leaves: seq<Leaf>) returns (r: Result<Routed, RouteError>)
    ensures r == Route(sch, classify, leaves)
  {
    var seen: set<string>, pii, header: Cells := {}, START.pii, map[];
    var labor: map<nat, Cells>, parts: map<(nat, nat), Cells> := map[], map[];
    var semantic: seq<SemanticEntry>, unknown: seq<string> := [], [];
    for i := 0 to |leaves|
      invariant Run(sch, classify, Routed(seen, pii, header, labor, parts, semantic, unknown), leaves[i..]) ==
                Run(sch, classify, START, leaves)
    {
      var leaf := leaves[i];
      ghost var st := Routed(seen, pii, header, labor, parts, semantic, unknown);
      assert leaves[i..][0] == leaf && leaves[i..][1..] == leaves[i + 1..];
      if leaf.path in seen {
        return Err(DuplicateField(leaf.path));
      }
      seen := seen + {leaf.path};
      var c := classify(leaf);
      if c.Err? {
        return Err(c.error);
      }
      match c.value {
        case Unknown => unknown := unknown + [leaf.path];
        case ToPii(base) => pii := SetPiiField(sch, pii, base, leaf.text);
        case ToHeader(base, v) => header := header[base := v];
        case ToLabor(base, l, v) =>
          var line := GetOr(labor, l, map[]);
          line := line[base := v];
          labor := labor[l := line];
        case ToLaborSemantic(l) =>
          var line := GetOr(labor, l, map[]);
          semantic := semantic + [SemanticEntry(leaf.path, leaf.text, Some(l), None)];
          labor := labor[l := line];
        case ToPart(base, l, p, v) =>
          var line := GetOr(parts, (l, p), map[]);
          line := line[base := v];
          parts := parts[(l, p) := line];
        case ToPartSemantic(l, p) =>
          var line := GetOr(parts, (l, p), map[]);
          semantic := semantic + [SemanticEntry(leaf.path, leaf.text, Some(l), Some(p))];
          parts := parts[(l, p) := line];
        case ToSemantic => semantic := semantic + [SemanticEntry(leaf.path, leaf.text, None, None)];
      }
      assert st.semantic + [] == st.semantic;
      assert Step(sch, classify, st, leaf) == Ok(Routed(seen, pii, header, labor, parts, semantic, unknown));
    }
    if unknown != [] {
      return Err(FieldsUnknown(unknown));
    }
    return Ok(Routed(seen, pii, header, labor, parts, semantic, unknown));
  }

  // -- the result --

  datatype Payloads = Payloads(
    pii: Option<PiiPayload>,
    header: Cells,
    laborLines: seq<Line<nat, Cells>>,
    partLines: seq<Line<(nat, nat), Cells>>,
    semantic: seq<SemanticEntry>)

  predicate HasPii(pii: PiiPayload) {
    pii.customerName.Some? || pii.lists.Keys != {} || pii.address.Keys != {}
  }

  /** The payloads made of what the loop has collected: the lines in order of their indices. */
  ghost predicate PayloadsOf(st: Routed, out: Payloads) {
    && out.pii == (if HasPii(st.pii) then Some(st.pii) else None)
    && out.header == st.header
    && LinesOf(NatBefore, st.labor, out.laborLines)
    && LinesOf(PairBefore, st.parts, out.partLines)
    && out.semantic == st.semantic
  }

  method RouteXmlToPayloads(sch: Schema, readers: Readers, leaves: seq<Leaf>) returns (r: Result<Payloads, RouteError>)
    ensures
      match Route(sch, ClassifyBy(sch, readers), leaves)
      case Err(e) => r == Err(e)
      case Ok(st) => r.Ok? && PayloadsOf(st, r.value)
  {
    r := RouteWith(sch, ClassifyBy(sch, readers), leaves);
  }

  method RouteWith(sch: Schema, classify: Classifier, leaves: seq<Leaf>) returns (r: Result<Payloads, RouteError>)
    ensures
      match Route(sch, classify, leaves)
      case Err(e) => r == Err(e)
      case Ok(st) => r.Ok? && PayloadsOf(st, r.value)
  {
    var collected := CollectWith(sch, classify, leaves);
    if collected.Err? {
      return Err(collected.error);
    }
    var st := collected.value;
    OrdersAreTotal();
    var laborLines := SortLines(NatBefore, st.labor);
    var partLines := SortLines(PairBefore, st.parts);
    return Ok(Payloads(if HasPii(st.pii) then Some(st.pii) else None, st.header, laborLines, partLines, st.semantic));
  }
}
