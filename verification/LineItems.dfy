/** The generator's labor and part lines, and what makeLaborHoursSplit and buildLineItems
    make of a run of draws. Hours are in hundredths of an hour, money in cents, so that an
    hour costs 275 cents per hundredth. */
module LineItems {
  import opened Prelude
  import opened Random

  datatype BuildError = HoursInvalid | OutOfRange | PickFromEmpty

  const RATE := 275
  const MIN_HOURS := 50
  const MAX_HOURS := 2000
  const MIN_PRICE := 1500
  const MAX_PRICE := 35000
  const MAX_QUANTITY := 2

  datatype LaborType = Warranty | CustomerPay | Internal

  datatype PartSource = Stock | Order | Oem

  const LABOR_TYPES := [CustomerPay, Internal]
  const SOURCES := [Stock, Order, Oem]
  const BACKORDERS := [false, false, false, true]
  const ADDED_BACKORDERS := [false, false, true]

  function Max(a: int, b: int): int {
    if a < b then b else a
  }

  function Min(a: int, b: int): int {
    if a < b then a else b
  }

  function Sum(s: seq<int>): int {
    if s == [] then 0 else Sum(s[..|s| - 1]) + s[|s| - 1]
  }

  ghost predicate WithinLine(hours: seq<int>) {
    forall i :: 0 <= i < |hours| ==> MIN_HOURS <= hours[i] <= MAX_HOURS
  }

  datatype Params = Params(
    laborLines: (int, int),
    partsPerLabor: (int, int),
    hoursRange: (int, int),
    totalRange: (int, int),
    warranty: bool)

  /** What the scenario tables promise of their parameters. */
  predicate ValidParams(p: Params) {
    && 1 <= p.laborLines.0 <= p.laborLines.1
    && p.partsPerLabor.0 <= p.partsPerLabor.1
    && p.hoursRange.0 <= p.hoursRange.1
    && p.totalRange.0 <= p.totalRange.1
  }

  datatype Templates = Templates(
    technicianNotes: seq<string>,
    causes: seq<string>,
    corrections: seq<string>,
    opDescriptions: seq<string>,
    partDescriptions: seq<string>)

  datatype LaborLine = LaborLine(
    index: int,
    opCode: int,
    opDescription: string,
    laborType: LaborType,
    hours: int,
    extended: int,
    technician: int,
    notes: string,
    cause: string,
    correction: string)

  datatype PartLine = PartLine(
    labor: int,
    index: int,
    number: int,
    description: string,
    quantity: int,
    unitPrice: int,
    extended: int,
    source: PartSource,
    backorder: bool)

  datatype Bundle = Bundle(
    labor: seq<LaborLine>,
    parts: seq<PartLine>,
    laborTotal: int,
    partsTotal: int,
    shopFees: int,
    environmentalFees: int,
    taxTotal: int,
    discountTotal: int,
    grandTotal: int)

  function LaborTotal(lines: seq<LaborLine>): int {
    if lines == [] then 0 else LaborTotal(lines[..|lines| - 1]) + lines[|lines| - 1].extended
  }

  function PartsTotal(lines: seq<PartLine>): int {
    if lines == [] then 0 else PartsTotal(lines[..|lines| - 1]) + lines[|lines| - 1].extended
  }

  /** All parts but the last. */
  function OthersTotal(parts: seq<PartLine>): int {
    if parts == [] then 0 else PartsTotal(parts[..|parts| - 1])
  }

  // -- what every bundle keeps --

  /** The part indices on one labor line, in order. */
  function IndicesOn(parts: seq<PartLine>, labor: int): seq<int> {
    if parts == [] then []
    else
      var rest := IndicesOn(parts[..|parts| - 1], labor);
      if parts[|parts| - 1].labor == labor then rest + [parts[|parts| - 1].index] else rest
  }

  ghost predicate Counts(s: seq<int>) {
    forall i :: 0 <= i < |s| ==> s[i] == i + 1
  }

  ghost predicate LaborLinesFit(lines: seq<LaborLine>) {
    forall i :: 0 <= i < |lines| ==>
                  && lines[i].index == i + 1
                  && MIN_HOURS <= lines[i].hours <= MAX_HOURS
                  && lines[i].extended == RATE * lines[i].hours
  }

  predicate PartFits(p: PartLine) {
    p.quantity >= 1 && p.unitPrice >= 0 && p.extended == p.unitPrice * p.quantity
  }

  ghost predicate PartLinesFit(parts: seq<PartLine>, laborLines: int) {
    && (forall i :: 0 <= i < |parts| ==> PartFits(parts[i]) && 1 <= parts[i].labor <= laborLines)
    && forall l :: Counts(IndicesOn(parts, l))
  }

  ghost predicate Sound(b: Bundle, warranty: bool) {
    && b.labor != [] && LaborLinesFit(b.labor) && PartLinesFit(b.parts, |b.labor|)
    && b.laborTotal == LaborTotal(b.labor) && b.partsTotal == PartsTotal(b.parts)
    && b.shopFees == b.environmentalFees == b.taxTotal == 0
    && b.grandTotal == b.laborTotal + b.partsTotal - b.discountTotal
    && (if warranty then b.grandTotal == 0 else b.discountTotal == 0)
  }

  // -- the hours --

  /** One line's draw, leaving the others what they need and no more than they can take. */
  function LineHours(d: Draws, i: nat, remaining: int, left: int): int {
    d.float(i, Max(MIN_HOURS, remaining - MAX_HOURS * (left - 1)), Min(MAX_HOURS, remaining - MIN_HOURS * (left - 1)))
  }

  /** makeLaborHoursSplit from the line on that has `left` lines to go. */
  function Split(d: Draws, i: nat, hours: seq<int>, remaining: int, left: int): Result<seq<int>, BuildError>
    decreases left
  {
    if left <= 0 then Ok(hours)
    else if left == 1 then if remaining > MAX_HOURS then Err(HoursInvalid) else Ok(hours + [remaining])
    else
      var value := LineHours(d, i, remaining, left);
      Split(d, i + 1, hours + [value], remaining - value, left - 1)
  }

  // -- the lines --

  function TypeDraws(warranty: bool): nat {
    if warranty then 0 else 1
  }

  function LaborDraws(warranty: bool): nat {
    TypeDraws(warranty) + 6
  }

  /** Notes, cause and correction. */
  function TextsAt(d: Draws, i: nat, templates: Templates): Result<(string, string, string), BuildError> {
    var notes := Picked(d, i, templates.technicianNotes);
    var cause := Picked(d, i + 1, templates.causes);
    var correction := Picked(d, i + 2, templates.corrections);
    if notes == None || cause == None || correction == None then Err(PickFromEmpty)
    else Ok((notes.value, cause.value, correction.value))
  }

  function LaborTypeAt(d: Draws, i: nat, warranty: bool): Option<LaborType> {
    if warranty then Some(Warranty) else Picked(d, i, LABOR_TYPES)
  }

  function LaborLineAt(d: Draws, i: nat, templates: Templates, warranty: bool, index: int, hours: int)
    : Result<LaborLine, BuildError>
  {
    var j := i + 2 + TypeDraws(warranty);
    var opDescription := Picked(d, i + 1, templates.opDescriptions);
    var laborType := LaborTypeAt(d, i + 2, warranty);
    var texts := TextsAt(d, j + 1, templates);
    if opDescription == None || laborType == None || texts.Err? then Err(PickFromEmpty)
    else Ok(LaborLine(index, d.integer(i, 100, 999), opDescription.value, laborType.value, hours, hours * RATE,
                      d.integer(j, 1, 35), texts.value.0, texts.value.1, texts.value.2))
  }

  const PART_DRAWS: nat := 6

  function PartAt(d: Draws, i: nat, templates: Templates, labor: int, index: int): Result<PartLine, BuildError> {
    var quantity := d.integer(i, 1, MAX_QUANTITY);
    var unitPrice := d.float(i + 1, MIN_PRICE, MAX_PRICE);
    var description := Picked(d, i + 3, templates.partDescriptions);
    var source := Picked(d, i + 4, SOURCES);
    var backorder := Picked(d, i + 5, BACKORDERS);
    if description == None || source == None || backorder == None then Err(PickFromEmpty)
    else Ok(PartLine(labor, index, d.integer(i + 2, 1000, 9999), description.value, quantity, unitPrice,
                     unitPrice * quantity, source.value, backorder.value))
  }

  /** How a bundle is drawn: the hours from their first draw; a labor line from its first draw,
      index and hours; the number of parts from its draw; a part from its first draw, labor line
      and index; the bundle from its lines. */
  datatype Maker = Maker(
    hours: nat -> Result<seq<int>, BuildError>,
    line: (nat, int, int) -> Result<LaborLine, BuildError>,
    lineDraws: nat,
    count: nat -> int,
    part: (nat, int, int) -> Result<PartLine, BuildError>,
    close: Work -> Result<Bundle, BuildError>)

  function MakerOf(d: Draws, params: Params, templates: Templates): Maker {
    Maker((i: nat) => HoursAt(d, i, params),
          (i: nat, index: int, hours: int) => LaborLineAt(d, i, templates, params.warranty, index, hours),
          LaborDraws(params.warranty),
          (i: nat) => d.integer(i, params.partsPerLabor.0, params.partsPerLabor.1),
          (i: nat, labor: int, index: int) => PartAt(d, i, templates, labor, index),
          (w: Work) => ClosedAt(d, w, params, templates))
  }

  /** The hours and the closing are those of these draws. */
  ghost predicate EndsFrom(m: Maker, d: Draws, params: Params, templates: Templates) {
    && (forall i: nat {:trigger HoursAt(d, i, params)} :: m.hours(i) == HoursAt(d, i, params))
    && (forall w: Work {:trigger ClosedAt(d, w, params, templates)} ::
          m.close(w) == ClosedAt(d, w, params, templates))
  }

  /** The maker of these draws; the triggers keep the drawing of a line away from the loops. */
  ghost predicate MakesFrom(m: Maker, d: Draws, params: Params, templates: Templates) {
    && m.lineDraws == LaborDraws(params.warranty)
    && (forall i: nat, index: int, hours: int {:trigger LaborLineAt(d, i, templates, params.warranty, index, hours)} ::
          m.line(i, index, hours) == LaborLineAt(d, i, templates, params.warranty, index, hours))
    && (forall i: nat, labor: int, index: int {:trigger PartAt(d, i, templates, labor, index)} ::
          m.part(i, labor, index) == PartAt(d, i, templates, labor, index))
    && (forall i: nat :: m.count(i) == d.integer(i, params.partsPerLabor.0, params.partsPerLabor.1))
  }

  lemma {:induction false} MakerOfMakesFrom(d: Draws, params: Params, templates: Templates)
    ensures
      var m := MakerOf(d, params, templates);
      MakesFrom(m, d, params, templates) && EndsFrom(m, d, params, templates)
  {
  }

  /** The parts of one labor line from part p on, put behind those before. */
  function PartsAt(m: Maker, i: nat, labor: int, parts: seq<PartLine>, p: nat, count: int)
    : Result<seq<PartLine>, BuildError>
    decreases count - p
  {
    if p >= count then Ok(parts)
    else
      var part := m.part(i, labor, p + 1);
      if part.Err? then Err(part.error)
      else PartsAt(m, i + PART_DRAWS, labor, parts + [part.value], p + 1, count)
  }

  /** Lines built so far, and the next draw. */
  datatype Work = Work(labor: seq<LaborLine>, parts: seq<PartLine>, next: nat)

  function NextLine(m: Maker, w: Work, hours: int): (r: Result<Work, BuildError>)
    ensures r.Ok? ==> |r.value.labor| == |w.labor| + 1
  {
    var index := |w.labor| + 1;
    var line := m.line(w.next, index, hours);
    if line.Err? then Err(line.error)
    else
      var i := w.next + m.lineDraws;
      var parts := PartsAt(m, i + 1, index, w.parts, 0, m.count(i));
      if parts.Err? then Err(parts.error)
      else Ok(Work(w.labor + [line.value], parts.value, i + 1 + PART_DRAWS * Max(m.count(i), 0)))
  }

  function Lines(m: Maker, w: Work, hours: seq<int>): Result<Work, BuildError>
    requires |w.labor| <= |hours|
    decreases |hours| - |w.labor|
  {
    if |w.labor| == |hours| then Ok(w)
    else
      var more := NextLine(m, w, hours[|w.labor|]);
      if more.Err? then Err(more.error) else Lines(m, more.value, hours)
  }

  // -- fitting the grand total into its range --

  /** Math.round(a / q) */
  function RoundedQuotient(a: int, q: int): int
    requires q > 0
  {
    (2 * a + q) / (2 * q)
  }

  function Cleared(parts: seq<PartLine>): (r: seq<PartLine>)
    ensures |r| == |parts| && forall i :: 0 <= i < |r| ==> r[i] == parts[i].(unitPrice := 0, extended := 0)
  {
    seq(|parts|, i requires 0 <= i < |parts| => parts[i].(unitPrice := 0, extended := 0))
  }

  function Priced(parts: seq<PartLine>, neededParts: int): seq<PartLine>
    requires parts != []
  {
    var last := parts[|parts| - 1];
    var unitPrice := RoundedQuotient(Max(0, neededParts - OthersTotal(parts)), Max(1, last.quantity));
    parts[|parts| - 1 := last.(unitPrice := unitPrice, extended := unitPrice * last.quantity)]
  }

  function AdjustedAt(d: Draws, i: nat, templates: Templates, parts: seq<PartLine>, neededParts: int)
    : Result<seq<PartLine>, BuildError>
  {
    if neededParts <= 0 then Ok(Cleared(parts))
    else if parts != [] then Ok(Priced(parts, neededParts))
    else
      var description := Picked(d, i + 1, templates.partDescriptions);
      var source := Picked(d, i + 2, SOURCES);
      var backorder := Picked(d, i + 3, ADDED_BACKORDERS);
      if description == None || source == None || backorder == None then Err(PickFromEmpty)
      else Ok([PartLine(1, 1, d.integer(i, 1000, 9999), description.value, 1, neededParts, neededParts,
                        source.value, backorder.value)])
  }

  predicate Outside(total: int, range: (int, int)) {
    total < range.0 || total > range.1
  }

  /** ensureWithin allows a cent on either side. */
  function Widened(range: (int, int)): (int, int) {
    (range.0 - 1, range.1 + 1)
  }

  /** ensureWithin, on what the re-pricing made. */
  function Checked(r: Result<seq<PartLine>, BuildError>, laborTotal: int, range: (int, int))
    : Result<seq<PartLine>, BuildError>
  {
    if r.Ok? && Outside(laborTotal + PartsTotal(r.value), Widened(range)) then Err(OutOfRange) else r
  }

  /** The parts, when they leave the grand total in range, or else what `adjust` makes of the
      amount they have to come to. */
  function Fitted(adjust: int -> Result<seq<PartLine>, BuildError>, target: int, parts: seq<PartLine>,
                  laborTotal: int, range: (int, int)): Result<seq<PartLine>, BuildError>
  {
    if !Outside(laborTotal + PartsTotal(parts), range) then Ok(parts)
    else Checked(adjust(target - laborTotal), laborTotal, range)
  }

  function FittedAt(d: Draws, i: nat, templates: Templates, parts: seq<PartLine>, laborTotal: int, range: (int, int))
    : Result<seq<PartLine>, BuildError>
  {
    Fitted((needed: int) => AdjustedAt(d, i + 1, templates, parts, needed), d.float(i, range.0, range.1), parts,
           laborTotal, range)
  }

  // -- the bundle --

  function BundleOf(labor: seq<LaborLine>, parts: seq<PartLine>, discount: int): Bundle {
    var laborTotal, partsTotal := LaborTotal(labor), PartsTotal(parts);
    Bundle(labor, parts, laborTotal, partsTotal, 0, 0, 0, discount, laborTotal + partsTotal - discount)
  }

  function ClosedAt(d: Draws, w: Work, params: Params, templates: Templates): Result<Bundle, BuildError> {
    if params.warranty then Ok(BundleOf(w.labor, w.parts, LaborTotal(w.labor) + PartsTotal(w.parts)))
    else
      match FittedAt(d, w.next, templates, w.parts, LaborTotal(w.labor), params.totalRange)
      case Err(e) => Err(e)
      case Ok(parts) => Ok(BundleOf(w.labor, parts, 0))
  }

  /** The total hours, brought to what n lines can carry. */
  function Clamped(hours: int, n: int): int {
    Min(Max(hours, MIN_HOURS * n), MAX_HOURS * n)
  }

  function HoursAt(d: Draws, i: nat, params: Params): Result<seq<int>, BuildError> {
    var n := d.integer(i, params.laborLines.0, params.laborLines.1);
    Split(d, i + 2, [], Clamped(d.float(i + 1, params.hoursRange.0, params.hoursRange.1), n), n)
  }

  function BuiltOn(m: Maker, i: nat, hours: seq<int>): Result<Bundle, BuildError> {
    match Lines(m, Work([], [], i), hours)
    case Err(e) => Err(e)
    case Ok(w) => m.close(w)
  }

  function BuiltBy(m: Maker, i: nat): Result<Bundle, BuildError> {
    match m.hours(i)
    case Err(e) => Err(e)
    case Ok(hours) => BuiltOn(m, i + 1 + Max(|hours|, 1), hours)
  }

  /** The bundle that the draws from draw i on lead to, or the error. */
  function Built(d: Draws, i: nat, params: Params, templates: Templates): Result<Bundle, BuildError> {
    BuiltBy(MakerOf(d, params, templates), i)
  }
}
