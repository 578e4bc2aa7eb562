/** makeLaborHoursSplit and buildLineItems as the source writes them: loops that draw and push. */
module LineItemBuilder {
  import opened Prelude
  import opened Random
  import opened LineItems
  import opened LineItemLaws
  import LineItemRange

  /** Splits the hours over the lines. A total that n lines can carry is split exactly, each
      line within its bounds; the error is raised for no such total. */
  method MakeLaborHoursSplit(rng: Rng, totalHours: int, lineCount: int) returns (r: Result<seq<int>, BuildError>)
    requires rng.Valid()
    modifies rng
    ensures rng.Valid() && r == Split(rng.draws, old(rng.at), [], totalHours, lineCount)
    ensures r.Ok? ==> rng.at == old(rng.at) + Max(lineCount, 1) - 1
    ensures 0 < lineCount && MIN_HOURS * lineCount <= totalHours <= MAX_HOURS * lineCount ==>
              r.Ok? && |r.value| == lineCount && WithinLine(r.value) && Sum(r.value) == totalHours
    ensures r.Ok? && 0 < lineCount ==> |r.value| == lineCount && r.value[lineCount - 1] <= MAX_HOURS
    ensures r.Err? ==> r.error == HoursInvalid
  {
    rng.DrawsInBounds();
    if 0 < lineCount {
      SplitEnds(rng.draws, rng.at, [], totalHours, lineCount);
      if MIN_HOURS * lineCount <= totalHours <= MAX_HOURS * lineCount {
        SplitFits(rng.draws, rng.at, [], totalHours, lineCount);
      }
    }
    r := SplitHours(rng, totalHours, lineCount);
  }

  method SplitHours(rng: Rng, totalHours: int, lineCount: int) returns (r: Result<seq<int>, BuildError>)
    requires rng.Valid()
    modifies rng
    ensures rng.Valid() && r == Split(rng.draws, old(rng.at), [], totalHours, lineCount)
    ensures r.Ok? ==> rng.at == old(rng.at) + Max(lineCount, 1) - 1
  {
    var hours: seq<int> := [];
    var remaining := totalHours;
    ghost var all := Split(rng.draws, rng.at, [], totalHours, lineCount);
    for i := 0 to Max(lineCount, 0)
      invariant rng.Valid() && rng.at == old(rng.at) + i && (lineCount > 0 ==> i < lineCount)
      invariant Split(rng.draws, rng.at, hours, remaining, lineCount - i) == all
    {
      var left := lineCount - i;
      if left == 1 {
        if remaining > MAX_HOURS {
          return Err(HoursInvalid);
        }
        return Ok(hours + [remaining]);
      }
      var minForLine := Max(MIN_HOURS, remaining - MAX_HOURS * (left - 1));
      var maxForLine := Min(MAX_HOURS, remaining - MIN_HOURS * (left - 1));
      var value := rng.Choose(minForLine, maxForLine);
      hours := hours + [value];
      remaining := remaining - value;
    }
    return Ok(hours);
  }

  method PickTexts(rng: Rng, templates: Templates) returns (r: Result<(string, string, string), BuildError>)
    requires rng.Valid()
    modifies rng
    ensures rng.Valid() && r == TextsAt(rng.draws, old(rng.at), templates)
    ensures r.Ok? ==> rng.at == old(rng.at) + 3
  {
    var notes := rng.Pick(templates.technicianNotes);
    if notes == None {
      return Err(PickFromEmpty);
    }
    var cause := rng.Pick(templates.causes);
    if cause == None {
      return Err(PickFromEmpty);
    }
    var correction := rng.Pick(templates.corrections);
    if correction == None {
      return Err(PickFromEmpty);
    }
    return Ok((notes.value, cause.value, correction.value));
  }

  method PickLaborType(rng: Rng, warranty: bool) returns (laborType: LaborType)
    requires rng.Valid()
    modifies rng
    ensures rng.Valid() && LaborTypeAt(rng.draws, old(rng.at), warranty) == Some(laborType)
    ensures rng.at == old(rng.at) + TypeDraws(warranty)
  {
    if warranty {
      return Warranty;
    }
    var picked := rng.Pick(LABOR_TYPES);
    return picked.value;
  }

  method BuildLaborLine(rng: Rng, templates: Templates, warranty: bool, index: int, hours: int)
    returns (r: Result<LaborLine, BuildError>)
    requires rng.Valid()
    modifies rng
    ensures rng.Valid() && r == LaborLineAt(rng.draws, old(rng.at), templates, warranty, index, hours)
    ensures r.Ok? ==> rng.at == old(rng.at) + LaborDraws(warranty)
  {
    var opCode := rng.Int(100, 999);
    var opDescription := rng.Pick(templates.opDescriptions);
    if opDescription == None {
      return Err(PickFromEmpty);
    }
    var laborType := PickLaborType(rng, warranty);
    var technician := rng.Int(1, 35);
    var texts := PickTexts(rng, templates);
    if texts.Err? {
      return Err(PickFromEmpty);
    }
    var (notes, cause, correction) := texts.value;
    return Ok(LaborLine(index, opCode, opDescription.value, laborType, hours, hours * RATE, technician, notes, cause,
                        correction));
  }

  method BuildPart(rng: Rng, templates: Templates, labor: int, index: int) returns (r: Result<PartLine, BuildError>)
    requires rng.Valid()
    modifies rng
    ensures rng.Valid() && r == PartAt(rng.draws, old(rng.at), templates, labor, index)
    ensures r.Ok? ==> rng.at == old(rng.at) + PART_DRAWS
  {
    var quantity := rng.Int(1, MAX_QUANTITY);
    var unitPrice := rng.Choose(MIN_PRICE, MAX_PRICE);
    var number := rng.Int(1000, 9999);
    var description := rng.Pick(templates.partDescriptions);
    if description == None {
      return Err(PickFromEmpty);
    }
    var source := rng.Pick(SOURCES);
    var backorder := rng.Pick(BACKORDERS);
    return Ok(PartLine(labor, index, number, description.value, quantity, unitPrice, unitPrice * quantity, source.value,
                       backorder.value));
  }

  method NextLaborLine(rng: Rng, params: Params, templates: Templates, index: int, hours: int, ghost maker: Maker)
    returns (r: Result<LaborLine, BuildError>)
    requires rng.Valid() && MakesFrom(maker, rng.draws, params, templates)
    modifies rng
    ensures rng.Valid() && r == maker.line(old(rng.at), index, hours)
    ensures r.Ok? ==> rng.at == old(rng.at) + maker.lineDraws
  {
    r := BuildLaborLine(rng, templates, params.warranty, index, hours);
  }

  method NextPart(rng: Rng, params: Params, templates: Templates, labor: int, index: int, ghost maker: Maker)
    returns (r: Result<PartLine, BuildError>)
    requires rng.Valid() && MakesFrom(maker, rng.draws, params, templates)
    modifies rng
    ensures rng.Valid() && r == maker.part(old(rng.at), labor, index)
    ensures r.Ok? ==> rng.at == old(rng.at) + PART_DRAWS
  {
    r := BuildPart(rng, templates, labor, index);
  }

  /** The parts of one labor line, put behind those of the lines before. */
  method BuildParts(rng: Rng, params: Params, templates: Templates, before: seq<PartLine>, labor: int, count: int,
                    ghost maker: Maker)
    returns (r: Result<seq<PartLine>, BuildError>)
    requires rng.Valid() && MakesFrom(maker, rng.draws, params, templates)
    modifies rng
    ensures rng.Valid() && r == PartsAt(maker, old(rng.at), labor, before, 0, count)
    ensures r.Ok? ==> rng.at == old(rng.at) + PART_DRAWS * Max(count, 0)
  {
    var parts := before;
    for p := 0 to Max(count, 0)
      invariant rng.Valid() && rng.at == old(rng.at) + PART_DRAWS * p
      invariant PartsAt(maker, rng.at, labor, parts, p, count) == PartsAt(maker, old(rng.at), labor, before, 0, count)
    {
      var part := NextPart(rng, params, templates, labor, p + 1, maker);
      if part.Err? {
        return Err(part.error);
      }
      parts := parts + [part.value];
    }
    return Ok(parts);
  }

  method DrawLines(rng: Rng, params: Params, templates: Templates, hours: seq<int>, ghost maker: Maker)
    returns (r: Result<(seq<LaborLine>, seq<PartLine>), BuildError>)
    requires rng.Valid() && MakesFrom(maker, rng.draws, params, templates)
    modifies rng
    ensures rng.Valid()
    ensures
      match Lines(maker, Work([], [], old(rng.at)), hours)
      case Ok(w) => r == Ok((w.labor, w.parts)) && rng.at == w.next
      case Err(e) => r == Err(e)
  {
    var laborLines: seq<LaborLine>, partLines: seq<PartLine> := [], [];
    for i := 0 to |hours|
      invariant rng.Valid() && |laborLines| == i
      invariant Lines(maker, Work(laborLines, partLines, rng.at), hours) ==
                Lines(maker, Work([], [], old(rng.at)), hours)
    {
      var line := NextLaborLine(rng, params, templates, i + 1, hours[i], maker);
      if line.Err? {
        return Err(line.error);
      }
      laborLines := laborLines + [line.value];
      var partsCount := rng.Int(params.partsPerLabor.0, params.partsPerLabor.1);
      var parts := BuildParts(rng, params, templates, partLines, i + 1, partsCount, maker);
      if parts.Err? {
        return Err(parts.error);
      }
      partLines := parts.value;
    }
    return Ok((laborLines, partLines));
  }

  /** The loop of buildLineItems: labor line i has index i + 1 and its exact product, and the
      parts of each line are numbered from 1. */
  method BuildLines(rng: Rng, params: Params, templates: Templates, hours: seq<int>, ghost maker: Maker)
    returns (r: Result<(seq<LaborLine>, seq<PartLine>), BuildError>)
    requires rng.Valid() && WithinLine(hours) && MakesFrom(maker, rng.draws, params, templates)
    requires Makes(maker, params.partsPerLabor.1, Filled(templates))
    modifies rng
    ensures rng.Valid()
    ensures
      match Lines(maker, Work([], [], old(rng.at)), hours)
      case Ok(w) => r == Ok((w.labor, w.parts)) && rng.at == w.next
      case Err(e) => r == Err(e)
    ensures r.Ok? ==> |r.value.0| == |hours| && LaborLinesFit(r.value.0) && PartLinesFit(r.value.1, |hours|)
    ensures r.Ok? ==> forall i :: 0 <= i < |hours| ==> r.value.0[i].hours == hours[i]
    ensures r.Ok? ==> PartsAreDrawn(r.value.1) && |r.value.1| <= |hours| * Max(params.partsPerLabor.1, 0)
    ensures r.Err? ==> r.error == PickFromEmpty && !Filled(templates)
  {
    assert hours[..0] == [];
    LinesFit(maker, Work([], [], rng.at), hours, params.partsPerLabor.1, Filled(templates));
    r := DrawLines(rng, params, templates, hours, maker);
  }

  method ClearPrices(parts: seq<PartLine>) returns (r: seq<PartLine>)
    ensures r == Cleared(parts)
  {
    r := parts;
    for i := 0 to |parts|
      invariant |r| == |parts|
      invariant forall j :: 0 <= j < |r| ==> r[j] == if j < i then Cleared(parts)[j] else parts[j]
    {
      r := r[i := r[i].(unitPrice := 0, extended := 0)];
    }
  }

  method AdjustParts(rng: Rng, templates: Templates, parts: seq<PartLine>, neededParts: int)
    returns (r: Result<seq<PartLine>, BuildError>)
    requires rng.Valid()
    modifies rng
    ensures rng.Valid() && r == AdjustedAt(rng.draws, old(rng.at), templates, parts, neededParts)
  {
    if neededParts <= 0 {
      var cleared := ClearPrices(parts);
      return Ok(cleared);
    }
    if parts == [] {
      var number := rng.Int(1000, 9999);
      var description := rng.Pick(templates.partDescriptions);
      if description == None {
        return Err(PickFromEmpty);
      }
      var source := rng.Pick(SOURCES);
      var backorder := rng.Pick(ADDED_BACKORDERS);
      return Ok([PartLine(1, 1, number, description.value, 1, neededParts, neededParts, source.value,
                          backorder.value)]);
    }
    var last := parts[|parts| - 1];
    var otherPartsTotal := PartsTotal(parts[..|parts| - 1]);
    var remaining := Max(0, neededParts - otherPartsTotal);
    var unitPrice := RoundedQuotient(remaining, Max(1, last.quantity));
    return Ok(parts[|parts| - 1 := last.(unitPrice := unitPrice, extended := unitPrice * last.quantity)]);
  }

  method FitDraws(rng: Rng, templates: Templates, parts: seq<PartLine>, laborTotal: int, range: (int, int))
    returns (r: Result<seq<PartLine>, BuildError>)
    requires rng.Valid()
    modifies rng
    ensures rng.Valid() && r == FittedAt(rng.draws, old(rng.at), templates, parts, laborTotal, range)
  {
    var grandTotal := laborTotal + PartsTotal(parts);
    if !Outside(grandTotal, range) {
      return Ok(parts);
    }
    var target := rng.Choose(range.0, range.1);
    r := AdjustParts(rng, templates, parts, target - laborTotal);
    if r.Err? {
      return;
    }
    grandTotal := laborTotal + PartsTotal(r.value);
    if Outside(grandTotal, Widened(range)) {
      r := Err(OutOfRange);
    }
  }

  /** Re-prices the parts of a bill that is not under warranty when its grand total is out of
      range. It gives up exactly when no re-pricing of the last part can help. */
  method FitTotal(rng: Rng, templates: Templates, parts: seq<PartLine>, n: int, laborTotal: int, range: (int, int))
    returns (r: Result<seq<PartLine>, BuildError>)
    requires rng.Valid() && PartLinesFit(parts, n) && n >= 1 && PartsAreDrawn(parts) && range.0 <= range.1
    modifies rng
    ensures rng.Valid() && r == FittedAt(rng.draws, old(rng.at), templates, parts, laborTotal, range)
    ensures FitEnds(r, n, laborTotal, range,
                    (&& Outside(laborTotal + PartsTotal(parts), range)
                     && CannotFit(parts, laborTotal, range, rng.draws.float(old(rng.at), range.0, range.1))),
                    templates.partDescriptions != [])
  {
    rng.DrawsInBounds();
    FittedFits(rng.draws, rng.at, templates, parts, n, laborTotal, range);
    r := FitDraws(rng, templates, parts, laborTotal, range);
  }

  /** From the lines on: the discount, or the re-pricing, and the totals. */
  method CloseBundle(rng: Rng, params: Params, templates: Templates, laborLines: seq<LaborLine>, lines: seq<PartLine>)
    returns (r: Result<Bundle, BuildError>)
    requires rng.Valid() && PartLinesFit(lines, |laborLines|) && |laborLines| >= 1 && PartsAreDrawn(lines)
    requires params.totalRange.0 <= params.totalRange.1
    modifies rng
    ensures rng.Valid() && r == ClosedAt(rng.draws, Work(laborLines, lines, old(rng.at)), params, templates)
  {
    var partLines := lines;
    var laborTotal := LaborTotal(laborLines);
    var partsTotal := PartsTotal(partLines);
    var discountTotal := 0;
    if params.warranty {
      discountTotal := laborTotal + partsTotal;
    } else {
      var fitted := FitTotal(rng, templates, partLines, |laborLines|, laborTotal, params.totalRange);
      if fitted.Err? {
        return Err(fitted.error);
      }
      partLines := fitted.value;
    }
    var updatedPartsTotal := PartsTotal(partLines);
    var computedGrand := laborTotal + updatedPartsTotal - discountTotal;
    return Ok(Bundle(laborLines, partLines, laborTotal, updatedPartsTotal, 0, 0, 0, discountTotal, computedGrand));
  }

  /** The number of labor lines, the total hours and their split. */
  method DrawHours(rng: Rng, params: Params) returns (hours: seq<int>)
    requires rng.Valid() && ValidParams(params)
    modifies rng
    ensures rng.Valid() && HoursAt(rng.draws, old(rng.at), params) == Ok(hours)
    ensures WithinLine(hours) && |hours| >= 1 && rng.at == old(rng.at) + 1 + |hours|
  {
    var laborLineCount := rng.Int(params.laborLines.0, params.laborLines.1);
    var totalHours := rng.Choose(params.hoursRange.0, params.hoursRange.1);
    var minHours := MIN_HOURS * laborLineCount;
    var maxHours := MAX_HOURS * laborLineCount;
    if totalHours < minHours {
      totalHours := minHours;
    }
    if totalHours > maxHours {
      totalHours := maxHours;
    }
    var hoursSplit := MakeLaborHoursSplit(rng, totalHours, laborLineCount);
    // the clamped total can be split, so nothing is raised
    assert hoursSplit.Ok?;
    return hoursSplit.value;
  }

  method DrawRest(rng: Rng, params: Params, templates: Templates, hours: seq<int>, ghost maker: Maker)
    returns (r: Result<Bundle, BuildError>)
    requires rng.Valid() && ValidParams(params) && WithinLine(hours) && |hours| >= 1
    requires MakesFrom(maker, rng.draws, params, templates) && EndsFrom(maker, rng.draws, params, templates)
    requires Makes(maker, params.partsPerLabor.1, Filled(templates))
    modifies rng
    ensures rng.Valid()
    ensures r == BuiltOn(maker, old(rng.at), hours)
  {
    var lines := BuildLines(rng, params, templates, hours, maker);
    if lines.Err? {
      return Err(lines.error);
    }
    r := CloseBundle(rng, params, templates, lines.value.0, lines.value.1);
  }

  method DrawBundle(rng: Rng, params: Params, templates: Templates, ghost maker: Maker)
    returns (r: Result<Bundle, BuildError>)
    requires rng.Valid() && ValidParams(params)
    requires MakesFrom(maker, rng.draws, params, templates) && EndsFrom(maker, rng.draws, params, templates)
    requires Makes(maker, params.partsPerLabor.1, Filled(templates))
    modifies rng
    ensures rng.Valid() && r == BuiltBy(maker, old(rng.at))
  {
    var hours := DrawHours(rng, params);
    r := DrawRest(rng, params, templates, hours, maker);
  }

  /** buildLineItems: the bundle of its draws; whatever they are, a returned bundle is sound. */
  method BuildLineItems(rng: Rng, params: Params, templates: Templates) returns (r: Result<Bundle, BuildError>)
    requires rng.Valid() && ValidParams(params)
    modifies rng
    ensures rng.Valid() && r == Built(rng.draws, old(rng.at), params, templates)
    ensures r.Ok? ==> Sound(r.value, params.warranty)
    ensures r.Ok? ==> params.laborLines.0 <= |r.value.labor| <= params.laborLines.1
    ensures r.Ok? && !params.warranty ==> !Outside(r.value.grandTotal, Widened(params.totalRange))
    ensures r.Err? ==> r.error != HoursInvalid && (r.error == OutOfRange ==> !params.warranty)
    ensures r == Err(OutOfRange) ==> LineItemRange.CanGiveUp(params)
    ensures r == Err(PickFromEmpty) ==> !Filled(templates)
  {
    rng.DrawsInBounds();
    MakerOfMakes(rng.draws, params, templates);
    MakerOfMakesFrom(rng.draws, params, templates);
    BuiltIsSound(rng.draws, rng.at, params, templates);
    LineItemRange.GivingUpMeans(rng.draws, rng.at, params, templates);
    r := DrawBundle(rng, params, templates, MakerOf(rng.draws, params, templates));
  }
}
