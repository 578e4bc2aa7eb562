/** closestSchemaMatches: the schema fields nearest to the unknown ones. */
module ClosestMatches {
  import opened Prelude
  import opened FieldNames
  import opened Sorting
  import E = EditDistance

  /** localeCompare(a, b) <= 0. */
  type Order = (string, string) -> bool

  ghost predicate TotalOrder(before: Order) {
    && (forall a, b :: before(a, b) || before(b, a))
    && (forall a, b :: before(a, b) && before(b, a) ==> a == b)
    && (forall a, b, c :: before(a, b) && before(b, c) ==> before(a, c))
  }

  ghost predicate Distinct(s: seq<string>) {
    forall i, j :: 0 <= i < j < |s| ==> s[i] != s[j]
  }

  // -- the bases --

  /** The bases of the unknown fields; the first name that cannot be parsed is an error. */
  function BasesOf(fields: seq<string>): Result<seq<string>, IndexError> {
    if fields == [] then Ok([])
    else
      match ParseIndexedFieldName(fields[0])
      case Err(e) => Err(e)
      case Ok(name) =>
        match BasesOf(fields[1..])
        case Err(e) => Err(e)
        case Ok(rest) => Ok([name.base] + rest)
  }

  lemma {:induction false} BasesAre(fields: seq<string>)
    requires forall i :: 0 <= i < |fields| ==> ParseIndexedFieldName(fields[i]).Ok?
    ensures
      var r := BasesOf(fields);
      && r.Ok? && |r.value| == |fields|
      && forall i :: 0 <= i < |fields| ==> r.value[i] == ParseIndexedFieldName(fields[i]).value.base
    decreases |fields|
  {
    if fields != [] {
      assert forall i :: 0 <= i < |fields[1..]| ==> fields[1..][i] == fields[i + 1];
      BasesAre(fields[1..]);
      BasesOfStep(fields);
      forall i | 0 <= i < |fields|
        ensures BasesOf(fields).value[i] == ParseIndexedFieldName(fields[i]).value.base
      {
        assert i > 0 ==> fields[i] == fields[1..][i - 1];
      }
    }
  }

  lemma {:induction false} BasesOfStep(fields: seq<string>)
    requires fields != [] && ParseIndexedFieldName(fields[0]).Ok? && BasesOf(fields[1..]).Ok?
    ensures BasesOf(fields) == Ok([ParseIndexedFieldName(fields[0]).value.base] + BasesOf(fields[1..]).value)
  {
  }

  /** The bases in front of those still to come. */
  function InFront(bases: seq<string>, rest: Result<seq<string>, IndexError>): Result<seq<string>, IndexError> {
    match rest
    case Err(e) => Err(e)
    case Ok(more) => Ok(bases + more)
  }

  lemma {:induction false} BasesStep(fields: seq<string>, i: nat, bases: seq<string>)
    requires i < |fields|
    ensures
      var name := ParseIndexedFieldName(fields[i]);
      InFront(bases, BasesOf(fields[i..])) ==
      if name.Err? then Err(name.error) else InFront(bases + [name.value.base], BasesOf(fields[i + 1..]))
  {
    assert fields[i..][1..] == fields[i + 1..];
    var name, rest := ParseIndexedFieldName(fields[i]), BasesOf(fields[i + 1..]);
    if name.Ok? && rest.Ok? {
      assert bases + ([name.value.base] + rest.value) == (bases + [name.value.base]) + rest.value;
    }
  }

  lemma NothingInFront(rest: Result<seq<string>, IndexError>)
    ensures InFront([], rest) == rest
  {
    assert rest.Ok? ==> [] + rest.value == rest.value;
  }

  method ParseBases(fields: seq<string>) returns (r: Result<seq<string>, IndexError>)
    ensures r == BasesOf(fields)
  {
    var bases: seq<string> := [];
    assert fields[0..] == fields;
    NothingInFront(BasesOf(fields));
    for i := 0 to |fields|
      invariant BasesOf(fields) == InFront(bases, BasesOf(fields[i..]))
    {
      var name := ParseIndexedFieldName(fields[i]);
      BasesStep(fields, i, bases);
      if name.Err? {
        return Err(name.error);
      }
      bases := bases + [name.value.base];
    }
    assert bases + [] == bases;
    return Ok(bases);
  }

  // -- the score of a candidate --

  /** The least distance of a candidate to one of the unknown bases. */
  function Score(bases: seq<string>, candidate: string): (s: nat)
    requires bases != []
  {
    var d := E.Distance(bases[0], candidate);
    if |bases| == 1 then d
    else
      var rest := Score(bases[1..], candidate);
      if d < rest then d else rest
  }

  lemma {:induction false} ScoreIsLeast(bases: seq<string>, candidate: string)
    requires bases != []
    ensures exists i :: 0 <= i < |bases| && Score(bases, candidate) == E.Distance(bases[i], candidate)
    ensures forall i :: 0 <= i < |bases| ==> Score(bases, candidate) <= E.Distance(bases[i], candidate)
    decreases |bases|
  {
    assert Score(bases, candidate) <= E.Distance(bases[0], candidate);
    if |bases| > 1 {
      ScoreIsLeast(bases[1..], candidate);
      var i :| 0 <= i < |bases[1..]| && Score(bases[1..], candidate) == E.Distance(bases[1..][i], candidate);
      assert bases[1..][i] == bases[i + 1];
      forall j | 0 <= j < |bases| ensures Score(bases, candidate) <= E.Distance(bases[j], candidate) {
        assert j > 0 ==> bases[j] == bases[1..][j - 1];
      }
    } else {
      assert Score(bases, candidate) == E.Distance(bases[0], candidate);
    }
  }

  /** Math.min over the distances. */
  method ScoreOf(bases: seq<string>, candidate: string) returns (score: nat)
    requires bases != []
    ensures score == Score(bases, candidate)
  {
    score := E.LevenshteinDistance(bases[|bases| - 1], candidate);
    for i := |bases| - 1 downto 0
      invariant score == Score(bases[i..], candidate)
    {
      var d := E.LevenshteinDistance(bases[i], candidate);
      assert bases[i..][1..] == bases[i + 1..];
      score := if d < score then d else score;
    }
    assert bases[0..] == bases;
  }

  // -- sorting by score --

  datatype Scored = Scored(candidate: string, score: nat)

  /** The comparator of the sort: by score, then by name. */
  predicate Beats(before: Order, a: Scored, b: Scored) {
    a.score < b.score || (a.score == b.score && a.candidate != b.candidate && before(a.candidate, b.candidate))
  }

  function ByScore(before: Order): Before<Scored> {
    (a: Scored, b: Scored) => Beats(before, a, b)
  }

  function ScoredBy(bases: seq<string>, candidate: string): Scored
    requires bases != []
  {
    Scored(candidate, Score(bases, candidate))
  }

  function SortByScore(bases: seq<string>, before: Order, candidates: seq<string>): seq<Scored>
    requires bases != []
  {
    if candidates == [] then []
    else Insert(ByScore(before), ScoredBy(bases, candidates[0]), SortByScore(bases, before, candidates[1..]))
  }

  function Names(s: seq<Scored>): (r: seq<string>)
    ensures |r| == |s| && forall i :: 0 <= i < |r| ==> r[i] == s[i].candidate
  {
    seq(|s|, i requires 0 <= i < |s| => s[i].candidate)
  }

  function Closest(bases: seq<string>, before: Order, candidates: seq<string>, limit: nat): seq<string> {
    if bases == [] then []
    else
      var sorted := SortByScore(bases, before, candidates);
      Names(if limit < |sorted| then sorted[..limit] else sorted)
  }

  /** closestSchemaMatches; the candidates are the known fields. */
  method ClosestSchemaMatches(fields: seq<string>, before: Order, candidates: seq<string>, limit: nat)
    returns (r: Result<seq<string>, IndexError>)
    ensures
      match BasesOf(fields)
      case Err(e) => r == Err(e)
      case Ok(bases) => r == Ok(Closest(bases, before, candidates, limit))
  {
    var parsed := ParseBases(fields);
    if parsed.Err? {
      return Err(parsed.error);
    }
    var bases := parsed.value;
    if bases == [] {
      return Ok([]);
    }
    var sorted: seq<Scored> := [];
    for i := |candidates| downto 0
      invariant sorted == SortByScore(bases, before, candidates[i..])
    {
      assert candidates[i..][1..] == candidates[i + 1..];
      var score := ScoreOf(bases, candidates[i]);
      sorted := Insert(ByScore(before), Scored(candidates[i], score), sorted);
    }
    assert candidates[0..] == candidates;
    return Ok(Names(if limit < |sorted| then sorted[..limit] else sorted));
  }

  // -- what is suggested --

  lemma {:induction false} ByScoreIsTransitive(before: Order)
    requires TotalOrder(before)
    ensures Transitive(ByScore(before))
  {
    forall a, b, c | Beats(before, a, b) && Beats(before, b, c) ensures Beats(before, a, c) {
      if a.score == c.score {
        assert before(a.candidate, b.candidate) && before(b.candidate, c.candidate);
      }
    }
  }

  lemma {:induction false} SortSorts(bases: seq<string>, before: Order, candidates: seq<string>)
    requires bases != [] && TotalOrder(before) && Distinct(candidates)
    ensures
      var s := SortByScore(bases, before, candidates);
      && Sorted(ByScore(before), s) && |s| == |candidates|
      && forall x :: x in s <==> x.candidate in candidates && x == ScoredBy(bases, x.candidate)
    decreases |candidates|
  {
    if candidates != [] {
      var first, rest := ScoredBy(bases, candidates[0]), SortByScore(bases, before, candidates[1..]);
      SortSorts(bases, before, candidates[1..]);
      assert candidates == [candidates[0]] + candidates[1..];
      forall y | y in rest ensures ByScore(before)(first, y) || ByScore(before)(y, first) {
        assert y.candidate in candidates[1..];
      }
      ByScoreIsTransitive(before);
      InsertSorts(ByScore(before), first, rest);
    }
  }

  /** One name is nearer to the bases than the other, or as near and before it in the order. */
  predicate Nearer(bases: seq<string>, before: Order, a: string, b: string)
    requires bases != []
  {
    var d, e := Score(bases, a), Score(bases, b);
    d < e || (d == e && a != b && before(a, b))
  }

  /** The names are `limit` of the candidates (all when there are fewer), each once and in
      order, and no candidate left out beats one that is in. */
  ghost predicate AreBest(bases: seq<string>, before: Order, candidates: seq<string>, limit: nat, names: seq<string>)
    requires bases != []
  {
    && |names| == (if limit < |candidates| then limit else |candidates|)
    && (forall i, j :: 0 <= i < j < |names| ==> Nearer(bases, before, names[i], names[j]))
    && (forall x :: x in names ==> x in candidates)
    && (forall x, y :: x in names && y in candidates && y !in names ==> Nearer(bases, before, x, y))
  }

  lemma NearerIsBeats(bases: seq<string>, before: Order, a: string, b: string)
    requires bases != []
    ensures Nearer(bases, before, a, b) <==> Beats(before, ScoredBy(bases, a), ScoredBy(bases, b))
  {
  }

  lemma {:induction false} FirstAreBest(bases: seq<string>, before: Order, candidates: seq<string>, limit: nat,
                                        s: seq<Scored>, k: nat)
    requires bases != [] && Sorted(ByScore(before), s) && |s| == |candidates|
    requires forall x :: x in s <==> x.candidate in candidates && x == ScoredBy(bases, x.candidate)
    requires k == if limit < |s| then limit else |s|
    ensures AreBest(bases, before, candidates, limit, Names(s[..k]))
  {
    var r := Names(s[..k]);
    assert forall i :: 0 <= i < |s| ==> s[i] in s;
    assert forall i :: 0 <= i < k ==> s[i] == ScoredBy(bases, r[i]) && r[i] in r;
    forall i, j | 0 <= i < j < k ensures Nearer(bases, before, r[i], r[j]) {
      NearerIsBeats(bases, before, r[i], r[j]);
    }
    forall x, y | x in r && y in candidates && y !in r ensures Nearer(bases, before, x, y) {
      LeftOutIsFarther(bases, before, s, k, x, y);
    }
  }

  lemma {:induction false} LeftOutIsFarther(bases: seq<string>, before: Order, s: seq<Scored>, k: nat, x: string,
                                            y: string)
    requires bases != [] && Sorted(ByScore(before), s) && k <= |s|
    requires forall i :: 0 <= i < |s| ==> s[i] == ScoredBy(bases, s[i].candidate)
    requires x in Names(s[..k]) && y !in Names(s[..k]) && ScoredBy(bases, y) in s
    ensures Nearer(bases, before, x, y)
  {
    var r := Names(s[..k]);
    assert forall i :: 0 <= i < k ==> r[i] == s[i].candidate && r[i] in r;
    var i :| 0 <= i < k && r[i] == x;
    var j :| 0 <= j < |s| && s[j] == ScoredBy(bases, y);
    NearerIsBeats(bases, before, x, y);
  }

  lemma {:induction false} ClosestAreBest(bases: seq<string>, before: Order, candidates: seq<string>, limit: nat)
    requires bases != [] && TotalOrder(before) && Distinct(candidates)
    ensures AreBest(bases, before, candidates, limit, Closest(bases, before, candidates, limit))
  {
    SortSorts(bases, before, candidates);
    var s := SortByScore(bases, before, candidates);
    FirstAreBest(bases, before, candidates, limit, s, if limit < |s| then limit else |s|);
    assert s[..|s|] == s;
  }
}
