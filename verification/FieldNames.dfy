/** Indexed field names: BASE, BASE_<labor> and BASE_<labor>_<part>. */
module FieldNames {
  import opened Prelude
  import opened Text
  import opened Sorting

  datatype Indexed =
    | Plain(base: string)
    | OfLabor(base: string, labor: nat)
    | OfPart(base: string, labor: nat, part: nat)

  datatype IndexError = IndexInvalid

  /** /^[0-9]+$/ */
  predicate Numeric(s: string) {
    s != "" && forall i :: 0 <= i < |s| ==> IsDigit(s[i])
  }

  function DigitValue(c: char): nat
    requires IsDigit(c)
  {
    c as int - '0' as int
  }

  /** Number.parseInt on digits. */
  function ParseInt(s: string): nat
    requires forall i :: 0 <= i < |s| ==> IsDigit(s[i])
  {
    if s == "" then 0 else 10 * ParseInt(s[..|s| - 1]) + DigitValue(s[|s| - 1])
  }

  /** Where the last '_' is: the segments of split("_") end there. */
  function LastUnderscore(s: string): (r: int)
    ensures -1 <= r < |s| && (r >= 0 ==> s[r] == '_')
    ensures forall i :: r < i < |s| ==> s[i] != '_'
  {
    if s == "" then -1 else if s[|s| - 1] == '_' then |s| - 1 else LastUnderscore(s[..|s| - 1])
  }

  function LastSegment(s: string): string {
    s[LastUnderscore(s) + 1..]
  }

  /** Everything before the last segment, without the '_'. */
  function Lead(s: string): string {
    if LastUnderscore(s) == -1 then "" else s[..LastUnderscore(s)]
  }

  function ParseIndexedFieldName(name: string): Result<Indexed, IndexError> {
    if LastUnderscore(name) == -1 || !Numeric(LastSegment(name)) then Ok(Plain(name))
    else
      var last, lead := ParseInt(LastSegment(name)), Lead(name);
      if Numeric(LastSegment(lead)) then
        var secondLast := ParseInt(LastSegment(lead));
        if secondLast <= 0 || last <= 0 then Err(IndexInvalid) else Ok(OfPart(Lead(lead), secondLast, last))
      else if last <= 0 then Err(IndexInvalid)
      else Ok(OfLabor(lead, last))
  }

  // -- printing and parsing --

  function DigitChar(d: nat): char
    requires d < 10
  {
    '0' + d as char
  }

  function Digits(n: nat): (s: string)
    ensures Numeric(s)
  {
    if n < 10 then [DigitChar(n)] else Digits(n / 10) + [DigitChar(n % 10)]
  }

  lemma {:induction false} ParseDigits(n: nat)
    ensures ParseInt(Digits(n)) == n
  {
    var s := Digits(n);
    var d: nat := n % 10;
    if n < 10 {
      assert s[..|s| - 1] == "" && s[|s| - 1] == DigitChar(n);
      assert ParseInt(s[..|s| - 1]) == 0;
    } else {
      assert s[..|s| - 1] == Digits(n / 10) && s[|s| - 1] == DigitChar(d);
      ParseDigits(n / 10);
    }
  }

  /** A segment put behind a name is its last one. */
  lemma {:induction false} SegmentIsLast(lead: string, segment: string)
    requires forall i :: 0 <= i < |segment| ==> segment[i] != '_'
    ensures LastUnderscore(lead + "_" + segment) == |lead|
    ensures LastSegment(lead + "_" + segment) == segment && Lead(lead + "_" + segment) == lead
  {
    var s := lead + "_" + segment;
    if segment != "" {
      var shorter := segment[..|segment| - 1];
      SegmentIsLast(lead, shorter);
      assert s[..|s| - 1] == lead + "_" + shorter;
      assert s[|s| - 1] == segment[|segment| - 1];
    }
  }

  lemma NumericHasNoUnderscore(s: string)
    requires Numeric(s)
    ensures forall i :: 0 <= i < |s| ==> s[i] != '_'
  {
    assert forall i :: 0 <= i < |s| ==> IsDigit(s[i]);
  }

  /** A part name is always read back, whatever its base. */
  lemma {:induction false} PartNameReadBack(base: string, labor: string, part: string)
    requires Numeric(labor) && Numeric(part)
    ensures ParseIndexedFieldName(base + "_" + labor + "_" + part) ==
            if ParseInt(labor) == 0 || ParseInt(part) == 0 then Err(IndexInvalid)
            else Ok(OfPart(base, ParseInt(labor), ParseInt(part)))
  {
    var lead := base + "_" + labor;
    NumericHasNoUnderscore(labor);
    NumericHasNoUnderscore(part);
    SegmentIsLast(base, labor);
    SegmentIsLast(lead, part);
  }

  /** A labor name is read back exactly when its base does not itself end in a number. */
  lemma LaborNameReadBack(base: string, labor: string)
    requires Numeric(labor) && ParseInt(labor) > 0
    ensures ParseIndexedFieldName(base + "_" + labor) == Ok(OfLabor(base, ParseInt(labor))) <==>
            !Numeric(LastSegment(base))
  {
    NumericHasNoUnderscore(labor);
    SegmentIsLast(base, labor);
  }

  // -- what a name is read as --

  /** The name is cut at its last underscore, or is one segment. */
  predicate CutsInto(name: string, lead: string, last: string) {
    '_' !in last && (name == lead + "_" + last || (lead == "" && name == last))
  }

  lemma {:induction false} NameIsCut(name: string)
    ensures CutsInto(name, Lead(name), LastSegment(name))
  {
    var r := LastUnderscore(name);
    if r == -1 {
      assert name[0..] == name;
    } else {
      assert name == name[..r] + "_" + name[r + 1..];
    }
  }

  /** A number above zero, written in digits. */
  predicate IsIndex(digits: string, n: nat) {
    Numeric(digits) && n == ParseInt(digits) > 0
  }

  /** What a name is read as: with two numbers at its end as a part of a labor line, with one as a
      labor line, otherwise as it is; a number that is zero is an error. */
  ghost predicate NameReads(name: string, r: Result<Indexed, IndexError>) {
    exists lead, last ::
      CutsInto(name, lead, last) &&
      if '_' !in name || !Numeric(last) then r == Ok(Plain(name))
      else
        exists base, middle ::
          CutsInto(lead, base, middle) &&
          if Numeric(middle) then
            if exists l, p :: IsIndex(middle, l) && IsIndex(last, p)
            then exists l, p :: IsIndex(middle, l) && IsIndex(last, p) && r == Ok(OfPart(base, l, p))
            else r.Err?
          else if exists l :: IsIndex(last, l) then exists l :: IsIndex(last, l) && r == Ok(OfLabor(lead, l))
          else r.Err?
  }

  lemma {:induction false} UnderscoreIsFound(name: string)
    ensures '_' in name <==> LastUnderscore(name) != -1
  {
  }

  /** Every name is read so. */
  lemma {:induction false} EveryNameIsRead(name: string)
    ensures NameReads(name, ParseIndexedFieldName(name))
  {
    var lead, last := Lead(name), LastSegment(name);
    NameIsCut(name);
    NameIsCut(lead);
    UnderscoreIsFound(name);
    var middle := LastSegment(lead);
    if Numeric(last) && ParseInt(last) > 0 {
      assert IsIndex(last, ParseInt(last));
      if Numeric(middle) && ParseInt(middle) > 0 {
        assert IsIndex(middle, ParseInt(middle));
      }
    }
  }

  // -- ensureContiguousIndices --

  ghost predicate Ascending(s: seq<int>) {
    forall i, j :: 0 <= i < j < |s| ==> s[i] < s[j]
  }

  predicate Smaller(a: int, b: int) {
    a < b
  }

  lemma InsertAscends(x: int, s: seq<int>)
    requires Ascending(s) && x !in s
    ensures Ascending(Insert(Smaller, x, s)) && forall y :: y in Insert(Smaller, x, s) <==> y == x || y in s
  {
    InsertSorts(Smaller, x, s);
  }

  /** The indices are 1..n, each at least once, and nothing else. */
  ghost predicate CountsTo(indices: seq<int>, n: nat) {
    forall x :: x in indices <==> 1 <= x <= n
  }

  ghost predicate Contiguous(indices: seq<int>) {
    exists n: nat :: CountsTo(indices, n)
  }

  /** In ascending order without repetition, 1..n is the list whose entry i is i + 1. */
  lemma {:induction false} AscendingIsCounting(s: seq<int>, n: nat, i: nat)
    requires Ascending(s) && CountsTo(s, n) && i < |s|
    ensures s[i] == i + 1
  {
    assert s[i] in s;
    if i == 0 {
      assert 1 in s;
      assert forall j :: 0 < j < |s| ==> s[0] < s[j];
    } else {
      AscendingIsCounting(s, n, i - 1);
      assert s[i - 1] < s[i];
      assert i + 1 in s;
      var j :| 0 <= j < |s| && s[j] == i + 1;
      assert forall k :: 0 <= k < i ==> s[k] <= s[i - 1];
    }
  }

  /** ensureContiguousIndices: sorts the set of indices and compares entry i with i + 1. */
  method EnsureContiguousIndices(indices: seq<int>) returns (gap: bool)
    ensures !gap <==> Contiguous(indices)
  {
    var sorted: seq<int> := [];
    for i := 0 to |indices|
      invariant Ascending(sorted)
      invariant forall x :: x in sorted <==> x in indices[..i]
    {
      assert indices[..i + 1] == indices[..i] + [indices[i]];
      if indices[i] !in sorted {
        InsertAscends(indices[i], sorted);
        sorted := Insert(Smaller, indices[i], sorted);
      }
    }
    assert indices[..|indices|] == indices;
    for i := 0 to |sorted|
      invariant forall j :: 0 <= j < i ==> sorted[j] == j + 1
    {
      if sorted[i] != i + 1 {
        NotCounting(indices, sorted, i);
        return true;
      }
    }
    CountingIsContiguous(indices, sorted);
    return false;
  }

  lemma NotCounting(indices: seq<int>, sorted: seq<int>, i: nat)
    requires Ascending(sorted) && (forall x :: x in sorted <==> x in indices)
    requires i < |sorted| && sorted[i] != i + 1
    ensures !Contiguous(indices)
  {
    forall n: nat ensures !CountsTo(indices, n) {
      if CountsTo(indices, n) {
        AscendingIsCounting(sorted, n, i);
      }
    }
  }

  lemma CountingIsContiguous(indices: seq<int>, sorted: seq<int>)
    requires (forall x :: x in sorted <==> x in indices) && forall i :: 0 <= i < |sorted| ==> sorted[i] == i + 1
    ensures Contiguous(indices)
  {
    assert CountsTo(indices, |sorted|) by {
      forall x ensures x in indices <==> 1 <= x <= |sorted| {
        if 1 <= x <= |sorted| {
          assert sorted[x - 1] in sorted;
        }
      }
    }
  }

  /** An ascending list passes exactly when it counts 1, 2, 3 .. */
  lemma ContiguousWhenAscending(s: seq<int>)
    requires Ascending(s)
    ensures Contiguous(s) <==> forall i :: 0 <= i < |s| ==> s[i] == i + 1
  {
    if Contiguous(s) {
      var n: nat :| CountsTo(s, n);
      forall i | 0 <= i < |s| ensures s[i] == i + 1 {
        AscendingIsCounting(s, n, i);
      }
    }
    if forall i :: 0 <= i < |s| ==> s[i] == i + 1 {
      CountingIsContiguous(s, s);
    }
  }
}
