/** The flat XML of the generator (buildXml) and its reader (extractFlatFields). */
module FlatXml {
  import opened Prelude
  import opened Text
  import opened XmlEscape
  import SemanticXml

  type Entry = SemanticXml.Entry

  datatype FlatError = XmlInvalid | XmlNesting(field: string)

  // -- the reader --

  /** The longest run of word characters that s starts with. */
  function WordRun(s: string): (n: nat)
    ensures n <= |s| && (n < |s| ==> !IsWord(s[n]))
    ensures forall i :: 0 <= i < n ==> IsWord(s[i])
  {
    if s != "" && IsWord(s[0]) then 1 + WordRun(s[1..]) else 0
  }

  function Close(name: string): string {
    "</" + name + ">"
  }

  datatype Tag = Tag(name: string, text: string, length: nat)

  /** A match of <([A-Za-z0-9_]+)>([\s\S]*?)<\/\1> at the start of s. */
  function TagHere(s: string): (t: Option<Tag>)
    ensures t.Some? ==> 0 < t.value.length <= |s|
  {
    if s == "" || s[0] != '<' then None
    else
      var n := WordRun(s[1..]);
      if n == 0 || n + 1 >= |s| || s[n + 1] != '>' then None
      else Closed(s, n, Close(s[1..n + 1]))
  }

  /** The value after an opening tag, up to the first closing tag. */
  function Closed(s: string, n: nat, closeTag: string): (t: Option<Tag>)
    requires n + 2 <= |s|
    ensures t.Some? ==> 0 < t.value.length <= |s|
  {
    var close := IndexOf(s, closeTag, n + 2);
    if close == -1 then None else Some(Tag(s[1..n + 1], s[n + 2..close], close + |closeTag|))
  }

  /** A pattern tried at the start of a text. */
  type Pattern = string -> Option<Tag>

  /** Matches are not empty and lie in the text. */
  ghost predicate Advances(find: Pattern) {
    forall s :: find(s).Some? ==> 0 < find(s).value.length <= |s|
  }

  /** All matches of the pattern, leftmost first and without overlap. */
  function Fields(find: Pattern, s: string): seq<Tag>
    requires Advances(find)
    decreases |s|
  {
    if s == "" then []
    else
      match find(s)
      case Some(t) => assert find(s).Some?; [t] + Fields(find, s[t.length..])
      case None => Fields(find, s[1..])
  }

  function UpperChar(c: char): char {
    if 'a' <= c <= 'z' then c - 'a' + 'A' else c
  }

  /** Lower-case letters are the only ones that change, each to the upper-case letter it is the lower
      case of. */
  function Upper(s: string): (r: string)
    ensures |r| == |s| && Lower(r) == Lower(s)
    ensures forall i :: 0 <= i < |s| ==> !('a' <= r[i] <= 'z')
    ensures forall i :: 0 <= i < |s| ==> r[i] == UpperChar(s[i])
  {
    seq(|s|, i requires 0 <= i < |s| => UpperChar(s[i]))
  }

  predicate Nested(t: Tag) {
    '<' in Trim(t.text)
  }

  function Flattened(t: Tag): Entry {
    SemanticXml.Entry(Upper(t.name), Trim(t.text))
  }

  /** Names in upper case, values trimmed, the first value with a '<' an error. */
  function Flat(tags: seq<Tag>): Result<seq<Entry>, FlatError> {
    if tags == [] then Ok([])
    else if Nested(tags[0]) then Err(XmlNesting(Upper(tags[0].name)))
    else Prepend([Flattened(tags[0])], Flat(tags[1..]))
  }

  function Prepend(entries: seq<Entry>, r: Result<seq<Entry>, FlatError>): Result<seq<Entry>, FlatError> {
    match r
    case Err(e) => Err(e)
    case Ok(rest) => Ok(entries + rest)
  }

  ghost function FlatContent(find: Pattern, content: string): Result<seq<Entry>, FlatError>
    requires Advances(find)
  {
    var tags := Fields(find, content);
    if tags == [] && !Blank(content) then Err(XmlInvalid) else Flat(tags)
  }

  ghost function FlatFields(find: Pattern, xml: string): Result<seq<Entry>, FlatError>
    requires Advances(find)
  {
    var roots := Fields(find, xml);
    if roots == [] then Err(XmlInvalid) else FlatContent(find, roots[0].text)
  }

  lemma TagAdvances()
    ensures Advances(TagHere)
  {
  }

  ghost function ExtractFlatFields(xml: string): Result<seq<Entry>, FlatError> {
    TagAdvances();
    FlatFields(TagHere, xml)
  }

  // -- the pattern --

  ghost predicate IsName(name: string) {
    name != "" && forall i :: 0 <= i < |name| ==> IsWord(name[i])
  }

  /** s starts with the pattern, for one choice of name and value. */
  ghost predicate Matches(s: string, name: string, value: string, rest: string) {
    IsName(name) && s == "<" + name + ">" + value + Close(name) + rest
  }

  lemma OpenParts(name: string, rest: string)
    ensures
      var s := "<" + name + ">" + rest;
      && s[1..] == name + (">" + rest) && s[1..|name| + 1] == name && s[|name| + 1] == '>'
      && s[|name| + 2..] == rest
  {
  }

  lemma SuffixSlice(s: string, a: nat, k: nat)
    requires a + k <= |s|
    ensures s[a..a + k] == s[a..][..k]
  {
  }

  function OpenTag(name: string, rest: string): string {
    "<" + name + ">" + rest
  }

  /** The tag of an opening <name> followed by rest. */
  function Ended(name: string, rest: string, closeTag: string): Option<Tag> {
    var k := IndexOf(rest, closeTag, 0);
    if k == -1 then None else Some(Tag(name, rest[..k], |name| + 2 + k + |closeTag|))
  }

  lemma {:induction false} ClosedIs(s: string, name: string, rest: string, closeTag: string)
    requires |s| >= |name| + 2 && s[1..|name| + 1] == name && s[|name| + 2..] == rest
    ensures Closed(s, |name|, closeTag) == Ended(name, rest, closeTag)
  {
    var n := |name|;
    IndexOfShift(s, closeTag, n + 2, 0);
    var k, close := IndexOf(rest, closeTag, 0), IndexOf(s, closeTag, n + 2);
    if k != -1 {
      assert close == n + 2 + k;
      SuffixSlice(s, n + 2, k);
    }
  }

  lemma {:induction false} OpensAt(s: string, name: string, more: string)
    requires IsName(name) && |s| >= |name| + 2 && s[0] == '<' && s[|name| + 1] == '>'
    requires s[1..] == name + more && s[1..|name| + 1] == name && more != "" && !IsWord(more[0])
    ensures TagHere(s) == Closed(s, |name|, Close(name))
  {
    RunOf(name, more);
  }

  /** The tag of an opening <name>: its value ends at the first closing tag. */
  lemma Opens(name: string, rest: string, closeTag: string)
    requires IsName(name) && closeTag == Close(name)
    ensures TagHere(OpenTag(name, rest)) == Ended(name, rest, closeTag)
  {
    var s := OpenTag(name, rest);
    OpenParts(name, rest);
    OpensAt(s, name, ">" + rest);
    ClosedIs(s, name, rest, closeTag);
  }

  lemma {:induction false} RunOf(name: string, rest: string)
    requires forall i :: 0 <= i < |name| ==> IsWord(name[i])
    requires rest != "" && !IsWord(rest[0])
    ensures WordRun(name + rest) == |name|
  {
    if name == "" {
      assert name + rest == rest;
    } else {
      RunOf(name[1..], rest);
      assert (name + rest)[1..] == name[1..] + rest;
    }
  }

  lemma SplitAt(s: string, n: nat, close: nat, c: string)
    requires n + 2 <= close && At(s, c, close) && s[0] == '<' && s[n + 1] == '>'
    ensures s == "<" + s[1..n + 1] + ">" + s[n + 2..close] + c + s[close + |c|..]
  {
    assert s[close..close + |c|] == c;
  }

  lemma ClosedSplits(s: string, n: nat, closeTag: string)
    requires n + 2 <= |s| && s[0] == '<' && s[n + 1] == '>' && Closed(s, n, closeTag).Some?
    ensures var t := Closed(s, n, closeTag).value; s == "<" + t.name + ">" + t.text + closeTag + s[t.length..]
  {
    SplitAt(s, n, IndexOf(s, closeTag, n + 2), closeTag);
  }

  lemma {:induction false} ClosedIsMatch(s: string, n: nat, closeTag: string)
    requires 0 < n && n + 2 <= |s| && s[0] == '<' && s[n + 1] == '>' && closeTag == Close(s[1..n + 1])
    requires (forall i :: 0 < i <= n ==> IsWord(s[i])) && Closed(s, n, closeTag).Some?
    ensures var t := Closed(s, n, closeTag).value; Matches(s, t.name, t.text, s[t.length..])
  {
    ClosedSplits(s, n, closeTag);
  }

  /** What the scanner finds is a match .. */
  lemma {:induction false} TagIsMatch(s: string)
    requires TagHere(s).Some?
    ensures var t := TagHere(s).value; Matches(s, t.name, t.text, s[t.length..])
  {
    var n := WordRun(s[1..]);
    assert forall i :: 0 < i <= n ==> s[i] == s[1..][i - 1];
    ClosedIsMatch(s, n, Close(s[1..n + 1]));
  }

  lemma AtAfter(value: string, c: string, rest: string)
    ensures At(value + c + rest, c, |value|) && (value + c + rest)[..|value|] == value
  {
  }

  /** .. and it finds one whenever there is one, the one with the shortest value. */
  lemma {:induction false} TagIsShortest(s: string, name: string, value: string, rest: string)
    requires Matches(s, name, value, rest)
    ensures TagHere(s).Some? && TagHere(s).value.name == name && |TagHere(s).value.text| <= |value|
  {
    var more := value + Close(name) + rest;
    assert s == "<" + name + ">" + more;
    Opens(name, more, Close(name));
    AtAfter(value, Close(name), rest);
  }

  // -- what the reader returns --

  lemma {:induction false} TrimStartKeeps(s: string, c: char)
    requires !IsSpace(c)
    ensures c in TrimStart(s) <==> c in s
  {
    if s != "" && IsSpace(s[0]) {
      TrimStartKeeps(s[1..], c);
      assert s == [s[0]] + s[1..];
    }
  }

  lemma {:induction false} TrimEndKeeps(s: string, c: char)
    requires !IsSpace(c)
    ensures c in TrimEnd(s) <==> c in s
    decreases |s|
  {
    if s != "" && IsSpace(s[|s| - 1]) {
      TrimEndKeeps(s[..|s| - 1], c);
      assert s == s[..|s| - 1] + [s[|s| - 1]];
    }
  }

  /** Trimming removes white space only. */
  lemma {:induction false} TrimKeeps(s: string, c: char)
    requires !IsSpace(c)
    ensures c in Trim(s) <==> c in s
  {
    TrimStartKeeps(s, c);
    TrimEndKeeps(TrimStart(s), c);
  }

  /** The first field whose value has a '<'. */
  ghost predicate FirstNested(tags: seq<Tag>, i: nat) {
    i < |tags| && '<' in tags[i].text && forall j :: 0 <= j < i ==> '<' !in tags[j].text
  }

  /** The entries are the fields in order, names in upper case and values trimmed. */
  ghost predicate AreEntries(entries: seq<Entry>, tags: seq<Tag>) {
    && |entries| == |tags|
    && forall i :: 0 <= i < |tags| ==>
                     entries[i].path == Upper(tags[i].name) && entries[i].text == Trim(tags[i].text)
  }

  /** What the reader says of these fields: the first with a '<' in its value, by its name in
      upper case, or else the entries. */
  ghost predicate Reading(r: Result<seq<Entry>, FlatError>, tags: seq<Tag>) {
    match r
    case Ok(entries) => AreEntries(entries, tags) && forall i :: 0 <= i < |tags| ==> '<' !in tags[i].text
    case Err(XmlNesting(n)) => exists i: nat :: FirstNested(tags, i) && n == Upper(tags[i].name)
    case Err(XmlInvalid) => false
  }

  lemma {:induction false} FlatMeans(tags: seq<Tag>)
    ensures Reading(Flat(tags), tags)
    decreases |tags|
  {
    if tags != [] {
      TrimKeeps(tags[0].text, '<');
      FlatMeans(tags[1..]);
      if '<' in tags[0].text {
        assert FirstNested(tags, 0);
      } else if Flat(tags[1..]).Err? {
        var i: nat :| FirstNested(tags[1..], i) && Flat(tags[1..]).error.field == Upper(tags[1..][i].name);
        assert FirstNested(tags, i + 1);
      }
    }
  }

  /** There is no match at any of the first n positions. */
  ghost predicate NoneBefore(find: Pattern, s: string, n: nat)
    requires n <= |s|
  {
    forall q :: 0 <= q < n ==> find(s[q..]) == None
  }

  lemma {:induction false} NoneBeforeCons(find: Pattern, s: string, n: nat)
    requires 0 < |s| && n <= |s| - 1 && find(s) == None && NoneBefore(find, s[1..], n)
    ensures NoneBefore(find, s, n + 1)
  {
    forall q | 0 <= q < n + 1 ensures find(s[q..]) == None {
      if q == 0 {
        assert s[0..] == s;
      } else {
        assert s[1..][q - 1..] == s[q..];
      }
    }
  }

  lemma SuffixOfTail(s: string, p: nat)
    requires p <= |s| - 1
    ensures s[1..][p..] == s[p + 1..]
  {
  }

  /** The first of these fields is the leftmost match, at position p, and the others are the
      fields behind it; without fields there is no match. */
  ghost predicate Leftmost(find: Pattern, s: string, p: nat, tags: seq<Tag>)
    requires Advances(find)
  {
    && p <= |s| && NoneBefore(find, s, p)
    && if tags == [] then p == |s|
       else
         && find(s[p..]) == Some(tags[0]) && p + tags[0].length <= |s|
         && tags[1..] == Fields(find, s[p + tags[0].length..])
  }

  lemma {:induction false} LeftmostOfTail(find: Pattern, s: string, p: nat, tags: seq<Tag>)
    requires Advances(find) && s != "" && find(s) == None && Leftmost(find, s[1..], p, tags)
    ensures Leftmost(find, s, p + 1, tags)
  {
    NoneBeforeCons(find, s, p);
    if tags != [] {
      SuffixOfTail(s, p);
      SuffixOfTail(s, p + tags[0].length);
    }
  }

  /** The fields of a text are its leftmost matches, one after the other. */
  lemma {:induction false} FieldsAreLeftmost(find: Pattern, s: string) returns (p: nat)
    requires Advances(find)
    ensures Leftmost(find, s, p, Fields(find, s))
    decreases |s|
  {
    p := 0;
    if s != "" {
      assert s[0..] == s;
      if find(s) == None {
        p := FieldsAreLeftmost(find, s[1..]);
        LeftmostOfTail(find, s, p, Fields(find, s[1..]));
        p := p + 1;
      }
    }
  }

  lemma {:induction false} ReadingMeans(find: Pattern, xml: string)
    requires Advances(find)
    ensures
      var roots, r := Fields(find, xml), FlatFields(find, xml);
      if roots == [] || (Fields(find, roots[0].text) == [] && !Blank(roots[0].text)) then r == Err(XmlInvalid)
      else Reading(r, Fields(find, roots[0].text))
  {
    var roots := Fields(find, xml);
    if roots != [] {
      FlatMeans(Fields(find, roots[0].text));
    }
  }

  /** No text that the reader lets through has a '<' or white space at its ends. */
  lemma {:induction false} ReadTextsAreFlat(xml: string)
    ensures
      var r := ExtractFlatFields(xml);
      r.Ok? ==>
        forall i :: 0 <= i < |r.value| ==>
                      '<' !in r.value[i].text && (r.value[i].text == "" || SolidEnds(r.value[i].text))
  {
    TagAdvances();
    ReadingMeans(TagHere, xml);
    var r := ExtractFlatFields(xml);
    if r.Ok? {
      var tags := Fields(TagHere, Fields(TagHere, xml)[0].text);
      forall i | 0 <= i < |r.value|
        ensures '<' !in r.value[i].text && (r.value[i].text == "" || SolidEnds(r.value[i].text))
      {
        TrimKeeps(tags[i].text, '<');
        var _ := TrimIs(tags[i].text);
      }
    }
  }

  // -- the loops --

  /** One exec of the global pattern: the leftmost match from a position on. */
  method NextTag(find: Pattern, s: string, from: nat) returns (t: Option<Tag>, end: nat)
    requires Advances(find) && from <= |s|
    ensures t == None ==> Fields(find, s[from..]) == []
    ensures t.Some? ==> from < end <= |s| && t.value.length > 0
    ensures t.Some? ==> Fields(find, s[from..]) == [t.value] + Fields(find, s[end..])
  {
    var start := from;
    while start < |s|
      invariant from <= start <= |s|
      invariant Fields(find, s[start..]) == Fields(find, s[from..])
    {
      t := find(s[start..]);
      if t.Some? {
        assert find(s[start..]).Some?;
        end := start + t.value.length;
        assert s[start..][t.value.length..] == s[end..];
        return;
      }
      assert s[start..][1..] == s[start + 1..];
      start := start + 1;
    }
    return None, from;
  }

  lemma FlatStep(results: seq<Entry>, t: Tag, rest: seq<Tag>)
    ensures Nested(t) ==> Prepend(results, Flat([t] + rest)) == Err(XmlNesting(Upper(t.name)))
    ensures !Nested(t) ==> Prepend(results, Flat([t] + rest)) == Prepend(results + [Flattened(t)], Flat(rest))
  {
    assert ([t] + rest)[1..] == rest;
    if Flat(rest).Ok? {
      assert results + ([Flattened(t)] + Flat(rest).value) == (results + [Flattened(t)]) + Flat(rest).value;
    }
  }

  lemma FlatEnds(results: seq<Entry>, r: Result<seq<Entry>, FlatError>)
    ensures Prepend([], r) == r && Prepend(results, Flat([])) == Ok(results)
  {
    assert r.Ok? ==> [] + r.value == r.value;
    assert results + [] == results;
  }

  method IsBlank(s: string) returns (b: bool)
    ensures b <==> Blank(s)
  {
    for i := 0 to |s|
      invariant forall j :: 0 <= j < i ==> IsSpace(s[j])
    {
      if !IsSpace(s[i]) {
        return false;
      }
    }
    return true;
  }

  method CollectFields(find: Pattern, content: string) returns (r: Result<seq<Entry>, FlatError>, totalLength: nat)
    requires Advances(find)
    ensures r == Flat(Fields(find, content))
    ensures r.Ok? ==> (totalLength == 0 <==> Fields(find, content) == [])
  {
    var results: seq<Entry> := [];
    var idx := 0;
    totalLength := 0;
    ghost var all := Fields(find, content);
    ghost var todo := all;
    assert content[0..] == content;
    FlatEnds([], Flat(all));
    while true
      invariant idx <= |content|
      invariant todo == Fields(find, content[idx..])
      invariant Prepend(results, Flat(todo)) == Flat(all)
      invariant totalLength == 0 ==> todo == all
      invariant totalLength != 0 ==> all != []
      decreases |content| - idx
    {
      var found, end := NextTag(find, content, idx);
      if found == None {
        break;
      }
      var t := found.value;
      ghost var more := Fields(find, content[end..]);
      FlatStep(results, t, more);
      if Nested(t) {
        return Err(XmlNesting(Upper(t.name))), totalLength;
      }
      results := results + [Flattened(t)];
      totalLength := totalLength + t.length;
      idx := end;
      todo := more;
    }
    FlatEnds(results, Flat(all));
    r := Ok(results);
  }

  method ReadWith(find: Pattern, xml: string) returns (r: Result<seq<Entry>, FlatError>)
    requires Advances(find)
    ensures r == FlatFields(find, xml)
  {
    var root, end := NextTag(find, xml, 0);
    assert xml[0..] == xml;
    if root == None {
      return Err(XmlInvalid);
    }
    var content := root.value.text;
    var totalLength;
    r, totalLength := CollectFields(find, content);
    var blank := IsBlank(content);
    if r.Ok? && totalLength == 0 && !blank {
      r := Err(XmlInvalid);
    }
  }

  method ReadFlatFields(xml: string) returns (r: Result<seq<Entry>, FlatError>)
    ensures r == ExtractFlatFields(xml)
    ensures r.Ok? ==> forall i :: 0 <= i < |r.value| ==> '<' !in r.value[i].text
  {
    ReadTextsAreFlat(xml);
    TagAdvances();
    r := ReadWith(TagHere, xml);
  }

  // -- the printer --

  datatype Field = Field(name: string, value: string)

  const ROOT := "REPAIR_ORDER"
  const DECLARATION := "?xml version=\"1.0\" encoding=\"UTF-8\"?>"

  function Line(f: Field): string {
    "  <" + f.name + ">" + EscapeXml(f.value) + "</" + f.name + ">"
  }

  function Lines(fields: seq<Field>): seq<string> {
    if fields == [] then [] else [Line(fields[0])] + Lines(fields[1..])
  }

  function BuildXml(fields: seq<Field>): string {
    Join(["<" + DECLARATION, "<REPAIR_ORDER>"] + Lines(fields) + ["</REPAIR_ORDER>"], "\n")
  }

  /** The ordered map the generator fills, field by field. */
  class FieldMap {
    var fields: seq<Field>

    ghost predicate Valid()
      reads this
    {
      forall i, j :: 0 <= i < j < |fields| ==> fields[i].name != fields[j].name
    }

    constructor ()
      ensures Valid() && fields == []
    {
      fields := [];
    }

    /** addField: a name that is there already is an error. */
    method AddField(name: string, value: string) returns (duplicate: bool)
      requires Valid()
      modifies this
      ensures Valid()
      ensures duplicate <==> exists i :: 0 <= i < |old(fields)| && old(fields)[i].name == name
      ensures fields == if duplicate then old(fields) else old(fields) + [Field(name, value)]
    {
      for i := 0 to |fields|
        invariant forall j :: 0 <= j < i ==> fields[j].name != name
      {
        if fields[i].name == name {
          return true;
        }
      }
      fields := fields + [Field(name, value)];
      return false;
    }
  }

  lemma {:induction false} LinesConcat(a: seq<Field>, b: seq<Field>)
    ensures Lines(a + b) == Lines(a) + Lines(b)
  {
    if a == [] {
      assert a + b == b;
    } else {
      LinesConcat(a[1..], b);
      assert (a + b)[1..] == a[1..] + b;
      LineFirst(Line(a[0]), Lines(a[1..]), Lines(b));
    }
  }

  lemma LineFirst(line: string, a: seq<string>, b: seq<string>)
    ensures [line] + (a + b) == ([line] + a) + b
  {
  }

  /** buildXml: the loop over the entries. */
  method PrintXml(fields: seq<Field>) returns (xml: string)
    ensures xml == BuildXml(fields)
  {
    var start := ["<" + DECLARATION, "<REPAIR_ORDER>"];
    var lines := start;
    for i := 0 to |fields|
      invariant lines == start + Lines(fields[..i])
    {
      LinesConcat(fields[..i], [fields[i]]);
      assert fields[..i + 1] == fields[..i] + [fields[i]];
      assert [fields[i]][1..] == [];
      lines := lines + [Line(fields[i])];
    }
    assert fields[..|fields|] == fields;
    lines := lines + ["</REPAIR_ORDER>"];
    return Join(lines, "\n");
  }

  ghost predicate NamesAreWords(fields: seq<Field>) {
    forall i :: 0 <= i < |fields| ==> IsName(fields[i].name)
  }

  /** What the reader makes of a field: its name and the trimmed, escaped value. */
  function Parsed(fields: seq<Field>): seq<Entry> {
    if fields == [] then []
    else [SemanticXml.Entry(Upper(fields[0].name), Trim(EscapeXml(fields[0].value)))] + Parsed(fields[1..])
  }

  /** The fields before the first one named like the root. */
  function Before(fields: seq<Field>, root: string): seq<Field> {
    if fields == [] || fields[0].name == root then [] else [fields[0]] + Before(fields[1..], root)
  }
}
