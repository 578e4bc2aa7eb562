/** What extractFlatFields reads from what buildXml prints. */
module FlatXmlRoundTrip {
  import opened Prelude
  import opened Text
  import opened XmlEscape
  import opened FlatXml

  // -- the pattern, as far as printed documents need it --

  ghost predicate SkipsText(find: Pattern) {
    forall s :: s != "" && s[0] != '<' ==> find(s) == None
  }

  ghost predicate SkipsDeclaration(find: Pattern) {
    forall s :: |s| > 1 && s[1] == '?' ==> find(s) == None
  }

  ghost predicate FindsElement(find: Pattern, name: string, rest: string) {
    find(OpenTag(name, rest)) == Ended(name, rest, Close(name))
  }

  ghost predicate ReadsTags(find: Pattern) {
    && Advances(find) && SkipsText(find) && SkipsDeclaration(find)
    && forall name, rest :: IsName(name) ==> FindsElement(find, name, rest)
  }

  lemma {:induction false} TagReads()
    ensures ReadsTags(TagHere)
  {
    TagAdvances();
    TagSkips();
    forall name, rest | IsName(name) ensures FindsElement(TagHere, name, rest) {
      TagFindsElement(name, rest);
    }
  }

  lemma {:induction false} TagFindsElement(name: string, rest: string)
    requires IsName(name)
    ensures FindsElement(TagHere, name, rest)
  {
    Opens(name, rest, Close(name));
  }

  lemma TagSkips()
    ensures SkipsText(TagHere) && SkipsDeclaration(TagHere)
  {
    forall s: string | |s| > 1 && s[1] == '?' ensures TagHere(s) == None {
      NoTagAtMark(s);
    }
  }

  lemma NoTagAtMark(s: string)
    requires |s| > 1 && s[1] == '?'
    ensures TagHere(s) == None
  {
    assert s[1..][0] == '?';
  }

  /** No match starts in text without '<'. */
  lemma {:induction false} FieldsGap(find: Pattern, gap: string, rest: string)
    requires Advances(find) && SkipsText(find) && TagFree(gap)
    ensures Fields(find, gap + rest) == Fields(find, rest)
  {
    if gap == "" {
      assert gap + rest == rest;
    } else {
      var s := gap + rest;
      assert s[0] == gap[0] && s[1..] == gap[1..] + rest;
      assert find(s) == None;
      FieldsGap(find, gap[1..], rest);
    }
  }

  lemma FieldsNone(find: Pattern, s: string)
    requires ReadsTags(find) && TagFree(s)
    ensures Fields(find, s) == []
  {
    FieldsGap(find, s, "");
    assert s + "" == s;
  }

  // -- searching for a closing tag --

  /** No occurrence starts in the first part. */
  ghost predicate StartsLater(a: string, b: string, pat: string) {
    forall i: nat :: i < |a| ==> !At(a + b, pat, i)
  }

  lemma SkipPrefix(a: string, b: string, pat: string)
    requires StartsLater(a, b, pat)
    ensures IndexOf(a + b, pat, 0) == (var r := IndexOf(b, pat, 0); if r == -1 then -1 else |a| + r)
  {
    var s := a + b;
    assert s[|a|..] == b;
    IndexOfShift(s, pat, |a|, 0);
    var r := IndexOf(s, pat, |a|);
    if r != -1 {
      IndexOfIs(s, pat, 0, r);
    }
  }

  lemma AtStart(pat: string, rest: string)
    ensures IndexOf(pat + rest, pat, 0) == 0
  {
    assert At(pat + rest, pat, 0);
  }

  lemma NoneInTagFree(s: string, pat: string)
    requires TagFree(s) && pat != "" && pat[0] == '<'
    ensures IndexOf(s, pat, 0) == -1
  {
    forall i: nat | i <= |s| ensures !At(s, pat, i) {
      if i + |pat| <= |s| {
        assert s[i + 0] != pat[0];
      }
    }
  }

  lemma LaterInTagFree(a: string, b: string, pat: string)
    requires TagFree(a) && pat != "" && pat[0] == '<'
    ensures StartsLater(a, b, pat)
  {
    forall i: nat | i < |a| ensures !At(a + b, pat, i) {
      if i + |pat| <= |a + b| {
        assert (a + b)[i + 0] != pat[0];
      }
    }
  }

  lemma LaterInBoth(a: string, b: string, c: string, pat: string)
    requires StartsLater(a, b + c, pat) && StartsLater(b, c, pat)
    ensures StartsLater(a + b, c, pat)
  {
    assert a + b + c == a + (b + c);
    forall i: nat | i < |a + b| ensures !At(a + b + c, pat, i) {
      if i >= |a| {
        assert (a + (b + c))[|a|..] == b + c;
        AtShift(a + (b + c), pat, |a|, i - |a|);
      }
    }
  }

  /** A closing tag does not start at an opening tag .. */
  lemma NotAtOpen(name: string, rest: string, root: string)
    requires IsName(name)
    ensures !At(OpenTag(name, rest), Close(root), 0)
  {
    var s, pat := OpenTag(name, rest), Close(root);
    assert s[0 + 1] == name[0] && pat[1] == '/';
  }

  /** .. nor at the closing tag of another name. */
  lemma NotAtClose(name: string, rest: string, root: string)
    requires IsName(name) && IsName(root) && name != root
    ensures !At(Close(name) + rest, Close(root), 0)
  {
    var s, pat := Close(name) + rest, Close(root);
    if |root| < |name| {
      assert s[0 + (2 + |root|)] == name[|root|] && pat[2 + |root|] == '>';
    } else if |name| < |root| {
      assert s[0 + (2 + |name|)] == '>' && pat[2 + |name|] == root[|name|];
    } else {
      var j :| 0 <= j < |name| && name[j] != root[j];
      assert s[0 + (2 + j)] == name[j] && pat[2 + j] == root[j];
    }
  }

  /** A text that starts with '<' and has no other, and is not the closing tag itself. */
  lemma LaterThanOne(a: string, b: string, pat: string)
    requires a != "" && TagFree(a[1..]) && pat != "" && pat[0] == '<' && !At(a + b, pat, 0)
    ensures StartsLater(a, b, pat)
  {
    forall i: nat | i < |a| ensures !At(a + b, pat, i) {
      if 0 < i && i + |pat| <= |a + b| {
        assert (a + b)[i + 0] == a[1..][i - 1];
      }
    }
  }

  lemma LaterThanOpen(name: string, value: string, rest: string, root: string)
    requires IsName(name) && TagFree(value)
    ensures StartsLater(OpenTag(name, value), rest, Close(root))
  {
    var a := OpenTag(name, value);
    assert a + rest == OpenTag(name, value + rest);
    NotAtOpen(name, value + rest, root);
    assert a[1..] == name + ">" + value;
    LaterThanOne(a, rest, Close(root));
  }

  lemma LaterThanClose(name: string, rest: string, root: string)
    requires IsName(name) && IsName(root) && name != root
    ensures StartsLater(Close(name), rest, Close(root))
  {
    var a := Close(name);
    NotAtClose(name, rest, root);
    assert a[1..] == "/" + name + ">";
    LaterThanOne(a, rest, Close(root));
  }

  // -- printed documents --

  /** One printed field, with the line break before it. */
  function Piece(f: Field): string {
    "\n  " + (OpenTag(f.name, EscapeXml(f.value)) + Close(f.name))
  }

  function Body(fields: seq<Field>): string {
    if fields == [] then "" else Piece(fields[0]) + Body(fields[1..])
  }

  /** What stands between <root> and the first </root> of the document. */
  function RootContent(fields: seq<Field>, root: string): string {
    if fields == [] then "\n"
    else if fields[0].name == root then "\n  " + OpenTag(root, EscapeXml(fields[0].value))
    else Piece(fields[0]) + RootContent(fields[1..], root)
  }

  lemma EscapedTagFree(value: string)
    ensures TagFree(EscapeXml(value))
  {
    EscapeIsOnePass(value);
    EscapedIsTagFree(value);
  }

  lemma LaterThanLead(f: Field, rest: string, root: string)
    requires IsName(f.name)
    ensures StartsLater("\n  " + OpenTag(f.name, EscapeXml(f.value)), rest, Close(root))
  {
    var open := OpenTag(f.name, EscapeXml(f.value));
    EscapedTagFree(f.value);
    LaterThanOpen(f.name, EscapeXml(f.value), rest, root);
    LaterInTagFree("\n  ", open + rest, Close(root));
    LaterInBoth("\n  ", open, rest, Close(root));
  }

  lemma LaterThanPiece(f: Field, rest: string, root: string)
    requires IsName(f.name) && IsName(root) && f.name != root
    ensures StartsLater(Piece(f), rest, Close(root))
  {
    var lead, close := "\n  " + OpenTag(f.name, EscapeXml(f.value)), Close(f.name);
    assert Piece(f) == lead + close;
    LaterThanLead(f, close + rest, root);
    LaterThanClose(f.name, rest, root);
    LaterInBoth(lead, close, rest, Close(root));
  }

  lemma FoundAfter(a: string, pat: string, rest: string)
    requires StartsLater(a, pat + rest, pat)
    ensures IndexOf(a + (pat + rest), pat, 0) == |a|
  {
    SkipPrefix(a, pat + rest, pat);
    AtStart(pat, rest);
  }

  /** Where the root element ends. */
  lemma {:induction false} RootEnds(fields: seq<Field>, root: string, doc: string)
    requires NamesAreWords(fields) && IsName(root)
    requires doc == Body(fields) + ("\n" + Close(root))
    ensures RootContent(fields, root) <= doc
    ensures IndexOf(doc, Close(root), 0) == |RootContent(fields, root)|
    decreases |fields|
  {
    var close := Close(root);
    if fields == [] {
      LaterInTagFree("\n", close + "", close);
      FoundAfter("\n", close, "");
      assert doc == "\n" + (close + "");
    } else {
      var f, tail := fields[0], Body(fields[1..]) + ("\n" + close);
      assert doc == Piece(f) + tail;
      if f.name == root {
        RootEndsHere(f, root, tail);
      } else {
        RootEnds(fields[1..], root, tail);
        LaterThanPiece(f, tail, root);
        SkipPrefix(Piece(f), tail, close);
        PrefixUnder(Piece(f), RootContent(fields[1..], root), tail);
      }
    }
  }

  lemma RootEndsHere(f: Field, root: string, tail: string)
    requires IsName(root) && f.name == root
    ensures
      var lead := "\n  " + OpenTag(root, EscapeXml(f.value));
      lead <= Piece(f) + tail && IndexOf(Piece(f) + tail, Close(root), 0) == |lead|
  {
    var lead, close := "\n  " + OpenTag(root, EscapeXml(f.value)), Close(root);
    assert Piece(f) + tail == lead + (close + tail);
    LaterThanLead(f, close + tail, root);
    FoundAfter(lead, close, tail);
  }

  lemma PrefixUnder(a: string, b: string, c: string)
    requires b <= c
    ensures a + b <= a + c
  {
    assert c == b + c[|b|..];
    assert a + c == a + b + c[|b|..];
  }

  // -- reading the content of the root element --

  lemma EndsAfter(name: string, value: string, rest: string, closeTag: string)
    requires TagFree(value) && closeTag != "" && closeTag[0] == '<'
    ensures Ended(name, value + (closeTag + rest), closeTag) ==
            Some(Tag(name, value, |name| + 2 + |value| + |closeTag|))
  {
    LaterInTagFree(value, closeTag + rest, closeTag);
    FoundAfter(value, closeTag, rest);
    assert (value + (closeTag + rest))[..|value|] == value;
  }

  lemma DropElement(name: string, value: string, closeTag: string, rest: string)
    ensures OpenTag(name, value + (closeTag + rest))[|name| + 2 + |value| + |closeTag|..] == rest
  {
  }

  lemma PieceParts(f: Field, value: string, closeTag: string, rest: string)
    requires value == EscapeXml(f.value) && closeTag == Close(f.name)
    ensures Piece(f) + rest == "\n  " + OpenTag(f.name, value + (closeTag + rest))
  {
  }

  lemma FirstField(find: Pattern, s: string, t: Tag)
    requires Advances(find) && s != "" && find(s) == Some(t) && t.length <= |s|
    ensures Fields(find, s) == [t] + Fields(find, s[t.length..])
  {
  }

  /** A printed field is read as its name and escaped value. */
  lemma {:induction false} ReadPiece(find: Pattern, f: Field, rest: string) returns (n: nat)
    requires ReadsTags(find) && IsName(f.name)
    ensures Fields(find, Piece(f) + rest) == [Tag(f.name, EscapeXml(f.value), n)] + Fields(find, rest)
  {
    var value, close := EscapeXml(f.value), Close(f.name);
    EscapedTagFree(f.value);
    PieceParts(f, value, close, rest);
    n := ReadElement(find, f.name, value, close, rest);
  }

  lemma FoundElement(find: Pattern, name: string, value: string, closeTag: string, rest: string, s: string)
    requires ReadsTags(find) && IsName(name) && closeTag == Close(name) && TagFree(value)
    requires s == OpenTag(name, value + (closeTag + rest))
    ensures find(s) == Some(Tag(name, value, |name| + 2 + |value| + |closeTag|))
  {
    assert FindsElement(find, name, value + (closeTag + rest));
    EndsAfter(name, value, rest, closeTag);
  }

  lemma {:induction false} ReadElement(find: Pattern, name: string, value: string, closeTag: string, rest: string)
    returns (n: nat)
    requires ReadsTags(find) && IsName(name) && closeTag == Close(name) && TagFree(value)
    ensures Fields(find, "\n  " + OpenTag(name, value + (closeTag + rest))) ==
            [Tag(name, value, n)] + Fields(find, rest)
  {
    var s := OpenTag(name, value + (closeTag + rest));
    n := |name| + 2 + |value| + |closeTag|;
    FieldsGap(find, "\n  ", s);
    DropElement(name, value, closeTag, rest);
    FoundElement(find, name, value, closeTag, rest, s);
    FirstField(find, s, Tag(name, value, n));
  }

  /** An opening tag without its closing tag is not a field. */
  lemma {:induction false} ReadUnclosed(find: Pattern, name: string, value: string)
    requires ReadsTags(find) && IsName(name) && TagFree(value)
    ensures Fields(find, "\n  " + OpenTag(name, value)) == []
  {
    var s := OpenTag(name, value);
    FieldsGap(find, "\n  ", s);
    NoneInTagFree(value, Close(name));
    assert FindsElement(find, name, value);
    assert find(s) == None;
    assert s[1..] == name + ">" + value;
    FieldsNone(find, s[1..]);
  }

  lemma FlatOne(name: string, value: string, n: nat, rest: seq<Tag>)
    requires TagFree(value)
    ensures Flat([Tag(name, value, n)] + rest) == Prepend([SemanticXml.Entry(Upper(name), Trim(value))], Flat(rest))
  {
    TrimTagFree(value);
    assert ([Tag(name, value, n)] + rest)[1..] == rest;
  }

  lemma {:induction false} TrimStartTagFree(value: string)
    requires TagFree(value)
    ensures TagFree(TrimStart(value))
  {
    if value != "" && IsSpace(value[0]) {
      TrimStartTagFree(value[1..]);
    }
  }

  lemma {:induction false} TrimEndTagFree(value: string)
    requires TagFree(value)
    ensures TagFree(TrimEnd(value))
    decreases |value|
  {
    if value != "" && IsSpace(value[|value| - 1]) {
      TrimEndTagFree(value[..|value| - 1]);
    }
  }

  lemma TrimTagFree(value: string)
    requires TagFree(value)
    ensures '<' !in Trim(value)
  {
    TrimStartTagFree(value);
    TrimEndTagFree(TrimStart(value));
  }

  /** The fields before the first one named like the root are read, no others. */
  lemma {:induction false} ReadRootContent(find: Pattern, fields: seq<Field>, root: string)
    requires ReadsTags(find) && NamesAreWords(fields) && IsName(root)
    ensures Flat(Fields(find, RootContent(fields, root))) == Ok(Parsed(Before(fields, root)))
    ensures Fields(find, RootContent(fields, root)) == [] <==> Before(fields, root) == []
    decreases |fields|
  {
    if fields == [] {
      FieldsNone(find, "\n");
    } else if fields[0].name == root {
      EscapedTagFree(fields[0].value);
      ReadUnclosed(find, root, EscapeXml(fields[0].value));
    } else {
      var f, rest := fields[0], RootContent(fields[1..], root);
      var n := ReadPiece(find, f, rest);
      ReadRootContent(find, fields[1..], root);
      EscapedTagFree(f.value);
      FlatOne(f.name, EscapeXml(f.value), n, Fields(find, rest));
      assert Before(fields, root)[1..] == Before(fields[1..], root);
    }
  }

  lemma RootContentBlank(fields: seq<Field>, root: string)
    requires NamesAreWords(fields)
    ensures Blank(RootContent(fields, root)) <==> fields == []
  {
    if fields != [] {
      assert RootContent(fields, root)[3] == '<';
    }
  }

  // -- the whole document --

  function Joined(fields: seq<Field>, end: string): string {
    Join(Lines(fields) + [end], "\n")
  }

  lemma JoinedStep(fields: seq<Field>, end: string)
    requires fields != []
    ensures Joined(fields, end) == Line(fields[0]) + "\n" + Joined(fields[1..], end)
  {
    var all := Lines(fields) + [end];
    assert all[0] == Line(fields[0]) && all[1..] == Lines(fields[1..]) + [end];
  }

  lemma LineIsPiece(f: Field)
    ensures "\n" + Line(f) == Piece(f)
  {
  }

  lemma {:induction false} JoinedLines(fields: seq<Field>, end: string)
    ensures "\n" + Joined(fields, end) == Body(fields) + ("\n" + end)
  {
    if fields == [] {
      assert Lines(fields) + [end] == [end];
    } else {
      JoinedLines(fields[1..], end);
      JoinedStep(fields, end);
      LineIsPiece(fields[0]);
      JoinStep(Line(fields[0]), Joined(fields[1..], end), Piece(fields[0]), Body(fields[1..]), "\n" + end);
    }
  }

  lemma JoinStep(line: string, joined: string, piece: string, body: string, end: string)
    requires "\n" + line == piece && "\n" + joined == body + end
    ensures "\n" + (line + "\n" + joined) == (piece + body) + end
  {
    assert "\n" + (line + "\n" + joined) == ("\n" + line) + ("\n" + joined);
  }

  lemma JoinTwo(a: string, b: string, lines: seq<string>)
    requires lines != []
    ensures Join([a, b] + lines, "\n") == a + "\n" + (b + "\n" + Join(lines, "\n"))
  {
    var all := [a, b] + lines;
    assert all[1..] == [b] + lines && all[1..][1..] == lines;
  }

  lemma DocumentParts(fields: seq<Field>)
    ensures BuildXml(fields) == "<" + DECLARATION + "\n" + OpenTag(ROOT, Body(fields) + ("\n" + Close(ROOT)))
  {
    var prolog, root, end := "<" + DECLARATION, "<REPAIR_ORDER>", Close(ROOT);
    assert root == "<" + ROOT + ">" && end == "</REPAIR_ORDER>";
    assert [prolog, root] + Lines(fields) + [end] == [prolog, root] + (Lines(fields) + [end]);
    JoinTwo(prolog, root, Lines(fields) + [end]);
    JoinedLines(fields, end);
    DocumentAssoc(prolog, ROOT, Joined(fields, end), Body(fields) + ("\n" + end));
  }

  lemma DocumentAssoc(prolog: string, root: string, joined: string, body: string)
    requires "\n" + joined == body
    ensures prolog + "\n" + (("<" + root + ">") + "\n" + joined) == prolog + "\n" + OpenTag(root, body)
  {
    assert ("<" + root + ">") + "\n" + joined == ("<" + root + ">") + ("\n" + joined);
  }

  /** The declaration is skipped: its '<' is followed by '?'. */
  lemma SkipProlog(find: Pattern, declaration: string, doc: string)
    requires ReadsTags(find) && TagFree(declaration) && declaration != "" && declaration[0] == '?'
    ensures Fields(find, "<" + declaration + "\n" + doc) == Fields(find, doc)
  {
    var s := "<" + declaration + "\n" + doc;
    assert s[1..] == (declaration + "\n") + doc;
    assert s[1] == '?' && find(s) == None;
    FieldsGap(find, declaration + "\n", doc);
  }

  lemma DeclarationIsTagFree()
    ensures TagFree(DECLARATION) && DECLARATION != "" && DECLARATION[0] == '?'
  {
  }

  lemma {:induction false} RootElement(find: Pattern, root: string, content: string, rest: string, closeTag: string)
    requires ReadsTags(find) && IsName(root) && closeTag == Close(root)
    requires content <= rest && IndexOf(rest, closeTag, 0) == |content|
    ensures Fields(find, OpenTag(root, rest)) != [] && Fields(find, OpenTag(root, rest))[0].text == content
  {
    var doc := OpenTag(root, rest);
    var t := Tag(root, content, |root| + 2 + |content| + |closeTag|);
    assert rest[..|content|] == content;
    assert FindsElement(find, root, rest);
    assert find(doc) == Ended(root, rest, closeTag) == Some(t);
    FirstField(find, doc, t);
  }

  lemma {:induction false} RootOfDocument(find: Pattern, fields: seq<Field>, root: string, closeTag: string)
    requires ReadsTags(find) && NamesAreWords(fields) && IsName(root) && closeTag == Close(root)
    ensures
      var tags := Fields(find, OpenTag(root, Body(fields) + ("\n" + closeTag)));
      tags != [] && tags[0].text == RootContent(fields, root)
  {
    var rest := Body(fields) + ("\n" + closeTag);
    RootEnds(fields, root, rest);
    RootElement(find, root, RootContent(fields, root), rest, closeTag);
  }

  /** What reading a document gives, from the text of its root element. */
  function Outcome(fields: seq<Field>, root: string): Result<seq<Entry>, FlatError> {
    if fields != [] && fields[0].name == root then Err(XmlInvalid) else Ok(Parsed(Before(fields, root)))
  }

  lemma {:induction false} ReadDocument(find: Pattern, fields: seq<Field>, root: string, declaration: string,
                                        doc: string)
    requires ReadsTags(find) && NamesAreWords(fields) && IsName(root)
    requires doc == OpenTag(root, Body(fields) + ("\n" + Close(root)))
    requires TagFree(declaration) && declaration != "" && declaration[0] == '?'
    ensures FlatFields(find, "<" + declaration + "\n" + doc) == Outcome(fields, root)
  {
    SkipProlog(find, declaration, doc);
    RootOfDocument(find, fields, root, Close(root));
    ReadRootContent(find, fields, root);
    RootContentBlank(fields, root);
    OutcomeOf(find, RootContent(fields, root), fields, root);
  }

  lemma OutcomeOf(find: Pattern, content: string, fields: seq<Field>, root: string)
    requires Advances(find) && (Blank(content) <==> fields == [])
    requires Flat(Fields(find, content)) == Ok(Parsed(Before(fields, root)))
    requires Fields(find, content) == [] <==> Before(fields, root) == []
    ensures FlatContent(find, content) == Outcome(fields, root)
  {
  }

  lemma RootIsName()
    ensures IsName(ROOT)
  {
  }

  lemma {:induction false} PrintedIsReadWith(find: Pattern, fields: seq<Field>)
    requires ReadsTags(find) && NamesAreWords(fields)
    ensures FlatFields(find, BuildXml(fields)) == Outcome(fields, ROOT)
  {
    DocumentParts(fields);
    DeclarationIsTagFree();
    RootIsName();
    ReadDocument(find, fields, ROOT, DECLARATION, OpenTag(ROOT, Body(fields) + ("\n" + Close(ROOT))));
  }

  /** What the reader makes of a printed document, whatever its fields: those before the
      first field named REPAIR_ORDER, and an error when that is the very first. */
  lemma {:induction false} PrintedIsRead(fields: seq<Field>)
    requires NamesAreWords(fields)
    ensures ExtractFlatFields(BuildXml(fields)) == Outcome(fields, ROOT)
  {
    TagReads();
    PrintedIsReadWith(TagHere, fields);
  }

  lemma {:induction false} BeforeIsAll(fields: seq<Field>, root: string)
    ensures |Before(fields, root)| <= |fields|
    ensures Before(fields, root) == fields <==> forall i :: 0 <= i < |fields| ==> fields[i].name != root
    ensures |Before(fields, root)| == |fields| ==> Before(fields, root) == fields
  {
    if fields != [] && fields[0].name != root {
      BeforeIsAll(fields[1..], root);
      assert fields == [fields[0]] + fields[1..];
      assert Before(fields, root)[1..] == Before(fields[1..], root);
    }
  }

  lemma {:induction false} ParsedFields(fields: seq<Field>)
    ensures |Parsed(fields)| == |fields|
    ensures forall i :: 0 <= i < |fields| ==>
                          Parsed(fields)[i] ==
                          SemanticXml.Entry(Upper(fields[i].name), Trim(EscapeXml(fields[i].value)))
  {
    if fields != [] {
      ParsedFields(fields[1..]);
    }
  }

  /** The round trip holds exactly for the documents without a field named like the root. */
  lemma {:induction false} RoundTrip(fields: seq<Field>)
    requires NamesAreWords(fields)
    ensures ExtractFlatFields(BuildXml(fields)) == Ok(Parsed(fields)) <==>
            forall i :: 0 <= i < |fields| ==> fields[i].name != ROOT
  {
    PrintedIsRead(fields);
    BeforeIsAll(fields, ROOT);
    ParsedFields(fields);
    ParsedFields(Before(fields, ROOT));
  }

  predicate NoLower(s: string) {
    forall i :: 0 <= i < |s| ==> !('a' <= s[i] <= 'z')
  }

  ghost predicate UpperNames(fields: seq<Field>) {
    forall i :: 0 <= i < |fields| ==> NoLower(fields[i].name)
  }

  /** Nothing but surrounding white space is lost: names come back as they are, and
      undoing the escapes of a text gives the trimmed value. */
  lemma {:induction false} NothingIsLost(fields: seq<Field>)
    requires NamesAreWords(fields) && UpperNames(fields)
    requires forall i :: 0 <= i < |fields| ==> fields[i].name != ROOT
    ensures
      var r := ExtractFlatFields(BuildXml(fields));
      && r.Ok? && |r.value| == |fields|
      && forall i :: 0 <= i < |fields| ==>
                       r.value[i].path == fields[i].name && Unescaped(r.value[i].text) == Trim(fields[i].value)
  {
    RoundTrip(fields);
    ParsedFields(fields);
    forall i | 0 <= i < |fields|
      ensures Upper(fields[i].name) == fields[i].name && Unescaped(Parsed(fields)[i].text) == Trim(fields[i].value)
    {
      assert NoLower(fields[i].name);
      TrimmedReadBack(fields[i].value);
    }
  }
}
