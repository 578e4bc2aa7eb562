/** ensureXmlWellFormed on the text of documents: what its scanner makes of printed tags. */
module TaggedText {
  import opened Prelude
  import opened Text
  import opened FlatXml
  import opened FlatXmlRoundTrip
  import opened WellFormedTags

  // -- one tag --

  /** A tag with the white space in front of its name and what follows the name, its
      attributes; or a declaration or comment up to its first closing bracket. */
  datatype Mark = Marks(event: Event, lead: string, attributes: string) | Declares(text: string)

  /** A name that tags can carry. */
  ghost predicate GoodName(n: string) {
    n != "" && forall i :: 0 <= i < |n| ==> n[i] != '>' && n[i] != '/' && !IsSpace(n[i])
  }

  ghost predicate AllSpace(s: string) {
    forall i :: 0 <= i < |s| ==> IsSpace(s[i])
  }

  ghost predicate Endless(s: string) {
    forall i :: 0 <= i < |s| ==> s[i] != '>'
  }

  predicate StartsMark(c: char) {
    c == '?' || c == '!'
  }

  /** Attributes are set off from the name, and only those of a self-closing tag end in a slash. */
  ghost predicate Proper(m: Mark) {
    match m
    case Declares(text) => text != "" && StartsMark(text[0]) && Endless(text)
    case Marks(e, lead, attributes) =>
      && !e.Malformed? && GoodName(e.name) && AllSpace(lead) && Endless(attributes)
      && (attributes != "" ==> IsSpace(attributes[0]) || attributes[0] == '/')
      && (e.Open? && attributes != "" ==> attributes[|attributes| - 1] != '/')
      && (!e.Close? && lead == "" ==> !StartsMark(e.name[0]))
  }

  /** The part of a tag from its name on. */
  function Named(m: Mark): string
    requires m.Marks? && !m.event.Malformed?
  {
    m.event.name + (m.attributes + (if m.event.SelfClosing? then "/" else ""))
  }

  function Inside(m: Mark): string {
    match m
    case Declares(text) => text
    case Marks(e, lead, _) => if e.Malformed? then "" else (if e.Close? then "/" else "") + (lead + Named(m))
  }

  function TagText(m: Mark): string {
    "<" + Inside(m) + ">"
  }

  /** What a tag means: declarations mean nothing. */
  function Meaning(m: Mark): Option<Event> {
    if m.Marks? then Some(m.event) else None
  }

  lemma {:induction false} RunOfName(n: string, rest: string)
    requires forall i :: 0 <= i < |n| ==> n[i] != '>' && n[i] != '/' && !IsSpace(n[i])
    requires rest != "" && (rest[0] == '/' || rest[0] == '>' || IsSpace(rest[0]))
    ensures NameRun(n + rest) == n
  {
    if n == "" {
      assert n + rest == rest;
    } else {
      assert (n + rest)[1..] == n[1..] + rest;
      RunOfName(n[1..], rest);
    }
  }

  lemma {:induction false} TrimLead(lead: string, s: string)
    requires AllSpace(lead) && s != "" && !IsSpace(s[0])
    ensures TrimStart(lead + s) == s
  {
    if lead == "" {
      assert lead + s == s;
    } else {
      assert (lead + s)[1..] == lead[1..] + s;
      TrimLead(lead[1..], s);
    }
  }

  lemma {:induction false} NameAfterLead(lead: string, n: string, rest: string)
    requires AllSpace(lead) && GoodName(n)
    requires rest != "" && (rest[0] == '/' || rest[0] == '>' || IsSpace(rest[0]))
    ensures NameRun(TrimStart(lead + (n + rest))) == n
  {
    assert (n + rest)[0] == n[0];
    TrimLead(lead, n + rest);
    RunOfName(n, rest);
  }

  /** What follows the name. */
  function Rest(m: Mark): string
    requires m.Marks?
  {
    m.attributes + (if m.event.SelfClosing? then "/>" else ">")
  }

  lemma {:induction false} RestSetsOff(m: Mark)
    requires Proper(m) && m.Marks?
    ensures Rest(m) != "" && (Rest(m)[0] == '/' || Rest(m)[0] == '>' || IsSpace(Rest(m)[0]))
    ensures |Rest(m)| > 1 ==>
              (Rest(m)[|Rest(m)| - 2] == '/' <==> m.event.SelfClosing? || (m.event.Close? && EndsInSlash(m)))
    ensures |Rest(m)| == 1 ==> !m.event.SelfClosing?
  {
  }

  predicate EndsInSlash(m: Mark)
    requires m.Marks?
  {
    m.attributes != "" && m.attributes[|m.attributes| - 1] == '/'
  }

  lemma RegroupTag(slash: string, lead: string, name: string, attributes: string, end: string)
    ensures "<" + (slash + (lead + (name + (attributes + end)))) + ">" ==
            "<" + slash + (lead + (name + (attributes + (end + ">"))))
  {
  }

  /** A tag, cut behind its opening bracket and slash. */
  lemma {:induction false} TagParts(m: Mark)
    requires Proper(m) && m.Marks?
    ensures
      var k := if m.event.Close? then 2 else 1;
      && |TagText(m)| > k && TagText(m)[k..] == m.lead + (m.event.name + Rest(m))
      && TagText(m) == "<" + (if m.event.Close? then "/" else "") + (m.lead + (m.event.name + Rest(m)))
  {
    RegroupTag(if m.event.Close? then "/" else "", m.lead, m.event.name, m.attributes,
               if m.event.SelfClosing? then "/" else "");
    assert "/" + ">" == "/>";
    assert "" + ">" == ">";
  }

  lemma {:induction false} FirstOfTag(lead: string, n: string, rest: string)
    requires AllSpace(lead) && GoodName(n) && (lead == "" ==> !StartsMark(n[0]))
    ensures var c := (lead + (n + rest))[0]; !StartsMark(c) && c != '/'
  {
    assert lead == "" ==> (lead + (n + rest))[0] == n[0];
  }

  /** A tag with a name means the event it stands for. */
  lemma {:induction false} NamedTagIsRead(m: Mark)
    requires Proper(m) && m.Marks?
    ensures EventOf(TagText(m)) == Some(m.event)
  {
    var tag, body := TagText(m), m.lead + (m.event.name + Rest(m));
    TagParts(m);
    RestSetsOff(m);
    NameAfterLead(m.lead, m.event.name, Rest(m));
    if !m.event.Close? {
      FirstOfTag(m.lead, m.event.name, Rest(m));
      assert tag[1] == body[0];
      assert tag[|tag| - 2] == body[|body| - 2];
      if |Rest(m)| == 1 {
        assert body[|body| - 2] == m.event.name[|m.event.name| - 1];
      } else {
        assert body[|body| - 2] == Rest(m)[|Rest(m)| - 2];
      }
    }
  }

  /** A printed tag is read as what it means. */
  lemma {:induction false} TagIsRead(m: Mark)
    requires Proper(m)
    ensures EventOf(TagText(m)) == Meaning(m)
  {
    if m.Marks? {
      NamedTagIsRead(m);
    } else {
      assert TagText(m)[1] == m.text[0];
    }
  }

  lemma {:induction false} InsideHasNoEnd(m: Mark)
    requires Proper(m)
    ensures Inside(m) != "" && Endless(Inside(m))
  {
    if m.Marks? {
      assert Endless(m.attributes + (if m.event.SelfClosing? then "/" else ""));
      assert Endless(Named(m));
      assert Endless(m.lead + Named(m));
    }
  }

  /** The scanner finds a printed tag and nothing more. */
  lemma {:induction false} TokenIsFound(m: Mark, rest: string)
    requires Proper(m)
    ensures TagToken(TagText(m) + rest) == Some(Tag("", TagText(m), |TagText(m)|))
  {
    InsideHasNoEnd(m);
    EndlessIsFound(Inside(m), rest);
  }

  lemma {:induction false} EndlessIsFound(inside: string, rest: string)
    requires inside != "" && Endless(inside)
    ensures
      var tag := "<" + inside + ">";
      TagToken(tag + rest) == Some(Tag("", tag, |tag|))
  {
    var tag := "<" + inside + ">";
    var s, k := tag + rest, |inside| + 1;
    assert forall i :: 1 <= i < k ==> s[i] == inside[i - 1];
    assert s[k] == '>';
    CharIndexIs(s, '>', 1, k);
    assert s[..k + 1] == tag;
  }

  // -- texts --

  /** A tag and the text in front of it. */
  datatype Piece = Piece(gap: string, mark: Mark)

  function TextOf(pieces: seq<Piece>, tail: string): string {
    if pieces == [] then tail else pieces[0].gap + (TagText(pieces[0].mark) + TextOf(pieces[1..], tail))
  }

  function Events(pieces: seq<Piece>): seq<Event> {
    if pieces == [] then []
    else if pieces[0].mark.Declares? then Events(pieces[1..])
    else [pieces[0].mark.event] + Events(pieces[1..])
  }

  ghost predicate Readable(pieces: seq<Piece>, tail: string) {
    TagFree(tail) && forall i :: 0 <= i < |pieces| ==> TagFree(pieces[i].gap) && Proper(pieces[i].mark)
  }

  lemma {:induction false} TokenSkipsText()
    ensures Advances(TagToken) && SkipsText(TagToken)
  {
    TokenAdvances();
  }

  lemma {:induction false} TailHasNoTag(find: Pattern, tail: string)
    requires Advances(find) && SkipsText(find) && TagFree(tail)
    ensures Fields(find, tail) == []
  {
    FieldsGap(find, tail, "");
    assert tail + "" == tail;
  }

  lemma {:induction false} PieceIsRead(find: Pattern, p: Piece, rest: string)
    requires Advances(find) && SkipsText(find) && TagFree(p.gap)
    requires find(TagText(p.mark) + rest) == Some(Tag("", TagText(p.mark), |TagText(p.mark)|))
    ensures Fields(find, p.gap + (TagText(p.mark) + rest)) ==
            [Tag("", TagText(p.mark), |TagText(p.mark)|)] + Fields(find, rest)
  {
    var tag := TagText(p.mark);
    FieldsGap(find, p.gap, tag + rest);
    FirstField(find, tag + rest, Tag("", tag, |tag|));
    assert (tag + rest)[|tag|..] == rest;
  }

  lemma {:induction false} EventsStep(t: Tag, e: Option<Event>, tags: seq<Tag>)
    requires EventOf(t.text) == e
    ensures EventsOf([t] + tags) == (if e.Some? then [e.value] else []) + EventsOf(tags)
  {
    assert ([t] + tags)[1..] == tags;
  }

  /** The scanner reads from a text the events of its tags. */
  lemma {:induction false} TextIsRead(pieces: seq<Piece>, tail: string)
    requires Readable(pieces, tail)
    ensures Advances(TagToken) && EventsOf(Fields(TagToken, TextOf(pieces, tail))) == Events(pieces)
  {
    TokenSkipsText();
    if pieces == [] {
      TailHasNoTag(TagToken, tail);
    } else {
      var p, rest := pieces[0], TextOf(pieces[1..], tail);
      TextIsRead(pieces[1..], tail);
      TokenIsFound(p.mark, rest);
      PieceIsRead(TagToken, p, rest);
      TagIsRead(p.mark);
      EventsStep(Tag("", TagText(p.mark), |TagText(p.mark)|), Meaning(p.mark), Fields(TagToken, rest));
    }
  }

  /** A text made of the tags of a forest, with any attributes, declarations and comments and
      any other text between them, passes exactly when the forest is a document. */
  lemma {:induction false} TextPassesIff(f: Forest, pieces: seq<Piece>, tail: string)
    requires Readable(pieces, tail) && Events(pieces) == Print(f)
    ensures Report(TextOf(pieces, tail)) == None <==> Document(f)
  {
    TextIsRead(pieces, tail);
    AcceptedIffDocument(Print(f));
    if g :| Document(g) && Print(f) == Print(g) {
      assert Print(f) + [] == Print(f) && Print(g) + [] == Print(g);
      PrintIsInjective(f, g, [], []);
    }
  }

  // -- two texts that pass without being documents of XML --

  const TWO_ROOTS := "<repair_order/><foo></foo>"

  function Bare(e: Event): Piece {
    Piece("", Marks(e, "", ""))
  }

  function TwoRoots(): seq<Piece> {
    [Bare(SelfClosing(ROOT_NAME)), Bare(Open("foo")), Bare(Close("foo"))]
  }

  lemma {:induction false} WordIsGoodName(n: string)
    requires n != "" && forall i :: 0 <= i < |n| ==> IsWord(n[i])
    ensures GoodName(n) && !StartsMark(n[0])
  {
  }

  lemma {:induction false} TwoRootsAreReadable()
    ensures Readable(TwoRoots(), "")
  {
    WordIsGoodName(ROOT_NAME);
    WordIsGoodName("foo");
  }

  lemma NothingAround(slash: string, n: string, end: string)
    ensures "<" + (slash + ("" + (n + ("" + end)))) + ">" == "<" + slash + n + end + ">"
  {
  }

  lemma {:induction false} BareText(e: Event)
    requires !e.Malformed?
    ensures
      TagText(Bare(e).mark) ==
      "<" + (if e.Close? then "/" else "") + e.name + (if e.SelfClosing? then "/" else "") + ">"
  {
    NothingAround(if e.Close? then "/" else "", e.name, if e.SelfClosing? then "/" else "");
  }

  lemma {:induction false} TextCons(e: Event, rest: seq<Piece>)
    ensures TextOf([Bare(e)] + rest, "") == TagText(Bare(e).mark) + TextOf(rest, "")
  {
    assert ([Bare(e)] + rest)[1..] == rest;
    assert "" + (TagText(Bare(e).mark) + TextOf(rest, "")) == TagText(Bare(e).mark) + TextOf(rest, "");
  }

  lemma {:induction false} ThreeTags(a: Event, b: Event, c: Event, x: string, y: string, z: string)
    requires TagText(Bare(a).mark) == x && TagText(Bare(b).mark) == y && TagText(Bare(c).mark) == z
    ensures TextOf([Bare(a), Bare(b), Bare(c)], "") == x + (y + (z + ""))
  {
    TextCons(a, [Bare(b), Bare(c)]);
    TextCons(b, [Bare(c)]);
    TextCons(c, []);
    assert [Bare(a)] + [Bare(b), Bare(c)] == [Bare(a), Bare(b), Bare(c)];
    assert [Bare(b)] + [Bare(c)] == [Bare(b), Bare(c)] && [Bare(c)] + [] == [Bare(c)];
  }

  lemma RootLiteral(n: string)
    requires n == ROOT_NAME
    ensures "<" + "" + n + "/" + ">" == "<repair_order/>"
  {
  }

  lemma FooLiterals(n: string)
    requires n == "foo"
    ensures "<" + "" + n + "" + ">" == "<foo>" && "<" + "/" + n + "" + ">" == "</foo>"
  {
  }

  lemma {:induction false} RootText(n: string)
    requires n == ROOT_NAME
    ensures TagText(Bare(SelfClosing(n)).mark) == "<repair_order/>"
  {
    BareText(SelfClosing(n));
    RootLiteral(n);
  }

  lemma {:induction false} FooTexts(n: string)
    requires n == "foo"
    ensures TagText(Bare(Open(n)).mark) == "<foo>" && TagText(Bare(Close(n)).mark) == "</foo>"
  {
    BareText(Open(n));
    BareText(Close(n));
    FooLiterals(n);
  }

  lemma JoinedText()
    ensures "<repair_order/>" + ("<foo>" + ("</foo>" + "")) == TWO_ROOTS
  {
  }

  lemma {:induction false} TwoRootsTextOf(root: string, foo: string)
    requires root == ROOT_NAME && foo == "foo"
    ensures TextOf([Bare(SelfClosing(root)), Bare(Open(foo)), Bare(Close(foo))], "") == TWO_ROOTS
  {
    RootText(root);
    FooTexts(foo);
    ThreeTags(SelfClosing(root), Open(foo), Close(foo), "<repair_order/>", "<foo>", "</foo>");
    JoinedText();
  }

  lemma {:induction false} TwoRootsText()
    ensures TextOf(TwoRoots(), "") == TWO_ROOTS
  {
    TwoRootsTextOf(ROOT_NAME, "foo");
  }

  lemma {:induction false} TwoRootsEvents()
    ensures Events(TwoRoots()) == [SelfClosing(ROOT_NAME), Open("foo"), Close("foo")]
  {
    var pieces := TwoRoots();
    assert pieces[1..] == [Bare(Open("foo")), Bare(Close("foo"))];
    assert pieces[1..][1..] == [Bare(Close("foo"))];
  }

  lemma {:induction false} TwoRootsAreRead()
    ensures EventsOf(Fields(TagToken, TWO_ROOTS)) == Events(TwoRoots())
  {
    TwoRootsText();
    TwoRootsAreReadable();
    TextIsRead(TwoRoots(), "");
  }

  function TwoRootsForest(): Forest {
    Leaf(ROOT_NAME, Element("foo", Nothing, Nothing))
  }

  lemma {:induction false} TwoRootsPrint()
    ensures Print(TwoRootsForest()) == [SelfClosing(ROOT_NAME), Open("foo"), Close("foo")]
    ensures Document(TwoRootsForest()) && !OneRoot(TwoRootsForest())
  {
    assert Print(Element("foo", Nothing, Nothing)) == [Open("foo"), Close("foo")];
  }

  /** `<repair_order/><foo></foo>` has two roots and passes. */
  lemma {:induction false} SecondRootIsAccepted()
    ensures Report(TWO_ROOTS) == None
    ensures Print(TwoRootsForest()) == EventsOf(Fields(TagToken, TWO_ROOTS)) && !OneRoot(TwoRootsForest())
  {
    TwoRootsEvents();
    TwoRootsAreRead();
    TwoRootsPrint();
    OneRootIff(TwoRootsForest());
  }

  /** So does every text without a tag. */
  lemma {:induction false} NoTagIsAccepted(s: string)
    requires TagFree(s)
    ensures Report(s) == None
  {
    TextPassesIff(Nothing, [], s);
  }
}
