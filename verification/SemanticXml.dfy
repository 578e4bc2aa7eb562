/** buildSemanticXml and the tag stripper that reads it back. */
module SemanticXml {
  import opened Text
  import X = XmlEscape

  datatype Entry = Entry(path: string, text: string)

  /** .replace(/</g, "&lt;").replace(/>/g, "&gt;") */
  function Safe(s: string): string {
    if s == "" then ""
    else (if s[0] == '<' then "&lt;" else if s[0] == '>' then "&gt;" else [s[0]]) + Safe(s[1..])
  }

  /** The replacements in the order of the source. */
  lemma {:induction false} SafeIsReplaced(s: string)
    ensures Safe(s) == X.Replaced(X.Replaced(s, '<', "&lt;"), '>', "&gt;")
  {
    if s != "" {
      SafeIsReplaced(s[1..]);
      var head, tail := [s[0]], s[1..];
      assert s == head + tail;
      X.ReplacedConcat(head, tail, '<', "&lt;");
      X.OneEscape(head, '<', "&lt;");
      var first := if s[0] == '<' then "&lt;" else head;
      X.ReplacedConcat(first, X.Replaced(tail, '<', "&lt;"), '>', "&gt;");
      if s[0] == '<' {
        X.ReplacedNone("&lt;", '>', "&gt;");
      } else {
        X.OneEscape(head, '>', "&gt;");
      }
    }
  }

  /** One of the entities that reading back undoes. */
  predicate StartsEntity(s: string) {
    "&amp;" <= s || "&lt;" <= s || "&gt;" <= s
  }

  predicate NoEntity(s: string) {
    forall i :: 0 <= i < |s| ==> !StartsEntity(s[i..])
  }

  lemma {:induction false} NoEntityTail(s: string)
    requires s != ""
    ensures NoEntity(s) <==> NoEntity(s[1..]) && !StartsEntity(s)
  {
    assert s[0..] == s;
    assert forall i :: 0 <= i < |s[1..]| ==> s[1..][i..] == s[i + 1..];
    if NoEntity(s[1..]) && !StartsEntity(s) {
      forall i | 0 <= i < |s| ensures !StartsEntity(s[i..]) {
        assert i > 0 ==> s[i..] == s[1..][i - 1..];
      }
    }
  }

  /** A word without brackets and ampersands stands at the front of a text exactly when it does
      so once the text is made safe. */
  lemma {:induction false} SafeStartsAlike(s: string, w: string, rest: string)
    requires '<' !in w && '>' !in w && '&' !in w && (rest == "" || rest[0] !in w)
    ensures w <= Safe(s) + rest <==> w <= s
    decreases |w|
  {
    if w != "" && s != "" {
      var v := Safe(s) + rest;
      assert w[0] in w && forall c :: c in w[1..] ==> c in w;
      if s[0] == w[0] {
        assert v[1..] == Safe(s[1..]) + rest;
        SafeStartsAlike(s[1..], w[1..], rest);
        PrefixCons(w, v);
        PrefixCons(w, s);
      } else {
        assert v[0] != w[0];
      }
    } else if w != "" {
      assert Safe(s) + rest == rest;
      assert w[0] in w;
    }
  }

  lemma PrefixCons(w: string, s: string)
    requires w != "" && s != "" && w[0] == s[0]
    ensures w <= s <==> w[1..] <= s[1..]
  {
    assert w == [w[0]] + w[1..] && s == [s[0]] + s[1..];
  }

  /** What follows a text in the stripped document: its line ends there. */
  predicate EndsLine(rest: string) {
    rest == "" || rest[0] == '\n'
  }

  lemma ConsPrefix(c: char, a: string, b: string)
    ensures [c] + a <= [c] + b <==> a <= b
  {
    PrefixCons([c] + a, [c] + b);
    assert ([c] + a)[1..] == a && ([c] + b)[1..] == b;
  }

  lemma {:induction false} SafeStartsWith(s: string, v: string, w: string, x: string)
    requires s != "" && v == ['&'] + x && s[0] == '&' && (w <= x <==> w <= s[1..])
    ensures ['&'] + w <= v <==> ['&'] + w <= s
  {
    ConsPrefix('&', w, x);
    assert s == ['&'] + s[1..];
    ConsPrefix('&', w, s[1..]);
  }

  lemma {:induction false} SafeStartsOne(s: string, w: string, rest: string)
    requires s != "" && s[0] == '&' && '<' !in w && '>' !in w && '&' !in w && (rest == "" || rest[0] !in w)
    ensures ['&'] + w <= Safe(s) + rest <==> ['&'] + w <= s
  {
    SafeCons(s);
    Cons('&', Safe(s[1..]), rest);
    SafeStartsAlike(s[1..], w, rest);
    SafeStartsWith(s, Safe(s) + rest, w, Safe(s[1..]) + rest);
  }

  lemma EntityWords()
    ensures ['&'] + "amp;" == "&amp;" && ['&'] + "lt;" == "&lt;" && ['&'] + "gt;" == "&gt;"
  {
  }

  lemma {:induction false} SafeStartsEntity(s: string, rest: string)
    requires s != "" && s[0] == '&' && EndsLine(rest)
    ensures StartsEntity(Safe(s) + rest) <==> StartsEntity(s)
  {
    SafeStartsOne(s, "amp;", rest);
    SafeStartsOne(s, "lt;", rest);
    SafeStartsOne(s, "gt;", rest);
    EntityWords();
  }

  lemma {:induction false} UnescapeBracket(c: char, rest: string)
    requires c == '<' || c == '>'
    ensures X.Unescaped((if c == '<' then "&lt;" else "&gt;") + rest) == [c] + X.Unescaped(rest)
  {
    X.UnescapeStep(c, rest);
  }

  lemma EntityStartsWithAmpersand(s: string)
    requires StartsEntity(s)
    ensures s != "" && s[0] == '&'
  {
  }

  lemma {:induction false} UnescapePlain(c: char, rest: string)
    requires c != '&' || !StartsEntity([c] + rest)
    ensures X.Unescaped([c] + rest) == [c] + X.Unescaped(rest)
  {
    var s := [c] + rest;
    if StartsEntity(s) {
      EntityStartsWithAmpersand(s);
    }
    assert s[1..] == rest;
  }

  /** One character that begins no entity is read back from its safe form. */
  lemma {:induction false} UnescapeSafeStep(s: string, rest: string)
    requires s != "" && !StartsEntity(s) && EndsLine(rest)
    ensures X.Unescaped(Safe(s) + rest) == [s[0]] + X.Unescaped(Safe(s[1..]) + rest)
  {
    var tail := Safe(s[1..]) + rest;
    if s[0] == '<' || s[0] == '>' {
      BracketCons(s, rest);
      UnescapeBracket(s[0], tail);
    } else {
      SafeCons(s);
      Cons(s[0], Safe(s[1..]), rest);
      if s[0] == '&' {
        SafeStartsEntity(s, rest);
      }
      UnescapePlain(s[0], tail);
    }
  }

  lemma BracketCons(s: string, rest: string)
    requires s != "" && (s[0] == '<' || s[0] == '>')
    ensures Safe(s) + rest == (if s[0] == '<' then "&lt;" else "&gt;") + (Safe(s[1..]) + rest)
  {
  }

  /** A text without entities is read back from its safe form. */
  lemma {:induction false} UnescapeSafe(s: string, rest: string)
    requires NoEntity(s) && EndsLine(rest)
    ensures X.Unescaped(Safe(s) + rest) == s + X.Unescaped(rest)
    decreases |s|
  {
    if s == "" {
      assert Safe(s) + rest == rest && s + X.Unescaped(rest) == X.Unescaped(rest);
    } else {
      NoEntityTail(s);
      UnescapeSafe(s[1..], rest);
      UnescapeSafeStep(s, rest);
      assert s == [s[0]] + s[1..];
      Cons(s[0], s[1..], X.Unescaped(rest));
    }
  }

  /** An entity in the text is taken for the character it stands for. */
  lemma {:induction false} UnescapeIsShorter(s: string)
    ensures |X.Unescaped(Safe(s))| <= |s| && (!NoEntity(s) ==> |X.Unescaped(Safe(s))| < |s|)
    decreases |s|
  {
    if s != "" {
      NoEntityTail(s);
      UnescapeIsShorter(s[1..]);
      if StartsEntity(s) {
        var n := if "&amp;" <= s then 5 else 4;
        SafeEntity(s, n);
        UnescapeIsShorter(s[n..]);
      } else {
        UnescapeSafeStep(s, "");
        assert Safe(s) + "" == Safe(s) && Safe(s[1..]) + "" == Safe(s[1..]);
      }
    }
  }

  lemma SafeCons(s: string)
    requires s != "" && s[0] != '<' && s[0] != '>'
    ensures Safe(s) == [s[0]] + Safe(s[1..])
  {
  }

  lemma Cons(c: char, v: string, rest: string)
    ensures ([c] + v) + rest == [c] + (v + rest)
  {
  }

  lemma {:induction false} SafeFront(w: string, s: string)
    requires '<' !in w && '>' !in w && w <= s
    ensures Safe(s) == w + Safe(s[|w|..])
    decreases |w|
  {
    if w == "" {
      assert s[0..] == s;
    } else {
      var c, v := w[0], w[1..];
      assert w == [c] + v && s[0] == c && c in w && forall x :: x in v ==> x in w;
      PrefixCons(w, s);
      SafeFront(v, s[1..]);
      assert s[1..][|v|..] == s[|w|..];
      SafeCons(s);
      Cons(c, v, Safe(s[|w|..]));
    }
  }

  lemma {:induction false} SafeEntity(s: string, n: nat)
    requires StartsEntity(s) && n == (if "&amp;" <= s then 5 else 4)
    ensures n <= |s| && |X.Unescaped(Safe(s))| == 1 + |X.Unescaped(Safe(s[n..]))|
  {
    var w := if "&amp;" <= s then "&amp;" else if "&lt;" <= s then "&lt;" else "&gt;";
    SafeFront(w, s);
    var c := if w == "&amp;" then '&' else if w == "&lt;" then '<' else '>';
    X.UnescapeStep(c, Safe(s[n..]));
  }

  /** The safe form of a text is read back exactly when the text has no entity of its own. */
  lemma {:induction false} SafeReadBackIff(s: string)
    ensures X.Unescaped(Safe(s)) == s <==> NoEntity(s)
  {
    if NoEntity(s) {
      UnescapeSafe(s, "");
      assert Safe(s) + "" == Safe(s) && s + "" == s;
    } else {
      UnescapeIsShorter(s);
    }
  }

  function FieldLine(e: Entry): string {
    "  <field path=\"" + e.path + "\">" + Safe(e.text) + "</field>"
  }

  function Lines(entries: seq<Entry>): seq<string> {
    if entries == [] then [] else [FieldLine(entries[0])] + Lines(entries[1..])
  }

  function BuildSemanticXml(entries: seq<Entry>): string {
    Join(["<semantic>"] + Lines(entries) + ["</semantic>"], "\n")
  }

  lemma Associates(a: seq<string>, b: seq<string>, c: seq<string>)
    ensures a + (b + c) == (a + b) + c
  {
  }

  lemma {:induction false} LinesConcat(a: seq<Entry>, b: seq<Entry>)
    ensures Lines(a + b) == Lines(a) + Lines(b)
  {
    if a == [] {
      assert a + b == b;
    } else {
      LinesConcat(a[1..], b);
      assert (a + b)[0] == a[0] && (a + b)[1..] == a[1..] + b;
      Associates([FieldLine(a[0])], Lines(a[1..]), Lines(b));
    }
  }

  /** buildSemanticXml: the loop over the entries. */
  method PrintSemanticXml(entries: seq<Entry>) returns (xml: string)
    ensures xml == BuildSemanticXml(entries)
  {
    var lines := ["<semantic>"];
    for i := 0 to |entries|
      invariant lines == ["<semantic>"] + Lines(entries[..i])
    {
      LinesConcat(entries[..i], [entries[i]]);
      assert entries[..i + 1] == entries[..i] + [entries[i]];
      assert [entries[i]][1..] == [];
      lines := lines + [FieldLine(entries[i])];
    }
    assert entries[..|entries|] == entries;
    lines := lines + ["</semantic>"];
    return Join(lines, "\n");
  }

  /** The text outside tags, read one character at a time. */
  function Outside(s: string, inTag: bool): string {
    if s == "" then ""
    else if inTag then Outside(s[1..], s[0] != '>')
    else if s[0] == '<' then Outside(s[1..], true)
    else [s[0]] + Outside(s[1..], false)
  }

  function Stripped(value: string): string {
    Outside(value, false)
  }

  /** Text without '<' in front of anything stays in front. */
  lemma {:induction false} OutsideLead(a: string, rest: string)
    requires TagFree(a)
    ensures Outside(a + rest, false) == a + Outside(rest, false)
  {
    if a == "" {
      assert a + rest == rest;
    } else {
      OutsideLead(a[1..], rest);
      assert (a + rest)[1..] == a[1..] + rest;
      assert a == [a[0]] + a[1..];
    }
  }

  /** Text without '>' inside a tag is dropped. */
  lemma {:induction false} InsideLead(a: string, rest: string)
    requires forall i :: 0 <= i < |a| ==> a[i] != '>'
    ensures Outside(a + rest, true) == Outside(rest, true)
  {
    if a == "" {
      assert a + rest == rest;
    } else {
      InsideLead(a[1..], rest);
      assert (a + rest)[1..] == a[1..] + rest;
    }
  }

  /** A tag whose inside has no '>' disappears. */
  lemma StripTag(inside: string, rest: string)
    requires forall i :: 0 <= i < |inside| ==> inside[i] != '>'
    ensures Outside("<" + inside + ">" + rest, false) == Outside(rest, false)
  {
    var s := "<" + inside + ">" + rest;
    assert s[1..] == inside + (">" + rest);
    InsideLead(inside, ">" + rest);
    assert (">" + rest)[1..] == rest;
  }

  lemma OutsideNone(s: string)
    requires TagFree(s)
    ensures Outside(s, false) == s
  {
    OutsideLead(s, "");
    assert s + "" == s;
  }

  lemma ReadToTag(value: string, idx: nat, open: nat)
    requires idx <= open < |value| && value[open] == '<' && TagFree(value[idx..open])
    ensures Outside(value[idx..], false) == value[idx..open] + Outside(value[open + 1..], true)
  {
    var rest := value[open..];
    assert value[idx..] == value[idx..open] + rest;
    OutsideLead(value[idx..open], rest);
    assert rest[0] == '<' && rest[1..] == value[open + 1..];
  }

  lemma ReadTag(value: string, from: nat, close: nat)
    requires from <= close < |value| && value[close] == '>'
    requires forall i :: from <= i < close ==> value[i] != '>'
    ensures Outside(value[from..], true) == Outside(value[close + 1..], false)
  {
    var rest := value[close..];
    assert value[from..] == value[from..close] + rest;
    InsideLead(value[from..close], rest);
    assert rest[0] == '>' && rest[1..] == value[close + 1..];
  }

  lemma ReadUnclosed(value: string, from: nat)
    requires from <= |value|
    requires forall i :: from <= i < |value| ==> value[i] != '>'
    ensures Outside(value[from..], true) == ""
  {
    InsideLead(value[from..], "");
    assert value[from..] + "" == value[from..];
  }

  /** What the scan appends at a position, and where it goes on: None ends it. */
  lemma {:induction false} ScanTurn(value: string, idx: nat, open: int, close: int)
    requires idx <= |value| && open == CharIndex(value, '<', idx)
    requires open != -1 ==> close == CharIndex(value, '>', open)
    ensures open == -1 ==> Outside(value[idx..], false) == value[idx..]
    ensures open != -1 && close == -1 ==> Outside(value[idx..], false) == value[idx..open]
    ensures open != -1 && close != -1 ==>
              Outside(value[idx..], false) == value[idx..open] + Outside(value[close + 1..], false)
  {
    if open == -1 {
      OutsideNone(value[idx..]);
    } else {
      ReadToTag(value, idx, open);
      if close == -1 {
        ReadUnclosed(value, open + 1);
      } else {
        ReadTag(value, open + 1, close);
      }
    }
  }

  /** stripXmlTags: the scanning loop. */
  method StripXmlTags(value: string) returns (result: string)
    ensures result == Stripped(value)
  {
    result := "";
    var idx := 0;
    ghost var tail := Stripped(value);
    assert value[0..] == value;
    while idx < |value|
      invariant 0 <= idx <= |value|
      invariant tail == Outside(value[idx..], false)
      invariant result + tail == Stripped(value)
    {
      var nextTag := CharIndex(value, '<', idx);
      if nextTag == -1 {
        ScanTurn(value, idx, nextTag, -1);
        result := result + value[idx..];
        return;
      }
      var close := CharIndex(value, '>', nextTag);
      ScanTurn(value, idx, nextTag, close);
      ghost var was, piece := result, value[idx..nextTag];
      result := result + value[idx..nextTag];
      if close == -1 {
        return;
      }
      ghost var more := Outside(value[close + 1..], false);
      assert was + (piece + more) == (was + piece) + more;
      tail := more;
      idx := close + 1;
    }
    assert value[idx..] == "";
  }

  /** What the stripper returns has no '<' .. */
  lemma {:induction false} OutsideIsTagFree(s: string, inTag: bool)
    ensures TagFree(Outside(s, inTag))
    decreases |s|
  {
    if s != "" {
      OutsideIsTagFree(s[1..], if inTag then s[0] != '>' else s[0] == '<');
    }
  }

  /** .. and stripping it again changes nothing. */
  lemma StripIsIdempotent(value: string)
    ensures TagFree(Stripped(value)) && Stripped(Stripped(value)) == Stripped(value)
  {
    OutsideIsTagFree(value, false);
    OutsideNone(Stripped(value));
  }

  // -- reading back what buildSemanticXml printed --

  lemma {:induction false} SafeIsTagFree(s: string)
    ensures TagFree(Safe(s))
  {
    if s != "" {
      SafeIsTagFree(s[1..]);
    }
  }

  /** What the pipeline expects to read back: a newline, then each text on its own line, with its
      brackets replaced, indented by two spaces. */
  function Readback(entries: seq<Entry>): string {
    if entries == [] then ""
    else
      "  " + X.Replaced(X.Replaced(entries[0].text, '<', "&lt;"), '>', "&gt;") + "\n" + Readback(entries[1..])
  }

  /** The texts themselves, laid out in the same way. */
  function Texts(entries: seq<Entry>): string {
    if entries == [] then "" else "  " + entries[0].text + "\n" + Texts(entries[1..])
  }

  ghost predicate PathsClosed(entries: seq<Entry>) {
    forall i, j :: 0 <= i < |entries| && 0 <= j < |entries[i].path| ==> entries[i].path[j] != '>'
  }

  function Tail(entries: seq<Entry>): string {
    Join(Lines(entries) + ["</semantic>"], "\n")
  }

  lemma TailUnfolds(entries: seq<Entry>)
    requires entries != []
    ensures Tail(entries) == FieldLine(entries[0]) + "\n" + Tail(entries[1..])
  {
    var all := Lines(entries) + ["</semantic>"];
    assert all[0] == FieldLine(entries[0]) && all[1..] == Lines(entries[1..]) + ["</semantic>"];
  }

  lemma {:induction false} FieldLineParts(e: Entry, rest: string)
    ensures FieldLine(e) + rest ==
            "  " + ("<" + ("field path=\"" + e.path + "\"") + ">" + (Safe(e.text) + ("<" + "/field" + ">" + rest)))
  {
    assert "  <field path=\"" == "  " + "<" + "field path=\"";
    assert "\">" == "\"" + ">" && "</field>" == "<" + "/field" + ">";
    RegroupLine("field path=\"", e.path, Safe(e.text), "/field", rest);
  }

  lemma RegroupLine(lead: string, path: string, text: string, end: string, rest: string)
    ensures ("  " + "<" + lead) + path + ("\"" + ">") + text + ("<" + end + ">") + rest ==
            "  " + ("<" + (lead + path + "\"") + ">" + (text + ("<" + end + ">" + rest)))
  {
  }

  lemma InsideIsClosed(path: string)
    requires forall j :: 0 <= j < |path| ==> path[j] != '>'
    ensures var inside := "field path=\"" + path + "\""; forall j :: 0 <= j < |inside| ==> inside[j] != '>'
  {
  }

  lemma StripFieldLine(e: Entry, rest: string)
    requires forall j :: 0 <= j < |e.path| ==> e.path[j] != '>'
    ensures Stripped(FieldLine(e) + rest) == "  " + (Safe(e.text) + Stripped(rest))
  {
    InsideIsClosed(e.path);
    var inside := "field path=\"" + e.path + "\"";
    var close := "<" + "/field" + ">" + rest;
    FieldLineParts(e, rest);
    OutsideLead("  ", "<" + inside + ">" + (Safe(e.text) + close));
    StripTag(inside, Safe(e.text) + close);
    SafeIsTagFree(e.text);
    OutsideLead(Safe(e.text), close);
    StripTag("/field", rest);
  }

  lemma {:induction false} StripEnd()
    ensures Stripped("</semantic>") == ""
  {
    StripTag("/semantic", "");
    assert "<" + "/semantic" + ">" + "" == "</semantic>";
  }

  lemma StripLine(e: Entry, rest: string, back: string)
    requires forall j :: 0 <= j < |e.path| ==> e.path[j] != '>'
    requires Stripped(rest) == back
    ensures Stripped(FieldLine(e) + "\n" + rest) == "  " + Safe(e.text) + "\n" + back
  {
    assert FieldLine(e) + "\n" + rest == FieldLine(e) + ("\n" + rest);
    StripFieldLine(e, "\n" + rest);
    OutsideLead("\n", rest);
    assert "  " + (Safe(e.text) + ("\n" + back)) == "  " + Safe(e.text) + "\n" + back;
  }

  lemma {:induction false} StripTail(entries: seq<Entry>)
    requires PathsClosed(entries)
    ensures Stripped(Tail(entries)) == Readback(entries)
    decreases |entries|
  {
    if entries == [] {
      assert Lines(entries) + ["</semantic>"] == ["</semantic>"];
      StripEnd();
    } else {
      TailUnfolds(entries);
      StripTail(entries[1..]);
      StripLine(entries[0], Tail(entries[1..]), Readback(entries[1..]));
      SafeIsReplaced(entries[0].text);
    }
  }

  lemma StripHead(rest: string)
    ensures Stripped("<semantic>" + "\n" + rest) == "\n" + Stripped(rest)
  {
    assert "<semantic>" + "\n" + rest == "<" + "semantic" + ">" + ("\n" + rest);
    StripTag("semantic", "\n" + rest);
    OutsideLead("\n", rest);
  }

  lemma {:induction false} PrintedIs(entries: seq<Entry>)
    ensures BuildSemanticXml(entries) == "<semantic>" + "\n" + Tail(entries)
  {
    var all := ["<semantic>"] + Lines(entries) + ["</semantic>"];
    assert all[1..] == Lines(entries) + ["</semantic>"];
  }

  /** No semantic text is lost on its way through the printer and the stripper. */
  lemma SemanticTextSurvives(entries: seq<Entry>)
    requires PathsClosed(entries)
    ensures Stripped(BuildSemanticXml(entries)) == "\n" + Readback(entries)
  {
    PrintedIs(entries);
    StripHead(Tail(entries));
    StripTail(entries);
  }

  lemma {:induction false} UnescapeIndent(s: string)
    ensures X.Unescaped("  " + s) == "  " + X.Unescaped(s)
  {
    UnescapePlain(' ', [' '] + s);
    UnescapePlain(' ', s);
    assert "  " + s == [' '] + ([' '] + s);
    assert "  " + X.Unescaped(s) == [' '] + ([' '] + X.Unescaped(s));
  }

  lemma GroupLine(text: string, rest: string)
    ensures "  " + text + "\n" + rest == "  " + (text + (['\n'] + rest))
  {
  }

  lemma {:induction false} UnescapeLine(text: string, rest: string)
    requires NoEntity(text)
    ensures X.Unescaped("  " + Safe(text) + "\n" + rest) == "  " + text + "\n" + X.Unescaped(rest)
  {
    GroupLine(Safe(text), rest);
    UnescapeIndent(Safe(text) + (['\n'] + rest));
    UnescapeSafe(text, ['\n'] + rest);
    UnescapePlain('\n', rest);
    GroupLine(text, X.Unescaped(rest));
  }

  lemma {:induction false} UnescapeReadback(entries: seq<Entry>)
    requires forall i :: 0 <= i < |entries| ==> NoEntity(entries[i].text)
    ensures X.Unescaped(Readback(entries)) == Texts(entries)
    decreases |entries|
  {
    if entries != [] {
      UnescapeReadback(entries[1..]);
      SafeIsReplaced(entries[0].text);
      UnescapeLine(entries[0].text, Readback(entries[1..]));
    }
  }

  /** Every text that has no entity of its own comes through the printer and the stripper as it
      was, once the brackets are read back. */
  lemma {:induction false} SemanticTextIsRead(entries: seq<Entry>)
    requires PathsClosed(entries) && forall i :: 0 <= i < |entries| ==> NoEntity(entries[i].text)
    ensures X.Unescaped(Stripped(BuildSemanticXml(entries))) == "\n" + Texts(entries)
  {
    SemanticTextSurvives(entries);
    UnescapeReadback(entries);
    UnescapePlain('\n', Readback(entries));
  }

  // -- the document tells its entries --

  /** Paths that the attribute can hold, and texts without entities. */
  ghost predicate Quotable(entries: seq<Entry>) {
    forall i :: 0 <= i < |entries| ==> '"' !in entries[i].path && NoEntity(entries[i].text)
  }

  lemma Cancel(lead: string, x: string, y: string)
    requires lead + x == lead + y
    ensures x == y
  {
    assert x == (lead + x)[|lead|..] && y == (lead + y)[|lead|..];
  }

  lemma LineParts(lead: string, path: string, close: string, text: string, end: string, rest: string)
    ensures
      (lead + path + ("\"" + close) + text + ("<" + end)) + "\n" + rest ==
      lead + (path + ['"'] + (close + (text + ['<'] + (end + ("\n" + rest)))))
  {
  }

  lemma {:induction false} FieldLineIs(e: Entry, rest: string)
    ensures
      FieldLine(e) + "\n" + rest ==
      "  <field path=\"" + (e.path + ['"'] + (">" + (Safe(e.text) + ['<'] + ("/field>" + ("\n" + rest)))))
  {
    assert "\">" == "\"" + ">" && "</field>" == "<" + "/field>";
    LineParts("  <field path=\"", e.path, ">", Safe(e.text), "/field>", rest);
  }

  lemma {:induction false} FieldLineSplits(a: Entry, b: Entry, x: string, y: string)
    requires '"' !in a.path && '"' !in b.path && FieldLine(a) + "\n" + x == FieldLine(b) + "\n" + y
    ensures a.path == b.path && Safe(a.text) == Safe(b.text) && x == y
  {
    FieldLineIs(a, x);
    FieldLineIs(b, y);
    var u, v := Safe(a.text) + ['<'] + ("/field>" + ("\n" + x)), Safe(b.text) + ['<'] + ("/field>" + ("\n" + y));
    Cancel("  <field path=\"", a.path + ['"'] + (">" + u), b.path + ['"'] + (">" + v));
    SeparatorSplits('"', a.path, b.path, ">" + u, ">" + v);
    Cancel(">", u, v);
    SafeIsTagFree(a.text);
    SafeIsTagFree(b.text);
    SeparatorSplits('<', Safe(a.text), Safe(b.text), "/field>" + ("\n" + x), "/field>" + ("\n" + y));
    Cancel("/field>", "\n" + x, "\n" + y);
    Cancel("\n", x, y);
  }

  lemma {:induction false} TailsDiffer(entries: seq<Entry>)
    requires entries != []
    ensures Tail(entries) != Tail([])
  {
    TailUnfolds(entries);
    assert Lines([]) + ["</semantic>"] == ["</semantic>"];
    assert Tail(entries)[0] == ' ' && Tail([])[0] == '<';
  }

  lemma {:induction false} TailIsInjective(a: seq<Entry>, b: seq<Entry>)
    requires Quotable(a) && Quotable(b) && Tail(a) == Tail(b)
    ensures a == b
    decreases |a|
  {
    if a == [] || b == [] {
      if a != [] {
        TailsDiffer(a);
      }
      if b != [] {
        TailsDiffer(b);
      }
    } else {
      TailUnfolds(a);
      TailUnfolds(b);
      FieldLineSplits(a[0], b[0], Tail(a[1..]), Tail(b[1..]));
      SafeReadBackIff(a[0].text);
      SafeReadBackIff(b[0].text);
      TailIsInjective(a[1..], b[1..]);
      assert a == [a[0]] + a[1..] && b == [b[0]] + b[1..];
    }
  }

  /** Documents of different entries differ, in their paths or in their texts. */
  lemma {:induction false} PrintedEntriesDiffer(a: seq<Entry>, b: seq<Entry>)
    requires Quotable(a) && Quotable(b) && BuildSemanticXml(a) == BuildSemanticXml(b)
    ensures a == b
  {
    PrintedIs(a);
    PrintedIs(b);
    Cancel("<semantic>" + "\n", Tail(a), Tail(b));
    TailIsInjective(a, b);
  }
}
