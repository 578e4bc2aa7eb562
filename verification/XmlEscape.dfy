/** escapeXml of the generator: three replacements, one after the other. */
module XmlEscape {
  import opened Text

  /** s.replace(/c/g, by) for one character c. */
  function Replaced(s: string, c: char, sub: string): string {
    if s == "" then "" else (if s[0] == c then sub else [s[0]]) + Replaced(s[1..], c, sub)
  }

  function EscapeXml(value: string): string {
    Replaced(Replaced(Replaced(value, '&', "&amp;"), '<', "&lt;"), '>', "&gt;")
  }

  /** The same in one pass. */
  function Escaped(value: string): string {
    if value == "" then "" else EscapedChar(value[0]) + Escaped(value[1..])
  }

  function EscapedChar(c: char): (r: string)
    ensures r != ""
  {
    if c == '&' then "&amp;" else if c == '<' then "&lt;" else if c == '>' then "&gt;" else [c]
  }

  /** Reads an escaped text back. */
  function Unescaped(s: string): string {
    if s == "" then ""
    else if "&amp;" <= s then "&" + Unescaped(s[5..])
    else if "&lt;" <= s then "<" + Unescaped(s[4..])
    else if "&gt;" <= s then ">" + Unescaped(s[4..])
    else [s[0]] + Unescaped(s[1..])
  }

  lemma Associates(a: string, b: string, c: string)
    ensures a + (b + c) == (a + b) + c
  {
  }

  lemma {:induction false} ReplacedConcat(a: string, b: string, c: char, sub: string)
    ensures Replaced(a + b, c, sub) == Replaced(a, c, sub) + Replaced(b, c, sub)
  {
    if a == "" {
      assert a + b == b;
    } else {
      ReplacedConcat(a[1..], b, c, sub);
      assert (a + b)[1..] == a[1..] + b;
      Associates(if a[0] == c then sub else [a[0]], Replaced(a[1..], c, sub), Replaced(b, c, sub));
    }
  }

  lemma {:induction false} ReplacedNone(s: string, c: char, sub: string)
    requires forall i :: 0 <= i < |s| ==> s[i] != c
    ensures Replaced(s, c, sub) == s
  {
    if s != "" {
      ReplacedNone(s[1..], c, sub);
      assert s == [s[0]] + s[1..];
    }
  }

  lemma OneEscape(s: string, c: char, sub: string)
    requires |s| == 1
    ensures Replaced(s, c, sub) == if s[0] == c then sub else s
  {
    assert s[1..] == "";
    assert s == [s[0]];
  }

  lemma EscapeChar(c: char)
    ensures EscapeXml([c]) == EscapedChar(c)
  {
    var s1 := Replaced([c], '&', "&amp;");
    OneEscape([c], '&', "&amp;");
    if c == '&' {
      ReplacedNone("&amp;", '<', "&lt;");
      ReplacedNone("&amp;", '>', "&gt;");
    } else {
      OneEscape(s1, '<', "&lt;");
      if c == '<' {
        ReplacedNone("&lt;", '>', "&gt;");
      } else {
        OneEscape(s1, '>', "&gt;");
      }
    }
  }

  /** Replacing '&' first is what makes the three passes one. */
  lemma {:induction false} EscapeIsOnePass(value: string)
    ensures EscapeXml(value) == Escaped(value)
  {
    if value != "" {
      var head, tail := [value[0]], value[1..];
      assert value == head + tail;
      EscapeChar(value[0]);
      EscapeIsOnePass(tail);
      ReplacedConcat(head, tail, '&', "&amp;");
      var h1, t1 := Replaced(head, '&', "&amp;"), Replaced(tail, '&', "&amp;");
      ReplacedConcat(h1, t1, '<', "&lt;");
      ReplacedConcat(Replaced(h1, '<', "&lt;"), Replaced(t1, '<', "&lt;"), '>', "&gt;");
    }
  }

  lemma {:induction false} EscapedIsTagFree(value: string)
    ensures forall i :: 0 <= i < |Escaped(value)| ==> Escaped(value)[i] != '<' && Escaped(value)[i] != '>'
  {
    if value != "" {
      EscapedIsTagFree(value[1..]);
    }
  }

  lemma UnescapeStep(c: char, rest: string)
    ensures Unescaped(EscapedChar(c) + rest) == [c] + Unescaped(rest)
  {
    var s := EscapedChar(c) + rest;
    if c == '&' {
      assert "&amp;" <= s && s[5..] == rest;
    } else if c == '<' {
      assert s[1] == 'l';
      assert "&lt;" <= s && s[4..] == rest;
    } else if c == '>' {
      assert s[1] == 'g';
      assert "&gt;" <= s && s[4..] == rest;
    } else {
      assert s[0] == c && s[1..] == rest;
    }
  }

  lemma {:induction false} UnescapeEscaped(value: string)
    ensures Unescaped(Escaped(value)) == value
  {
    if value != "" {
      UnescapeEscaped(value[1..]);
      UnescapeStep(value[0], Escaped(value[1..]));
      assert value == [value[0]] + value[1..];
    }
  }

  /** escapeXml loses nothing. */
  lemma EscapeIsInjective(a: string, b: string)
    requires EscapeXml(a) == EscapeXml(b)
    ensures a == b
  {
    EscapeIsOnePass(a);
    EscapeIsOnePass(b);
    UnescapeEscaped(a);
    UnescapeEscaped(b);
  }

  lemma {:induction false} EscapedConcat(a: string, b: string)
    ensures Escaped(a + b) == Escaped(a) + Escaped(b)
  {
    if a == "" {
      assert a + b == b;
    } else {
      EscapedConcat(a[1..], b);
      assert (a + b)[1..] == a[1..] + b;
      Associates(EscapedChar(a[0]), Escaped(a[1..]), Escaped(b));
    }
  }

  lemma {:induction false} EscapedTrimStart(value: string)
    ensures TrimStart(Escaped(value)) == Escaped(TrimStart(value))
  {
    if value != "" && IsSpace(value[0]) {
      assert Escaped(value) == [value[0]] + Escaped(value[1..]);
      assert Escaped(value)[1..] == Escaped(value[1..]);
      EscapedTrimStart(value[1..]);
    }
  }

  lemma {:induction false} EscapedTrimEnd(value: string)
    ensures TrimEnd(Escaped(value)) == Escaped(TrimEnd(value))
    decreases |value|
  {
    if value != "" {
      var n := |value| - 1;
      var lead, c := value[..n], value[n];
      assert value == lead + [c];
      EscapedConcat(lead, [c]);
      assert Escaped([c]) == EscapedChar(c) by { assert [c][1..] == ""; }
      var e := Escaped(value);
      assert e == Escaped(lead) + EscapedChar(c);
      if IsSpace(c) {
        assert e[|e| - 1] == c && e[..|e| - 1] == Escaped(lead);
        EscapedTrimEnd(lead);
      } else {
        assert e[|e| - 1] == EscapedChar(c)[|EscapedChar(c)| - 1];
      }
    }
  }

  /** Trimming an escaped value and reading it back gives the trimmed value. */
  lemma TrimmedReadBack(value: string)
    ensures Unescaped(Trim(EscapeXml(value))) == Trim(value)
  {
    EscapeIsOnePass(value);
    EscapedTrimStart(value);
    EscapedTrimEnd(TrimStart(value));
    UnescapeEscaped(Trim(value));
  }
}
