/** redactTagValues and the reader of the same tags, extractTagValues. */
module TagRedaction {
  import opened Prelude
  import opened Text
  import opened TagSpans
  import SemanticXml

  function OpenPrefix(tag: string): string {
    "<" + Lower(tag)
  }

  function CloseTag(tag: string): string {
    "</" + Lower(tag) + ">"
  }

  /** The first complete span of the tag from a position on, searched in the lower-cased text. */
  function NextSpan(lower: string, tag: string, idx: nat): (p: Span)
    requires idx <= |lower|
    ensures p.Span? ==> idx <= p.start && FitsIn(p, |CloseTag(tag)|, lower)
  {
    var start := IndexOf(lower, OpenPrefix(tag), idx);
    if start == -1 then NoSpan
    else
      var openEnd := CharIndex(lower, '>', start);
      if openEnd == -1 then NoSpan
      else
        var close := IndexOf(lower, CloseTag(tag), openEnd + 1);
        if close == -1 then NoSpan else Span(start, openEnd, close)
  }

  function TagFinder(tag: string): Finder {
    s => NextSpan(Lower(s), tag, 0)
  }

  lemma FinderFits(tag: string)
    ensures Fits(TagFinder(tag), |CloseTag(tag)|)
  {
  }

  /** stripXmlTags of piiExtract: strip, then trim. */
  function Cleaned(raw: string): string {
    Trim(SemanticXml.Stripped(raw))
  }

  /** What extractTagValues makes of the contents of the spans. */
  function CleanedValues(contents: seq<string>): seq<string> {
    if contents == [] then []
    else (if Cleaned(contents[0]) != "" then [Cleaned(contents[0])] else []) + CleanedValues(contents[1..])
  }

  // -- the loops --

  function Shifted(p: Span, idx: nat): Span {
    if p == NoSpan then NoSpan else Span(idx + p.start, idx + p.openEnd, idx + p.close)
  }

  lemma LowerSuffix(xml: string, idx: nat)
    requires idx <= |xml|
    ensures Lower(xml[idx..]) == Lower(xml)[idx..]
  {
  }

  lemma NextSpanShift(lower: string, tag: string, idx: nat)
    requires idx <= |lower|
    ensures NextSpan(lower, tag, idx) == Shifted(NextSpan(lower[idx..], tag, 0), idx)
  {
    IndexOfShift(lower, OpenPrefix(tag), idx, 0);
    var start := IndexOf(lower[idx..], OpenPrefix(tag), 0);
    if start != -1 {
      CharIndexShift(lower, '>', idx, start);
      var openEnd := CharIndex(lower[idx..], '>', start);
      if openEnd != -1 {
        IndexOfShift(lower, CloseTag(tag), idx, openEnd + 1);
      }
    }
  }

  /** The finder finds in the text what the search in lower case finds. */
  predicate FindsIn(next: Finder, tag: string, s: string) {
    next(s) == NextSpan(Lower(s), tag, 0)
  }

  ghost predicate FindsTag(next: Finder, tag: string) {
    forall s :: FindsIn(next, tag, s)
  }

  /** Searching the lower-cased text from a position finds what the finder finds in the rest. */
  predicate SearchesAt(lower: string, xml: string, tag: string, next: Finder, idx: nat)
    requires idx <= |lower| == |xml|
  {
    NextSpan(lower, tag, idx) == Shifted(next(xml[idx..]), idx)
  }

  ghost predicate Searches(lower: string, xml: string, tag: string, next: Finder) {
    |lower| == |xml| && forall idx: nat :: idx <= |xml| ==> SearchesAt(lower, xml, tag, next, idx)
  }

  lemma {:induction false} LowerSearches(xml: string, tag: string, next: Finder)
    requires FindsTag(next, tag)
    ensures Searches(Lower(xml), xml, tag, next)
  {
    forall idx: nat | idx <= |xml| ensures SearchesAt(Lower(xml), xml, tag, next, idx) {
      NextSpanShift(Lower(xml), tag, idx);
      LowerSuffix(xml, idx);
      assert FindsIn(next, tag, xml[idx..]);
    }
  }

  /** The three searches of one turn of the loops. */
  method FindSpan(xml: string, lower: string, tag: string, idx: nat, ghost next: Finder) returns (p: Span)
    requires Searches(lower, xml, tag, next) && idx <= |xml|
    ensures p == Shifted(next(xml[idx..]), idx)
  {
    assert SearchesAt(lower, xml, tag, next, idx);
    var start := IndexOf(lower, OpenPrefix(tag), idx);
    if start == -1 {
      return NoSpan;
    }
    var openEnd := CharIndex(lower, '>', start);
    if openEnd == -1 {
      return NoSpan;
    }
    var closeIdx := IndexOf(lower, CloseTag(tag), openEnd + 1);
    if closeIdx == -1 {
      return NoSpan;
    }
    p := Span(start, openEnd, closeIdx);
  }

  lemma RedactStep(next: Finder, n: nat, xml: string, token: string, idx: nat, p: Span)
    requires Fits(next, n) && idx <= |xml| && p == Shifted(next(xml[idx..]), idx)
    ensures p == NoSpan ==> Redacted(next, n, xml[idx..], token) == xml[idx..]
    ensures p.Span? ==> FitsIn(p, n, xml)
    ensures p.Span? ==>
              Redacted(next, n, xml[idx..], token) ==
                xml[idx..p.openEnd + 1] + token + xml[p.close..p.close + n] +
                Redacted(next, n, xml[p.close + n..], token)
  {
    var rest := xml[idx..];
    var q := next(rest);
    if q.Span? {
      assert FitsIn(q, n, rest);
      assert Head(q, rest) == xml[idx..p.openEnd + 1];
      assert rest[q.close..q.close + n] == xml[p.close..p.close + n];
      assert rest[q.close + n..] == xml[p.close + n..];
    }
  }

  lemma RestIsEmpty(next: Finder, n: nat, xml: string, token: string)
    requires Fits(next, n)
    ensures Redacted(next, n, xml[|xml|..], token) == "" && Contents(next, n, xml[|xml|..]) == []
  {
    var p := next(xml[|xml|..]);
    assert p.Span? ==> FitsIn(p, n, xml[|xml|..]);
  }

  /** One turn of the loop: None when no span is left, otherwise what is appended. */
  method NextPiece(xml: string, lower: string, tag: string, n: nat, token: string, idx: nat, ghost next: Finder)
    returns (piece: Option<string>, end: nat, ghost more: string)
    requires Searches(lower, xml, tag, next) && Fits(next, n) && idx <= |xml|
    ensures piece == None ==> Redacted(next, n, xml[idx..], token) == xml[idx..]
    ensures piece.Some? ==> idx < end <= |xml| && more == Redacted(next, n, xml[end..], token)
    ensures piece.Some? ==> Redacted(next, n, xml[idx..], token) == piece.value + more
  {
    var p := FindSpan(xml, lower, tag, idx, next);
    RedactStep(next, n, xml, token, idx, p);
    if p == NoSpan {
      return None, idx, "";
    }
    end := p.close + n;
    return Some(xml[idx..p.openEnd + 1] + token + xml[p.close..end]), end, Redacted(next, n, xml[end..], token);
  }

  lemma Regroup(a: string, b: string, c: string)
    ensures a + (b + c) == (a + b) + c
  {
  }

  method RedactLoop(xml: string, lower: string, tag: string, closeTag: string, token: string, ghost next: Finder)
    returns (result: string)
    requires Searches(lower, xml, tag, next) && Fits(next, |closeTag|)
    ensures result == Redacted(next, |closeTag|, xml, token)
  {
    var idx := 0;
    result := "";
    ghost var todo := Redacted(next, |closeTag|, xml, token);
    ghost var all := todo;
    assert xml[0..] == xml;
    while idx < |lower|
      invariant 0 <= idx <= |xml| && todo == Redacted(next, |closeTag|, xml[idx..], token)
      invariant result + todo == all
    {
      var piece, end, more := NextPiece(xml, lower, tag, |closeTag|, token, idx, next);
      if piece == None {
        result := result + xml[idx..];
        return;
      }
      Regroup(result, piece.value, more);
      result := result + piece.value;
      todo := more;
      idx := end;
    }
    RestIsEmpty(next, |closeTag|, xml, token);
  }

  lemma FinderFindsTag(tag: string)
    ensures FindsTag(TagFinder(tag), tag)
  {
  }

  method RedactTagValues(xml: string, tag: string, token: string) returns (result: string)
    ensures Fits(TagFinder(tag), |CloseTag(tag)|)
    ensures result == Redacted(TagFinder(tag), |CloseTag(tag)|, xml, token)
  {
    FinderFits(tag);
    FinderFindsTag(tag);
    LowerSearches(xml, tag, TagFinder(tag));
    var lower := Lower(xml);
    result := RedactLoop(xml, lower, tag, CloseTag(tag), token, TagFinder(tag));
  }

  lemma ExtractStep(next: Finder, n: nat, xml: string, idx: nat, p: Span)
    requires Fits(next, n) && idx <= |xml| && p == Shifted(next(xml[idx..]), idx)
    ensures p == NoSpan ==> Contents(next, n, xml[idx..]) == []
    ensures p.Span? ==> FitsIn(p, n, xml)
    ensures p.Span? ==>
              Contents(next, n, xml[idx..]) == [xml[p.openEnd + 1..p.close]] + Contents(next, n, xml[p.close + n..])
  {
    var rest := xml[idx..];
    var q := next(rest);
    if q.Span? {
      assert FitsIn(q, n, rest);
      assert rest[q.openEnd + 1..q.close] == xml[p.openEnd + 1..p.close];
      assert rest[q.close + n..] == xml[p.close + n..];
    }
  }

  lemma CleanedStep(values: seq<string>, raw: string, more: seq<string>)
    ensures values + CleanedValues([raw] + more) ==
            (if Cleaned(raw) != "" then values + [Cleaned(raw)] else values) + CleanedValues(more)
  {
    assert ([raw] + more)[1..] == more;
  }

  /** Strips and trims the content of one span, and keeps it unless it is empty. */
  method AddCleaned(values: seq<string>, raw: string, ghost more: seq<string>) returns (r: seq<string>)
    ensures r + CleanedValues(more) == values + CleanedValues([raw] + more)
  {
    var stripped := SemanticXml.StripXmlTags(raw);
    var cleaned := Trim(stripped);
    CleanedStep(values, raw, more);
    r := if cleaned != "" then values + [cleaned] else values;
  }

  /** One turn of the loop: None at the end, otherwise the content of the next span. */
  method NextContent(xml: string, lower: string, tag: string, n: nat, idx: nat, ghost next: Finder,
                     ghost todo: seq<string>)
    returns (raw: Option<string>, end: nat, ghost more: seq<string>)
    requires Searches(lower, xml, tag, next) && Fits(next, n) && idx <= |xml| && todo == Contents(next, n, xml[idx..])
    ensures raw == None ==> todo == []
    ensures raw.Some? ==> idx < end <= |xml| && todo == [raw.value] + more && more == Contents(next, n, xml[end..])
  {
    var p := FindSpan(xml, lower, tag, idx, next);
    ExtractStep(next, n, xml, idx, p);
    if p == NoSpan {
      return None, idx, [];
    }
    end := p.close + n;
    return Some(xml[p.openEnd + 1..p.close]), end, Contents(next, n, xml[end..]);
  }

  method ExtractLoop(xml: string, lower: string, tag: string, closeTag: string, ghost next: Finder)
    returns (values: seq<string>)
    requires Searches(lower, xml, tag, next) && Fits(next, |closeTag|)
    ensures values == CleanedValues(Contents(next, |closeTag|, xml))
  {
    values := [];
    var idx := 0;
    ghost var todo := Contents(next, |closeTag|, xml);
    ghost var all := CleanedValues(todo);
    assert xml[0..] == xml;
    while idx < |lower|
      invariant 0 <= idx <= |xml| && todo == Contents(next, |closeTag|, xml[idx..])
      invariant values + CleanedValues(todo) == all
    {
      var raw, end, more := NextContent(xml, lower, tag, |closeTag|, idx, next, todo);
      if raw == None {
        return;
      }
      values := AddCleaned(values, raw.value, more);
      todo := more;
      idx := end;
    }
    RestIsEmpty(next, |closeTag|, xml, "");
  }

  method ExtractTagValues(xml: string, tag: string) returns (values: seq<string>)
    ensures Fits(TagFinder(tag), |CloseTag(tag)|)
    ensures values == CleanedValues(Contents(TagFinder(tag), |CloseTag(tag)|, xml))
  {
    FinderFits(tag);
    FinderFindsTag(tag);
    LowerSearches(xml, tag, TagFinder(tag));
    var lower := Lower(xml);
    values := ExtractLoop(xml, lower, tag, CloseTag(tag), TagFinder(tag));
  }

  // -- reading redacted text again --

  ghost predicate Lacks(s: string, c: char) {
    forall i :: 0 <= i < |s| ==> s[i] != c
  }

  /** A search result on one text is one on any text that agrees with it up to its end and
      has no earlier occurrence. */
  lemma SamePrefixSpan(lower: string, lo: string, tag: string, p: Span, close: nat)
    requires NextSpan(lower, tag, 0) == p && p.Span? && Lacks(tag, '>')
    requires p.openEnd < |lo| && forall i :: 0 <= i <= p.openEnd ==> lo[i] == lower[i]
    requires p.openEnd < close && At(lo, CloseTag(tag), close)
    requires forall i :: p.openEnd < i < close ==> lo[i] != '<'
    ensures NextSpan(lo, tag, 0) == Span(p.start, p.openEnd, close)
  {
    SamePrefixOpen(lower, lo, tag, p.start, p.openEnd);
    CharIndexIs(lo, '>', p.start, p.openEnd);
    NoCloseBefore(lo, tag, p.openEnd + 1, close);
    IndexOfIs(lo, CloseTag(tag), p.openEnd + 1, close);
  }

  lemma NoCloseBefore(lo: string, tag: string, from: nat, close: nat)
    requires from <= close <= |lo| && forall i :: from <= i < close ==> lo[i] != '<'
    ensures forall j: nat :: from <= j < close ==> !At(lo, CloseTag(tag), j)
  {
    var ct := CloseTag(tag);
    assert ct[0] == '<';
    forall j: nat | from <= j < close ensures !At(lo, ct, j) {
      assert lo[j + 0] != ct[0];
    }
  }

  lemma SamePrefixOpen(lower: string, lo: string, tag: string, start: nat, openEnd: nat)
    requires Lacks(tag, '>') && start <= openEnd < |lower| && openEnd < |lo|
    requires IndexOf(lower, OpenPrefix(tag), 0) == start && lower[openEnd] == '>'
    requires forall i :: 0 <= i <= openEnd ==> lo[i] == lower[i]
    ensures IndexOf(lo, OpenPrefix(tag), 0) == start
  {
    var op := OpenPrefix(tag);
    forall i | start <= i < start + |op| ensures lower[i] != '>' {
      assert lower[start + (i - start)] == op[i - start];
    }
    forall j: nat | j < start ensures !At(lo, op, j) {
      assert !At(lower, op, j);
      var k :| 0 <= k < |op| && lower[j + k] != op[k];
      assert lo[j + k] == lower[j + k];
    }
    assert forall k :: 0 <= k < |op| ==> lo[start + k] == lower[start + k] == op[k];
    IndexOfIs(lo, op, 0, start);
  }

  lemma SpanHasClose(lower: string, tag: string, p: Span)
    requires NextSpan(lower, tag, 0) == p && p.Span?
    ensures At(lower, CloseTag(tag), p.close)
  {
  }

  lemma PlacedWord(s: string, i: nat, word: string, lead: string, rest: string)
    requires At(Lower(s), word, i)
    ensures At(Lower(lead + s[i..i + |word|] + rest), word, |lead|)
  {
    var out := lead + s[i..i + |word|] + rest;
    assert out[|lead|..|lead| + |word|] == s[i..i + |word|];
    SameWord(s, i, out, |lead|, word);
  }

  lemma {:induction false} PlacedClose(s: string, tag: string, p: Span, token: string, rest: string)
    requires NextSpan(Lower(s), tag, 0) == p && p.Span?
    ensures
      var out := Head(p, s) + token + s[p.close..p.close + |CloseTag(tag)|] + rest;
      At(Lower(out), CloseTag(tag), p.openEnd + 1 + |token|)
  {
    SpanHasClose(Lower(s), tag, p);
    PlacedWord(s, p.close, CloseTag(tag), Head(p, s) + token, rest);
  }

  lemma PlacedHead(s: string, p: Span, token: string, more: string)
    requires p.Span? && p.openEnd < |s| && Lacks(token, '<')
    ensures
      var lo := Lower(Head(p, s) + token + more);
      && p.openEnd < |lo|
      && (forall i :: 0 <= i <= p.openEnd ==> lo[i] == Lower(s)[i])
      && (forall i :: p.openEnd < i < p.openEnd + 1 + |token| ==> lo[i] != '<')
  {
    var out := Head(p, s) + token + more;
    forall i | p.openEnd < i < p.openEnd + 1 + |token| ensures Lower(out)[i] != '<' {
      assert out[i] == token[i - p.openEnd - 1];
    }
  }

  /** A word found at one place is found wherever the same characters stand. */
  lemma SameWord(s: string, i: nat, out: string, j: nat, word: string)
    requires At(Lower(s), word, i) && j + |word| <= |out|
    requires out[j..j + |word|] == s[i..i + |word|]
    ensures At(Lower(out), word, j)
  {
    forall k | 0 <= k < |word| ensures Lower(out)[j + k] == word[k] {
      assert out[j + k] == out[j..j + |word|][k] == s[i..i + |word|][k] == s[i + k];
      assert Lower(s)[i + k] == word[k];
    }
  }

  lemma {:induction false} StableAt(s: string, tag: string, p: Span, token: string, rest: string)
    requires NextSpan(Lower(s), tag, 0) == p && p.Span? && Lacks(tag, '>') && Lacks(token, '<')
    ensures
      var out := Head(p, s) + token + s[p.close..p.close + |CloseTag(tag)|] + rest;
      NextSpan(Lower(out), tag, 0) == Span(p.start, p.openEnd, p.openEnd + 1 + |token|)
  {
    var c := s[p.close..p.close + |CloseTag(tag)|];
    var out := Head(p, s) + token + c + rest;
    assert out == Head(p, s) + token + (c + rest);
    PlacedClose(s, tag, p, token, rest);
    PlacedHead(s, p, token, c + rest);
    SamePrefixSpan(Lower(s), Lower(out), tag, p, p.openEnd + 1 + |token|);
  }

  lemma FoundAgain(next: Finder, tag: string, token: string, s: string, p: Span, rest: string)
    requires FindsTag(next, tag) && Lacks(tag, '>') && Lacks(token, '<')
    requires p.Span? && next(s) == p && FitsIn(p, |CloseTag(tag)|, s)
    ensures next(Head(p, s) + token + s[p.close..p.close + |CloseTag(tag)|] + rest) ==
            Span(p.start, p.openEnd, p.openEnd + 1 + |token|)
  {
    assert FindsIn(next, tag, s);
    assert FindsIn(next, tag, Head(p, s) + token + s[p.close..p.close + |CloseTag(tag)|] + rest);
    StableAt(s, tag, p, token, rest);
  }

  lemma OneIsStable(next: Finder, tag: string, token: string, s: string, rest: string)
    requires FindsTag(next, tag) && Fits(next, |CloseTag(tag)|) && Lacks(tag, '>') && Lacks(token, '<')
    requires next(s).Span?
    ensures KeepsSpan(next, |CloseTag(tag)|, token, s, rest)
  {
    assert FitsIn(next(s), |CloseTag(tag)|, s);
    FoundAgain(next, tag, token, s, next(s), rest);
  }

  lemma FinderIsStable(next: Finder, tag: string, token: string)
    requires FindsTag(next, tag) && Fits(next, |CloseTag(tag)|) && Lacks(tag, '>') && Lacks(token, '<')
    ensures Stable(next, |CloseTag(tag)|, token)
  {
    forall s: string, rest: string | next(s).Span? ensures KeepsSpan(next, |CloseTag(tag)|, token, s, rest) {
      OneIsStable(next, tag, token, s, rest);
    }
  }

  lemma {:induction false} TagIsStable(tag: string, token: string)
    requires Lacks(tag, '>') && Lacks(token, '<')
    ensures Fits(TagFinder(tag), |CloseTag(tag)|) && Stable(TagFinder(tag), |CloseTag(tag)|, token)
  {
    FinderFits(tag);
    FinderFindsTag(tag);
    FinderIsStable(TagFinder(tag), tag, token);
  }

  lemma {:induction false} CleanedRepeat(token: string, k: nat)
    requires Lacks(token, '<') && Trim(token) != ""
    ensures CleanedValues(Repeat(token, k)) == Repeat(Trim(token), k)
  {
    SemanticXml.OutsideNone(token);
    if k > 0 {
      CleanedRepeat(token, k - 1);
    }
  }

  /** For one tag and a token without '<': redacting again changes nothing, everything but
      the contents of complete spans is as before, and the reader of the same tag finds the
      token once per span and nothing else. */
  lemma {:induction false} RedactionIsReadBack(xml: string, tag: string, token: string)
    requires Lacks(tag, '>') && Lacks(token, '<') && Trim(token) != ""
    ensures Fits(TagFinder(tag), |CloseTag(tag)|)
    ensures
      var next, n := TagFinder(tag), |CloseTag(tag)|;
      var out := Redacted(next, n, xml, token);
      && Redacted(next, n, out, token) == out
      && Outline(next, n, out) == Outline(next, n, xml)
      && CleanedValues(Contents(next, n, out)) == Repeat(Trim(token), |Contents(next, n, xml)|)
  {
    TagIsStable(tag, token);
    var next, n := TagFinder(tag), |CloseTag(tag)|;
    ReadRedacted(next, n, xml, token);
    CleanedRepeat(token, |Contents(next, n, xml)|);
  }

  // -- what the search finds --

  /** The name of the tag stands here, in any case. */
  predicate NameAt(s: string, tag: string, i: nat) {
    i + |tag| <= |s| && forall x :: 0 <= x < |tag| ==> LowerChar(s[i + x]) == LowerChar(tag[x])
  }

  /** An opening bracket and the name; more may follow before the closing bracket. */
  predicate OpensAt(s: string, tag: string, i: nat) {
    i < |s| && s[i] == '<' && NameAt(s, tag, i + 1)
  }

  /** The closing tag. */
  predicate ClosesAt(s: string, tag: string, k: nat) {
    && k + |tag| + 3 <= |s| && s[k] == '<' && s[k + 1] == '/' && NameAt(s, tag, k + 2)
    && s[k + 2 + |tag|] == '>'
  }

  lemma {:induction false} AtConcat(s: string, a: string, b: string, i: nat)
    ensures At(s, a + b, i) <==> At(s, a, i) && At(s, b, i + |a|)
  {
    var w := a + b;
    if At(s, w, i) {
      forall k | 0 <= k < |a| ensures s[i + k] == a[k] {
        assert s[i + k] == w[k];
      }
      forall k | 0 <= k < |b| ensures s[i + |a| + k] == b[k] {
        assert s[i + (|a| + k)] == w[|a| + k];
      }
    }
    if At(s, a, i) && At(s, b, i + |a|) {
      forall k | 0 <= k < |w| ensures s[i + k] == w[k] {
        if k >= |a| {
          assert s[i + |a| + (k - |a|)] == b[k - |a|];
        }
      }
    }
  }

  lemma {:induction false} AtLower(s: string, tag: string, i: nat)
    ensures At(Lower(s), Lower(tag), i) <==> NameAt(s, tag, i)
  {
    if At(Lower(s), Lower(tag), i) {
      forall x | 0 <= x < |tag| ensures LowerChar(s[i + x]) == LowerChar(tag[x]) {
        assert Lower(s)[i + x] == Lower(tag)[x];
      }
    }
  }

  /** A mark of one character that has no case. */
  lemma {:induction false} AtMark(s: string, c: char, i: nat)
    requires c == '<' || c == '>' || c == '/'
    ensures At(Lower(s), [c], i) <==> i < |s| && s[i] == c
  {
    if At(Lower(s), [c], i) {
      assert Lower(s)[i + 0] == [c][0];
    }
  }

  lemma {:induction false} OpensIff(s: string, tag: string, i: nat)
    ensures At(Lower(s), OpenPrefix(tag), i) <==> OpensAt(s, tag, i)
  {
    AtConcat(Lower(s), "<", Lower(tag), i);
    AtMark(s, '<', i);
    AtLower(s, tag, i + 1);
  }

  lemma {:induction false} ClosesIff(s: string, tag: string, k: nat)
    ensures At(Lower(s), CloseTag(tag), k) <==> ClosesAt(s, tag, k)
  {
    assert "</" == ['<'] + ['/'];
    AtConcat(Lower(s), "</" + Lower(tag), ">", k);
    AtConcat(Lower(s), "</", Lower(tag), k);
    AtConcat(Lower(s), ['<'], ['/'], k);
    AtMark(s, '<', k);
    AtMark(s, '/', k + 1);
    AtLower(s, tag, k + 2);
    AtMark(s, '>', k + 2 + |tag|);
  }

  /** The first opening of the tag. */
  ghost predicate FirstOpening(s: string, tag: string, i: nat) {
    OpensAt(s, tag, i) && forall h: nat :: h < i ==> !OpensAt(s, tag, h)
  }

  /** The first closing bracket from a position on. */
  ghost predicate FirstEnd(s: string, from: nat, j: nat) {
    from <= j < |s| && s[j] == '>' && forall x: nat :: from <= x < j ==> s[x] != '>'
  }

  /** The first closing tag behind a position. */
  ghost predicate FirstClosing(s: string, tag: string, from: nat, k: nat) {
    from < k && ClosesAt(s, tag, k) && forall h: nat :: from < h < k ==> !ClosesAt(s, tag, h)
  }

  /** There is no complete span: the tag does not open, or its first opening is not ended, or it is
      not closed behind that end. */
  ghost predicate NoneComplete(s: string, tag: string) {
    || (forall i: nat :: !OpensAt(s, tag, i))
    || (exists i: nat :: FirstOpening(s, tag, i) && forall x: nat :: i <= x < |s| ==> s[x] != '>')
    || (exists i: nat, j: nat ::
          FirstOpening(s, tag, i) && FirstEnd(s, i, j) && forall k: nat :: k > j ==> !ClosesAt(s, tag, k))
  }

  /** The span goes from the first opening of the tag over the first closing bracket behind it to
      the first closing tag behind that. */
  ghost predicate IsFirstSpan(s: string, tag: string, p: Span)
    requires p.Span?
  {
    FirstOpening(s, tag, p.start) && FirstEnd(s, p.start, p.openEnd) && FirstClosing(s, tag, p.openEnd, p.close)
  }

  lemma {:induction false} OpeningFound(s: string, tag: string)
    ensures
      var i := IndexOf(Lower(s), OpenPrefix(tag), 0);
      if i == -1 then forall h: nat :: !OpensAt(s, tag, h) else FirstOpening(s, tag, i)
  {
    forall h: nat ensures At(Lower(s), OpenPrefix(tag), h) <==> OpensAt(s, tag, h) {
      OpensIff(s, tag, h);
    }
  }

  lemma {:induction false} EndFound(s: string, from: nat)
    requires from <= |s|
    ensures
      var j := CharIndex(Lower(s), '>', from);
      if j == -1 then forall x: nat :: from <= x < |s| ==> s[x] != '>' else FirstEnd(s, from, j)
  {
    forall x: nat | x < |s| ensures Lower(s)[x] == '>' <==> s[x] == '>' {
    }
  }

  lemma {:induction false} ClosingFound(s: string, tag: string, from: nat)
    requires from < |s|
    ensures
      var k := IndexOf(Lower(s), CloseTag(tag), from + 1);
      if k == -1 then forall h: nat :: h > from ==> !ClosesAt(s, tag, h) else FirstClosing(s, tag, from, k)
  {
    forall h: nat ensures At(Lower(s), CloseTag(tag), h) <==> ClosesAt(s, tag, h) {
      ClosesIff(s, tag, h);
    }
  }

  /** The span of three positions, if all were found. */
  function SpanOf(i: int, j: int, k: int): Span {
    if i < 0 || j < 0 || k < 0 then NoSpan else Span(i, j, k)
  }

  lemma {:induction false} SpanIs(s: string, tag: string, i: int, j: int, k: int)
    requires if i == -1 then forall h: nat :: !OpensAt(s, tag, h) else i >= 0 && FirstOpening(s, tag, i)
    requires
      i != -1 ==>
        if j == -1 then forall x: nat :: i <= x < |s| ==> s[x] != '>' else j >= 0 && FirstEnd(s, i, j)
    requires
      i != -1 && j != -1 ==>
        if k == -1 then forall h: nat :: h > j ==> !ClosesAt(s, tag, h) else k >= 0 && FirstClosing(s, tag, j, k)
    ensures
      var p := SpanOf(i, if i == -1 then -1 else j, if i == -1 || j == -1 then -1 else k);
      if p == NoSpan then NoneComplete(s, tag) else IsFirstSpan(s, tag, p)
  {
  }

  lemma {:induction false} NextSpanIs(lower: string, tag: string, i: int, j: int, k: int)
    requires i == IndexOf(lower, OpenPrefix(tag), 0)
    requires i != -1 ==> j == CharIndex(lower, '>', i)
    requires i != -1 && j != -1 ==> k == IndexOf(lower, CloseTag(tag), j + 1)
    ensures
      NextSpan(lower, tag, 0) == SpanOf(i, if i == -1 then -1 else j, if i == -1 || j == -1 then -1 else k)
  {
  }

  /** The search finds the first complete span, and nothing only when there is none. */
  lemma {:induction false} FoundSpanIs(s: string, tag: string)
    ensures
      var p := TagFinder(tag)(s);
      if p == NoSpan then NoneComplete(s, tag) else IsFirstSpan(s, tag, p)
  {
    var j, k := -1, -1;
    OpeningFound(s, tag);
    var i := IndexOf(Lower(s), OpenPrefix(tag), 0);
    if i != -1 {
      EndFound(s, i);
      j := CharIndex(Lower(s), '>', i);
      if j != -1 {
        ClosingFound(s, tag, j);
        k := IndexOf(Lower(s), CloseTag(tag), j + 1);
      }
    }
    NextSpanIs(Lower(s), tag, i, j, k);
    SpanIs(s, tag, i, j, k);
  }

  /** What is extracted: the contents of the spans without their tags and outer white space, as far
      as anything is left. */
  lemma {:induction false} CleanedValuesAre(contents: seq<string>, v: string)
    ensures
      v in CleanedValues(contents) <==>
      v != "" && exists i :: 0 <= i < |contents| && v == Trim(SemanticXml.Stripped(contents[i]))
    decreases |contents|
  {
    if contents != [] {
      var tail := contents[1..];
      CleanedValuesAre(tail, v);
      assert forall i :: 0 < i < |contents| ==> contents[i] == tail[i - 1];
      if i :| 0 <= i < |tail| && v == Trim(SemanticXml.Stripped(tail[i])) {
        assert v == Trim(SemanticXml.Stripped(contents[i + 1]));
      }
    }
  }
}
