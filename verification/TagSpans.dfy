/** Texts made of spans, whatever finds the spans: replacing their contents, listing them
    and leaving them out. */
module TagSpans {

  /** One complete span: where it opens, the end of its opening tag, its closing tag. */
  datatype Span = NoSpan | Span(start: nat, openEnd: nat, close: nat)

  /** Finds the first span of a text. */
  type Finder = string -> Span

  /** Spans lie in the text; `n` is the length of the closing tag. */
  ghost predicate Fits(next: Finder, n: nat) {
    n > 0 && forall s :: next(s).Span? ==> FitsIn(next(s), n, s)
  }

  predicate FitsIn(p: Span, n: nat, s: string)
    requires p.Span?
  {
    p.start <= p.openEnd < p.close && p.close + n <= |s|
  }

  function Head(p: Span, s: string): string
    requires p.Span? && p.openEnd < |s|
  {
    s[..p.openEnd + 1]
  }

  /** The text with the content of every span replaced. */
  function Redacted(next: Finder, n: nat, s: string, token: string): string
    requires Fits(next, n)
    decreases |s|
  {
    var p := next(s);
    if p == NoSpan then s
    else
      assert FitsIn(p, n, s);
      Head(p, s) + token + s[p.close..p.close + n] + Redacted(next, n, s[p.close + n..], token)
  }

  /** The contents of the spans, in order. */
  function Contents(next: Finder, n: nat, s: string): seq<string>
    requires Fits(next, n)
    decreases |s|
  {
    var p := next(s);
    if p == NoSpan then []
    else
      assert FitsIn(p, n, s);
      [s[p.openEnd + 1..p.close]] + Contents(next, n, s[p.close + n..])
  }

  /** The text with the content of every span left out. */
  function Outline(next: Finder, n: nat, s: string): string
    requires Fits(next, n)
    decreases |s|
  {
    var p := next(s);
    if p == NoSpan then s
    else
      assert FitsIn(p, n, s);
      Head(p, s) + s[p.close..p.close + n] + Outline(next, n, s[p.close + n..])
  }

  /** Putting a token for the content of the first span leaves that span in its place. */
  ghost predicate Stable(next: Finder, n: nat, token: string)
    requires Fits(next, n)
  {
    forall s: string, rest: string :: next(s).Span? ==> KeepsSpan(next, n, token, s, rest)
  }

  ghost predicate KeepsSpan(next: Finder, n: nat, token: string, s: string, rest: string)
    requires Fits(next, n) && next(s).Span?
  {
    var p := next(s);
    assert FitsIn(p, n, s);
    next(Head(p, s) + token + s[p.close..p.close + n] + rest) == Span(p.start, p.openEnd, p.openEnd + 1 + |token|)
  }

  function Repeat(x: string, k: nat): seq<string> {
    if k == 0 then [] else [x] + Repeat(x, k - 1)
  }

  lemma PartsOfOut(head: string, token: string, close: string, rest: string)
    ensures
      var out := head + token + close + rest;
      && out[..|head|] == head
      && out[|head|..|head| + |token|] == token
      && out[|head| + |token|..|head| + |token| + |close|] == close
      && out[|head| + |token| + |close|..] == rest
  {
  }

  /** One span of the redacted text, seen by the three functions. */
  lemma {:induction false} StepAfterRedaction(next: Finder, n: nat, s: string, token: string, rest: string)
    requires Fits(next, n) && Stable(next, n, token) && next(s).Span? && FitsIn(next(s), n, s)
    ensures
      var p := next(s);
      var close := s[p.close..p.close + n];
      var out := Head(p, s) + token + close + rest;
      && Redacted(next, n, out, token) == Head(p, s) + token + close + Redacted(next, n, rest, token)
      && Contents(next, n, out) == [token] + Contents(next, n, rest)
      && Outline(next, n, out) == Head(p, s) + close + Outline(next, n, rest)
  {
    var p := next(s);
    var close := s[p.close..p.close + n];
    var out := Head(p, s) + token + close + rest;
    assert KeepsSpan(next, n, token, s, rest);
    PartsOfOut(Head(p, s), token, close, rest);
    assert FitsIn(next(out), n, out);
  }

  /** Redacting twice is redacting once; the redacted text has the same outline and, in each
      span, the token. */
  lemma {:induction false} ReadRedacted(next: Finder, n: nat, s: string, token: string)
    requires Fits(next, n) && Stable(next, n, token)
    ensures
      var out := Redacted(next, n, s, token);
      && Redacted(next, n, out, token) == out
      && Contents(next, n, out) == Repeat(token, |Contents(next, n, s)|)
      && Outline(next, n, out) == Outline(next, n, s)
    decreases |s|
  {
    var p := next(s);
    if p.Span? {
      assert FitsIn(p, n, s);
      var tail := s[p.close + n..];
      ReadRedacted(next, n, tail, token);
      StepAfterRedaction(next, n, s, token, Redacted(next, n, tail, token));
      assert |Contents(next, n, s)| == 1 + |Contents(next, n, tail)|;
    }
  }
}
