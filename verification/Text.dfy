/** Characters and substring search, with JavaScript's conventions. */
module Text {

  predicate IsDigit(c: char) {
    '0' <= c <= '9'
  }

  predicate IsLetter(c: char) {
    'a' <= c <= 'z' || 'A' <= c <= 'Z'
  }

  /** The class \w. */
  predicate IsWord(c: char) {
    IsLetter(c) || IsDigit(c) || c == '_'
  }

  /** The class \s, which is also what trim removes. */
  predicate IsSpace(c: char) {
    || '\t' <= c <= '\r'
    || c == ' '
    || c == '\U{00A0}' || c == '\U{1680}'
    || '\U{2000}' <= c <= '\U{200A}'
    || c == '\U{2028}' || c == '\U{2029}' || c == '\U{202F}' || c == '\U{205F}'
    || c == '\U{3000}' || c == '\U{FEFF}'
  }

  /** Nothing but white space. */
  predicate Blank(s: string) {
    forall i :: 0 <= i < |s| ==> IsSpace(s[i])
  }

  ghost predicate TagFree(s: string) {
    forall i :: 0 <= i < |s| ==> s[i] != '<'
  }

  /** A separator that two texts lack splits what stands behind them in one way. */
  lemma {:induction false} SeparatorSplits(c: char, a: string, b: string, x: string, y: string)
    requires c !in a && c !in b && a + [c] + x == b + [c] + y
    ensures a == b && x == y
  {
    var s, t := a + [c] + x, b + [c] + y;
    assert s[|a|] == c && t[|b|] == c;
    assert forall i :: 0 <= i < |a| ==> s[i] == a[i] && a[i] in a;
    assert forall i :: 0 <= i < |b| ==> t[i] == b[i] && b[i] in b;
    assert |a| == |b|;
    assert a == s[..|a|] && b == t[..|b|] && x == s[|a| + 1..] && y == t[|b| + 1..];
  }

  /** toLowerCase on ASCII. */
  function LowerChar(c: char): char {
    if 'A' <= c <= 'Z' then c - 'A' + 'a' else c
  }

  function Lower(s: string): (r: string)
    ensures |r| == |s|
    ensures forall i :: 0 <= i < |s| ==> r[i] == LowerChar(s[i])
  {
    seq(|s|, i requires 0 <= i < |s| => LowerChar(s[i]))
  }

  predicate At(s: string, pat: string, i: nat) {
    i + |pat| <= |s| && forall k :: 0 <= k < |pat| ==> s[i + k] == pat[k]
  }

  /** s.indexOf(pat, from), with -1 for none. */
  function IndexOf(s: string, pat: string, from: nat): (r: int)
    requires from <= |s|
    ensures r == -1 || (from <= r <= |s| - |pat| && At(s, pat, r))
    ensures forall i: nat :: from <= i && (r == -1 || i < r) ==> !At(s, pat, i)
    decreases |s| - from
  {
    if from + |pat| > |s| then -1
    else if At(s, pat, from) then from
    else if from == |s| then -1
    else IndexOf(s, pat, from + 1)
  }

  /** The position of the first occurrence is all that IndexOf can return. */
  lemma IndexOfIs(s: string, pat: string, from: nat, i: nat)
    requires from <= i <= |s| && At(s, pat, i)
    requires forall j: nat :: from <= j < i ==> !At(s, pat, j)
    ensures IndexOf(s, pat, from) == i
  {
  }

  /** An occurrence in a suffix is an occurrence in the text. */
  lemma AtShift(s: string, pat: string, idx: nat, i: nat)
    requires idx <= |s|
    ensures At(s[idx..], pat, i) <==> At(s, pat, idx + i)
  {
    var t := s[idx..];
    if i + |pat| <= |t| {
      if At(s, pat, idx + i) {
        forall k | 0 <= k < |pat| ensures t[i + k] == pat[k] {
          assert s[(idx + i) + k] == pat[k];
        }
      }
      if At(t, pat, i) {
        forall k | 0 <= k < |pat| ensures s[(idx + i) + k] == pat[k] {
          assert t[i + k] == pat[k];
        }
      }
    }
  }

  lemma {:induction false} IndexOfShift(s: string, pat: string, idx: nat, from: nat)
    requires idx <= |s| && from <= |s| - idx
    ensures IndexOf(s, pat, idx + from) == (var r := IndexOf(s[idx..], pat, from); if r == -1 then -1 else r + idx)
    decreases |s| - idx - from
  {
    AtShift(s, pat, idx, from);
    if idx + from + |pat| <= |s| && !At(s, pat, idx + from) && idx + from < |s| {
      IndexOfShift(s, pat, idx, from + 1);
    }
  }

  /** s.indexOf(c, from) for one character, with -1 for none. */
  function CharIndex(s: string, c: char, from: nat): (r: int)
    requires from <= |s|
    ensures r == -1 || (from <= r < |s| && s[r] == c)
    ensures forall i :: from <= i < |s| && (r == -1 || i < r) ==> s[i] != c
    decreases |s| - from
  {
    if from == |s| then -1 else if s[from] == c then from else CharIndex(s, c, from + 1)
  }

  /** Searching a suffix is searching the text from there on. */
  lemma CharIndexShift(s: string, c: char, idx: nat, from: nat)
    requires idx <= |s| && from <= |s| - idx
    ensures CharIndex(s, c, idx + from) == (var r := CharIndex(s[idx..], c, from); if r == -1 then -1 else r + idx)
    decreases |s| - idx - from
  {
    if idx + from < |s| && s[idx + from] != c {
      CharIndexShift(s, c, idx, from + 1);
    }
  }

  lemma CharIndexIs(s: string, c: char, from: nat, i: nat)
    requires from <= i < |s| && s[i] == c
    requires forall j :: from <= j < i ==> s[j] != c
    ensures CharIndex(s, c, from) == i
  {
  }

  function TrimStart(s: string): string {
    if s != "" && IsSpace(s[0]) then TrimStart(s[1..]) else s
  }

  function TrimEnd(s: string): string {
    if s != "" && IsSpace(s[|s| - 1]) then TrimEnd(s[..|s| - 1]) else s
  }

  function Trim(s: string): string {
    TrimEnd(TrimStart(s))
  }

  /** The first and the last character are no white space. */
  predicate SolidEnds(s: string) {
    s != "" && !IsSpace(s[0]) && !IsSpace(s[|s| - 1])
  }

  lemma {:induction false} TrimStartIs(s: string)
    ensures
      var t := TrimStart(s);
      && |t| <= |s| && t == s[|s| - |t|..] && (forall k :: 0 <= k < |s| - |t| ==> IsSpace(s[k]))
      && (t != "" ==> !IsSpace(t[0]))
  {
    if s != "" && IsSpace(s[0]) {
      TrimStartIs(s[1..]);
      assert forall k :: 0 < k < |s| ==> s[k] == s[1..][k - 1];
    }
  }

  lemma {:induction false} TrimEndIs(s: string)
    ensures
      var t := TrimEnd(s);
      && |t| <= |s| && t == s[..|t|] && (forall k :: |t| <= k < |s| ==> IsSpace(s[k]))
      && (t != "" ==> !IsSpace(t[|t| - 1]))
    decreases |s|
  {
    if s != "" && IsSpace(s[|s| - 1]) {
      TrimEndIs(s[..|s| - 1]);
    }
  }

  /** A middle piece of s: the first n characters of what follows the first i. */
  lemma {:induction false} MiddleIs(s: string, i: nat, n: nat)
    requires i + n <= |s|
    ensures s[i..][..n] == s[i..i + n]
    ensures forall k :: i + n <= k < |s| ==> s[k] == s[i..][k - i]
  {
  }

  /** Trimming cuts off white space at both ends, and all of it. */
  lemma {:induction false} TrimIs(s: string) returns (i: nat)
    ensures
      var t := Trim(s);
      && i + |t| <= |s| && t == s[i..i + |t|] && (t == "" || SolidEnds(t))
      && forall k :: 0 <= k < |s| && !(i <= k < i + |t|) ==> IsSpace(s[k])
  {
    TrimStartIs(s);
    var u := TrimStart(s);
    TrimEndIs(u);
    i := |s| - |u|;
    MiddleIs(s, i, |Trim(s)|);
  }

  lemma {:induction false} SolidIffTrimmed(s: string)
    requires s != ""
    ensures Trim(s) == s <==> SolidEnds(s)
  {
    var i := TrimIs(s);
  }

  /** lines.join(sep) */
  function Join(lines: seq<string>, sep: string): string {
    if lines == [] then "" else if |lines| == 1 then lines[0] else lines[0] + sep + Join(lines[1..], sep)
  }
}
