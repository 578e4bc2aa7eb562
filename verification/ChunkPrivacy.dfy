/** Whether the chunks of a text that passed assertNoRawPii would pass it too. */
module ChunkPrivacy {
  import opened Text
  import opened Regex
  import opened SemanticRedaction
  import opened SemanticXml
  import XmlEscape
  import opened Chunking

  /** 17 VIN characters in a row. */
  predicate VinRun(t: string, i: nat) {
    i + 17 <= |t| && forall x :: i <= x < i + 17 ==> IsVinChar(t[x])
  }

  /** The slice t[p..q] begins inside a word, and what it has of it is 17 VIN characters. */
  predicate CutBefore(t: string, p: nat, q: nat)
    requires p <= q <= |t|
  {
    0 < p && p + 17 <= q && IsWord(t[p - 1]) && VinRun(t, p) && (p + 17 == q || !IsWord(t[p + 17]))
  }

  /** It ends inside a word, and what it has of it is 17 VIN characters. */
  predicate CutBehind(t: string, p: nat, q: nat)
    requires p <= q <= |t|
  {
    q < |t| && p + 17 <= q && IsWord(t[q]) && VinRun(t, q - 17) && (p + 17 == q || !IsWord(t[q - 18]))
  }

  predicate CutsVin(t: string, p: nat)
    requires p < |t|
  {
    CutBefore(t, p, End(t, p)) || CutBehind(t, p, End(t, p))
  }

  /** A VIN of a slice, in terms of the whole text. */
  lemma {:induction false} VinOfSlice(t: string, p: nat, q: nat, i: nat)
    requires p <= q <= |t|
    ensures
      VinAt(t[p..q], i) <==>
        && p + i + 17 <= q && VinRun(t, p + i)
        && (i == 0 || !IsWord(t[p + i - 1])) && (p + i + 17 == q || !IsWord(t[p + i + 17]))
  {
    var s := t[p..q];
    if p + i + 17 <= q {
      assert forall x :: i <= x < i + 17 ==> s[x] == t[p + x];
      assert forall x :: p + i <= x < p + i + 17 ==> t[x] == s[x - p];
      assert IsVinChar(s[i]) ==> IsWord(s[i]);
      assert IsVinChar(s[i + 16]) ==> IsWord(s[i + 16]);
    }
  }

  /** A slice of a text without VINs has one exactly when a cut makes it. */
  lemma {:induction false} SliceHasNoVinIff(t: string, p: nat, q: nat)
    requires p <= q <= |t| && NoVin(t)
    ensures NoVin(t[p..q]) <==> !CutBefore(t, p, q) && !CutBehind(t, p, q)
  {
    if CutBefore(t, p, q) {
      VinOfSlice(t, p, q, 0);
    }
    if CutBehind(t, p, q) {
      VinOfSlice(t, p, q, q - 17 - p);
    }
    if !CutBefore(t, p, q) && !CutBehind(t, p, q) {
      forall i: nat ensures !VinAt(t[p..q], i) {
        VinOfSlice(t, p, q, i);
        assert t[0..|t|] == t;
        VinOfSlice(t, 0, |t|, p + i);
        assert !VinAt(t, p + i);
      }
    }
  }

  lemma {:induction false} SliceHasNoMatch(r: Re, t: string, p: nat, q: nat)
    requires p <= q <= |t| && BoundFree(r) && NoMatch(r, t)
    ensures NoMatch(r, t[p..q])
  {
    forall i: nat, j: nat | i <= j <= q - p ensures !Matches(r, t[p..q], i, j) {
      if Matches(r, t[p..q], i, j) {
        MatchOfWindow(r, t, p, q, i, j);
      }
    }
  }

  lemma {:induction false} PassesIff(t: string)
    ensures RawPii(t) == [] <==> NoMatch(Expr(Email), t) && NoMatch(Expr(Phone), t) && NoVin(t)
  {
    FindNone(Expr(Email), t);
    FindNone(Expr(Phone), t);
    FindNone(Expr(Vin), t);
    NoVinIffNoMatch(t);
  }

  /** Emails and phone numbers never come from a cut; VINs do, exactly in these two ways. */
  lemma {:induction false} SlicePassesIff(t: string, p: nat, q: nat)
    requires p <= q <= |t| && RawPii(t) == []
    ensures RawPii(t[p..q]) == [] <==> !CutBefore(t, p, q) && !CutBehind(t, p, q)
  {
    PassesIff(t);
    PassesIff(t[p..q]);
    EmailIsSafe();
    PhoneIsSafe();
    SliceHasNoMatch(Expr(Email), t, p, q);
    SliceHasNoMatch(Expr(Phone), t, p, q);
    SliceHasNoVinIff(t, p, q);
  }

  lemma {:induction false} BlankPasses(s: string)
    requires Blank(s)
    ensures RawPii(s) == []
  {
    PassesIff(s);
    forall i: nat, j: nat | i <= j <= |s| ensures !Matches(Expr(Email), s, i, j) && !Matches(Expr(Phone), s, i, j) {
      if Matches(Expr(Email), s, i, j) {
        EmailHasAt(s, i, j);
      }
      if Matches(Expr(Phone), s, i, j) {
        PhoneEndsInDigit(s, i, j);
      }
    }
  }

  ghost predicate AllPass(pass: string -> bool, slices: seq<string>) {
    forall s :: s in slices ==> pass(s)
  }

  /** Slice m passes unless it is cut badly. */
  ghost predicate Decides(text: string, pass: string -> bool, cut: nat -> bool) {
    && (forall m: nat :: CHUNK_SIZE * m < |text| ==>
          (pass(text[CHUNK_SIZE * m..End(text, CHUNK_SIZE * m)]) <==> !cut(m)))
    && (forall s :: Blank(s) ==> pass(s))
  }

  lemma {:induction false} SlicesPassIff(text: string, k: nat, pass: string -> bool, cut: nat -> bool)
    requires Decides(text, pass, cut)
    ensures AllPass(pass, Slices(text, CHUNK_SIZE * k)) <==>
            forall m: nat :: m >= k && CHUNK_SIZE * m < |text| ==> !cut(m)
    decreases |text| - CHUNK_SIZE * k
  {
    var i := CHUNK_SIZE * k;
    if i < |text| {
      var slice, rest := text[i..End(text, i)], Slices(text, i + CHUNK_SIZE);
      assert i + CHUNK_SIZE == CHUNK_SIZE * (k + 1);
      SlicesPassIff(text, k + 1, pass, cut);
      if Blank(slice) {
        assert Slices(text, i) == rest;
      } else {
        assert Slices(text, i) == [slice] + rest;
        assert slice in Slices(text, i);
      }
      assert forall s :: s in rest ==> s in Slices(text, i);
    }
  }

  function Passes(): string -> bool {
    (s: string) => RawPii(s) == []
  }

  function Cuts(text: string): nat -> bool {
    (m: nat) => CHUNK_SIZE * m < |text| && CutsVin(text, CHUNK_SIZE * m)
  }

  lemma {:induction false} CutsDecide(text: string)
    requires RawPii(text) == []
    ensures Decides(text, Passes(), Cuts(text))
  {
    forall m: nat | CHUNK_SIZE * m < |text|
      ensures Passes()(text[CHUNK_SIZE * m..End(text, CHUNK_SIZE * m)]) <==> !Cuts(text)(m)
    {
      SlicePassesIff(text, CHUNK_SIZE * m, End(text, CHUNK_SIZE * m));
    }
    forall s | Blank(s) ensures Passes()(s) {
      BlankPasses(s);
    }
  }

  /** The chunks of a text that passed the check all pass it too exactly when no cut leaves 17
      VIN characters of a longer word on one side. */
  lemma {:induction false} ChunksPassIff(text: string)
    requires RawPii(text) == []
    ensures
      (forall c :: c in Numbered(Slices(text, 0)) ==> RawPii(c.text) == []) <==>
      forall m: nat :: CHUNK_SIZE * m < |text| ==> !CutsVin(text, CHUNK_SIZE * m)
  {
    CutsDecide(text);
    SlicesPassIff(text, 0, Passes(), Cuts(text));
    ChunkTexts(Slices(text, 0), Passes());
    CutsAre(text);
  }

  lemma {:induction false} ChunkTexts(slices: seq<string>, pass: string -> bool)
    ensures AllPass(pass, slices) <==> forall c :: c in Numbered(slices) ==> pass(c.text)
  {
    forall s | s in slices && !pass(s) ensures exists c :: c in Numbered(slices) && !pass(c.text) {
      var i :| 0 <= i < |slices| && slices[i] == s;
      assert Numbered(slices)[i] in Numbered(slices);
    }
  }

  lemma {:induction false} CutsAre(text: string)
    ensures (forall m: nat :: CHUNK_SIZE * m < |text| ==> !Cuts(text)(m)) <==>
            forall m: nat :: CHUNK_SIZE * m < |text| ==> !CutsVin(text, CHUNK_SIZE * m)
  {
    forall m: nat | CHUNK_SIZE * m < |text| ensures Cuts(text)(m) <==> CutsVin(text, CHUNK_SIZE * m) {
    }
  }

  // -- an entry whose redacted text has a chunk that would not pass --

  /** A full stop, spaces, and 18 letters of which the cut takes the first 17. */
  function LongEntry(): (t: string)
    ensures |t| == 798
    ensures forall i :: 0 <= i < 798 ==> t[i] == if i == 0 then '.' else if i < 780 then ' ' else 'Z'
  {
    seq(798, i => if i == 0 then '.' else if i < 780 then ' ' else 'Z')
  }

  /** What is left of a document with this one entry when its tags are stripped. */
  function LongDocument(): string {
    "\n" + ("  " + LongEntry() + "\n" + "")
  }

  lemma {:induction false} LongDocumentAt(i: nat)
    requires i < 802
    ensures |LongDocument()| == 802
    ensures
      LongDocument()[i] ==
      if i == 0 || i == 801 then '\n' else if i == 3 then '.' else if i < 783 then ' ' else 'Z'
  {
  }

  lemma {:induction false} LongEntryIsRead(path: string, text: string)
    requires (forall i :: 0 <= i < |path| ==> path[i] != '>') && text == LongEntry()
    ensures Stripped(BuildSemanticXml([Entry(path, text)])) == LongDocument()
  {
    var entries := [Entry(path, text)];
    SemanticTextSurvives(entries);
    XmlEscape.ReplacedNone(text, '<', "&lt;");
    XmlEscape.ReplacedNone(text, '>', "&gt;");
    assert entries[1..] == [];
  }

  predicate IsFiller(c: char) {
    c == ' ' || c == '\n' || c == '.' || c == 'Z'
  }

  ghost predicate OfFillers(t: string) {
    forall i :: 0 <= i < |t| ==> IsFiller(t[i])
  }

  ghost predicate NoneStartsWithFiller(words: seq<string>) {
    words != [] && forall n :: 0 <= n < |words| ==> words[n] != "" && 'a' <= words[n][0] < 'z'
  }

  lemma {:induction false} WordsStartOtherwise()
    ensures NoneStartsWithFiller(ROLES) && NoneStartsWithFiller(STREETS)
  {
  }

  lemma {:induction false} FirstLetter(words: seq<string>, t: string, i: nat, m: nat) returns (n: nat)
    requires NoneStartsWithFiller(words) && i <= m <= |t| && Matches(AnyOf(words), t, i, m)
    ensures n < |words| && i < |t| && LowerChar(t[i]) == words[n][0]
  {
    n := AnyOfMatch(words, t, i, m);
    assert LowerChar(t[i + 0]) == words[n][0];
  }

  lemma {:induction false} NoHeadMatches(words: seq<string>, tail: Re, t: string)
    requires NoneStartsWithFiller(words) && OfFillers(t)
    ensures NoMatch(Headed(AnyOf(words), tail), t)
  {
    var r := Headed(AnyOf(words), tail);
    forall i: nat, j: nat | i <= j <= |t| ensures !Matches(r, t, i, j) {
      if Matches(r, t, i, j) {
        var m := HeadSplit(AnyOf(words), tail, t, i, j);
        var n := FirstLetter(words, t, i, m);
      }
    }
  }

  lemma {:induction false} NoEmailOrPhone(t: string)
    requires OfFillers(t)
    ensures NoMatch(Expr(Email), t) && NoMatch(Expr(Phone), t)
  {
    forall i: nat, j: nat | i <= j <= |t| ensures !Matches(Expr(Email), t, i, j) && !Matches(Expr(Phone), t, i, j) {
      if Matches(Expr(Email), t, i, j) {
        EmailHasAt(t, i, j);
      }
      if Matches(Expr(Phone), t, i, j) {
        PhoneEndsInDigit(t, i, j);
      }
    }
  }

  lemma {:induction false} NothingToRedact(t: string)
    requires OfFillers(t) && NoVin(t)
    ensures RedactSemanticText(t) == t && RawPii(t) == []
  {
    PassesIff(t);
    NoVinIffNoMatch(t);
    NoEmailOrPhone(t);
    WordsStartOtherwise();
    NoHeadMatches(ROLES, Cat(NAME, Cat(SECOND_NAME, Bound)), t);
    NoHeadMatches(STREETS, Cat(AtLeast(3, Sym(IsPlace)), Bound), t);
    forall p: Pattern ensures NoMatch(Expr(p), t) {
      match p { case Email => case Phone => case Vin => case Person => case Address => }
    }
    UnchangedIffNothingMatches(t);
  }

  lemma {:induction false} LongDocumentHasNoVin(t: string)
    requires t == LongDocument()
    ensures NoVin(t) && OfFillers(t)
  {
    forall i: nat | i < 802 ensures IsFiller(LongDocument()[i]) {
      LongDocumentAt(i);
    }
    forall i: nat ensures !VinAt(t, i) {
      if VinAt(t, i) {
        assert IsVinChar(t[i]) && IsVinChar(t[i + 16]);
        LongDocumentAt(i);
        LongDocumentAt(i + 16);
        LongDocumentAt(i - 1);
        LongDocumentAt(i + 17);
      }
    }
  }

  lemma {:induction false} LongDocumentIsCut(t: string)
    requires t == LongDocument()
    ensures 0 < |t| && CutsVin(t, 0)
  {
    LongDocumentAt(0);
    LongDocumentAt(782);
    LongDocumentAt(800);
    forall x | 783 <= x < 800 ensures IsVinChar(t[x]) {
      LongDocumentAt(x);
    }
    assert End(t, 0) == 800;
    assert CutBehind(t, 0, 800);
  }

  /** One entry with this text, under any path, goes through the printer, the stripper and the
      redaction unchanged and passes the check, but its first chunk ends in what reads as a VIN. */
  lemma {:induction false} CutCanMakeVin(path: string)
    requires forall i :: 0 <= i < |path| ==> path[i] != '>'
    ensures
      var t := RedactSemanticText(Stripped(BuildSemanticXml([Entry(path, LongEntry())])));
      && RawPii(t) == []
      && exists c :: c in Numbered(Slices(t, 0)) && RawPii(c.text) != []
  {
    var t := LongDocument();
    LongEntryIsRead(path, LongEntry());
    LongDocumentHasNoVin(t);
    NothingToRedact(t);
    LongDocumentIsCut(t);
    assert CHUNK_SIZE * 0 == 0;
    ChunksPassIff(t);
  }
}
