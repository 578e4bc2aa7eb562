/** What redaction finds and what it writes, in terms of the characters of the text. */
module RedactionShapes {
  import opened Text
  import opened Regex
  import opened SemanticRedaction

  // -- runs of one class --

  /** Every character of t[i..j] is of the class. */
  predicate Run(p: char -> bool, t: string, i: nat, j: nat) {
    i <= j <= |t| && forall k :: i <= k < j ==> p(t[k])
  }

  lemma {:induction false} StarOfClass(p: char -> bool, t: string, i: nat, j: nat)
    requires i <= j <= |t|
    ensures Matches(Star(Sym(p)), t, i, j) <==> Run(p, t, i, j)
    decreases j - i
  {
    if i < j {
      if Matches(Star(Sym(p)), t, i, j) {
        var e := StarSplit(Sym(p), t, i, j);
        StarOfClass(p, t, e, j);
      }
      if Run(p, t, i, j) {
        StarOfClass(p, t, i + 1, j);
        StarJoin(Sym(p), t, i, i + 1, j);
      }
    }
  }

  lemma {:induction false} AtLeastOfClass(n: nat, p: char -> bool, t: string, i: nat, j: nat)
    requires i <= j <= |t|
    ensures Matches(AtLeast(n, Sym(p)), t, i, j) <==> i + n <= j && Run(p, t, i, j)
  {
    if Matches(AtLeast(n, Sym(p)), t, i, j) {
      var e := CatSplit(Times(n, Sym(p)), Star(Sym(p)), t, i, j);
      TimesOfClass(n, p, t, i, e);
      StarOfClass(p, t, e, j);
    }
    if i + n <= j && Run(p, t, i, j) {
      TimesOfClass(n, p, t, i, i + n);
      StarOfClass(p, t, i + n, j);
      CatJoin(Times(n, Sym(p)), Star(Sym(p)), t, i, i + n, j);
    }
  }

  lemma {:induction false} PlusOfClass(p: char -> bool, t: string, i: nat, j: nat)
    requires i <= j <= |t|
    ensures Matches(Plus(Sym(p)), t, i, j) <==> i < j && Run(p, t, i, j)
  {
    if Matches(Plus(Sym(p)), t, i, j) {
      var e := CatSplit(Sym(p), Star(Sym(p)), t, i, j);
      StarOfClass(p, t, e, j);
    }
    if i < j && Run(p, t, i, j) {
      StarOfClass(p, t, i + 1, j);
      CatJoin(Sym(p), Star(Sym(p)), t, i, i + 1, j);
    }
  }

  /** How far the class goes on. */
  function RunEnd(p: char -> bool, t: string, i: nat): (e: nat)
    requires i <= |t|
    ensures i <= e <= |t| && Run(p, t, i, e) && (e < |t| ==> !p(t[e]))
    decreases |t| - i
  {
    if i < |t| && p(t[i]) then RunEnd(p, t, i + 1) else i
  }

  /** k, k - 1, .., i */
  function Down(k: nat, i: nat): seq<nat>
    decreases k
  {
    if k <= i then [i] else [k] + Down(k - 1, i)
  }

  lemma {:induction false} DownSnoc(k: nat, i: nat)
    requires i < k
    ensures Down(k, i) == Down(k, i + 1) + [i]
  {
    if k > i + 1 {
      DownSnoc(k - 1, i);
      assert [k] + (Down(k - 1, i + 1) + [i]) == ([k] + Down(k - 1, i + 1)) + [i];
    }
  }

  /** A repeated class is greedy: the engine tries the longest run first and gives up one
      character at a time. */
  lemma {:induction false} ClassIsGreedy(p: char -> bool, t: string, i: nat)
    requires i <= |t|
    ensures Ends(Star(Sym(p)), t, i) == Down(RunEnd(p, t, i), i)
    decreases |t| - i
  {
    if i < |t| && p(t[i]) {
      ClassIsGreedy(p, t, i + 1);
      DownSnoc(RunEnd(p, t, i), i);
      assert Ends(Sym(p), t, i) == [i + 1];
      OneAfter(i);
      ThenOne(Star(Sym(p)), t, i + 1);
    } else {
      assert Ends(Sym(p), t, i) == [];
      assert [] + [i] == [i];
    }
  }

  lemma OneAfter(i: nat)
    ensures After([i + 1], i) == [i + 1]
  {
    assert [i + 1][1..] == [];
  }

  lemma ThenOne(r: Re, t: string, i: nat)
    requires i <= |t|
    ensures Then([i], r, t, i) == Ends(r, t, i)
  {
    assert [i][1..] == [];
    assert Ends(r, t, i) + [] == Ends(r, t, i);
  }

  // -- the five shapes --

  /** Local part up to a, domain up to b, top-level domain up to j. */
  predicate EmailParts(t: string, i: nat, a: nat, b: nat, j: nat) {
    && i < a && a + 1 < b && b + 3 <= j <= |t| && t[a] == '@' && t[b] == '.'
    && Run(IsLocal, t, i, a) && Run(IsDomain, t, a + 1, b) && Run(IsLetter, t, b + 1, j)
  }

  ghost predicate IsEmail(t: string, i: nat, j: nat) {
    exists a: nat, b: nat :: EmailParts(t, i, a, b, j)
  }

  /** A plus sign or nothing, and then at least ten characters from a digit to a digit, with
      digits, white space, parentheses, dots and dashes between. */
  predicate PhoneFrom(t: string, s: nat, j: nat) {
    s + 10 <= j <= |t| && IsDigit(t[s]) && Run(IsPhoneFill, t, s + 1, j - 1) && IsDigit(t[j - 1])
  }

  predicate IsPhone(t: string, i: nat, j: nat) {
    PhoneFrom(t, i, j) || (i < |t| && t[i] == '+' && PhoneFrom(t, i + 1, j))
  }

  lemma {:induction false} SymCatIff(a: Re, b: Re, t: string, i: nat, j: nat)
    requires i <= j <= |t| && a.Sym?
    ensures Matches(Cat(a, b), t, i, j) <==> i < j && a.p(t[i]) && Matches(b, t, i + 1, j)
  {
    if Matches(Cat(a, b), t, i, j) {
      var e := CatSplit(a, b, t, i, j);
    }
    if i < j && a.p(t[i]) && Matches(b, t, i + 1, j) {
      CatJoin(a, b, t, i, i + 1, j);
    }
  }

  lemma {:induction false} PlusCatSplit(p: char -> bool, b: Re, t: string, i: nat, j: nat) returns (e: nat)
    requires i <= j <= |t| && Matches(Cat(Plus(Sym(p)), b), t, i, j)
    ensures i < e <= j && Run(p, t, i, e) && Matches(b, t, e, j)
  {
    e := CatSplit(Plus(Sym(p)), b, t, i, j);
    PlusOfClass(p, t, i, e);
  }

  lemma {:induction false} PlusCatJoin(p: char -> bool, b: Re, t: string, i: nat, e: nat, j: nat)
    requires i < e <= j <= |t| && Run(p, t, i, e) && Matches(b, t, e, j)
    ensures Matches(Cat(Plus(Sym(p)), b), t, i, j)
  {
    PlusOfClass(p, t, i, e);
    CatJoin(Plus(Sym(p)), b, t, i, e, j);
  }

  predicate TopFrom(t: string, b: nat, j: nat) {
    b + 3 <= j <= |t| && t[b] == '.' && Run(IsLetter, t, b + 1, j)
  }

  lemma {:induction false} TopIff(dot: Re, t: string, b: nat, j: nat)
    requires b <= j <= |t| && dot.Sym? && forall c :: dot.p(c) <==> c == '.'
    ensures Matches(Cat(dot, AtLeast(2, Sym(IsLetter))), t, b, j) <==> TopFrom(t, b, j)
  {
    SymCatIff(dot, AtLeast(2, Sym(IsLetter)), t, b, j);
    if b < j {
      AtLeastOfClass(2, IsLetter, t, b + 1, j);
    }
  }

  lemma {:induction false} EmailIsShaped(at: Re, dot: Re, t: string, i: nat, j: nat)
    requires i <= j <= |t| && at.Sym? && dot.Sym?
    requires (forall c :: at.p(c) <==> c == '@') && forall c :: dot.p(c) <==> c == '.'
    requires
      Matches(Cat(Plus(Sym(IsLocal)), Cat(at, Cat(Plus(Sym(IsDomain)), Cat(dot, AtLeast(2, Sym(IsLetter)))))), t, i, j)
    ensures IsEmail(t, i, j)
  {
    var top := Cat(dot, AtLeast(2, Sym(IsLetter)));
    var domain := Cat(Plus(Sym(IsDomain)), top);
    var a := PlusCatSplit(IsLocal, Cat(at, domain), t, i, j);
    SymCatIff(at, domain, t, a, j);
    var b := PlusCatSplit(IsDomain, top, t, a + 1, j);
    TopIff(dot, t, b, j);
    assert EmailParts(t, i, a, b, j);
  }

  lemma {:induction false} ShapedIsEmail(at: Re, dot: Re, t: string, i: nat, j: nat)
    requires i <= j <= |t| && at.Sym? && dot.Sym? && IsEmail(t, i, j)
    requires (forall c :: at.p(c) <==> c == '@') && forall c :: dot.p(c) <==> c == '.'
    ensures
      Matches(Cat(Plus(Sym(IsLocal)), Cat(at, Cat(Plus(Sym(IsDomain)), Cat(dot, AtLeast(2, Sym(IsLetter)))))), t, i, j)
  {
    var top := Cat(dot, AtLeast(2, Sym(IsLetter)));
    var domain := Cat(Plus(Sym(IsDomain)), top);
    var a: nat, b: nat :| EmailParts(t, i, a, b, j);
    TopIff(dot, t, b, j);
    PlusCatJoin(IsDomain, top, t, a + 1, b, j);
    SymCatIff(at, domain, t, a, j);
    PlusCatJoin(IsLocal, Cat(at, domain), t, i, a, j);
  }

  lemma {:induction false} EmailIff(t: string, i: nat, j: nat)
    requires i <= j <= |t|
    ensures Matches(Expr(Email), t, i, j) <==> IsEmail(t, i, j)
  {
    var at, dot := Sym(c => c == '@'), Sym(c => c == '.');
    if Matches(Expr(Email), t, i, j) {
      EmailIsShaped(at, dot, t, i, j);
    }
    if IsEmail(t, i, j) {
      ShapedIsEmail(at, dot, t, i, j);
    }
  }

  lemma {:induction false} PhoneBodyIff(fill: Re, t: string, s: nat, j: nat)
    requires s <= j <= |t| && fill == AtLeast(8, Sym(IsPhoneFill))
    ensures Matches(Cat(Sym(IsDigit), Cat(fill, Sym(IsDigit))), t, s, j) <==> PhoneFrom(t, s, j)
  {
    var digit := Sym(IsDigit);
    if Matches(Cat(digit, Cat(fill, digit)), t, s, j) {
      var e := CatSplit(digit, Cat(fill, digit), t, s, j);
      var f := CatSplit(fill, digit, t, e, j);
      AtLeastOfClass(8, IsPhoneFill, t, e, f);
    }
    if PhoneFrom(t, s, j) {
      AtLeastOfClass(8, IsPhoneFill, t, s + 1, j - 1);
      CatJoin(fill, digit, t, s + 1, j - 1, j);
      CatJoin(digit, Cat(fill, digit), t, s, s + 1, j);
    }
  }

  lemma OptIff(a: Re, t: string, i: nat, j: nat)
    requires i <= j <= |t|
    ensures Matches(Opt(a), t, i, j) <==> Matches(a, t, i, j) || i == j
  {
    assert Matches(Opt(a), t, i, j) <==> Matches(a, t, i, j) || Matches(Re.Empty, t, i, j);
  }

  lemma {:induction false} OptCatIff(a: Re, b: Re, t: string, i: nat, j: nat)
    requires i <= j <= |t| && a.Sym?
    ensures
      Matches(Cat(Opt(a), b), t, i, j) <==>
      Matches(b, t, i, j) || (i < j && a.p(t[i]) && Matches(b, t, i + 1, j))
  {
    if Matches(Cat(Opt(a), b), t, i, j) {
      var e := CatSplit(Opt(a), b, t, i, j);
      OptIff(a, t, i, e);
    }
    OptIff(a, t, i, i);
    if i < j {
      OptIff(a, t, i, i + 1);
    }
    if Matches(b, t, i, j) {
      CatJoin(Opt(a), b, t, i, i, j);
    }
    if i < j && a.p(t[i]) && Matches(b, t, i + 1, j) {
      CatJoin(Opt(a), b, t, i, i + 1, j);
    }
  }

  lemma {:induction false} PhoneIff(t: string, i: nat, j: nat)
    requires i <= j <= |t|
    ensures Matches(Expr(Phone), t, i, j) <==> IsPhone(t, i, j)
  {
    var fill := AtLeast(8, Sym(IsPhoneFill));
    OptCatIff(Sym(c => c == '+'), Cat(Sym(IsDigit), Cat(fill, Sym(IsDigit))), t, i, j);
    PhoneBodyIff(fill, t, i, j);
    if i < j {
      PhoneBodyIff(fill, t, i + 1, j);
    }
  }

  /** One of the words stands here, in any case. */
  predicate WordAt(words: seq<string>, t: string, i: nat, m: nat) {
    m <= |t| && exists n :: 0 <= n < |words| && IsWordAt(words[n], t, i, m)
  }

  predicate IsWordAt(w: string, t: string, i: nat, m: nat)
    requires m <= |t|
  {
    m == i + |w| && forall x :: 0 <= x < |w| ==> LowerChar(t[i + x]) == w[x]
  }

  lemma {:induction false} LitIff(w: string, t: string, i: nat, m: nat)
    requires i <= m <= |t|
    ensures Matches(Lit(w), t, i, m) <==> IsWordAt(w, t, i, m)
    decreases |w|
  {
    if Matches(Lit(w), t, i, m) {
      LitMatch(w, t, i, m);
    }
    if IsWordAt(w, t, i, m) && w != "" {
      var c := w[0];
      assert LowerChar(t[i + 0]) == w[0];
      forall x | 0 <= x < |w[1..]| ensures LowerChar(t[i + 1 + x]) == w[1..][x] {
        assert LowerChar(t[i + (x + 1)]) == w[x + 1];
      }
      LitIff(w[1..], t, i + 1, m);
      CatJoin(Sym(x => LowerChar(x) == c), Lit(w[1..]), t, i, i + 1, m);
    }
  }

  lemma {:induction false} AnyOfIff(words: seq<string>, t: string, i: nat, m: nat)
    requires words != [] && i <= m <= |t|
    ensures Matches(AnyOf(words), t, i, m) <==> WordAt(words, t, i, m)
    decreases |words|
  {
    LitIff(words[0], t, i, m);
    if |words| > 1 {
      AnyOfIff(words[1..], t, i, m);
      WordAtCons(words, t, i, m);
    } else if WordAt(words, t, i, m) {
      var n :| 0 <= n < |words| && IsWordAt(words[n], t, i, m);
    }
  }

  lemma WordAtCons(words: seq<string>, t: string, i: nat, m: nat)
    requires words != [] && m <= |t|
    ensures WordAt(words, t, i, m) <==> IsWordAt(words[0], t, i, m) || WordAt(words[1..], t, i, m)
  {
    if WordAt(words, t, i, m) {
      var n :| 0 <= n < |words| && IsWordAt(words[n], t, i, m);
      assert n > 0 ==> words[1..][n - 1] == words[n];
    }
    if WordAt(words[1..], t, i, m) {
      var n :| 0 <= n < |words[1..]| && IsWordAt(words[1..][n], t, i, m);
      assert words[n + 1] == words[1..][n];
    }
  }

  /** A word boundary, one of the words up to m and white space up to n. */
  predicate HeadParts(words: seq<string>, t: string, i: nat, m: nat, n: nat) {
    i <= m < n <= |t| && IsBound(t, i) && WordAt(words, t, i, m) && Run(IsSpace, t, m, n)
  }

  ghost predicate IsHeaded(words: seq<string>, tail: Re, t: string, i: nat, j: nat)
    requires j <= |t|
  {
    exists m: nat, n: nat :: n <= j && HeadParts(words, t, i, m, n) && Matches(tail, t, n, j)
  }

  lemma {:induction false} HeadedIff(words: seq<string>, tail: Re, t: string, i: nat, j: nat)
    requires words != [] && i <= j <= |t|
    ensures Matches(Headed(AnyOf(words), tail), t, i, j) <==> IsHeaded(words, tail, t, i, j)
  {
    var head, rest := AnyOf(words), Cat(SPACES, tail);
    if Matches(Headed(head, tail), t, i, j) {
      var e := CatSplit(Bound, Cat(head, rest), t, i, j);
      var m := CatSplit(head, rest, t, e, j);
      var n := CatSplit(SPACES, tail, t, m, j);
      AnyOfIff(words, t, i, m);
      PlusOfClass(IsSpace, t, m, n);
      assert HeadParts(words, t, i, m, n);
    }
    if IsHeaded(words, tail, t, i, j) {
      var m: nat, n: nat :| n <= j && HeadParts(words, t, i, m, n) && Matches(tail, t, n, j);
      AnyOfIff(words, t, i, m);
      PlusOfClass(IsSpace, t, m, n);
      CatJoin(SPACES, tail, t, m, n, j);
      CatJoin(head, rest, t, i, m, j);
      CatJoin(Bound, Cat(head, rest), t, i, i, j);
    }
  }

  /** Two or more characters of names. */
  predicate IsNamePart(t: string, i: nat, j: nat) {
    i + 2 <= j && Run(IsName, t, i, j)
  }

  /** One name, or two with white space between, up to a word boundary. */
  ghost predicate NamesAt(t: string, n: nat, j: nat) {
    && j <= |t| && IsBound(t, j)
    && (IsNamePart(t, n, j) ||
        exists o: nat, q: nat :: o < q && IsNamePart(t, n, o) && Run(IsSpace, t, o, q) && IsNamePart(t, q, j))
  }

  lemma {:induction false} SecondNameIff(t: string, o: nat, j: nat)
    requires o <= j <= |t|
    ensures
      Matches(SECOND_NAME, t, o, j) <==>
      o == j || exists q: nat :: o < q && Run(IsSpace, t, o, q) && IsNamePart(t, q, j)
  {
    if Matches(Cat(SPACES, NAME), t, o, j) {
      var q := CatSplit(SPACES, NAME, t, o, j);
      PlusOfClass(IsSpace, t, o, q);
      AtLeastOfClass(2, IsName, t, q, j);
    }
    if q: nat :| o < q && Run(IsSpace, t, o, q) && IsNamePart(t, q, j) {
      PlusOfClass(IsSpace, t, o, q);
      AtLeastOfClass(2, IsName, t, q, j);
      CatJoin(SPACES, NAME, t, o, q, j);
    }
  }

  lemma {:induction false} NamesIff(t: string, n: nat, j: nat)
    requires n <= j <= |t|
    ensures Matches(Cat(NAME, Cat(SECOND_NAME, Bound)), t, n, j) <==> NamesAt(t, n, j)
  {
    if Matches(Cat(NAME, Cat(SECOND_NAME, Bound)), t, n, j) {
      var o := CatSplit(NAME, Cat(SECOND_NAME, Bound), t, n, j);
      var e := CatSplit(SECOND_NAME, Bound, t, o, j);
      AtLeastOfClass(2, IsName, t, n, o);
      SecondNameIff(t, o, j);
    }
    if NamesAt(t, n, j) {
      var o := NamesSplit(t, n, j);
      AtLeastOfClass(2, IsName, t, n, o);
      CatJoin(SECOND_NAME, Bound, t, o, j, j);
      CatJoin(NAME, Cat(SECOND_NAME, Bound), t, n, o, j);
    }
  }

  lemma {:induction false} NamesSplit(t: string, n: nat, j: nat) returns (o: nat)
    requires n <= j <= |t| && NamesAt(t, n, j)
    ensures n <= o <= j && IsNamePart(t, n, o) && Matches(SECOND_NAME, t, o, j)
  {
    if IsNamePart(t, n, j) {
      o := j;
    } else {
      var o': nat, q: nat :| o' < q && IsNamePart(t, n, o') && Run(IsSpace, t, o', q) && IsNamePart(t, q, j);
      o := o';
    }
    SecondNameIff(t, o, j);
  }

  /** A role, white space and one or two names between word boundaries. */
  ghost predicate IsPerson(words: seq<string>, t: string, i: nat, j: nat) {
    exists m: nat, n: nat :: n <= j && HeadParts(words, t, i, m, n) && NamesAt(t, n, j)
  }

  /** A street word, white space and three or more characters of places between boundaries. */
  ghost predicate IsAddress(words: seq<string>, t: string, i: nat, j: nat) {
    && j <= |t| && IsBound(t, j)
    && exists m: nat, n: nat :: n + 3 <= j && HeadParts(words, t, i, m, n) && Run(IsPlace, t, n, j)
  }

  lemma {:induction false} PersonIff(words: seq<string>, t: string, i: nat, j: nat)
    requires words != [] && i <= j <= |t|
    ensures
      Matches(Headed(AnyOf(words), Cat(NAME, Cat(SECOND_NAME, Bound))), t, i, j) <==> IsPerson(words, t, i, j)
  {
    var tail := Cat(NAME, Cat(SECOND_NAME, Bound));
    HeadedIff(words, tail, t, i, j);
    forall n: nat | n <= j ensures Matches(tail, t, n, j) <==> NamesAt(t, n, j) {
      NamesIff(t, n, j);
    }
  }

  lemma {:induction false} AddressIff(words: seq<string>, t: string, i: nat, j: nat)
    requires words != [] && i <= j <= |t|
    ensures
      Matches(Headed(AnyOf(words), Cat(AtLeast(3, Sym(IsPlace)), Bound)), t, i, j) <==> IsAddress(words, t, i, j)
  {
    var body := AtLeast(3, Sym(IsPlace));
    HeadedIff(words, Cat(body, Bound), t, i, j);
    forall n: nat | n <= j
      ensures Matches(Cat(body, Bound), t, n, j) <==> n + 3 <= j && Run(IsPlace, t, n, j) && IsBound(t, j)
    {
      AtLeastOfClass(3, IsPlace, t, n, j);
      if Matches(Cat(body, Bound), t, n, j) {
        var e := CatSplit(body, Bound, t, n, j);
      }
      if n + 3 <= j && Run(IsPlace, t, n, j) && IsBound(t, j) {
        CatJoin(body, Bound, t, n, j, j);
      }
    }
  }

  /** What each of the patterns stands for. */
  ghost predicate Shape(p: Pattern, t: string, i: nat, j: nat)
    requires i <= j <= |t|
  {
    match p
    case Email => IsEmail(t, i, j)
    case Phone => IsPhone(t, i, j)
    case Vin => j == i + 17 && VinAt(t, i)
    case Person => IsPerson(["customer", "advisor", "technician", "owner", "driver"], t, i, j)
    case Address =>
      IsAddress(["address", "street", "st.", "avenue", "ave.", "road", "rd.", "boulevard", "blvd.", "lane", "ln.",
                 "drive", "dr.", "court", "ct."], t, i, j)
  }

  lemma {:induction false} ShapeIff(p: Pattern, t: string, i: nat, j: nat)
    requires i <= j <= |t|
    ensures Matches(Expr(p), t, i, j) <==> Shape(p, t, i, j)
  {
    match p
    case Email => EmailIff(t, i, j);
    case Phone => PhoneIff(t, i, j);
    case Vin => VinMatch(t, i, j);
    case Person => PersonIff(ROLES, t, i, j);
    case Address => AddressIff(STREETS, t, i, j);
  }

  /** No email, phone number or VIN is left anywhere in the redacted text. */
  lemma {:induction false} NothingIsLeft(text: string, i: nat, j: nat)
    requires i <= j <= |RedactSemanticText(text)|
    ensures
      var r := RedactSemanticText(text);
      !IsEmail(r, i, j) && !IsPhone(r, i, j) && !VinAt(r, i)
  {
    var r := RedactSemanticText(text);
    RedactedTextPassesCheck(text);
    FindNone(Expr(Email), r);
    FindNone(Expr(Phone), r);
    FindNone(Expr(Vin), r);
    NoVinIffNoMatch(r);
    EmailIff(r, i, j);
    PhoneIff(r, i, j);
  }

  // -- what a replacement does --

  /** A replaced match, the text in front of it and the role that stays in front of its token. */
  datatype Piece = Piece(gap: string, role: string, hit: string)

  function Original(pieces: seq<Piece>, tail: string): string {
    if pieces == [] then tail else pieces[0].gap + (pieces[0].hit + Original(pieces[1..], tail))
  }

  /** Every match gone, and the token, behind its lead, in its place. */
  function Redone(lead: string -> string, token: string, pieces: seq<Piece>, tail: string): string {
    if pieces == [] then tail
    else pieces[0].gap + (lead(pieces[0].role) + (token + Redone(lead, token, pieces[1..], tail)))
  }

  /** Where the pattern holds in a text, and where a role stands. */
  type Place = (nat, nat) -> bool

  /** From a position on the text is cut at its matches: each is the leftmost there is, and its
      role stands at its front. */
  ghost predicate CutBy(shape: Place, role: Place, t: string, from: nat, pieces: seq<Piece>, tail: string)
    decreases |pieces|
  {
    from <= |t| &&
    if pieces == [] then t[from..] == tail && forall i, j :: from <= i <= j <= |t| ==> !shape(i, j)
    else
      var i, j := from + |pieces[0].gap|, from + |pieces[0].gap| + |pieces[0].hit|;
      && i < j <= |t| && t[from..i] == pieces[0].gap && t[i..j] == pieces[0].hit && shape(i, j)
      && (forall a, b :: from <= a < i && a <= b <= |t| ==> !shape(a, b))
      && pieces[0].role <= pieces[0].hit && role(i, i + |pieces[0].role|)
      && CutBy(shape, role, t, j, pieces[1..], tail)
  }

  /** How a rule reads the text. */
  ghost predicate Reads(rule: Rule, lead: string -> string, shape: Place, role: Place, t: string) {
    && MinLength(rule.re) >= 1
    && (forall i, j :: 0 <= i <= j <= |t| ==> (shape(i, j) <==> Matches(rule.re, t, i, j)))
    && (forall i, j :: 0 <= i <= j <= |t| && Matches(rule.re, t, i, j) ==>
          RoleLength(rule, t, i) <= j - i && role(i, i + RoleLength(rule, t, i)))
    && forall i :: 0 <= i <= |t| ==> Front(rule, t, i) == lead(t[i..i + RoleLength(rule, t, i)])
  }

  function RoleLength(rule: Rule, t: string, i: nat): (n: nat)
    requires i <= |t|
    ensures i + n <= |t|
  {
    if rule.keepsRole then RoleEnd(rule.role, t, i) - i else 0
  }

  lemma Regrouped(gap: string, front: string, word: string, rest: string)
    ensures gap + (front + "<" + word + ">") + rest == gap + (front + (("<" + word + ">") + rest))
  {
  }

  /** Regrouping the text from a position on by a piece and what follows it. */
  lemma {:induction false} PieceSplits(t: string, from: nat, i: nat, n: nat, j: nat)
    requires from <= i <= j <= |t| && i + n <= j
    ensures t[from..] == t[from..i] + (t[i..j] + t[j..]) && t[i..j][..n] == t[i..i + n]
    ensures |t[from..i]| == i - from && |t[i..j]| == j - i && |t[i..i + n]| == n
  {
  }

  lemma {:induction false} CutCons(shape: Place, role: Place, t: string, from: nat, i: nat, n: nat, j: nat,
                                   rest: seq<Piece>, tail: string)
    requires from <= i < j <= |t| && i + n <= j && shape(i, j) && role(i, i + n)
    requires forall a, b :: from <= a < i && a <= b <= |t| ==> !shape(a, b)
    requires CutBy(shape, role, t, j, rest, tail) && Original(rest, tail) == t[j..]
    ensures
      var pieces := [Piece(t[from..i], t[i..i + n], t[i..j])] + rest;
      CutBy(shape, role, t, from, pieces, tail) && Original(pieces, tail) == t[from..]
  {
    var piece := Piece(t[from..i], t[i..i + n], t[i..j]);
    var pieces := [piece] + rest;
    assert pieces[1..] == rest && pieces[0] == piece;
    PieceSplits(t, from, i, n, j);
  }

  lemma {:induction false} RedoneCons(
    lead: string -> string, token: string, piece: Piece, rest: seq<Piece>, tail: string)
    ensures
      Redone(lead, token, [piece] + rest, tail) ==
      piece.gap + (lead(piece.role) + (token + Redone(lead, token, rest, tail)))
  {
    assert ([piece] + rest)[1..] == rest;
  }

  lemma {:induction false} ReplaceOnce(rule: Rule, t: string, from: nat)
    requires from <= |t| && MinLength(rule.re) >= 1 && Find(rule.re, t, from).Found?
    ensures
      var f := Find(rule.re, t, from);
      ReplaceFrom(rule, t, from) ==
      t[from..f.start] + (Front(rule, t, f.start) + (("<" + rule.word + ">") + ReplaceFrom(rule, t, f.end)))
  {
    var f := Find(rule.re, t, from);
    Regrouped(t[from..f.start], Front(rule, t, f.start), rule.word, ReplaceFrom(rule, t, f.end));
  }

  lemma {:induction false} FoundIs(rule: Rule, lead: string -> string, shape: Place, role: Place, t: string, from: nat)
    requires Reads(rule, lead, shape, role, t) && from <= |t|
    ensures
      var f := Find(rule.re, t, from);
      if f == NotFound then forall a, b :: from <= a <= b <= |t| ==> !shape(a, b)
      else
        && from <= f.start < f.end <= |t| && shape(f.start, f.end)
        && f.start + RoleLength(rule, t, f.start) <= f.end
        && role(f.start, f.start + RoleLength(rule, t, f.start))
        && forall a, b :: from <= a < f.start && a <= b <= |t| ==> !shape(a, b)
  {
    NothingBeforeFound(rule.re, t, from);
    if Find(rule.re, t, from).Found? {
      FindAdvances(rule.re, t, from);
    }
  }

  /** A replacement cuts the text at the matches and puts tokens in their places. */
  lemma {:induction false} ReplaceCuts(rule: Rule, lead: string -> string, shape: Place, role: Place, t: string,
                                       from: nat) returns (pieces: seq<Piece>, tail: string)
    requires Reads(rule, lead, shape, role, t) && from <= |t|
    ensures CutBy(shape, role, t, from, pieces, tail) && Original(pieces, tail) == t[from..]
    ensures ReplaceFrom(rule, t, from) == Redone(lead, "<" + rule.word + ">", pieces, tail)
    decreases |t| - from
  {
    var f := Find(rule.re, t, from);
    FoundIs(rule, lead, shape, role, t, from);
    if f == NotFound {
      pieces, tail := [], t[from..];
    } else {
      var n := RoleLength(rule, t, f.start);
      var rest, end := ReplaceCuts(rule, lead, shape, role, t, f.end);
      CutCons(shape, role, t, from, f.start, n, f.end, rest, end);
      var piece := Piece(t[from..f.start], t[f.start..f.start + n], t[f.start..f.end]);
      RedoneCons(lead, "<" + rule.word + ">", piece, rest, end);
      ReplaceOnce(rule, t, from);
      pieces, tail := [piece] + rest, end;
    }
  }

  /** The token of each pattern. */
  function Token(p: Pattern): string {
    match p
    case Email => "<EMAIL>"
    case Phone => "<PHONE>"
    case Vin => "<VIN>"
    case Person => "<PERSON>"
    case Address => "<ADDRESS>"
  }

  /** A role stays in front of the token for a person, with a space; nothing does otherwise. */
  function Lead(p: Pattern): string -> string {
    (role: string) => if p == Person then role + " " else ""
  }

  ghost function ShapeIn(p: Pattern, t: string): Place {
    (i: nat, j: nat) => i <= j <= |t| && Shape(p, t, i, j)
  }

  /** For a person the role stands here, and nothing otherwise. */
  ghost function RoleIn(p: Pattern, t: string): Place {
    (i: nat, m: nat) =>
      if p == Person then WordAt(["customer", "advisor", "technician", "owner", "driver"], t, i, m) else m == i
  }

  lemma {:induction false} TokenIs(p: Pattern, word: string)
    requires word == Word(p)
    ensures "<" + word + ">" == Token(p)
  {
  }

  lemma {:induction false} RoleStands(words: seq<string>, tail: Re, t: string, i: nat, j: nat)
    requires Roles(words) && i <= j <= |t| && Matches(Headed(AnyOf(words), tail), t, i, j)
    ensures RoleEnd(AnyOf(words), t, i) <= j && WordAt(words, t, i, RoleEnd(AnyOf(words), t, i))
  {
    var m := HeadSplit(AnyOf(words), tail, t, i, j);
    EndsAreMatches(AnyOf(words), t, i, m);
    var first := RoleEnd(AnyOf(words), t, i);
    EndsAreMatches(AnyOf(words), t, i, first);
    RoleIsUnique(words, t, i, m, first);
    AnyOfIff(words, t, i, m);
  }

  /** The role of a person stands in front; the other patterns have none. */
  ghost predicate RolesStand(p: Pattern, re: Re, role: Re, t: string) {
    if p != Person then forall i :: RoleIn(p, t)(i, i)
    else
      forall i, j :: 0 <= i <= j <= |t| && Matches(re, t, i, j) ==>
                       RoleEnd(role, t, i) <= j && RoleIn(p, t)(i, RoleEnd(role, t, i))
  }

  lemma {:induction false} PersonRolesStand(words: seq<string>, tail: Re, t: string)
    requires Roles(words) && words == ["customer", "advisor", "technician", "owner", "driver"]
    ensures RolesStand(Person, Headed(AnyOf(words), tail), AnyOf(words), t)
  {
    forall i, j | 0 <= i <= j <= |t| && Matches(Headed(AnyOf(words), tail), t, i, j)
      ensures RoleEnd(AnyOf(words), t, i) <= j && RoleIn(Person, t)(i, RoleEnd(AnyOf(words), t, i))
    {
      RoleStands(words, tail, t, i, j);
    }
  }

  lemma {:induction false} PatternRolesStand(p: Pattern, t: string)
    ensures RolesStand(p, RuleOf(p).re, RuleOf(p).role, t)
  {
    if p == Person {
      RolesAreRoles();
      PersonRolesStand(ROLES, Cat(NAME, Cat(SECOND_NAME, Bound)), t);
    }
  }

  lemma {:induction false} ShapesAre(p: Pattern, t: string)
    ensures forall i, j :: 0 <= i <= j <= |t| ==> (ShapeIn(p, t)(i, j) <==> Matches(Expr(p), t, i, j))
  {
    forall i, j | 0 <= i <= j <= |t| ensures ShapeIn(p, t)(i, j) <==> Matches(Expr(p), t, i, j) {
      ShapeIff(p, t, i, j);
    }
  }

  lemma {:induction false} ReadsBy(p: Pattern, re: Re, word: string, role: Re, t: string)
    requires MinLength(re) >= 1 && RolesStand(p, re, role, t)
    requires forall i, j :: 0 <= i <= j <= |t| ==> (ShapeIn(p, t)(i, j) <==> Matches(re, t, i, j))
    ensures Reads(Rule(re, word, p == Person, role), Lead(p), ShapeIn(p, t), RoleIn(p, t), t)
  {
    var rule := Rule(re, word, p == Person, role);
    forall i, j | 0 <= i <= j <= |t| && Matches(re, t, i, j)
      ensures RoleLength(rule, t, i) <= j - i && RoleIn(p, t)(i, i + RoleLength(rule, t, i))
    {
      assert p == Person ==> RoleEnd(role, t, i) <= j && RoleIn(p, t)(i, RoleEnd(role, t, i));
    }
  }

  lemma {:induction false} RuleReads(p: Pattern, t: string)
    ensures Reads(RuleOf(p), Lead(p), ShapeIn(p, t), RoleIn(p, t), t)
  {
    NoEmptyMatch(p);
    ShapesAre(p, t);
    PatternRolesStand(p, t);
    ReadsBy(p, Expr(p), Word(p), RuleOf(p).role, t);
  }

  /** Each stage of the redaction cuts the text at the leftmost places of its shape, one after the
      other, writes the token of the shape there, for a person behind the role, and keeps the rest
      of the text as it is. */
  lemma {:induction false} StageCuts(p: Pattern, t: string) returns (pieces: seq<Piece>, tail: string)
    ensures CutBy(ShapeIn(p, t), RoleIn(p, t), t, 0, pieces, tail) && Original(pieces, tail) == t
    ensures Replace(p, t) == Redone(Lead(p), Token(p), pieces, tail)
  {
    RuleReads(p, t);
    NoEmptyMatch(p);
    pieces, tail := ReplaceCuts(RuleOf(p), Lead(p), ShapeIn(p, t), RoleIn(p, t), t, 0);
    TokenIs(p, RuleOf(p).word);
    assert t[0..] == t;
  }

  /** One stage: the text cut at the places of the shape, and the text with their tokens. */
  ghost predicate IsStage(p: Pattern, t: string, after: string) {
    exists pieces, tail ::
      && CutBy(ShapeIn(p, t), RoleIn(p, t), t, 0, pieces, tail) && Original(pieces, tail) == t
      && after == Redone(Lead(p), Token(p), pieces, tail)
  }

  lemma {:induction false} ReplaceIsStage(p: Pattern, t: string)
    ensures IsStage(p, t, Replace(p, t))
  {
    var pieces, tail := StageCuts(p, t);
  }

  /** Redaction takes out emails first, then phone numbers, VINs, persons and addresses, each from
      what the stage before it left. */
  lemma {:induction false} RedactionIsFiveStages(text: string) returns (a: string, b: string, c: string, d: string)
    ensures IsStage(Email, text, a) && IsStage(Phone, a, b) && IsStage(Vin, b, c) && IsStage(Person, c, d)
    ensures IsStage(Address, d, RedactSemanticText(text))
  {
    a := Replace(Email, text);
    b := Replace(Phone, a);
    c := Replace(Vin, b);
    d := Replace(Person, c);
    ReplaceIsStage(Email, text);
    ReplaceIsStage(Phone, a);
    ReplaceIsStage(Vin, b);
    ReplaceIsStage(Person, c);
    ReplaceIsStage(Address, d);
  }
}
