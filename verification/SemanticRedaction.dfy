/** redactSemanticText and the check that follows it. */
module SemanticRedaction {
  import opened Text
  import opened Regex

  datatype Pattern = Email | Phone | Vin | Person | Address

  predicate IsLocal(c: char) {
    IsLetter(c) || IsDigit(c) || c in "._%+-"
  }

  predicate IsDomain(c: char) {
    IsLetter(c) || IsDigit(c) || c in ".-"
  }

  predicate IsPhoneFill(c: char) {
    IsDigit(c) || IsSpace(c) || c in "().-"
  }

  /** [0-9A-HJ-NPR-Z] under the flag i: no I, O or Q. */
  predicate IsVinChar(c: char) {
    IsDigit(c) || (IsLetter(c) && c !in "ioqIOQ")
  }

  predicate IsName(c: char) {
    IsLetter(c) || c in "'-"
  }

  predicate IsPlace(c: char) {
    IsLetter(c) || IsDigit(c) || c in "'-" || IsSpace(c)
  }

  const ROLES := ["customer", "advisor", "technician", "owner", "driver"]

  const STREETS := ["address", "street", "st.", "avenue", "ave.", "road", "rd.", "boulevard",
                    "blvd.", "lane", "ln.", "drive", "dr.", "court", "ct."]

  const SPACES := Plus(Sym(IsSpace))
  const NAME := AtLeast(2, Sym(IsName))

  const SECOND_NAME := Opt(Cat(SPACES, NAME))

  /** \b head \s+ tail */
  function Headed(head: Re, tail: Re): Re {
    Cat(Bound, Cat(head, Cat(SPACES, tail)))
  }

  function Expr(p: Pattern): Re {
    match p
    case Email =>
      Cat(Plus(Sym(IsLocal)), Cat(Sym(c => c == '@'),
        Cat(Plus(Sym(IsDomain)), Cat(Sym(c => c == '.'), AtLeast(2, Sym(IsLetter))))))
    case Phone =>
      Cat(Opt(Sym(c => c == '+')), Cat(Sym(IsDigit), Cat(AtLeast(8, Sym(IsPhoneFill)), Sym(IsDigit))))
    case Vin =>
      Cat(Bound, Cat(Times(17, Sym(IsVinChar)), Bound))
    case Person =>
      Headed(AnyOf(ROLES), Cat(NAME, Cat(SECOND_NAME, Bound)))
    case Address =>
      Headed(AnyOf(STREETS), Cat(AtLeast(3, Sym(IsPlace)), Bound))
  }

  function Word(p: Pattern): string {
    match p
    case Email => "EMAIL"
    case Phone => "PHONE"
    case Vin => "VIN"
    case Person => "PERSON"
    case Address => "ADDRESS"
  }

  /** One `replace` of the chain: the pattern, the word of its token, and whether the part
      of the match that `role` captures stays in front of the token. */
  datatype Rule = Rule(re: Re, word: string, keepsRole: bool, role: Re)

  function RuleOf(p: Pattern): Rule {
    Rule(Expr(p), Word(p), p == Person, if p == Person then AnyOf(ROLES) else Re.Empty)
  }

  /** The end of the captured role of a match at i. */
  function RoleEnd(role: Re, t: string, i: nat): (m: nat)
    requires i <= |t|
    ensures i <= m <= |t|
  {
    var es := Ends(role, t, i);
    if es == [] then i else es[0]
  }

  function Replacement(rule: Rule, t: string, i: nat): string
    requires i <= |t|
  {
    Front(rule, t, i) + "<" + rule.word + ">"
  }

  /** The leftmost match from a position on: where it starts and where the engine ends it. */
  datatype Found = NotFound | Found(start: nat, end: nat)

  function Find(r: Re, t: string, from: nat): (f: Found)
    requires from <= |t|
    ensures f.Found? ==> from <= f.start <= f.end <= |t| && f.end in Ends(r, t, f.start)
    ensures f.Found? ==> f.end == Ends(r, t, f.start)[0]
    ensures forall i: nat :: from <= i <= |t| && (f.Found? ==> i < f.start) ==> Ends(r, t, i) == []
    decreases |t| - from
  {
    if Ends(r, t, from) != [] then Found(from, Ends(r, t, from)[0])
    else if from == |t| then NotFound
    else Find(r, t, from + 1)
  }

  lemma {:induction false} FindAdvances(r: Re, t: string, from: nat)
    requires from <= |t| && MinLength(r) >= 1 && Find(r, t, from).Found?
    ensures var f := Find(r, t, from); Matches(r, t, f.start, f.end) && f.start < f.end
  {
    var f := Find(r, t, from);
    EndsAreMatches(r, t, f.start, f.end);
    MatchIsLong(r, t, f.start, f.end);
  }

  /** text.replace(re, ..) under the flag g, for a pattern that never matches nothing. */
  function ReplaceFrom(rule: Rule, t: string, from: nat): string
    requires from <= |t| && MinLength(rule.re) >= 1
    decreases |t| - from
  {
    var f := Find(rule.re, t, from);
    if f == NotFound then t[from..]
    else
      FindAdvances(rule.re, t, from);
      t[from..f.start] + Replacement(rule, t, f.start) + ReplaceFrom(rule, t, f.end)
  }

  function Replace(p: Pattern, t: string): string {
    NoEmptyMatch(p);
    ReplaceFrom(RuleOf(p), t, 0)
  }

  function RedactSemanticText(text: string): string {
    Replace(Address, Replace(Person, Replace(Vin, Replace(Phone, Replace(Email, text)))))
  }

  /** The patterns that assertNoRawPii reports; it throws when there is one. */
  function RawPii(text: string): seq<Pattern> {
    (if Find(Expr(Email), text, 0) != NotFound then [Email] else [])
    + (if Find(Expr(Phone), text, 0) != NotFound then [Phone] else [])
    + (if Find(Expr(Vin), text, 0) != NotFound then [Vin] else [])
  }

  lemma CatLength(a: Re, b: Re)
    ensures MinLength(Cat(a, b)) == MinLength(a) + MinLength(b)
  {
  }

  lemma {:induction false} PlusLength(p: char -> bool)
    ensures MinLength(Plus(Sym(p))) == 1
  {
    CatLength(Sym(p), Star(Sym(p)));
  }

  lemma {:induction false} HeadedLength(head: Re, tail: Re)
    ensures MinLength(Headed(head, tail)) >= 1
  {
    CatLength(Bound, Cat(head, Cat(SPACES, tail)));
    CatLength(head, Cat(SPACES, tail));
    CatLength(SPACES, tail);
    PlusLength(IsSpace);
  }

  lemma {:induction false} DigitLength(before: Re, tail: Re)
    ensures MinLength(Cat(before, Cat(Sym(IsDigit), tail))) >= 1
  {
    CatLength(before, Cat(Sym(IsDigit), tail));
    CatLength(Sym(IsDigit), tail);
  }

  lemma {:induction false} VinLength(before: Re, after: Re)
    ensures MinLength(Cat(before, Cat(Times(17, Sym(IsVinChar)), after))) >= 1
  {
    CatLength(before, Cat(Times(17, Sym(IsVinChar)), after));
    CatLength(Times(17, Sym(IsVinChar)), after);
    CatLength(Sym(IsVinChar), Times(16, Sym(IsVinChar)));
  }

  lemma {:induction false} NoEmptyMatch(p: Pattern)
    ensures MinLength(Expr(p)) >= 1
  {
    match p
    case Email => PlusLength(IsLocal);
    case Phone => DigitLength(Opt(Sym(c => c == '+')), Cat(AtLeast(8, Sym(IsPhoneFill)), Sym(IsDigit)));
    case Vin => VinLength(Bound, Bound);
    case Person => HeadedLength(AnyOf(ROLES), Cat(NAME, Cat(SECOND_NAME, Bound)));
    case Address => HeadedLength(AnyOf(STREETS), Cat(AtLeast(3, Sym(IsPlace)), Bound));
  }

  // -- gluing and cutting clean texts, for patterns without \b --

  /** Free of \b and of angle brackets. */
  predicate Plain(r: Re) {
    Lacks(r, '<') && Lacks(r, '>') && MinLength(r) >= 1
  }

  /** A space after a clean text leaves it clean. */
  ghost predicate SpaceSafe(r: Re) {
    forall a :: NoMatch(r, a) ==> NoMatch(r, a + " ")
  }

  lemma Glue(r: Re, a: string, x: char, b: string)
    requires BoundFree(r) && Avoids(r, x) && NoMatch(r, a) && NoMatch(r, b)
    ensures NoMatch(r, a + [x] + b)
  {
    var u := a + [x] + b;
    assert u[0..|a|] == a && u[|a| + 1..|u|] == b && u[|a|] == x;
    forall i: nat, j: nat | i <= j <= |u| ensures !Matches(r, u, i, j) {
      if Matches(r, u, i, j) {
        MatchAvoids(r, u, i, j, x);
        if j <= |a| {
          MatchInWindow(r, u, 0, |a|, i, j);
        } else {
          assert i > |a|;
          MatchInWindow(r, u, |a| + 1, |u|, i - |a| - 1, j - |a| - 1);
        }
      }
    }
  }

  /** No match of the text starts at one of the positions. */
  ghost predicate NoneStarts(r: Re, t: string, p: nat, q: nat) {
    forall i: nat, j: nat :: p <= i < q && i <= j <= |t| ==> !Matches(r, t, i, j)
  }

  lemma StretchIsClean(r: Re, t: string, p: nat, q: nat)
    requires Plain(r) && p <= q <= |t| && NoneStarts(r, t, p, q)
    ensures NoMatch(r, t[p..q])
  {
    forall i: nat, j: nat | i <= j <= q - p ensures !Matches(r, t[p..q], i, j) {
      if Matches(r, t[p..q], i, j) {
        MatchIsLong(r, t[p..q], i, j);
        MatchOfWindow(r, t, p, q, i, j);
      }
    }
  }

  lemma NothingBeforeFound(r: Re, t: string, from: nat)
    requires from <= |t|
    ensures var f := Find(r, t, from); NoneStarts(r, t, from, if f.Found? then f.start else |t| + 1)
  {
    var f := Find(r, t, from);
    forall i: nat, j: nat | from <= i < (if f.Found? then f.start else |t| + 1) && i <= j <= |t|
      ensures !Matches(r, t, i, j)
    {
      EndsAreMatches(r, t, i, j);
      assert Ends(r, t, i) == [];
    }
  }

  /** What a replacement keeps of the text up to and including the match at `start`. */
  function Kept(rule: Rule, t: string, from: nat, start: nat): string
    requires from <= start <= |t|
  {
    if rule.keepsRole then t[from..RoleEnd(rule.role, t, start)] + " " else t[from..start]
  }

  lemma Regroup(a: string, b: string, w: string, c: string)
    ensures a + (b + "<" + w + ">") + c == ((a + b) + ['<'] + w) + ['>'] + c
  {
    assert a + (b + "<" + w + ">") == ((a + b) + ['<'] + w) + ['>'];
  }

  /** What a replacement puts in front of its token. */
  function Front(rule: Rule, t: string, start: nat): string
    requires start <= |t|
  {
    if rule.keepsRole then t[start..RoleEnd(rule.role, t, start)] + " " else ""
  }

  lemma SliceTwice(t: string, from: nat, start: nat, m: nat)
    requires from <= start <= m <= |t|
    ensures t[from..start] + (t[start..m] + " ") == t[from..m] + " "
  {
    assert t[from..start] + t[start..m] == t[from..m];
  }

  lemma {:induction false} FrontIsKept(rule: Rule, t: string, from: nat, start: nat)
    requires from <= start <= |t|
    ensures t[from..start] + Front(rule, t, start) == Kept(rule, t, from, start)
  {
    SliceTwice(t, from, start, RoleEnd(rule.role, t, start));
  }

  lemma {:induction false} ReplaceStep(rule: Rule, t: string, from: nat)
    requires from <= |t| && MinLength(rule.re) >= 1 && Find(rule.re, t, from).Found?
    ensures
      var f := Find(rule.re, t, from);
      ReplaceFrom(rule, t, from) ==
      (Kept(rule, t, from, f.start) + ['<'] + rule.word) + ['>'] + ReplaceFrom(rule, t, f.end)
  {
    var f := Find(rule.re, t, from);
    Regroup(t[from..f.start], Front(rule, t, f.start), rule.word, ReplaceFrom(rule, t, f.end));
    FrontIsKept(rule, t, from, f.start);
  }

  lemma KeptIsClean(r: Re, rule: Rule, t: string, from: nat, start: nat)
    requires Plain(r) && SpaceSafe(r)
    requires from <= start <= |t|
    requires if rule.keepsRole then NoMatch(r, t) else NoneStarts(r, t, from, start)
    ensures NoMatch(r, Kept(rule, t, from, start))
  {
    StretchIsClean(r, t, from, if rule.keepsRole then RoleEnd(rule.role, t, start) else start);
  }

  lemma GlueToken(r: Re, before: string, word: string, rest: string)
    requires Plain(r) && NoMatch(r, before) && NoMatch(r, word) && NoMatch(r, rest)
    ensures NoMatch(r, (before + ['<'] + word) + ['>'] + rest)
  {
    Glue(r, before, '<', word);
    Glue(r, before + ['<'] + word, '>', rest);
  }

  /** Replacing by any rule keeps a text clean of r, and cleans it of r when r is replaced. */
  lemma {:induction false} ReplaceCleans(r: Re, rule: Rule, t: string, from: nat)
    requires Plain(r) && SpaceSafe(r) && NoMatch(r, rule.word)
    requires NoMatch(r, t) || (r == rule.re && !rule.keepsRole)
    requires from <= |t| && MinLength(rule.re) >= 1
    ensures NoMatch(r, ReplaceFrom(rule, t, from))
    decreases |t| - from
  {
    var f := Find(rule.re, t, from);
    NothingBeforeFound(rule.re, t, from);
    if f == NotFound {
      StretchIsClean(r, t, from, |t|);
      assert t[from..|t|] == t[from..];
    } else {
      FindAdvances(rule.re, t, from);
      ReplaceCleans(r, rule, t, f.end);
      KeptIsClean(r, rule, t, from, f.start);
      GlueToken(r, Kept(rule, t, from, f.start), rule.word, ReplaceFrom(rule, t, f.end));
      ReplaceStep(rule, t, from);
    }
  }

  // -- VINs --

  /** A VIN is a run of 17 VIN characters between two word boundaries. */
  predicate VinAt(t: string, i: nat) {
    && i + 17 <= |t|
    && (forall x :: i <= x < i + 17 ==> IsVinChar(t[x]))
    && IsBound(t, i) && IsBound(t, i + 17)
  }

  ghost predicate NoVin(t: string) {
    forall i: nat :: !VinAt(t, i)
  }

  lemma {:induction false} VinMatch(t: string, i: nat, j: nat)
    requires i <= j <= |t|
    ensures Matches(Expr(Vin), t, i, j) <==> j == i + 17 && VinAt(t, i)
  {
    var run := Times(17, Sym(IsVinChar));
    if Matches(Expr(Vin), t, i, j) {
      var e := CatSplit(Bound, Cat(run, Bound), t, i, j);
      var f := CatSplit(run, Bound, t, e, j);
      TimesOfClass(17, IsVinChar, t, e, f);
    }
    if j == i + 17 && VinAt(t, i) {
      TimesOfClass(17, IsVinChar, t, i, j);
      CatJoin(run, Bound, t, i, j, j);
      CatJoin(Bound, Cat(run, Bound), t, i, i, j);
    }
  }

  lemma NoVinIffNoMatch(t: string)
    ensures NoVin(t) <==> NoMatch(Expr(Vin), t)
  {
    if NoVin(t) {
      forall i: nat, j: nat | i <= j <= |t| ensures !Matches(Expr(Vin), t, i, j) {
        VinMatch(t, i, j);
      }
    }
    if NoMatch(Expr(Vin), t) {
      forall i: nat ensures !VinAt(t, i) {
        if VinAt(t, i) {
          VinMatch(t, i, i + 17);
        }
      }
    }
  }

  lemma GlueVin(a: string, x: char, b: string)
    requires !IsWord(x) && NoVin(a) && NoVin(b)
    ensures NoVin(a + [x] + b)
  {
    var u := a + [x] + b;
    forall i: nat ensures !VinAt(u, i) {
      if VinAt(u, i) {
        assert forall y :: i <= y < i + 17 ==> IsWord(u[y]);
        if i + 17 <= |a| {
          assert forall y :: i <= y < i + 17 ==> a[y] == u[y];
          assert VinAt(a, i);
        } else {
          assert u[|a|] == x;
          assert i > |a|;
          var k := i - |a| - 1;
          assert forall y :: k <= y < k + 17 ==> b[y] == u[y + |a| + 1];
          assert VinAt(b, k);
        }
      }
    }
  }

  /** A cut that cannot make a VIN of part of a longer word. */
  predicate SafeCut(t: string, p: nat)
    requires p <= |t|
  {
    p == 0 || p == |t| || IsBound(t, p)
  }

  lemma StretchHasNoVin(t: string, p: nat, q: nat)
    requires p <= q <= |t| && SafeCut(t, p) && SafeCut(t, q)
    requires forall i: nat :: p <= i < q ==> !VinAt(t, i)
    ensures NoVin(t[p..q])
  {
    var s := t[p..q];
    forall i: nat ensures !VinAt(s, i) {
      if VinAt(s, i) {
        assert forall x :: p + i <= x < p + i + 17 ==> t[x] == s[x - p];
        assert VinAt(t, p + i);
      }
    }
  }

  /** Every match lies between word boundaries, and so does its role. */
  ghost predicate Bounded(rule: Rule) {
    forall t: string, i: nat, j: nat :: i <= j <= |t| && Matches(rule.re, t, i, j) ==>
      && IsBound(t, i) && IsBound(t, j)
      && (rule.keepsRole ==> IsBound(t, RoleEnd(rule.role, t, i)))
  }

  lemma GlueTokenVin(before: string, word: string, rest: string)
    requires NoVin(before) && NoVin(word) && NoVin(rest)
    ensures NoVin((before + ['<'] + word) + ['>'] + rest)
  {
    GlueVin(before, '<', word);
    GlueVin(before + ['<'] + word, '>', rest);
  }

  lemma {:induction false} KeptHasNoVin(rule: Rule, t: string, from: nat, start: nat, end: nat)
    requires from <= start <= end <= |t| && Matches(rule.re, t, start, end)
    requires Bounded(rule) && SafeCut(t, from)
    requires forall i: nat :: from <= i < (if rule.keepsRole then |t| else start) ==> !VinAt(t, i)
    ensures NoVin(Kept(rule, t, from, start))
  {
    var stop := if rule.keepsRole then RoleEnd(rule.role, t, start) else start;
    assert IsBound(t, stop);
    StretchHasNoVin(t, from, stop);
    if rule.keepsRole {
      GlueVin(t[from..stop], ' ', "");
      assert t[from..stop] + [' '] + "" == t[from..stop] + " ";
    }
  }

  /** A rule whose matches lie between word boundaries opens no boundary inside a word: it
      keeps a text free of VINs. */
  lemma {:induction false} ReplaceKeepsNoVin(rule: Rule, t: string, from: nat)
    requires Bounded(rule) && NoVin(rule.word) && MinLength(rule.re) >= 1
    requires NoVin(t) || (rule.re == Expr(Vin) && !rule.keepsRole)
    requires from <= |t| && SafeCut(t, from)
    ensures NoVin(ReplaceFrom(rule, t, from))
    decreases |t| - from
  {
    var f := Find(rule.re, t, from);
    var stop := if f.Found? then f.start else |t|;
    forall i: nat | from <= i < stop ensures !VinAt(t, i) {
      NothingBeforeFound(rule.re, t, from);
      if VinAt(t, i) {
        VinMatch(t, i, i + 17);
      }
    }
    if f == NotFound {
      StretchHasNoVin(t, from, |t|);
      assert t[from..|t|] == t[from..];
    } else {
      FindAdvances(rule.re, t, from);
      ReplaceKeepsNoVin(rule, t, f.end);
      KeptHasNoVin(rule, t, from, f.start, f.end);
      GlueTokenVin(Kept(rule, t, from, f.start), rule.word, ReplaceFrom(rule, t, f.end));
      ReplaceStep(rule, t, from);
    }
  }

  // -- the five patterns --

  /** Free of \b and of the character. */
  predicate Lacks(r: Re, c: char) {
    BoundFree(r) && Avoids(r, c)
  }

  lemma CatLacks(a: Re, b: Re, c: char)
    requires Lacks(a, c) && Lacks(b, c)
    ensures Lacks(Cat(a, b), c)
  {
  }

  lemma PlusLacks(p: char -> bool, c: char)
    requires !p(c)
    ensures Lacks(Plus(Sym(p)), c)
  {
  }

  lemma {:induction false} TimesLacks(n: nat, p: char -> bool, c: char)
    requires !p(c)
    ensures Lacks(Times(n, Sym(p)), c)
  {
    if n > 0 {
      TimesLacks(n - 1, p, c);
      CatLacks(Sym(p), Times(n - 1, Sym(p)), c);
    }
  }

  lemma {:induction false} AtLeastLacks(n: nat, p: char -> bool, c: char)
    requires !p(c)
    ensures Lacks(AtLeast(n, Sym(p)), c)
  {
    TimesLacks(n, p, c);
    CatLacks(Times(n, Sym(p)), Star(Sym(p)), c);
  }

  lemma {:induction false} FourLack(r: Re, s: Re, u: Re, v: Re, c: char)
    requires Lacks(r, c) && Lacks(s, c) && Lacks(u, c) && Lacks(v, c)
    ensures Lacks(Cat(r, Cat(s, Cat(u, v))), c)
  {
    CatLacks(u, v, c);
    CatLacks(s, Cat(u, v), c);
    CatLacks(r, Cat(s, Cat(u, v)), c);
  }

  lemma {:induction false} PhoneIsPlain(c: char)
    requires c == '<' || c == '>'
    ensures Lacks(Expr(Phone), c)
  {
    AtLeastLacks(8, IsPhoneFill, c);
    FourLack(Opt(Sym(c => c == '+')), Sym(IsDigit), AtLeast(8, Sym(IsPhoneFill)), Sym(IsDigit), c);
  }

  lemma {:induction false} EmailIsPlain(c: char)
    requires c == '<' || c == '>' || c == ' '
    ensures Lacks(Expr(Email), c)
  {
    PlusLacks(IsLocal, c);
    PlusLacks(IsDomain, c);
    AtLeastLacks(2, IsLetter, c);
    CatLacks(Sym(c => c == '.'), AtLeast(2, Sym(IsLetter)), c);
    FourLack(Plus(Sym(IsLocal)), Sym(c => c == '@'), Plus(Sym(IsDomain)),
             Cat(Sym(c => c == '.'), AtLeast(2, Sym(IsLetter))), c);
  }

  lemma EmailHasAt(t: string, i: nat, j: nat)
    requires i <= j <= |t| && Matches(Expr(Email), t, i, j)
    ensures exists x :: i <= x < j && t[x] == '@'
  {
    var local := Plus(Sym(IsLocal));
    var rest := Cat(Plus(Sym(IsDomain)), Cat(Sym(c => c == '.'), AtLeast(2, Sym(IsLetter))));
    var e := CatSplit(local, Cat(Sym(c => c == '@'), rest), t, i, j);
    var f := CatSplit(Sym(c => c == '@'), rest, t, e, j);
    assert t[e] == '@';
  }

  lemma {:induction false} PhoneEndsInDigit(t: string, i: nat, j: nat)
    requires i <= j <= |t| && Matches(Expr(Phone), t, i, j)
    ensures i < j && IsDigit(t[j - 1])
  {
    var fill := AtLeast(8, Sym(IsPhoneFill));
    var e := CatSplit(Opt(Sym(c => c == '+')), Cat(Sym(IsDigit), Cat(fill, Sym(IsDigit))), t, i, j);
    var f := CatSplit(Sym(IsDigit), Cat(fill, Sym(IsDigit)), t, e, j);
    var g := CatSplit(fill, Sym(IsDigit), t, f, j);
  }

  predicate IsToken(w: string) {
    |w| < 17 && forall x :: 0 <= x < |w| ==> IsLetter(w[x])
  }

  lemma {:induction false} TokenIsClean(w: string)
    requires IsToken(w)
    ensures NoMatch(Expr(Email), w) && NoMatch(Expr(Phone), w) && NoVin(w)
  {
    forall i: nat, j: nat | i <= j <= |w| ensures !Matches(Expr(Email), w, i, j) {
      if Matches(Expr(Email), w, i, j) { EmailHasAt(w, i, j); }
    }
    forall i: nat, j: nat | i <= j <= |w| ensures !Matches(Expr(Phone), w, i, j) {
      if Matches(Expr(Phone), w, i, j) { PhoneEndsInDigit(w, i, j); }
    }
  }

  lemma {:induction false} EmailIsSafe()
    ensures Plain(Expr(Email)) && SpaceSafe(Expr(Email))
  {
    EmailIsPlain('<');
    EmailIsPlain('>');
    EmailIsPlain(' ');
    NoEmptyMatch(Email);
    TokenIsClean("");
    forall a | NoMatch(Expr(Email), a) ensures NoMatch(Expr(Email), a + " ") {
      Glue(Expr(Email), a, ' ', "");
      assert a + [' '] + "" == a + " ";
    }
  }

  lemma {:induction false} PhoneBeforeSpace(a: string)
    requires BoundFree(Expr(Phone)) && NoMatch(Expr(Phone), a)
    ensures NoMatch(Expr(Phone), a + " ")
  {
    var u := a + " ";
    assert u[0..|a|] == a;
    forall i: nat, j: nat | i <= j <= |u| ensures !Matches(Expr(Phone), u, i, j) {
      if Matches(Expr(Phone), u, i, j) {
        PhoneEndsInDigit(u, i, j);
        MatchInWindow(Expr(Phone), u, 0, |a|, i, j);
      }
    }
  }

  lemma {:induction false} PhoneIsSafe()
    ensures Plain(Expr(Phone)) && SpaceSafe(Expr(Phone))
  {
    PhoneIsPlain('<');
    PhoneIsPlain('>');
    NoEmptyMatch(Phone);
    forall a | NoMatch(Expr(Phone), a) ensures NoMatch(Expr(Phone), a + " ") {
      PhoneBeforeSpace(a);
    }
  }

  lemma {:induction false} LitMatch(s: string, t: string, i: nat, j: nat)
    requires i <= j <= |t| && Matches(Lit(s), t, i, j)
    ensures j == i + |s| && forall x :: 0 <= x < |s| ==> LowerChar(t[i + x]) == s[x]
    decreases |s|
  {
    if s != "" {
      var c := s[0];
      var e := CatSplit(Sym(x => LowerChar(x) == c), Lit(s[1..]), t, i, j);
      LitMatch(s[1..], t, e, j);
      forall x | 0 <= x < |s| ensures LowerChar(t[i + x]) == s[x] {
        assert x > 0 ==> s[x] == s[1..][x - 1];
      }
    }
  }

  lemma {:induction false} AnyOfMatch(words: seq<string>, t: string, i: nat, j: nat) returns (n: nat)
    requires words != [] && i <= j <= |t| && Matches(AnyOf(words), t, i, j)
    ensures n < |words| && j == i + |words[n]|
    ensures forall x :: 0 <= x < |words[n]| ==> LowerChar(t[i + x]) == words[n][x]
    decreases |words|
  {
    if |words| == 1 || Matches(Lit(words[0]), t, i, j) {
      LitMatch(words[0], t, i, j);
      n := 0;
    } else {
      n := AnyOfMatch(words[1..], t, i, j);
      n := n + 1;
    }
  }

  /** Words that end in a letter and of which no two start alike. */
  ghost predicate Roles(words: seq<string>) {
    && words != []
    && (forall n :: 0 <= n < |words| ==> |words[n]| > 0 && 'a' <= words[n][|words[n]| - 1] <= 'z')
    && (forall m, n :: 0 <= m < n < |words| ==> words[m][0] != words[n][0])
  }

  lemma RolesAreRoles()
    ensures Roles(ROLES)
  {
    assert ROLES[0][0] == 'c' && ROLES[1][0] == 'a' && ROLES[2][0] == 't' && ROLES[3][0] == 'o' && ROLES[4][0] == 'd';
  }

  /** The text at a position starts at most one role. */
  lemma RoleIsUnique(words: seq<string>, t: string, i: nat, j: nat, j': nat)
    requires Roles(words) && i <= j <= |t| && i <= j' <= |t|
    requires Matches(AnyOf(words), t, i, j) && Matches(AnyOf(words), t, i, j')
    ensures j == j' && i < j && IsLetter(t[j - 1])
  {
    var n := AnyOfMatch(words, t, i, j);
    var n' := AnyOfMatch(words, t, i, j');
    assert LowerChar(t[i + 0]) == words[n][0] && LowerChar(t[i + 0]) == words[n'][0];
    assert LowerChar(t[i + (|words[n]| - 1)]) == words[n][|words[n]| - 1];
  }

  /** A match of \b head \s+ tail starts at a boundary, and white space follows its head. */
  lemma {:induction false} HeadSplit(head: Re, tail: Re, t: string, i: nat, j: nat) returns (m: nat)
    requires i <= j <= |t|
    requires Matches(Headed(head, tail), t, i, j)
    ensures IsBound(t, i) && i <= m < j && Matches(head, t, i, m) && IsSpace(t[m])
    ensures exists n :: m < n <= j && Matches(tail, t, n, j)
  {
    var e := CatSplit(Bound, Cat(head, Cat(SPACES, tail)), t, i, j);
    m := CatSplit(head, Cat(SPACES, tail), t, e, j);
    var n := CatSplit(SPACES, tail, t, m, j);
    var o := CatSplit(Sym(IsSpace), Star(Sym(IsSpace)), t, m, n);
  }

  /** A match of body \b ends at a boundary. */
  lemma TailSplit(body: Re, t: string, i: nat, j: nat)
    requires i <= j <= |t| && Matches(Cat(body, Bound), t, i, j)
    ensures IsBound(t, j)
  {
    var e := CatSplit(body, Bound, t, i, j);
  }

  lemma {:induction false} VinIsBounded()
    ensures Bounded(RuleOf(Vin))
  {
    forall t: string, i: nat, j: nat | i <= j <= |t| && Matches(Expr(Vin), t, i, j)
      ensures IsBound(t, i) && IsBound(t, j)
    {
      VinMatch(t, i, j);
    }
  }

  /** The role in front of white space ends at a boundary. */
  lemma {:induction false} RoleEndIsBound(words: seq<string>, t: string, i: nat, m: nat)
    requires Roles(words) && i <= m < |t| && Matches(AnyOf(words), t, i, m) && IsSpace(t[m])
    ensures IsBound(t, RoleEnd(AnyOf(words), t, i))
  {
    EndsAreMatches(AnyOf(words), t, i, m);
    var first := RoleEnd(AnyOf(words), t, i);
    EndsAreMatches(AnyOf(words), t, i, first);
    RoleIsUnique(words, t, i, m, first);
  }

  lemma {:induction false} RoleMatchIsBounded(words: seq<string>, name: Re, more: Re, t: string, i: nat, j: nat)
    requires Roles(words) && i <= j <= |t|
    requires Matches(Headed(AnyOf(words), Cat(name, Cat(more, Bound))), t, i, j)
    ensures IsBound(t, i) && IsBound(t, j) && IsBound(t, RoleEnd(AnyOf(words), t, i))
  {
    var m := HeadSplit(AnyOf(words), Cat(name, Cat(more, Bound)), t, i, j);
    var n :| m < n <= j && Matches(Cat(name, Cat(more, Bound)), t, n, j);
    var o := CatSplit(name, Cat(more, Bound), t, n, j);
    TailSplit(more, t, o, j);
    RoleEndIsBound(words, t, i, m);
  }

  /** A rule for \b head \s+ tail. */
  function HeadedRule(head: Re, tail: Re, word: string, keepsHead: bool): Rule {
    Rule(Headed(head, tail), word, keepsHead, if keepsHead then head else Re.Empty)
  }

  lemma RoleRuleIsBounded(words: seq<string>, name: Re, more: Re, word: string)
    requires Roles(words)
    ensures Bounded(HeadedRule(AnyOf(words), Cat(name, Cat(more, Bound)), word, true))
  {
    var re := Headed(AnyOf(words), Cat(name, Cat(more, Bound)));
    forall t: string, i: nat, j: nat | i <= j <= |t| && Matches(re, t, i, j)
      ensures IsBound(t, i) && IsBound(t, j) && IsBound(t, RoleEnd(AnyOf(words), t, i))
    {
      RoleMatchIsBounded(words, name, more, t, i, j);
    }
  }

  lemma {:induction false} PersonIsBounded()
    ensures Bounded(RuleOf(Person))
  {
    RolesAreRoles();
    RoleRuleIsBounded(ROLES, NAME, SECOND_NAME, Word(Person));
  }

  lemma HeadMatchIsBounded(head: Re, body: Re, t: string, i: nat, j: nat)
    requires i <= j <= |t|
    requires Matches(Headed(head, Cat(body, Bound)), t, i, j)
    ensures IsBound(t, i) && IsBound(t, j)
  {
    var m := HeadSplit(head, Cat(body, Bound), t, i, j);
    var n :| m < n <= j && Matches(Cat(body, Bound), t, n, j);
    TailSplit(body, t, n, j);
  }

  lemma {:induction false} HeadRuleIsBounded(head: Re, body: Re, word: string)
    ensures Bounded(HeadedRule(head, Cat(body, Bound), word, false))
  {
    var re := Headed(head, Cat(body, Bound));
    forall t: string, i: nat, j: nat | i <= j <= |t| && Matches(re, t, i, j)
      ensures IsBound(t, i) && IsBound(t, j)
    {
      HeadMatchIsBounded(head, body, t, i, j);
    }
  }

  lemma {:induction false} AddressIsBounded()
    ensures Bounded(RuleOf(Address))
  {
    HeadRuleIsBounded(AnyOf(STREETS), AtLeast(3, Sym(IsPlace)), Word(Address));
  }

  lemma FindNone(r: Re, t: string)
    ensures Find(r, t, 0) == NotFound <==> NoMatch(r, t)
  {
    NothingBeforeFound(r, t, 0);
    var f := Find(r, t, 0);
    if f.Found? {
      EndsAreMatches(r, t, f.start, f.end);
    }
  }

  lemma WordIsToken(p: Pattern)
    ensures IsToken(Word(p))
  {
  }

  /** Each replacement leaves no match of its own and brings back none of an earlier one. */
  lemma StageCleans(k: Pattern, p: Pattern, t: string)
    requires k == Email || k == Phone
    requires k == p || NoMatch(Expr(k), t)
    ensures NoMatch(Expr(k), Replace(p, t))
  {
    if k == Email { EmailIsSafe(); } else { PhoneIsSafe(); }
    WordIsToken(p);
    TokenIsClean(Word(p));
    NoEmptyMatch(p);
    ReplaceCleans(Expr(k), RuleOf(p), t, 0);
  }

  lemma {:induction false} StageKeepsNoVin(p: Pattern, t: string)
    requires p == Vin || ((p == Person || p == Address) && NoVin(t))
    ensures NoVin(Replace(p, t))
  {
    match p {
      case Vin => VinIsBounded();
      case Person => PersonIsBounded();
      case Address => AddressIsBounded();
    }
    WordIsToken(p);
    TokenIsClean(Word(p));
    NoEmptyMatch(p);
    ReplaceKeepsNoVin(RuleOf(p), t, 0);
  }

  /** Whatever the text, no email, phone number or VIN is left in the redacted text, and the
      check that follows never throws: no later replacement joins old fragments or opens a
      word boundary around one. */
  lemma {:induction false} RedactedTextPassesCheck(text: string)
    ensures RawPii(RedactSemanticText(text)) == []
  {
    var a := Replace(Email, text);
    var b := Replace(Phone, a);
    var c := Replace(Vin, b);
    var d := Replace(Person, c);
    var e := Replace(Address, d);
    StageCleans(Email, Email, text);
    StageCleans(Email, Phone, a);
    StageCleans(Email, Vin, b);
    StageCleans(Email, Person, c);
    StageCleans(Email, Address, d);
    StageCleans(Phone, Phone, a);
    StageCleans(Phone, Vin, b);
    StageCleans(Phone, Person, c);
    StageCleans(Phone, Address, d);
    StageKeepsNoVin(Vin, b);
    StageKeepsNoVin(Person, c);
    StageKeepsNoVin(Address, d);
    NoVinIffNoMatch(e);
    FindNone(Expr(Email), e);
    FindNone(Expr(Phone), e);
    FindNone(Expr(Vin), e);
  }

  // -- what redaction leaves alone --

  function Brackets(t: string): nat {
    if t == "" then 0 else (if t[0] == '<' then 1 else 0) + Brackets(t[1..])
  }

  lemma {:induction false} BracketsConcat(a: string, b: string)
    ensures Brackets(a + b) == Brackets(a) + Brackets(b)
  {
    if a == "" {
      assert a + b == b;
    } else {
      BracketsConcat(a[1..], b);
      assert (a + b)[1..] == a[1..] + b;
    }
  }

  lemma {:induction false} NoBrackets(t: string)
    requires forall x :: 0 <= x < |t| ==> t[x] != '<'
    ensures Brackets(t) == 0
  {
    if t != "" {
      NoBrackets(t[1..]);
    }
  }

  lemma HeadedAvoids(words: seq<string>, tail: Re)
    requires BracketFree(words) && Avoids(tail, '<')
    ensures Avoids(Headed(AnyOf(words), tail), '<')
  {
    AnyOfAvoids(words);
    PlusLacks(IsSpace, '<');
    CatAvoids(SPACES, tail, '<');
    CatAvoids(AnyOf(words), Cat(SPACES, tail), '<');
  }

  ghost predicate BracketFree(words: seq<string>) {
    words != [] && forall n, x :: 0 <= n < |words| && 0 <= x < |words[n]| ==> words[n][x] != '<'
  }

  lemma WordsAreBracketFree()
    ensures BracketFree(ROLES) && BracketFree(STREETS)
  {
  }

  lemma CatAvoids(a: Re, b: Re, c: char)
    requires Avoids(a, c) && Avoids(b, c)
    ensures Avoids(Cat(a, b), c)
  {
  }

  lemma OptAvoids(r: Re, c: char)
    requires Avoids(r, c)
    ensures Avoids(Opt(r), c)
  {
  }

  lemma {:induction false} TailsAvoidBracket()
    ensures Avoids(Cat(NAME, Cat(SECOND_NAME, Bound)), '<')
    ensures Avoids(Cat(AtLeast(3, Sym(IsPlace)), Bound), '<')
  {
    AtLeastLacks(2, IsName, '<');
    AtLeastLacks(3, IsPlace, '<');
    PlusLacks(IsSpace, '<');
    CatAvoids(SPACES, NAME, '<');
    OptAvoids(Cat(SPACES, NAME), '<');
    CatAvoids(SECOND_NAME, Bound, '<');
    CatAvoids(NAME, Cat(SECOND_NAME, Bound), '<');
  }

  /** No class of the five patterns contains an angle bracket. */
  lemma {:induction false} ExprAvoidsBracket(p: Pattern)
    ensures Avoids(Expr(p), '<')
  {
    match p
    case Email => EmailIsPlain('<');
    case Phone => PhoneIsPlain('<');
    case Vin =>
      TimesLacks(17, IsVinChar, '<');
      CatAvoids(Times(17, Sym(IsVinChar)), Bound, '<');
    case Person =>
      WordsAreBracketFree();
      TailsAvoidBracket();
      HeadedAvoids(ROLES, Cat(NAME, Cat(SECOND_NAME, Bound)));
    case Address =>
      WordsAreBracketFree();
      TailsAvoidBracket();
      HeadedAvoids(STREETS, Cat(AtLeast(3, Sym(IsPlace)), Bound));
  }

  lemma {:induction false} LitAvoids(s: string)
    requires forall x :: 0 <= x < |s| ==> s[x] != '<'
    ensures Avoids(Lit(s), '<')
    decreases |s|
  {
    if s != "" {
      LitAvoids(s[1..]);
    }
  }

  lemma {:induction false} AnyOfAvoids(words: seq<string>)
    requires BracketFree(words)
    ensures Avoids(AnyOf(words), '<')
    decreases |words|
  {
    LitAvoids(words[0]);
    if |words| > 1 {
      AnyOfAvoids(words[1..]);
    }
  }

  lemma TokenHasBracket(role: string, tail: string)
    ensures Brackets(role + "<" + tail) >= 1
  {
    BracketsConcat(role + "<", tail);
    BracketsConcat(role, "<");
  }

  lemma {:induction false} BracketsStep(gap: string, was: string, rest: string, now: string, done: string)
    requires Brackets(was) == 0 && Brackets(now) >= 1 && Brackets(done) >= Brackets(rest)
    ensures Brackets(gap + now + done) > Brackets(gap + was + rest)
  {
    BracketsConcat(gap + was, rest);
    BracketsConcat(gap, was);
    BracketsConcat(gap + now, done);
    BracketsConcat(gap, now);
  }

  lemma ReplacementHasBracket(rule: Rule, t: string, i: nat)
    requires i <= |t|
    ensures Brackets(Replacement(rule, t, i)) >= 1
  {
    var role := if rule.keepsRole then t[i..RoleEnd(rule.role, t, i)] + " " else "";
    TokenHasBracket(role, rule.word + ">");
    assert role + "<" + (rule.word + ">") == Replacement(rule, t, i);
  }

  lemma {:induction false} MatchHasNoBracket(r: Re, t: string, i: nat, j: nat)
    requires i <= j <= |t| && Matches(r, t, i, j) && Avoids(r, '<')
    ensures Brackets(t[i..j]) == 0
  {
    MatchAvoids(r, t, i, j, '<');
    NoBrackets(t[i..j]);
  }

  lemma SliceInThree(t: string, a: nat, b: nat, c: nat)
    requires a <= b <= c <= |t|
    ensures t[a..] == t[a..b] + t[b..c] + t[c..]
  {
  }

  /** Each replacement adds one bracket, so a text with a match cannot come back unchanged. */
  lemma {:induction false} ReplaceCounts(rule: Rule, t: string, from: nat)
    requires from <= |t| && MinLength(rule.re) >= 1 && Avoids(rule.re, '<')
    ensures Brackets(ReplaceFrom(rule, t, from)) >= Brackets(t[from..])
    ensures Find(rule.re, t, from).Found? ==> Brackets(ReplaceFrom(rule, t, from)) > Brackets(t[from..])
    decreases |t| - from
  {
    var f := Find(rule.re, t, from);
    if f.Found? {
      FindAdvances(rule.re, t, from);
      ReplaceCounts(rule, t, f.end);
      MatchHasNoBracket(rule.re, t, f.start, f.end);
      ReplacementHasBracket(rule, t, f.start);
      BracketsStep(t[from..f.start], t[f.start..f.end], t[f.end..], Replacement(rule, t, f.start),
                   ReplaceFrom(rule, t, f.end));
      SliceInThree(t, from, f.start, f.end);
    }
  }

  lemma {:induction false} StageCounts(p: Pattern, t: string)
    ensures Brackets(Replace(p, t)) >= Brackets(t)
    ensures NoMatch(Expr(p), t) ==> Replace(p, t) == t
    ensures !NoMatch(Expr(p), t) ==> Brackets(Replace(p, t)) > Brackets(t)
  {
    NoEmptyMatch(p);
    ExprAvoidsBracket(p);
    WordIsToken(p);
    ReplaceCounts(RuleOf(p), t, 0);
    FindNone(Expr(p), t);
    assert t[0..] == t;
  }

  /** Redaction leaves a text as it is exactly when none of the five patterns matches it. */
  lemma {:induction false} UnchangedIffNothingMatches(text: string)
    ensures RedactSemanticText(text) == text <==> forall p: Pattern :: NoMatch(Expr(p), text)
  {
    var a := Replace(Email, text);
    var b := Replace(Phone, a);
    var c := Replace(Vin, b);
    var d := Replace(Person, c);
    StageCounts(Email, text);
    StageCounts(Phone, a);
    StageCounts(Vin, b);
    StageCounts(Person, c);
    StageCounts(Address, d);
    if RedactSemanticText(text) == text {
      forall p: Pattern ensures NoMatch(Expr(p), text) {
        match p { case Email => case Phone => case Vin => case Person => case Address => }
      }
    }
    assert (forall p: Pattern :: NoMatch(Expr(p), text)) ==>
        NoMatch(Expr(Email), text) && NoMatch(Expr(Phone), text) && NoMatch(Expr(Vin), text)
        && NoMatch(Expr(Person), text) && NoMatch(Expr(Address), text);
  }
}
