/** The edit-distance table of the unknown-field error, against edit scripts. */
module EditDistance {

  /** An edit script, last step outermost. */
  datatype Script =
    | Done
    | Keep(before: Script)
    | Substitute(before: Script, c: char)
    | Insert(before: Script, c: char)
    | Delete(before: Script)

  function Front(s: string): string
    requires s != ""
  {
    s[..|s| - 1]
  }

  function Last(s: string): char
    requires s != ""
  {
    s[|s| - 1]
  }

  /** Applying the script to `left` gives `right`. */
  predicate Turns(e: Script, left: string, right: string) {
    match e
    case Done => left == "" && right == ""
    case Keep(b) => left != "" && right != "" && Last(left) == Last(right) && Turns(b, Front(left), Front(right))
    case Substitute(b, c) => left != "" && right != "" && Last(right) == c && Turns(b, Front(left), Front(right))
    case Insert(b, c) => right != "" && Last(right) == c && Turns(b, left, Front(right))
    case Delete(b) => left != "" && Turns(b, Front(left), right)
  }

  function Cost(e: Script): nat {
    match e
    case Done => 0
    case Keep(b) => Cost(b)
    case Substitute(b, _) => Cost(b) + 1
    case Insert(b, _) => Cost(b) + 1
    case Delete(b) => Cost(b) + 1
  }

  function Min3(a: nat, b: nat, c: nat): nat {
    if a <= b && a <= c then a else if b <= c then b else c
  }

  /** The cells of the table: the distance of the two prefixes. */
  function Distance(left: string, right: string): nat
    decreases |left| + |right|
  {
    if left == "" then |right|
    else if right == "" then |left|
    else
      Min3(Distance(Front(left), right) + 1,
           Distance(left, Front(right)) + 1,
           Distance(Front(left), Front(right)) + (if Last(left) == Last(right) then 0 else 1))
  }

  /** The value of a cell of the table. */
  function Cell(left: string, right: string, i: nat, j: nat): nat
    requires i <= |left| && j <= |right|
  {
    Distance(left[..i], right[..j])
  }

  lemma EdgeCells(left: string, right: string, i: nat, j: nat)
    requires i <= |left| && j <= |right|
    ensures Cell(left, right, i, 0) == i && Cell(left, right, 0, j) == j
  {
  }

  lemma InnerCell(left: string, right: string, i: nat, j: nat)
    requires 0 < i <= |left| && 0 < j <= |right|
    ensures Cell(left, right, i, j) ==
            Min3(Cell(left, right, i - 1, j) + 1, Cell(left, right, i, j - 1) + 1,
                 Cell(left, right, i - 1, j - 1) + (if left[i - 1] == right[j - 1] then 0 else 1))
  {
    assert Front(left[..i]) == left[..i - 1] && Front(right[..j]) == right[..j - 1];
  }

  predicate RowDone(matrix: array2<nat>, left: string, right: string, i: nat, cols: nat)
    requires i <= |left| && cols <= |right| + 1
    requires matrix.Length0 == |left| + 1 && matrix.Length1 == |right| + 1
    reads matrix
  {
    forall m :: 0 <= m < cols ==> matrix[i, m] == Cell(left, right, i, m)
  }

  /** The inner loop: one row from the row above it. */
  method FillRow(matrix: array2<nat>, left: string, right: string, i: nat)
    requires matrix.Length0 == |left| + 1 && matrix.Length1 == |right| + 1
    requires 0 < i <= |left| && matrix[i, 0] == i && RowDone(matrix, left, right, i - 1, |right| + 1)
    modifies matrix
    ensures RowDone(matrix, left, right, i, |right| + 1)
    ensures forall k, m :: 0 <= k < matrix.Length0 && 0 <= m < matrix.Length1 && k != i ==>
                             matrix[k, m] == old(matrix[k, m])
  {
    EdgeCells(left, right, i, 0);
    var j := 1;
    while j < |right| + 1
      invariant 1 <= j <= |right| + 1
      invariant RowDone(matrix, left, right, i - 1, |right| + 1) && RowDone(matrix, left, right, i, j)
      invariant forall k, m :: 0 <= k < matrix.Length0 && 0 <= m < matrix.Length1 && k != i ==>
                                 matrix[k, m] == old(matrix[k, m])
    {
      var cost := if left[i - 1] == right[j - 1] then 0 else 1;
      matrix[i, j] := Min3(matrix[i - 1, j] + 1, matrix[i, j - 1] + 1, matrix[i - 1, j - 1] + cost);
      InnerCell(left, right, i, j);
      j := j + 1;
    }
  }

  /** levenshteinDistance: the table filled row by row in place. */
  method LevenshteinDistance(left: string, right: string) returns (d: nat)
    ensures d == Distance(left, right)
  {
    if left == right {
      DistanceToSelf(left);
      return 0;
    }
    if |left| == 0 {
      return |right|;
    }
    if |right| == 0 {
      return |left|;
    }
    var rows, cols := |left| + 1, |right| + 1;
    var matrix := new nat[rows, cols]((_, _) => 0);
    var i := 0;
    while i < rows
      invariant 0 <= i <= rows
      invariant forall k :: 0 <= k < i ==> matrix[k, 0] == k
    {
      matrix[i, 0] := i;
      i := i + 1;
    }
    var j := 0;
    while j < cols
      invariant 0 <= j <= cols
      invariant forall k :: 0 <= k < rows ==> matrix[k, 0] == k
      invariant RowDone(matrix, left, right, 0, j)
    {
      matrix[0, j] := j;
      EdgeCells(left, right, 0, j);
      j := j + 1;
    }
    i := 1;
    while i < rows
      invariant 1 <= i <= rows
      invariant forall k :: 0 <= k < rows ==> matrix[k, 0] == k
      invariant RowDone(matrix, left, right, i - 1, cols)
    {
      FillRow(matrix, left, right, i);
      EdgeCells(left, right, i, 0);
      i := i + 1;
    }
    assert left[..|left|] == left && right[..|right|] == right;
    assert matrix[rows - 1, cols - 1] == Cell(left, right, rows - 1, cols - 1);
    d := matrix[rows - 1, cols - 1];
  }

  lemma {:induction false} DistanceToSelf(s: string)
    ensures Distance(s, s) == 0
  {
    if s != "" {
      DistanceToSelf(Front(s));
    }
  }

  function Inserts(s: string): Script {
    if s == "" then Done else Insert(Inserts(Front(s)), Last(s))
  }

  function Deletes(n: nat): Script {
    if n == 0 then Done else Delete(Deletes(n - 1))
  }

  lemma {:induction false} InsertsTurn(s: string)
    ensures Turns(Inserts(s), "", s) && Cost(Inserts(s)) == |s|
  {
    if s != "" {
      InsertsTurn(Front(s));
    }
  }

  lemma {:induction false} DeletesTurn(s: string)
    ensures Turns(Deletes(|s|), s, "") && Cost(Deletes(|s|)) == |s|
  {
    if s != "" {
      DeletesTurn(Front(s));
    }
  }

  /** The script that the table stands for. */
  function Best(left: string, right: string): Script
    decreases |left| + |right|
  {
    if left == "" then Inserts(right)
    else if right == "" then Deletes(|left|)
    else
      var d := Distance(left, right);
      if d == Distance(Front(left), right) + 1 then Delete(Best(Front(left), right))
      else if d == Distance(left, Front(right)) + 1 then Insert(Best(left, Front(right)), Last(right))
      else if Last(left) == Last(right) then Keep(Best(Front(left), Front(right)))
      else Substitute(Best(Front(left), Front(right)), Last(right))
  }

  /** The distance is reached by a script .. */
  lemma {:induction false} BestReaches(left: string, right: string)
    ensures Turns(Best(left, right), left, right) && Cost(Best(left, right)) == Distance(left, right)
    decreases |left| + |right|
  {
    if left == "" {
      InsertsTurn(right);
    } else if right == "" {
      DeletesTurn(left);
    } else {
      BestReaches(Front(left), right);
      BestReaches(left, Front(right));
      BestReaches(Front(left), Front(right));
    }
  }

  lemma {:induction false} DistanceBounds(left: string, right: string)
    ensures left != "" ==> Distance(left, right) <= Distance(Front(left), right) + 1
    ensures right != "" ==> Distance(left, right) <= Distance(left, Front(right)) + 1
    ensures left == "" || right == "" ==> Distance(left, right) == |left| + |right|
  {
  }

  /** .. and no script is cheaper. */
  lemma {:induction false} NoScriptIsCheaper(e: Script, left: string, right: string)
    requires Turns(e, left, right)
    ensures Distance(left, right) <= Cost(e)
    decreases e
  {
    DistanceBounds(left, right);
    match e
    case Done =>
    case Keep(b) => NoScriptIsCheaper(b, Front(left), Front(right));
    case Substitute(b, _) => NoScriptIsCheaper(b, Front(left), Front(right));
    case Insert(b, _) => NoScriptIsCheaper(b, left, Front(right));
    case Delete(b) => NoScriptIsCheaper(b, Front(left), right);
  }

  // -- a metric --

  lemma {:induction false} FreeScriptKeeps(e: Script, left: string, right: string)
    requires Turns(e, left, right) && Cost(e) == 0
    ensures left == right
    decreases e
  {
    match e
    case Done =>
    case Keep(b) =>
      FreeScriptKeeps(b, Front(left), Front(right));
      assert left == Front(left) + [Last(left)] && right == Front(right) + [Last(right)];
  }

  lemma ZeroIffEqual(left: string, right: string)
    ensures Distance(left, right) == 0 <==> left == right
  {
    DistanceToSelf(left);
    BestReaches(left, right);
    if Distance(left, right) == 0 {
      FreeScriptKeeps(Best(left, right), left, right);
    }
  }

  lemma {:induction false} Symmetric(left: string, right: string)
    ensures Distance(left, right) == Distance(right, left)
    decreases |left| + |right|
  {
    if left != "" && right != "" {
      Symmetric(Front(left), right);
      Symmetric(left, Front(right));
      Symmetric(Front(left), Front(right));
    }
  }

  /** Doing one script after another, in at most the sum of their steps. */
  lemma {:induction false} Compose(e: Script, f: Script, a: string, b: string, c: string) returns (g: Script)
    requires Turns(e, a, b) && Turns(f, b, c)
    ensures Turns(g, a, c) && Cost(g) <= Cost(e) + Cost(f)
    decreases e, f
  {
    if f.Insert? {
      var h := Compose(e, f.before, a, b, Front(c));
      g := Insert(h, f.c);
    } else if e.Delete? {
      var h := Compose(e.before, f, Front(a), b, c);
      g := Delete(h);
    } else if e.Done? {
      g := Done;
    } else {
      match f
      case Delete(f') =>
        var h := Compose(e.before, f', if e.Insert? then a else Front(a), Front(b), c);
        g := if e.Insert? then h else Delete(h);
      case Keep(f') =>
        var h := Compose(e.before, f', if e.Insert? then a else Front(a), Front(b), Front(c));
        g := if e.Insert? then Insert(h, Last(c)) else if e.Keep? then Keep(h) else Substitute(h, Last(c));
      case Substitute(f', x) =>
        var h := Compose(e.before, f', if e.Insert? then a else Front(a), Front(b), Front(c));
        g := if e.Insert? then Insert(h, x) else Substitute(h, x);
    }
  }

  lemma {:induction false} Triangle(a: string, b: string, c: string)
    ensures Distance(a, c) <= Distance(a, b) + Distance(b, c)
  {
    BestReaches(a, b);
    BestReaches(b, c);
    var g := Compose(Best(a, b), Best(b, c), a, b, c);
    NoScriptIsCheaper(g, a, c);
  }
}
