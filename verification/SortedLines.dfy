/** The lines of a map in the order of their keys. */
module SortedLines {
  import opened Sorting

  datatype Line<K, V> = Line(key: K, cells: V)

  ghost predicate TotalOrder<K(!new)>(before: Before<K>) {
    && (forall a :: !before(a, a))
    && (forall a, b :: a != b ==> before(a, b) || before(b, a))
    && (forall a, b, c :: before(a, b) && before(b, c) ==> before(a, c))
  }

  ghost predicate Increasing<K, V>(before: Before<K>, lines: seq<Line<K, V>>) {
    forall i, j :: 0 <= i < j < |lines| ==> before(lines[i].key, lines[j].key)
  }

  /** Exactly the entries of the map, in increasing order. */
  ghost predicate LinesOf<K(!new), V(!new)>(before: Before<K>, m: map<K, V>, lines: seq<Line<K, V>>) {
    && Increasing(before, lines)
    && forall line :: line in lines <==> line.key in m && m[line.key] == line.cells
  }

  function ByKey<K, V>(before: Before<K>): Before<Line<K, V>> {
    (a: Line<K, V>, b: Line<K, V>) => before(a.key, b.key)
  }

  lemma {:induction false} InsertIncreases<K(!new), V(!new)>(before: Before<K>, line: Line<K, V>,
                                                             lines: seq<Line<K, V>>)
    requires TotalOrder(before) && Increasing(before, lines) && forall x :: x in lines ==> x.key != line.key
    ensures Increasing(before, Insert(ByKey(before), line, lines))
    ensures forall x :: x in Insert(ByKey(before), line, lines) <==> x == line || x in lines
  {
    var byKey: Before<Line<K, V>> := ByKey(before);
    forall a, b, c | byKey(a, b) && byKey(b, c) ensures byKey(a, c) {
      assert before(a.key, b.key) && before(b.key, c.key);
    }
    InsertSorts(byKey, line, lines);
  }

  /** Array.from(map.values()).sort(..) */
  method SortLines<K(!new, ==), V(!new)>(before: Before<K>, m: map<K, V>) returns (lines: seq<Line<K, V>>)
    requires TotalOrder(before)
    ensures LinesOf(before, m, lines)
  {
    lines := [];
    var todo := m.Keys;
    while todo != {}
      invariant todo <= m.Keys && Increasing(before, lines)
      invariant forall x :: x in lines <==> x.key in m && x.key !in todo && m[x.key] == x.cells
      decreases |todo|
    {
      var k :| k in todo;
      InsertIncreases(before, Line(k, m[k]), lines);
      lines := Insert(ByKey(before), Line(k, m[k]), lines);
      todo := todo - {k};
    }
  }

  /** There is one such list for a map. */
  lemma {:induction false} LinesAreUnique<K(!new), V(!new)>(before: Before<K>, a: seq<Line<K, V>>, b: seq<Line<K, V>>)
    requires TotalOrder(before) && Increasing(before, a) && Increasing(before, b)
    requires forall x :: x in a <==> x in b
    ensures a == b
    decreases |a|
  {
    if a == [] {
      assert forall i :: 0 <= i < |b| ==> b[i] in a;
    } else {
      assert a[0] in a;
      assert b != [];
      assert b[0] in b;
      HeadTail(ByKey(before), a);
      HeadTail(ByKey(before), b);
      LinesAreUnique(before, a[1..], b[1..]);
      assert a == [a[0]] + a[1..] && b == [b[0]] + b[1..];
    }
  }

  predicate NatBefore(a: nat, b: nat) {
    a < b
  }

  /** By labor index, then by part index. */
  predicate PairBefore(a: (nat, nat), b: (nat, nat)) {
    if a.0 != b.0 then a.0 < b.0 else a.1 < b.1
  }

  lemma OrdersAreTotal()
    ensures TotalOrder(NatBefore) && TotalOrder(PairBefore)
  {
  }
}
