/**
 * The ORDER BY clauses of the reports. Each is a relation `Before(o, a, b)`
 * ("a may be listed ahead of b"); a result is ordered when every pair of
 * entries respects it. Entries that tie may come in either order, as in SQL.
 */
module Ordering {
  import opened Grouping

  datatype Order =
    | ChurnRateDesc              // ORDER BY churn_rate_percent DESC
    | AvgTenureDesc              // ORDER BY avg_tenure_months DESC
    | TotalDescThenChurnRateAsc  // ORDER BY total_customers DESC, churn_rate_percent

  predicate Before<K>(o: Order, a: Group<K>, b: Group<K>)
  {
    match o
    case ChurnRateDesc => ChurnRate(a) >= ChurnRate(b)
    case AvgTenureDesc => AvgTenure(a) >= AvgTenure(b)
    case TotalDescThenChurnRateAsc =>
      a.total > b.total || (a.total == b.total && ChurnRate(a) <= ChurnRate(b))
  }

  /** Every ORDER BY relation is total: any two entries can be put in some order. */
  lemma BeforeTotal<K>(o: Order, a: Group<K>, b: Group<K>)
    ensures Before(o, a, b) || Before(o, b, a)
  {
  }

  /** Every ORDER BY relation is transitive. */
  lemma BeforeTransitive<K>(o: Order, a: Group<K>, b: Group<K>, c: Group<K>)
    requires Before(o, a, b) && Before(o, b, c)
    ensures Before(o, a, c)
  {
  }

  ghost predicate Sorted<K>(o: Order, r: seq<Group<K>>)
  {
    forall i, j :: 0 <= i < j < |r| ==> Before(o, r[i], r[j])
  }

  lemma SortedTail<K>(o: Order, r: seq<Group<K>>)
    requires r != [] && Sorted(o, r)
    ensures Sorted(o, r[1..])
  {
    forall i, j | 0 <= i < j < |r| - 1 ensures Before(o, r[1..][i], r[1..][j]) {
      assert r[1..][i] == r[i + 1] && r[1..][j] == r[j + 1];
    }
  }

  lemma SortedCons<K>(o: Order, g: Group<K>, r: seq<Group<K>>)
    requires Sorted(o, r)
    requires forall x :: x in r ==> Before(o, g, x)
    ensures Sorted(o, [g] + r)
  {
    var r' := [g] + r;
    forall i, j | 0 <= i < j < |r'| ensures Before(o, r'[i], r'[j]) {
      assert r'[j] == r[j - 1];
      if i > 0 {
        assert r'[i] == r[i - 1];
      } else {
        assert r[j - 1] in r;
      }
    }
  }

  /** Puts `g` into an ordered sequence ahead of the first entry it may precede. */
  function Insert<K>(o: Order, g: Group<K>, r: seq<Group<K>>): (r': seq<Group<K>>)
    requires Sorted(o, r)
    ensures multiset(r') == multiset(r) + multiset{g}
    ensures Sorted(o, r')
  {
    if r == [] || Before(o, g, r[0]) then
      InsertHead(o, g, r);
      [g] + r
    else
      SortedTail(o, r);
      var rest := Insert(o, g, r[1..]);
      InsertBehind(o, g, r, rest);
      [r[0]] + rest
  }

  lemma InsertHead<K>(o: Order, g: Group<K>, r: seq<Group<K>>)
    requires Sorted(o, r)
    requires r == [] || Before(o, g, r[0])
    ensures multiset([g] + r) == multiset(r) + multiset{g}
    ensures Sorted(o, [g] + r)
  {
    forall x | x in r ensures Before(o, g, x) {
      var j :| 0 <= j < |r| && r[j] == x;
      if j > 0 { BeforeTransitive(o, g, r[0], r[j]); }
    }
    SortedCons(o, g, r);
  }

  lemma InsertBehind<K>(o: Order, g: Group<K>, r: seq<Group<K>>, rest: seq<Group<K>>)
    requires r != [] && Sorted(o, r) && !Before(o, g, r[0])
    requires multiset(rest) == multiset(r[1..]) + multiset{g}
    requires Sorted(o, rest)
    ensures multiset([r[0]] + rest) == multiset(r) + multiset{g}
    ensures Sorted(o, [r[0]] + rest)
  {
    assert r == [r[0]] + r[1..];
    BeforeTotal(o, g, r[0]);
    forall x | x in rest ensures Before(o, r[0], x) {
      assert x in multiset(rest);
      if x != g {
        assert x in multiset(r[1..]);
        var j :| 0 <= j < |r[1..]| && r[1..][j] == x;
        assert r[j + 1] == x;
      }
    }
    SortedCons(o, r[0], rest);
  }

  /** Sorting a result by an ORDER BY relation: ordered, and a permutation of its input. */
  function Sort<K>(o: Order, r: seq<Group<K>>): (r': seq<Group<K>>)
    ensures multiset(r') == multiset(r)
    ensures Sorted(o, r')
  {
    if r == [] then []
    else
      assert r == [r[0]] + r[1..];
      Insert(o, r[0], Sort(o, r[1..]))
  }
}
