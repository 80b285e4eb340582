/**
 * The GROUP BY executor shared by every report: the rows of `customer_churn`
 * are partitioned by a key, and each part becomes one `Group` holding the
 * aggregates the reports select (COUNT(*), the churned-customer SUM and the
 * sums behind the averages).
 *
 * `IsGrouping` is what SQL promises of such a result, with no order: one
 * entry per key that occurs, keys pairwise distinct, each entry's aggregates
 * taken over exactly the rows with that key. `GroupBy` computes one such
 * result in a single pass, in order of first occurrence.
 */
module Grouping {
  import opened Wrappers
  import opened Schema

  /** One GROUP BY result row. The sums are exact; averages are derived below. */
  datatype Group<K> = Group(
    key: K,
    total: nat,         // COUNT(*)
    churned: nat,       // SUM(CASE WHEN Churn = 'Yes' THEN 1 ELSE 0 END)
    tenureSum: int,     // SUM(tenure)
    monthlySum: int,    // SUM(MonthlyCharges), in cents
    chargedCount: nat,  // COUNT(TotalCharges): rows where it is not NULL
    chargedSum: int     // SUM(TotalCharges), in cents, NULLs skipped
  )

  // ---------------------------------------------------------------------
  // Aggregates over one group's rows
  // ---------------------------------------------------------------------

  /** SUM(CASE WHEN Churn = 'Yes' THEN 1 ELSE 0 END) */
  function ChurnedCount(ms: seq<Customer>): (n: nat)
    ensures n <= |ms|
    ensures n == 0 <==> forall c :: c in ms ==> !IsChurned(c)
  {
    if ms == [] then 0
    else ChurnedCount(ms[..|ms| - 1]) + (if IsChurned(ms[|ms| - 1]) then 1 else 0)
  }

  /** SUM(tenure) */
  function TenureSum(ms: seq<Customer>): int
  {
    if ms == [] then 0 else TenureSum(ms[..|ms| - 1]) + ms[|ms| - 1].tenure
  }

  /** SUM(MonthlyCharges) */
  function MonthlySum(ms: seq<Customer>): int
  {
    if ms == [] then 0 else MonthlySum(ms[..|ms| - 1]) + ms[|ms| - 1].monthlyCharges
  }

  /** COUNT(TotalCharges): the rows whose TotalCharges is not NULL */
  function ChargedCount(ms: seq<Customer>): (n: nat)
    ensures n <= |ms|
    ensures n == 0 <==> forall c :: c in ms ==> c.totalCharges.None?
  {
    if ms == [] then 0
    else ChargedCount(ms[..|ms| - 1]) + (if ms[|ms| - 1].totalCharges.Some? then 1 else 0)
  }

  /** SUM(TotalCharges), which skips NULLs */
  function ChargedSum(ms: seq<Customer>): int
  {
    if ms == [] then 0
    else ChargedSum(ms[..|ms| - 1]) + (match ms[|ms| - 1].totalCharges
                                         case None => 0
                                         case Some(v) => v)
  }

  /** The result row for key `k` whose group is `ms`. */
  function Summary<K>(k: K, ms: seq<Customer>): Group<K>
  {
    Group(k, |ms|, ChurnedCount(ms), TenureSum(ms), MonthlySum(ms), ChargedCount(ms), ChargedSum(ms))
  }

  // ---------------------------------------------------------------------
  // Derived measures (exact; the ROUND applied by the queries is not modelled)
  // ---------------------------------------------------------------------

  /** 100.0 * churned / COUNT(*). A group is never empty (GroupingBounds). */
  function ChurnRate<K>(g: Group<K>): (rate: real)
    ensures g.total > 0 ==> rate * (g.total as real) == 100.0 * (g.churned as real)
  {
    if g.total == 0 then 0.0 else 100.0 * (g.churned as real) / (g.total as real)
  }

  /** AVG(tenure), in months. */
  function AvgTenure<K>(g: Group<K>): (avg: real)
    ensures g.total > 0 ==> avg * (g.total as real) == g.tenureSum as real
  {
    if g.total == 0 then 0.0 else (g.tenureSum as real) / (g.total as real)
  }

  /** AVG(MonthlyCharges), in currency units. */
  function AvgMonthlyCharges<K>(g: Group<K>): (avg: real)
    ensures g.total > 0 ==> avg * (100 * g.total) as real == g.monthlySum as real
  {
    if g.total == 0 then 0.0 else (g.monthlySum as real) / (100 * g.total) as real
  }

  /** AVG(TotalCharges), in currency units: NULL when every TotalCharges of the group is NULL. */
  function AvgTotalCharges<K>(g: Group<K>): (avg: Option<real>)
    ensures avg.None? <==> g.chargedCount == 0
    ensures avg.Some? ==> avg.value * (100 * g.chargedCount) as real == g.chargedSum as real
  {
    if g.chargedCount == 0 then None else Some((g.chargedSum as real) / (100 * g.chargedCount) as real)
  }

  lemma ChurnRateBounds<K>(g: Group<K>)
    requires g.churned <= g.total
    ensures 0.0 <= ChurnRate(g) <= 100.0
  {
    if g.total > 0 {
      var c, t := g.churned as real, g.total as real;
      assert c / t <= 1.0 by {
        assert (c / t) * t == c;
      }
      assert ChurnRate(g) == 100.0 * (c / t);
    }
  }

  // ---------------------------------------------------------------------
  // What a GROUP BY result is
  // ---------------------------------------------------------------------

  /** The rows of `rows` whose key is `k`, in table order: one group. */
  function Members<K(==)>(rows: seq<Customer>, key: Customer -> K, k: K): (ms: seq<Customer>)
    ensures |ms| <= |rows|
    ensures forall c :: c in ms <==> c in rows && key(c) == k
    ensures forall c {:trigger multiset(ms)[c]} :: multiset(ms)[c] == if key(c) == k then multiset(rows)[c] else 0
  {
    assert rows != [] ==> rows == rows[..|rows| - 1] + [rows[|rows| - 1]];
    if rows == [] then []
    else Members(rows[..|rows| - 1], key, k)
         + (if key(rows[|rows| - 1]) == k then [rows[|rows| - 1]] else [])
  }

  /** The result row SQL gives for key `k`: the aggregates over its group. */
  function Tally<K(==)>(rows: seq<Customer>, key: Customer -> K, k: K): Group<K>
  {
    Summary(k, Members(rows, key, k))
  }

  /** The keys that occur in the table. */
  function KeysOf<K>(rows: seq<Customer>, key: Customer -> K): set<K>
  {
    set c | c in rows :: key(c)
  }

  /** The keys that occur in a result. */
  function KeySet<K>(r: seq<Group<K>>): set<K>
  {
    set g | g in r :: g.key
  }

  ghost predicate KeysDistinct<K>(r: seq<Group<K>>)
  {
    forall i, j :: 0 <= i < j < |r| ==> r[i].key != r[j].key
  }

  ghost predicate Tallied<K>(rows: seq<Customer>, key: Customer -> K, r: seq<Group<K>>)
  {
    forall i :: 0 <= i < |r| ==> r[i] == Tally(rows, key, r[i].key)
  }

  /**
   * `r` is a result of `SELECT key, aggregates ... GROUP BY key` over `rows`,
   * in some order: keys pairwise distinct, a key occurs in `r` exactly when
   * some row has it, and each entry holds its group's aggregates.
   */
  ghost predicate IsGrouping<K>(rows: seq<Customer>, key: Customer -> K, r: seq<Group<K>>)
  {
    && KeysDistinct(r)
    && Tallied(rows, key, r)
    && KeySet(r) == KeysOf(rows, key)
  }

  // ---------------------------------------------------------------------
  // The executor
  // ---------------------------------------------------------------------

  /** Adds one row to a group's running aggregates. */
  function Add<K>(g: Group<K>, c: Customer): Group<K>
  {
    Group(g.key,
          g.total + 1,
          g.churned + (if IsChurned(c) then 1 else 0),
          g.tenureSum + c.tenure,
          g.monthlySum + c.monthlyCharges,
          g.chargedCount + (if c.totalCharges.Some? then 1 else 0),
          g.chargedSum + (match c.totalCharges case None => 0 case Some(v) => v))
  }

  /** Position of the entry with key `k`, or |r| when there is none. */
  function IndexOfKey<K(==)>(r: seq<Group<K>>, k: K): (i: nat)
    ensures i <= |r|
    ensures i < |r| ==> r[i].key == k
    ensures i == |r| ==> forall j :: 0 <= j < |r| ==> r[j].key != k
  {
    if r == [] then 0 else if r[0].key == k then 0 else 1 + IndexOfKey(r[1..], k)
  }

  /** Folds one more row into a partial result. */
  function Accumulate<K(==)>(r: seq<Group<K>>, key: Customer -> K, c: Customer): seq<Group<K>>
  {
    var i := IndexOfKey(r, key(c));
    if i < |r| then r[i := Add(r[i], c)] else r + [Add(Summary(key(c), []), c)]
  }

  /** GROUP BY `key` over the whole table, entries in order of first occurrence. */
  function GroupBy<K(==)>(rows: seq<Customer>, key: Customer -> K): (r: seq<Group<K>>)
    ensures IsGrouping(rows, key, r)
  {
    if rows == [] then []
    else
      var prior := GroupBy(rows[..|rows| - 1], key);
      AccumulateStep(rows, key, prior);
      Accumulate(prior, key, rows[|rows| - 1])
  }

  lemma SummarySnoc<K>(k: K, ms: seq<Customer>, c: Customer)
    ensures Summary(k, ms + [c]) == Add(Summary(k, ms), c)
  {
    assert (ms + [c])[..|ms|] == ms;
  }

  /** How one more row changes the rows of key `k`. */
  lemma MembersSnoc<K>(rows: seq<Customer>, key: Customer -> K, k: K, c: Customer)
    ensures Members(rows + [c], key, k) == Members(rows, key, k) + (if key(c) == k then [c] else [])
  {
    assert (rows + [c])[..|rows|] == rows;
  }

  /** How one more row changes the entry of key `k`. */
  lemma TallySnoc<K>(rows: seq<Customer>, key: Customer -> K, k: K, c: Customer)
    ensures Tally(rows + [c], key, k) == if key(c) == k then Add(Tally(rows, key, k), c) else Tally(rows, key, k)
  {
    MembersSnoc(rows, key, k, c);
    var ms := Members(rows, key, k);
    if key(c) == k {
      SummarySnoc(k, ms, c);
    } else {
      assert ms + [] == ms;
    }
  }

  lemma KeysOfSnoc<K>(rows: seq<Customer>, key: Customer -> K, c: Customer)
    ensures KeysOf(rows + [c], key) == KeysOf(rows, key) + {key(c)}
  {
    assert c in rows + [c];
    forall x | x in rows ensures x in rows + [c] { }
  }

  lemma AbsentKeyEmpty<K>(rows: seq<Customer>, key: Customer -> K, k: K)
    requires k !in KeysOf(rows, key)
    ensures Members(rows, key, k) == []
  {
  }

  /** One more row keeps a partial result a grouping of the rows seen so far. */
  lemma AccumulateStep<K>(rows': seq<Customer>, key: Customer -> K, r: seq<Group<K>>)
    requires rows' != []
    requires IsGrouping(rows'[..|rows'| - 1], key, r)
    ensures IsGrouping(rows', key, Accumulate(r, key, rows'[|rows'| - 1]))
  {
    var rows, c := rows'[..|rows'| - 1], rows'[|rows'| - 1];
    assert rows' == rows + [c];
    var i := IndexOfKey(r, key(c));
    KeysOfSnoc(rows, key, c);
    if i < |r| {
      ExistingKeyStep(rows, key, r, c, i);
    } else {
      NewKeyStep(rows, key, r, c);
    }
  }

  lemma ExistingKeyStep<K>(rows: seq<Customer>, key: Customer -> K, r: seq<Group<K>>, c: Customer, i: nat)
    requires IsGrouping(rows, key, r)
    requires i < |r| && r[i].key == key(c)
    requires KeysOf(rows + [c], key) == KeysOf(rows, key) + {key(c)}
    ensures IsGrouping(rows + [c], key, r[i := Add(r[i], c)])
  {
    var r' := r[i := Add(r[i], c)];
    forall j | 0 <= j < |r'| ensures r'[j] == Tally(rows + [c], key, r'[j].key) {
      TallySnoc(rows, key, r[j].key, c);
    }
    SameKeysUpdate(r, i, Add(r[i], c));
    assert r[i] in r;
  }

  /** Replacing an entry by one with the same key keeps the keys. */
  lemma SameKeysUpdate<K>(r: seq<Group<K>>, i: nat, g: Group<K>)
    requires i < |r| && g.key == r[i].key
    ensures KeySet(r[i := g]) == KeySet(r)
    ensures KeysDistinct(r) ==> KeysDistinct(r[i := g])
  {
    var r' := r[i := g];
    assert forall j :: 0 <= j < |r'| ==> r'[j].key == r[j].key;
    forall x | x in r' ensures x.key in KeySet(r) {
      var j :| 0 <= j < |r'| && r'[j] == x;
      assert r[j] in r;
    }
    forall x | x in r ensures x.key in KeySet(r') {
      var j :| 0 <= j < |r| && r[j] == x;
      assert r'[j] in r';
    }
  }

  lemma NewKeyStep<K>(rows: seq<Customer>, key: Customer -> K, r: seq<Group<K>>, c: Customer)
    requires IsGrouping(rows, key, r)
    requires forall j :: 0 <= j < |r| ==> r[j].key != key(c)
    requires KeysOf(rows + [c], key) == KeysOf(rows, key) + {key(c)}
    ensures IsGrouping(rows + [c], key, r + [Add(Summary(key(c), []), c)])
  {
    var k := key(c);
    var g := Add(Summary(k, []), c);
    var r' := r + [g];
    assert k !in KeySet(r);
    AbsentKeyEmpty(rows, key, k);
    TallySnoc(rows, key, k, c);
    assert g == Tally(rows + [c], key, k);
    forall j | 0 <= j < |r| ensures r'[j] == Tally(rows + [c], key, r'[j].key) {
      TallySnoc(rows, key, r[j].key, c);
    }
    KeySetSnoc(r, g);
  }

  lemma KeySetSnoc<K>(r: seq<Group<K>>, g: Group<K>)
    ensures KeySet(r + [g]) == KeySet(r) + {g.key}
    ensures KeysDistinct(r) && g.key !in KeySet(r) ==> KeysDistinct(r + [g])
  {
    var r' := r + [g];
    assert r'[|r|] in r';
    forall x | x in r' ensures x in r || x == g { }
    forall x | x in r ensures x in r' { }
    if KeysDistinct(r) && g.key !in KeySet(r) {
      forall i | 0 <= i < |r| ensures r[i].key != g.key {
        assert r[i] in r;
      }
    }
  }

  // ---------------------------------------------------------------------
  // Properties of every GROUP BY result
  // ---------------------------------------------------------------------

  lemma PresentKeyNonEmpty<K>(rows: seq<Customer>, key: Customer -> K, k: K)
    requires k in KeysOf(rows, key)
    ensures Tally(rows, key, k).total >= 1
  {
    var c :| c in rows && key(c) == k;
    assert c in Members(rows, key, k);
  }

  /**
   * Every entry of a result has 1 <= total_customers <= |rows| and
   * 0 <= churned_customers <= total_customers, so its churn rate is
   * defined and lies in [0, 100].
   */
  lemma GroupingBounds<K>(rows: seq<Customer>, key: Customer -> K, r: seq<Group<K>>)
    requires IsGrouping(rows, key, r)
    ensures forall g :: g in r ==> 1 <= g.total <= |rows| && g.churned <= g.total
    ensures forall g :: g in r ==> 0.0 <= ChurnRate(g) <= 100.0
  {
    forall g | g in r
      ensures 1 <= g.total <= |rows| && g.churned <= g.total
      ensures 0.0 <= ChurnRate(g) <= 100.0
    {
      var i :| 0 <= i < |r| && r[i] == g;
      assert g.key in KeySet(r);
      PresentKeyNonEmpty(rows, key, g.key);
      ChurnRateBounds(g);
    }
  }

  /** A result is empty exactly when the table is. */
  lemma GroupingEmpty<K>(rows: seq<Customer>, key: Customer -> K, r: seq<Group<K>>)
    requires IsGrouping(rows, key, r)
    ensures r == [] <==> rows == []
  {
    if r != [] {
      assert r[0].key in KeySet(r);
    }
    if rows != [] {
      assert key(rows[0]) in KeysOf(rows, key);
    }
  }

  /** SUM of COUNT(*) over the entries of a result. */
  function SumTotals<K>(r: seq<Group<K>>): nat
  {
    if r == [] then 0 else r[0].total + SumTotals(r[1..])
  }

  /** How many rows have a key in `s`. */
  function CountIn<K(==)>(rows: seq<Customer>, key: Customer -> K, s: set<K>): nat
  {
    if rows == [] then 0
    else CountIn(rows[..|rows| - 1], key, s) + (if key(rows[|rows| - 1]) in s then 1 else 0)
  }

  lemma {:induction false} CountInInsert<K>(rows: seq<Customer>, key: Customer -> K, s: set<K>, k: K)
    requires k !in s
    ensures CountIn(rows, key, s + {k}) == CountIn(rows, key, s) + |Members(rows, key, k)|
  {
    if rows != [] {
      CountInInsert(rows[..|rows| - 1], key, s, k);
    }
  }

  lemma {:induction false} CountInAll<K>(rows: seq<Customer>, key: Customer -> K, s: set<K>)
    requires KeysOf(rows, key) <= s
    ensures CountIn(rows, key, s) == |rows|
  {
    if rows != [] {
      var prefix := rows[..|rows| - 1];
      assert KeysOf(prefix, key) <= KeysOf(rows, key) by {
        forall k | k in KeysOf(prefix, key) ensures k in KeysOf(rows, key) {
          var c :| c in prefix && key(c) == k;
          assert c in rows;
        }
      }
      assert key(rows[|rows| - 1]) in KeysOf(rows, key);
      CountInAll(prefix, key, s);
    }
  }

  lemma {:induction false} SumTotalsCount<K>(rows: seq<Customer>, key: Customer -> K, r: seq<Group<K>>)
    requires KeysDistinct(r) && Tallied(rows, key, r)
    ensures SumTotals(r) == CountIn(rows, key, KeySet(r))
  {
    if r == [] {
      assert KeySet(r) == {};
      CountInEmpty(rows, key);
    } else {
      var rest := r[1..];
      KeySetCons(r);
      assert Tallied(rows, key, rest) by {
        forall i | 0 <= i < |rest| ensures rest[i] == r[i + 1] { }
      }
      SumTotalsCount(rows, key, rest);
      CountInInsert(rows, key, KeySet(rest), r[0].key);
    }
  }

  /** The first entry's key and the keys of the others. */
  lemma KeySetCons<K>(r: seq<Group<K>>)
    requires r != []
    ensures KeySet(r) == KeySet(r[1..]) + {r[0].key}
    ensures KeysDistinct(r) ==> KeysDistinct(r[1..]) && r[0].key !in KeySet(r[1..])
  {
    var rest := r[1..];
    assert r == [r[0]] + rest;
    assert forall j :: 0 <= j < |rest| ==> rest[j] == r[j + 1];
    if KeysDistinct(r) {
      assert forall j :: 0 <= j < |rest| ==> rest[j].key != r[0].key;
    }
  }

  lemma {:induction false} CountInEmpty<K>(rows: seq<Customer>, key: Customer -> K)
    ensures CountIn(rows, key, {}) == 0
  {
    if rows != [] {
      CountInEmpty(rows[..|rows| - 1], key);
    }
  }

  /** The groups partition the table: the total_customers of a result add up to its row count. */
  lemma GroupingPartition<K>(rows: seq<Customer>, key: Customer -> K, r: seq<Group<K>>)
    requires IsGrouping(rows, key, r)
    ensures SumTotals(r) == |rows|
  {
    SumTotalsCount(rows, key, r);
    CountInAll(rows, key, KeySet(r));
  }

  // ---------------------------------------------------------------------
  // A result is determined up to the order of its entries
  // ---------------------------------------------------------------------

  lemma {:induction false} DistinctOnce<K>(r: seq<Group<K>>)
    requires KeysDistinct(r)
    ensures forall g :: multiset(r)[g] <= 1
  {
    if r != [] {
      var rest := r[1..];
      KeySetCons(r);
      DistinctOnce(rest);
      assert r == [r[0]] + rest;
      assert multiset(r) == multiset{r[0]} + multiset(rest);
      assert r[0] !in rest;
    }
  }

  lemma RepeatedTwice<T>(s: seq<T>, i: nat, j: nat)
    requires i < j < |s| && s[i] == s[j]
    ensures multiset(s)[s[i]] >= 2
  {
    assert s == s[..j] + s[j..];
    assert s[i] in s[..j];
    assert s[j] in s[j..];
    assert multiset(s) == multiset(s[..j]) + multiset(s[j..]);
  }

  /** Reordering a result gives a result. */
  lemma GroupingPermutation<K>(rows: seq<Customer>, key: Customer -> K, r1: seq<Group<K>>, r2: seq<Group<K>>)
    requires IsGrouping(rows, key, r1)
    requires multiset(r1) == multiset(r2)
    ensures IsGrouping(rows, key, r2)
  {
    assert forall g :: g in r2 <==> g in r1 by {
      forall g ensures g in r2 <==> g in r1 {
        assert g in r2 <==> g in multiset(r2);
        assert g in r1 <==> g in multiset(r1);
      }
    }
    forall i | 0 <= i < |r2| ensures r2[i] == Tally(rows, key, r2[i].key) {
      assert r2[i] in r1;
      var j :| 0 <= j < |r1| && r1[j] == r2[i];
    }
    assert KeySet(r2) == KeySet(r1);
    DistinctOnce(r1);
    forall i, j | 0 <= i < j < |r2| ensures r2[i].key != r2[j].key {
      if r2[i].key == r2[j].key {
        assert r2[i] == r2[j];
        RepeatedTwice(r2, i, j);
        assert false;
      }
    }
  }

  /** Any two results of the same GROUP BY hold the same entries: they can differ only in order. */
  lemma GroupingUnique<K>(rows: seq<Customer>, key: Customer -> K, r1: seq<Group<K>>, r2: seq<Group<K>>)
    requires IsGrouping(rows, key, r1)
    requires IsGrouping(rows, key, r2)
    ensures multiset(r1) == multiset(r2)
  {
    forall g | g in r1 ensures g in r2 {
      SameEntry(rows, key, r1, r2, g);
    }
    forall g | g in r2 ensures g in r1 {
      SameEntry(rows, key, r2, r1, g);
    }
    DistinctOnce(r1);
    DistinctOnce(r2);
    forall g ensures multiset(r1)[g] == multiset(r2)[g] {
      assert g in r1 <==> g in r2;
    }
  }

  lemma {:induction false} AllMembers<K>(rows: seq<Customer>, key: Customer -> K, k: K)
    requires forall c :: c in rows ==> key(c) == k
    ensures Members(rows, key, k) == rows
  {
    if rows != [] {
      var prefix, last := rows[..|rows| - 1], rows[|rows| - 1];
      assert rows == prefix + [last];
      forall c | c in prefix ensures key(c) == k {
        assert c in rows;
      }
      AllMembers(prefix, key, k);
      MembersSnoc(prefix, key, k, last);
    }
  }

  /** When every row has the same key, the result is that one group. */
  lemma SingleKeyGrouping<K>(rows: seq<Customer>, key: Customer -> K, r: seq<Group<K>>)
    requires IsGrouping(rows, key, r)
    requires rows != [] && forall c :: c in rows ==> key(c) == key(rows[0])
    ensures r == [Summary(key(rows[0]), rows)]
  {
    var g := Summary(key(rows[0]), rows);
    OneGroup(rows, key);
    GroupingUnique(rows, key, r, [g]);
    assert |r| == |multiset(r)| == 1;
    assert r[0] in multiset(r);
  }

  /** The one-entry result of a table whose rows all share a key is a grouping. */
  lemma OneGroup<K>(rows: seq<Customer>, key: Customer -> K)
    requires rows != [] && forall c :: c in rows ==> key(c) == key(rows[0])
    ensures IsGrouping(rows, key, [Summary(key(rows[0]), rows)])
  {
    var g := Summary(key(rows[0]), rows);
    OneTally(rows, key, g.key);
    OneKey(rows, key);
    assert KeySet([g]) == {g.key} by {
      assert g in [g];
    }
  }

  lemma OneTally<K>(rows: seq<Customer>, key: Customer -> K, k: K)
    requires forall c :: c in rows ==> key(c) == k
    ensures Tallied(rows, key, [Summary(k, rows)])
  {
    AllMembers(rows, key, k);
  }

  lemma OneKey<K>(rows: seq<Customer>, key: Customer -> K)
    requires rows != [] && forall c :: c in rows ==> key(c) == key(rows[0])
    ensures KeysOf(rows, key) == {key(rows[0])}
  {
    assert rows[0] in rows;
  }

  lemma SameEntry<K>(rows: seq<Customer>, key: Customer -> K, r1: seq<Group<K>>, r2: seq<Group<K>>, g: Group<K>)
    requires IsGrouping(rows, key, r1)
    requires IsGrouping(rows, key, r2)
    requires g in r1
    ensures g in r2
  {
    var i :| 0 <= i < |r1| && r1[i] == g;
    assert g.key in KeySet(r1);
    var h :| h in r2 && h.key == g.key;
    var j :| 0 <= j < |r2| && r2[j] == h;
  }
}
