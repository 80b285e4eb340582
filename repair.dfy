/**
 * The repair statement of /filing_missing_values:
 *   UPDATE customer_churn SET TotalCharges = 0 WHERE TotalCharges IS NULL AND tenure = 0
 * as an in-place pass over the table's rows, specified by the pure `Repaired`.
 */
module Repair {
  import opened Wrappers
  import opened Schema
  import opened Grouping

  /** The WHERE clause of the UPDATE. */
  predicate NeedsRepair(c: Customer)
  {
    c.totalCharges.None? && c.tenure == 0
  }

  /** The UPDATE applied to one row. */
  function RepairRow(c: Customer): (r: Customer)
    ensures !NeedsRepair(r)
    ensures r.(totalCharges := c.totalCharges) == c
    ensures r.totalCharges != c.totalCharges <==> NeedsRepair(c)
    ensures NeedsRepair(c) ==> r.totalCharges == Some(0)
  {
    if NeedsRepair(c) then c.(totalCharges := Some(0)) else c
  }

  /** The UPDATE applied to the whole table. */
  function Repaired(rows: seq<Customer>): (r: seq<Customer>)
    ensures |r| == |rows|
    ensures forall i :: 0 <= i < |rows| ==> r[i] == RepairRow(rows[i])
  {
    if rows == [] then [] else Repaired(rows[..|rows| - 1]) + [RepairRow(rows[|rows| - 1])]
  }

  /** The UPDATE run in place, row by row, over the table. */
  method FillingMissingValues(table: array<Customer>)
    modifies table
    ensures table[..] == Repaired(old(table[..]))
  {
    var i := 0;
    while i < table.Length
      invariant 0 <= i <= table.Length
      invariant forall k :: 0 <= k < i ==> table[k] == RepairRow(old(table[k]))
      invariant forall k :: i <= k < table.Length ==> table[k] == old(table[k])
    {
      if NeedsRepair(table[i]) {
        table[i] := RepairRow(table[i]);
      }
      i := i + 1;
    }
  }

  /** After the repair no row has tenure = 0 with a NULL TotalCharges. */
  lemma RepairLeavesNoGap(rows: seq<Customer>)
    ensures forall c :: c in Repaired(rows) ==> !NeedsRepair(c)
  {
    forall c | c in Repaired(rows) ensures !NeedsRepair(c) {
      var i :| 0 <= i < |rows| && Repaired(rows)[i] == c;
    }
  }

  /**
   * The repair keeps the row count and every row's other columns; it changes
   * TotalCharges exactly in the rows the WHERE clause selects, to 0. So a
   * NULL TotalCharges with tenure > 0 stays NULL.
   */
  lemma RepairFrame(rows: seq<Customer>)
    ensures |Repaired(rows)| == |rows|
    ensures forall i :: 0 <= i < |rows| ==>
      Repaired(rows)[i].(totalCharges := rows[i].totalCharges) == rows[i]
    ensures forall i :: 0 <= i < |rows| ==>
      (Repaired(rows)[i].totalCharges != rows[i].totalCharges <==> NeedsRepair(rows[i]))
    ensures forall i :: 0 <= i < |rows| && NeedsRepair(rows[i]) ==> Repaired(rows)[i].totalCharges == Some(0)
    ensures forall i :: 0 <= i < |rows| && rows[i].tenure > 0 && rows[i].totalCharges.None? ==>
      Repaired(rows)[i].totalCharges.None?
  {
  }

  /** Running the repair a second time changes nothing. */
  lemma RepairIdempotent(rows: seq<Customer>)
    ensures Repaired(Repaired(rows)) == Repaired(rows)
  {
    var once := Repaired(rows);
    assert forall i :: 0 <= i < |once| ==> !NeedsRepair(once[i]);
  }

  // How the repair shows in the reports

  lemma {:induction false} RepairedMembers<K>(rows: seq<Customer>, key: Customer -> K, k: K)
    requires forall c :: key(RepairRow(c)) == key(c)
    ensures Members(Repaired(rows), key, k) == Repaired(Members(rows, key, k))
  {
    if rows != [] {
      var prefix, last := rows[..|rows| - 1], rows[|rows| - 1];
      RepairedMembers(prefix, key, k);
      assert Repaired(rows) == Repaired(prefix) + [RepairRow(last)];
      MembersSnoc(Repaired(prefix), key, k, RepairRow(last));
      if key(last) == k {
        var ms := Members(prefix, key, k);
        assert (ms + [last])[..|ms|] == ms;
      } else {
        assert Members(rows, key, k) == Members(prefix, key, k);
      }
    }
  }

  lemma {:induction false} RepairedAggregates(ms: seq<Customer>)
    ensures ChurnedCount(Repaired(ms)) == ChurnedCount(ms)
    ensures TenureSum(Repaired(ms)) == TenureSum(ms)
    ensures MonthlySum(Repaired(ms)) == MonthlySum(ms)
    ensures ChargedSum(Repaired(ms)) == ChargedSum(ms)
    ensures ChargedCount(Repaired(ms)) >= ChargedCount(ms)
  {
    if ms != [] {
      var prefix := ms[..|ms| - 1];
      RepairedAggregates(prefix);
      var r := Repaired(ms);
      assert r[..|r| - 1] == Repaired(prefix);
    }
  }

  /**
   * For a report whose key is not TotalCharges, the repair leaves every
   * group's COUNT(*), churned count and sums as they were: of all the report
   * columns only avg_total_charges can move, because the repaired rows now
   * count towards its denominator with a TotalCharges of 0.
   */
  lemma RepairKeepsGroups<K>(rows: seq<Customer>, key: Customer -> K, k: K)
    requires forall c :: key(RepairRow(c)) == key(c)
    ensures var before, after := Tally(rows, key, k), Tally(Repaired(rows), key, k);
      && after.total == before.total
      && after.churned == before.churned
      && after.tenureSum == before.tenureSum
      && after.monthlySum == before.monthlySum
      && after.chargedSum == before.chargedSum
      && after.chargedCount >= before.chargedCount
  {
    RepairedMembers(rows, key, k);
    RepairedAggregates(Members(rows, key, k));
  }
}
