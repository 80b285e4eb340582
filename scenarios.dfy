/**
 * Two small tables and what the contract-type report and the repair make
 * of them, worked out from the definitions.
 */
module Scenarios {
  import opened Wrappers
  import opened Schema
  import opened Grouping
  import opened Reports
  import opened Repair

  /**
   * One new month-to-month customer, tenure 0, MonthlyCharges 50.00,
   * TotalCharges NULL, not churned: one entry with total_customers 1,
   * avg_monthly_charges 50, churned_customers 0 and churn_rate_percent 0;
   * after the repair the row's TotalCharges is 0.
   */
  lemma SingleNewCustomer(c: Customer)
    requires c.contract == "Month-to-month" && c.tenure == 0 && c.monthlyCharges == 5000
    requires c.totalCharges == None && c.churn == "No"
    ensures var r := ChurnByContractType([c]);
      && |r| == 1
      && r[0].key == "Month-to-month" && r[0].total == 1 && r[0].churned == 0
      && AvgMonthlyCharges(r[0]) == 50.0 && ChurnRate(r[0]) == 0.0
    ensures Repaired([c]) == [c.(totalCharges := Some(0))]
  {
    SingleKeyGrouping([c], ContractOf, ChurnByContractType([c]));
    assert [c][..0] == [];
  }

  /** Two two-year customers, one of whom churned: churned_customers 1 of 2, a rate of 50. */
  lemma TwoYearHalfChurned(a: Customer, b: Customer)
    requires a.contract == "Two year" && b.contract == "Two year"
    requires a.churn == "Yes" && b.churn == "No"
    ensures var r := ChurnByContractType([a, b]);
      && |r| == 1
      && r[0].key == "Two year" && r[0].total == 2 && r[0].churned == 1
      && ChurnRate(r[0]) == 50.0
  {
    var rows := [a, b];
    var r := ChurnByContractType(rows);
    SingleKeyGrouping(rows, ContractOf, r);
    OneOfTwoChurned(a, b);
    var g := Summary("Two year", rows);
    assert r == [g];
    assert ChurnRate(g) == 100.0 * 1.0 / 2.0;
  }

  lemma OneOfTwoChurned(a: Customer, b: Customer)
    requires IsChurned(a) && !IsChurned(b)
    ensures ChurnedCount([a, b]) == 1
  {
    assert [a, b][..1] == [a];
    assert [a][..0] == [];
  }
}
