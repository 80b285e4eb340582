/**
 * The seven SELECT ... GROUP BY reports, each the shared executor
 * instantiated with its group key and, where the query has one, its
 * ORDER BY. The columns each endpoint returns are the key and the measures
 * of `Group` named in each report's comment.
 */
module Reports {
  import opened Schema
  import opened Grouping
  import opened Ordering

  /** The nine service columns, in the order the service-combination query selects them. */
  datatype ServiceBundle = ServiceBundle(
    phoneService: string,
    multipleLines: string,
    internetService: string,
    onlineSecurity: string,
    onlineBackup: string,
    deviceProtection: string,
    techSupport: string,
    streamingTV: string,
    streamingMovies: string
  )

  // Group keys

  function ContractOf(c: Customer): string { c.contract }

  function PaymentMethodOf(c: Customer): string { c.paymentMethod }

  /** GROUP BY ALL over the nine selected service columns. */
  function ServicesOf(c: Customer): ServiceBundle
  {
    ServiceBundle(c.phoneService, c.multipleLines, c.internetService, c.onlineSecurity,
                  c.onlineBackup, c.deviceProtection, c.techSupport, c.streamingTV, c.streamingMovies)
  }

  /** GROUP BY ALL over (Dependents, Partner). */
  function HouseholdOf(c: Customer): (string, string) { (c.dependents, c.partner) }

  function SeniorCitizenOf(c: Customer): Int32 { c.seniorCitizen }

  function GenderOf(c: Customer): string { c.gender }

  function ChurnOf(c: Customer): string { c.churn }

  /** Sorting a grouping by an ORDER BY keeps it a grouping. */
  function Ordered<K(==)>(rows: seq<Customer>, key: Customer -> K, o: Order): (r: seq<Group<K>>)
    ensures IsGrouping(rows, key, r)
    ensures Sorted(o, r)
  {
    var g := GroupBy(rows, key);
    var s := Sort(o, g);
    GroupingPermutation(rows, key, g, s);
    s
  }

  // The reports

  /**
   * /churn_by_contract_type: Contract, total_customers, avg_monthly_charges
   * (AvgMonthlyCharges), churned_customers, churn_rate_percent (ChurnRate);
   * highest churn rate first.
   */
  function ChurnByContractType(rows: seq<Customer>): (r: seq<Group<string>>)
    ensures IsGrouping(rows, ContractOf, r)
    ensures Sorted(ChurnRateDesc, r)
  {
    Ordered(rows, ContractOf, ChurnRateDesc)
  }

  /**
   * /tenure_by_payment_method: PaymentMethod, avg_tenure_months (AvgTenure),
   * customer_count (total); longest average tenure first.
   */
  function TenureByPaymentMethod(rows: seq<Customer>): (r: seq<Group<string>>)
    ensures IsGrouping(rows, PaymentMethodOf, r)
    ensures Sorted(AvgTenureDesc, r)
  {
    Ordered(rows, PaymentMethodOf, AvgTenureDesc)
  }

  /**
   * /churn_by_service_combination: the nine service columns,
   * average_monthly_charges (AvgMonthlyCharges), total_customers,
   * churned_customers, churn_rate_percent; largest groups first, and among
   * equal sizes the lowest churn rate first.
   */
  function ChurnByServiceCombination(rows: seq<Customer>): (r: seq<Group<ServiceBundle>>)
    ensures IsGrouping(rows, ServicesOf, r)
    ensures Sorted(TotalDescThenChurnRateAsc, r)
  {
    Ordered(rows, ServicesOf, TotalDescThenChurnRateAsc)
  }

  /**
   * /churn_by_dependents_partner: Dependents, Partner, total_customers,
   * churned_customers, churn_rate_percent; highest churn rate first.
   */
  function ChurnByDependentsPartner(rows: seq<Customer>): (r: seq<Group<(string, string)>>)
    ensures IsGrouping(rows, HouseholdOf, r)
    ensures Sorted(ChurnRateDesc, r)
  {
    Ordered(rows, HouseholdOf, ChurnRateDesc)
  }

  /**
   * /churn_by_age: SeniorCitizen, total_customers, churned_customers,
   * churn_rate_percent; no ORDER BY, so any order of the entries is a
   * correct answer (GroupingPermutation, GroupingUnique).
   */
  function ChurnByAge(rows: seq<Customer>): (r: seq<Group<Int32>>)
    ensures IsGrouping(rows, SeniorCitizenOf, r)
  {
    GroupBy(rows, SeniorCitizenOf)
  }

  /** /churn_by_gender: gender, total_customers, churned_customers, churn_rate_percent; no ORDER BY. */
  function ChurnByGender(rows: seq<Customer>): (r: seq<Group<string>>)
    ensures IsGrouping(rows, GenderOf, r)
  {
    GroupBy(rows, GenderOf)
  }

  /**
   * /churn_by_tenure: Churn, total_customers, avg_tenure (AvgTenure),
   * avg_monthly_charges (AvgMonthlyCharges), avg_total_charges
   * (AvgTotalCharges, NULL for a group whose TotalCharges are all NULL);
   * no ORDER BY.
   */
  function ChurnByTenure(rows: seq<Customer>): (r: seq<Group<string>>)
    ensures IsGrouping(rows, ChurnOf, r)
  {
    GroupBy(rows, ChurnOf)
  }

  // What holds of all seven reports

  /** The total_customers / customer_count column of every report adds up to the table's row count. */
  lemma ReportsPartitionTable(rows: seq<Customer>)
    ensures SumTotals(ChurnByContractType(rows)) == |rows|
    ensures SumTotals(TenureByPaymentMethod(rows)) == |rows|
    ensures SumTotals(ChurnByServiceCombination(rows)) == |rows|
    ensures SumTotals(ChurnByDependentsPartner(rows)) == |rows|
    ensures SumTotals(ChurnByAge(rows)) == |rows|
    ensures SumTotals(ChurnByGender(rows)) == |rows|
    ensures SumTotals(ChurnByTenure(rows)) == |rows|
  {
    GroupingPartition(rows, ContractOf, ChurnByContractType(rows));
    GroupingPartition(rows, PaymentMethodOf, TenureByPaymentMethod(rows));
    GroupingPartition(rows, ServicesOf, ChurnByServiceCombination(rows));
    GroupingPartition(rows, HouseholdOf, ChurnByDependentsPartner(rows));
    GroupingPartition(rows, SeniorCitizenOf, ChurnByAge(rows));
    GroupingPartition(rows, GenderOf, ChurnByGender(rows));
    GroupingPartition(rows, ChurnOf, ChurnByTenure(rows));
  }

  /**
   * In every churn report each entry has 1 <= total_customers, churned_customers
   * <= total_customers and a churn_rate_percent in [0, 100].
   */
  lemma ChurnReportsBounded(rows: seq<Customer>)
    ensures forall g :: g in ChurnByContractType(rows) ==> 1 <= g.total && g.churned <= g.total && 0.0 <= ChurnRate(g) <= 100.0
    ensures forall g :: g in ChurnByServiceCombination(rows) ==> 1 <= g.total && g.churned <= g.total && 0.0 <= ChurnRate(g) <= 100.0
    ensures forall g :: g in ChurnByDependentsPartner(rows) ==> 1 <= g.total && g.churned <= g.total && 0.0 <= ChurnRate(g) <= 100.0
    ensures forall g :: g in ChurnByAge(rows) ==> 1 <= g.total && g.churned <= g.total && 0.0 <= ChurnRate(g) <= 100.0
    ensures forall g :: g in ChurnByGender(rows) ==> 1 <= g.total && g.churned <= g.total && 0.0 <= ChurnRate(g) <= 100.0
  {
    GroupingBounds(rows, ContractOf, ChurnByContractType(rows));
    GroupingBounds(rows, ServicesOf, ChurnByServiceCombination(rows));
    GroupingBounds(rows, HouseholdOf, ChurnByDependentsPartner(rows));
    GroupingBounds(rows, SeniorCitizenOf, ChurnByAge(rows));
    GroupingBounds(rows, GenderOf, ChurnByGender(rows));
  }

  /** An empty table gives an empty answer from every report, and only an empty table does. */
  lemma ReportsEmptyIff(rows: seq<Customer>)
    ensures ChurnByContractType(rows) == [] <==> rows == []
    ensures TenureByPaymentMethod(rows) == [] <==> rows == []
    ensures ChurnByServiceCombination(rows) == [] <==> rows == []
    ensures ChurnByDependentsPartner(rows) == [] <==> rows == []
    ensures ChurnByAge(rows) == [] <==> rows == []
    ensures ChurnByGender(rows) == [] <==> rows == []
    ensures ChurnByTenure(rows) == [] <==> rows == []
  {
    GroupingEmpty(rows, ContractOf, ChurnByContractType(rows));
    GroupingEmpty(rows, PaymentMethodOf, TenureByPaymentMethod(rows));
    GroupingEmpty(rows, ServicesOf, ChurnByServiceCombination(rows));
    GroupingEmpty(rows, HouseholdOf, ChurnByDependentsPartner(rows));
    GroupingEmpty(rows, SeniorCitizenOf, ChurnByAge(rows));
    GroupingEmpty(rows, GenderOf, ChurnByGender(rows));
    GroupingEmpty(rows, ChurnOf, ChurnByTenure(rows));
  }
}
