/**
 * The record schema of the `customer_churn` table: one `Customer` per row,
 * with the 21 columns of the CREATE TABLE statement in their declared order.
 */
module Schema {
  import opened Wrappers

  /** DuckDB's INTEGER: a signed 32-bit value. */
  type Int32 = x: int | -0x8000_0000 <= x < 0x8000_0000

  /**
   * DECIMAL(10,2) held as a whole number of cents: ten digits in all, two of
   * them after the decimal point, so at most 9999999999 cents either way.
   */
  type Cents = x: int | -9_999_999_999 <= x <= 9_999_999_999

  /** One row of `customer_churn`. VARCHAR columns are strings. */
  datatype Customer = Customer(
    customerID: string,
    gender: string,
    seniorCitizen: Int32,
    partner: string,
    dependents: string,
    tenure: Int32,
    phoneService: string,
    multipleLines: string,
    internetService: string,
    onlineSecurity: string,
    onlineBackup: string,
    deviceProtection: string,
    techSupport: string,
    streamingTV: string,
    streamingMovies: string,
    contract: string,
    paperlessBilling: string,
    paymentMethod: string,
    monthlyCharges: Cents,
    totalCharges: Option<Cents>,  // NULL is None
    churn: string
  )

  /** `Churn = 'Yes'`, the condition every churned-customer count sums over. */
  predicate IsChurned(c: Customer)
  {
    c.churn == "Yes"
  }
}
