# Customer churn API: a Dafny model of its queries

The Customer Churn API is a small FastAPI service over one DuckDB/MotherDuck
table, `customer_churn`. Each endpoint opens a connection, runs one SQL
statement and closes the connection again. Seven endpoints are
`SELECT ... GROUP BY` reports of churn and tenure. One endpoint is an
`UPDATE` that fills in the missing `TotalCharges` of customers whose tenure
is zero. This project models what those statements compute and proves the
properties they promise.

- `schema.dfy` (`Schema`): the `Customer` row, taken from the 21 columns of
  the `CREATE TABLE` statement. The VARCHAR columns are strings. `tenure`
  and `SeniorCitizen` are 32-bit integers. The two `DECIMAL(10,2)` charges
  are whole cents. `TotalCharges` is an `Option`, because it may be NULL.
- `grouping.dfy` (`Grouping`): one GROUP BY executor that every report
  shares. `Group` holds a result row's exact aggregates: `COUNT(*)`, the
  churned `SUM(CASE ...)`, and the sums behind each `AVG`. Churn rate and
  averages are exact `real`s derived from those aggregates.
  - `IsGrouping` says, with no order, what SQL returns for a GROUP BY. Keys
    are distinct. A key appears exactly when some row has it. Each entry
    holds the aggregates of exactly the rows with its key.
  - `GroupBy` computes such a result in one pass over the rows.
  - The lemmas of this module hold for every result that satisfies
    `IsGrouping`.
- `ordering.dfy` (`Ordering`): the four `ORDER BY` clauses (api.py:85, 113,
  158, 196) as relations. Lines 85 and 196 both order by churn rate, so
  there are three distinct relations. Also `Sorted` and an insertion `Sort`.
- `reports.dfy` (`Reports`): the seven reports, each the executor with its
  key and, where the query has one, its ordering. Also lemmas that cover
  all seven reports.
- `repair.dfy` (`Repair`): the `UPDATE`, as a method that works in place on
  an array of rows, specified by the pure function `Repaired`. Also how
  the repair shows in the reports.
- `endpoint.dfy` (`Endpoint`): the connection life cycle. A failed connect
  is reported as HTTP 500. Otherwise the statement runs through the
  connection, which must be open for it,
  `finally: con.close()` runs on both paths, and a failed statement is
  reported as HTTP 500 `"Query failed: ..."`.
- `scenarios.dfy` (`Scenarios`): two small tables worked through the
  contract report and the repair.
- `wrappers.dfy` (`Wrappers`): `Option` and `Result`.

The service's inputs sit outside the model and enter as parameters:
- what `duckdb.connect` raises, if anything;
- whether a statement fails, and with which message;
- the table's rows.

## Model

| member | source | states |
|---|---|---|
| `Schema.Customer` | api.py:29-51 | one row of `customer_churn`: the 21 columns of the `CREATE TABLE`, with `TotalCharges` possibly NULL and the charges in whole cents within `DECIMAL(10,2)` |
| `Schema.IsChurned` | api.py:81 | the condition `Churn = 'Yes'` of the churned count |
| `Grouping.ChurnRate` | api.py:82 | `100.0 * churned / COUNT(*)` before rounding (also lines 155, 193, 222, 249): for a non-empty group, the rate times total_customers is 100 times churned_customers |
| `Grouping.AvgTenure` | api.py:109 | `AVG(tenure)` before rounding (also line 275): for a non-empty group, the average times the count is the sum of tenures |
| `Grouping.AvgMonthlyCharges` | api.py:80 | `AVG(MonthlyCharges)` in currency units before rounding (also lines 152, 276): for a non-empty group, the average times the count is the sum of the charges |
| `Grouping.AvgTotalCharges` | api.py:277 | `AVG(TotalCharges)` over the non-NULL values: NULL exactly when every TotalCharges of the group is NULL; otherwise the average times the non-NULL count is their sum |
| `Grouping.IsGrouping` | api.py:84 | what a GROUP BY returns, in no order: distinct keys, a key exactly when some row has it, and each entry holding the aggregates of exactly the rows with its key |
| `Grouping.Group` | api.py:79-82 | one GROUP BY result row: the key, `COUNT(*)` (total_customers), the churned `SUM(CASE ...)`, and the exact SUM and non-NULL COUNT behind each `AVG` (also lines 109-110, 152-155, 274-277); churn rate and averages are derived from these |
| `Grouping.ChurnedCount` | api.py:81 | `SUM(CASE WHEN Churn = 'Yes' THEN 1 ELSE 0 END)` never exceeds the number of rows summed over, and it is 0 exactly when no row has `Churn = 'Yes'` |
| `Grouping.ChargedCount` | api.py:277 | the number of non-NULL `TotalCharges`, the denominator of `AVG(TotalCharges)`, is at most the group size and is 0 exactly when every `TotalCharges` is NULL (then `AVG` is NULL) |
| `Grouping.Members` | api.py:84 | a group holds exactly the table's rows whose key equals the group key, each as often as it occurs in the table (so duplicate rows all count in COUNT(*)), and no more rows than the table |
| `Grouping.GroupBy` | api.py:77-84 | the shared executor: its result is a GROUP BY result of the table for the given key (`IsGrouping`) |
| `Grouping.ChurnRateBounds` | api.py:82 | `100.0 * churned / COUNT(*)` lies in [0, 100] whenever churned <= total |
| `Grouping.GroupingBounds` | api.py:79-82 | every entry of any GROUP BY result has 1 <= total_customers <= row count and churned_customers <= total_customers, so the division is defined and the churn rate lies in [0, 100] |
| `Grouping.GroupingEmpty` | api.py:84 | a GROUP BY result is empty exactly when the table is empty |
| `Grouping.GroupingPartition` | api.py:79-84 | the groups partition the table: total_customers summed over the entries equals the table's row count |
| `Grouping.GroupingPermutation` | api.py:217-225 | any reordering of a GROUP BY result is again a correct result, which is all a query without ORDER BY promises |
| `Grouping.GroupingUnique` | api.py:244-252 | any two correct results of the same GROUP BY hold the same entries (equal multisets), so a result is determined up to order |
| `Grouping.SingleKeyGrouping` | api.py:84 | when every row has the same key, the only result is the one entry aggregating the whole table |
| `Ordering.Before` | api.py:85-196 | the three ORDER BY relations of lines 85/196, 113 and 158: churn rate descending, average tenure descending, and total_customers descending then churn rate ascending |
| `Ordering.Sorted` | api.py:85-196 | a result is in the order of the ORDER BY clauses at lines 85, 113, 158 and 196: every entry may come before every later one |
| `Ordering.BeforeTotal` | api.py:85-196 | each ORDER BY relation is total: for any two entries at least one may come first |
| `Ordering.BeforeTransitive` | api.py:85-196 | each ORDER BY relation is transitive |
| `Ordering.Insert` | api.py:85 | inserting an entry into an ordered result keeps it ordered and adds exactly that entry |
| `Ordering.Sort` | api.py:85 | the sorted result is ordered under the chosen ORDER BY and is a permutation of its input |
| `Reports.Ordered` | api.py:84-85 | GROUP BY followed by ORDER BY: a GROUP BY result that is ordered |
| `Reports.ChurnByContractType` | api.py:76-86 | a GROUP BY `Contract` result, ordered by non-increasing churn rate |
| `Reports.TenureByPaymentMethod` | api.py:107-114 | a GROUP BY `PaymentMethod` result, ordered by non-increasing average tenure |
| `Reports.ServicesOf` | api.py:151-157 | the key of `GROUP BY ALL` in the service-combination query: all nine selected non-aggregate columns, PhoneService through StreamingMovies, so two rows share a group exactly when they agree on all nine |
| `Reports.HouseholdOf` | api.py:189-195 | the key of `GROUP BY ALL` in the dependents/partner query: the pair (`Dependents`, `Partner`), the query's two non-aggregate columns |
| `Reports.ChurnByServiceCombination` | api.py:149-159 | a GROUP BY result over the nine service columns, ordered by non-increasing total_customers and, among equal totals, non-decreasing churn rate |
| `Reports.ChurnByDependentsPartner` | api.py:187-197 | a GROUP BY (`Dependents`, `Partner`) result, ordered by non-increasing churn rate |
| `Reports.ChurnByAge` | api.py:217-225 | a GROUP BY `SeniorCitizen` result, in no particular order |
| `Reports.ChurnByGender` | api.py:244-252 | a GROUP BY `gender` result, in no particular order |
| `Reports.ChurnByTenure` | api.py:271-280 | a GROUP BY `Churn` result, in no particular order |
| `Reports.ReportsPartitionTable` | api.py:76-280 | in each of the seven reports, total_customers (customer_count) summed over the entries equals the table's row count |
| `Reports.ChurnReportsBounded` | api.py:76-252 | in each of the five churn reports, every entry has total_customers >= 1, churned_customers <= total_customers and a churn rate in [0, 100] |
| `Reports.ReportsEmptyIff` | api.py:76-280 | each of the seven reports is empty exactly when the table is empty |
| `Repair.NeedsRepair` | api.py:135 | the `WHERE TotalCharges IS NULL AND tenure = 0` of the UPDATE |
| `Repair.RepairRow` | api.py:133-135 | the UPDATE on one row: a matching row gets TotalCharges 0; afterwards the row no longer matches the WHERE clause, only TotalCharges may differ, and it differs exactly when the row matched |
| `Repair.Repaired` | api.py:133-135 | the table after the UPDATE: the same number of rows, each one `RepairRow` of the row at the same position |
| `Repair.FillingMissingValues` | api.py:133-135 | the in-place pass over the table leaves exactly `Repaired` of the old rows |
| `Repair.RepairLeavesNoGap` | api.py:133-135 | after the repair no row has tenure = 0 with a NULL TotalCharges |
| `Repair.RepairFrame` | api.py:133-135 | the repair keeps the row count and every column other than TotalCharges. It changes TotalCharges exactly in the rows with NULL TotalCharges and tenure = 0, and sets it to 0 there. NULL TotalCharges with tenure > 0 stays NULL |
| `Repair.RepairIdempotent` | api.py:133-135 | running the repair twice gives the same table as running it once |
| `Repair.RepairedMembers` | api.py:133-135 | for a key that does not read TotalCharges, the groups of the repaired table are the repaired groups |
| `Repair.RepairedAggregates` | api.py:133-135 | the repair keeps the churned count and the sums of a set of rows, and can only increase the count of non-NULL TotalCharges |
| `Repair.RepairKeepsGroups` | api.py:133-135 | for any report keyed on columns other than TotalCharges, the repair keeps every group's COUNT(*), churned count and sums, and only the denominator of `AVG(TotalCharges)` can grow |
| `Endpoint.Response` | api.py:97-98 | what an endpoint gives: its JSON body, or `HTTPException` with a status code and a detail message (as also at api.py:21) |
| `Endpoint.GetDbConnection` | api.py:16-21 | a connect that raises becomes HTTP 500 `"Database connection failed: ..."`; otherwise the caller gets a fresh open connection |
| `Endpoint.Connection.Close` | api.py:56 | after `con.close()` the connection is closed |
| `Endpoint.Answer` | api.py:97-98 | a statement's rows become the response body; its error becomes HTTP 500 `"Query failed: ..."` |
| `Endpoint.Connection.Execute` | api.py:76-98 | a read statement runs only on an open connection; its rows are the body and its error becomes HTTP 500 `"Query failed: ..."` |
| `Endpoint.Connection.ExecuteRepair` | api.py:132-140 | the UPDATE runs only on an open connection; on success the table becomes `Repaired` of the old table and the body is the empty list, on failure no row changes and the response is HTTP 500 `"Query failed: ..."` |
| `Endpoint.Serve` | api.py:73-100 | no connection is opened when connecting fails. Otherwise the connection is closed on return whether the statement succeeded or failed. The response is the statement's result or HTTP 500 `"Query failed: ..."` |
| `Endpoint.FillingMissingValuesEndpoint` | api.py:128-142 | on success the table becomes `Repaired` of the old table and the response is the empty list. On any failure no row changes. The connection is closed on every path that opened one |
| `Scenarios.SingleNewCustomer` | api.py:76-96 | one month-to-month row with tenure 0, MonthlyCharges 50.00, NULL TotalCharges, not churned: the contract report has one entry with total_customers 1, avg_monthly_charges 50, churned_customers 0 and churn rate 0. The repair sets that row's TotalCharges to 0 |
| `Scenarios.TwoYearHalfChurned` | api.py:76-96 | two two-year rows, one churned: one entry with churned_customers 1 of total_customers 2 and churn rate 50 |

## Left out

- HTTP routing, the `async` handlers and FastAPI itself. The model keeps only which response an endpoint gives: a body, or `HTTPException(status_code=500, detail=...)`.
- Loading `MOTHERDUCK_TOKEN` with dotenv and the `ValueError` when it is missing: configuration I/O at import time.
- `duckdb.connect` to MotherDuck is a network call. Its outcome is the parameter `connectError`, and only whether a connection is open is modelled.
- Running `CREATE TABLE IF NOT EXISTS`: the statement gives the `Customer` type only. Whether the table exists is the store's state. The endpoint's life cycle is `Serve` with an empty body.
- `COPY customer_churn FROM 'customer_churn.csv' (AUTO_DETECT TRUE)`: CSV parsing and type detection happen inside DuckDB. The loaded rows are simply the table the reports are given.
- `ROUND`: churn rates and averages are exact rationals (`real`), computed over integer cents. How DuckDB computes them (DOUBLE or DECIMAL) and rounds them is not modelled, and no rounded output is claimed.
- Reports.ChurnByContractType: ordered by the exact churn rate, while the query orders by the value already rounded to two places. This order is one the store may return, but groups whose rates round to the same value may also come the other way round.
- Reports.ChurnByDependentsPartner: ordered by the exact churn rate, where the query uses the rounded value, as above.
- Reports.TenureByPaymentMethod: ordered by the exact average tenure, where the query uses `ROUND(AVG(tenure), 2)`, as above.
- Reports.ChurnByServiceCombination: breaks ties in total_customers by the exact churn rate, where the query uses the rounded value, as above.
- NULL in any column other than `TotalCharges`: the model has no NULL key groups, no NULL `Churn` and no NULL `tenure`. Those columns are taken to be always present.
- Integer widths of the aggregates: DuckDB's `COUNT` is BIGINT and its `SUM` is HUGEINT. The model's counts and sums are unbounded integers, so overflow of those types is not modelled.
- The JSON dictionaries the endpoints build: the column names, their order and the misspelled key `avg_total_churges`. Each report's comment says which `Group` field or measure gives each column.
- Concurrency between endpoints and the store's isolation: nothing in the service coordinates them. The `UPDATE` is taken to be atomic, so on failure no row changes.
- Endpoint.Serve: the statement's outcome is given to it as a parameter, not computed from the table. The report functions supply that outcome.

## Notes on the code

- api.py reports every failure with status 500, including a store that cannot be reached (api.py:21, 54, 98).
- api.py has seven report queries (api.py:76-280).
- `DECIMAL(10,2)` admits negative charges, so the model does not assume charges are non-negative (api.py:48-49).
