/**
 * The life cycle every endpoint shares: get_db_connection opens a
 * connection (its failure becomes HTTP 500 before anything else runs), one
 * statement runs inside try, any failure of it becomes HTTP 500
 * "Query failed: ...", and finally the connection is closed on both paths.
 * What the store answers is a parameter: the model cannot see the network.
 */
module Endpoint {
  import opened Wrappers
  import opened Schema
  import Repair

  /** What an endpoint hands back: a JSON body, or an HTTPException. */
  datatype Response<T> = Ok(body: T) | HttpError(status: int, detail: string)

  /** The status_code every failure is reported with. */
  const INTERNAL_SERVER_ERROR := 500

  /** A DuckDB connection; only whether it is open is modelled. */
  class Connection {
    var isOpen: bool

    /** duckdb.connect succeeded. */
    constructor ()
      ensures isOpen
    {
      isOpen := true;
    }

    /** con.close() */
    method Close()
      modifies this
      ensures !isOpen
    {
      isOpen := false;
    }

    /**
     * con.execute(...).fetchall() of a read-only statement, which needs an
     * open connection: `outcome` is the rows it yields or the store's error,
     * and an error becomes HTTP 500 "Query failed: ...".
     */
    method Execute<T>(outcome: Result<T, string>) returns (resp: Response<T>)
      requires isOpen
      ensures outcome.Success? ==> resp == Ok(outcome.value)
      ensures outcome.Failure? ==> resp == HttpError(INTERNAL_SERVER_ERROR, "Query failed: " + outcome.error)
    {
      resp := Answer(outcome);
    }

    /**
     * con.execute(UPDATE ...).fetchall() on an open connection, followed by
     * `return []`. The statement is atomic in the store: when it fails
     * (`queryError`), no row changes.
     */
    method ExecuteRepair(queryError: Option<string>, table: array<Customer>) returns (resp: Response<seq<()>>)
      requires isOpen
      modifies table
      ensures queryError.None? ==> resp == Ok([]) && table[..] == Repair.Repaired(old(table[..]))
      ensures queryError.Some? ==>
        resp == HttpError(INTERNAL_SERVER_ERROR, "Query failed: " + queryError.value) && table[..] == old(table[..])
    {
      if queryError.None? {
        Repair.FillingMissingValues(table);
        resp := Ok([]);
      } else {
        resp := Answer(Failure(queryError.value));
      }
    }
  }

  /**
   * get_db_connection: `connectError` is what duckdb.connect raised, if it
   * raised. On success the caller owns a fresh open connection.
   */
  method GetDbConnection(connectError: Option<string>) returns (r: Result<Connection, Response<()>>)
    ensures connectError.None? <==> r.Success?
    ensures r.Success? ==> fresh(r.value) && r.value.isOpen
    ensures connectError.Some? ==>
      r == Failure(HttpError(INTERNAL_SERVER_ERROR, "Database connection failed: " + connectError.value))
  {
    if connectError.Some? {
      return Failure(HttpError(INTERNAL_SERVER_ERROR, "Database connection failed: " + connectError.value));
    }
    var con := new Connection();
    return Success(con);
  }

  /** The HTTP answer to a statement's outcome. */
  function Answer<T>(outcome: Result<T, string>): Response<T>
  {
    match outcome
    case Success(v) => Ok(v)
    case Failure(e) => HttpError(INTERNAL_SERVER_ERROR, "Query failed: " + e)
  }

  /**
   * One read-only endpoint: `outcome` is what con.execute(...).fetchall()
   * and the list comprehension produce, or the store's error. For a report
   * it is `Success(Reports.ChurnByContractType(rows))` and so on; for
   * /create_churn_table and /import_data the body is `()` (Python's None).
   * A connection is opened exactly when connecting succeeds, and it is
   * closed again on return, whether the statement succeeded or not.
   */
  method Serve<T>(connectError: Option<string>, outcome: Result<T, string>)
    returns (resp: Response<T>, con: Option<Connection>)
    ensures connectError.Some? ==>
      con.None? && resp == HttpError(INTERNAL_SERVER_ERROR, "Database connection failed: " + connectError.value)
    ensures connectError.None? ==> con.Some? && fresh(con.value) && !con.value.isOpen
    ensures connectError.None? && outcome.Success? ==> resp == Ok(outcome.value)
    ensures connectError.None? && outcome.Failure? ==>
      resp == HttpError(INTERNAL_SERVER_ERROR, "Query failed: " + outcome.error)
  {
    var c := GetDbConnection(connectError);
    if c.Failure? {
      return HttpError(c.error.status, c.error.detail), None;
    }
    var connection := c.value;
    // try
    resp := connection.Execute(outcome);
    // finally
    connection.Close();
    con := Some(connection);
  }

  /**
   * /filing_missing_values: the UPDATE runs on the open connection, which
   * is closed afterwards on both paths; the endpoint returns an empty list.
   */
  method FillingMissingValuesEndpoint(connectError: Option<string>, queryError: Option<string>, table: array<Customer>)
    returns (resp: Response<seq<()>>, con: Option<Connection>)
    modifies table
    ensures connectError.Some? ==>
      con.None? && table[..] == old(table[..])
      && resp == HttpError(INTERNAL_SERVER_ERROR, "Database connection failed: " + connectError.value)
    ensures connectError.None? ==> con.Some? && fresh(con.value) && !con.value.isOpen
    ensures connectError.None? && queryError.None? ==>
      resp == Ok([]) && table[..] == Repair.Repaired(old(table[..]))
    ensures connectError.None? && queryError.Some? ==>
      resp == HttpError(INTERNAL_SERVER_ERROR, "Query failed: " + queryError.value) && table[..] == old(table[..])
  {
    var c := GetDbConnection(connectError);
    if c.Failure? {
      return HttpError(c.error.status, c.error.detail), None;
    }
    var connection := c.value;
    // try
    resp := connection.ExecuteRepair(queryError, table);
    // finally
    connection.Close();
    con := Some(connection);
  }
}
