/** The database service: one shared connection to the store, created on
    first use, with `Execute` and `QueryRow` derived from the client's
    `Query`, a no-op `Close` when there is no client, and the health report.

    The network client is opaque. Its `Query` is represented by a function
    from statement text to the store's reply at the moment of the call. */
module Database {
  import opened Common

  /** What the client's `Query` returns on success: column names and rows. */
  datatype QueryResult = QueryResult(columns: seq<string>, rows: seq<Row>)

  /** The connected client's `Query`: the store's reply to each statement. */
  type QueryFn = string -> Result<QueryResult, string>

  /** `Execute`: run the statement and discard whatever rows come back; only
      the error, if any, remains. */
  function Execute(query: QueryFn, q: string): (err: Option<string>)
    ensures err.Some? <==> query(q).Failure?
    ensures err.Some? ==> err.value == query(q).error
  {
    match query(q)
    case Failure(e) => Some(e)
    case Success(_) => None
  }

  /** `QueryRow`: the first row of the result, or a failure. */
  function QueryRow(query: QueryFn, q: string): (r: Result<Row, string>)
    ensures query(q).Failure? ==> r == Failure(query(q).error)
    ensures query(q).Success? && query(q).value.rows == [] ==> r == Failure(NoRowsFound)
    ensures query(q).Success? && query(q).value.rows != [] ==> r == Success(query(q).value.rows[0])
  {
    match query(q)
    case Failure(e) => Failure(e)
    case Success(res) => if |res.rows| == 0 then Failure(NoRowsFound) else Success(res.rows[0])
  }

  /** The two derivations agree: a statement that yields a row did not fail,
      a failing statement yields its own error in both, and a statement that
      succeeded lacks a first row exactly when no rows came back. */
  lemma ExecuteAgreesWithQueryRow(query: QueryFn, q: string)
    ensures QueryRow(query, q).Success? ==> Execute(query, q).None?
    ensures Execute(query, q).Some? ==> QueryRow(query, q) == Failure(Execute(query, q).value)
    ensures Execute(query, q).None? ==>
              (QueryRow(query, q).Failure? <==> query(q).value.rows == [])
  {
  }

  /** The network client, as created by `network.NewClient(addr)`. */
  datatype Client = Client(addr: string)

  /** The service value `New` hands out; `client` is None only for a service
      that never got a client. */
  datatype Service = Service(client: Option<Client>, addr: string)

  /** The package-level `dbInstance`: at most one service per process. */
  class Instance {
    var current: Option<Service>

    constructor ()
      ensures current == None
    {
      current := None;
    }

    /** `New`: the first call connects and records the service; every later
        call returns that service unchanged, whatever its `addr`. A failed
        connection ends the process, so a first call requires `connects`. */
    method New(addr: string, connects: bool) returns (s: Service)
      requires current.None? ==> connects
      modifies this
      ensures old(current).Some? ==> s == old(current).value && current == old(current)
      ensures old(current).None? ==> s == Service(Some(Client(addr)), addr) && current == Some(s)
    {
      if current.Some? {
        return current.value;
      }
      s := Service(Some(Client(addr)), addr);
      current := Some(s);
    }
  }

  /** First caller wins: two calls with different addresses yield the
      service of the first. */
  method FirstCallerWins(first: string, second: string) returns (a: Service, b: Service)
    ensures a == b && a.addr == first
  {
    var instance := new Instance();
    a := instance.New(first, true);
    b := instance.New(second, false);
  }

  /** What `Close` did: its error, and whether it reached the client. */
  datatype CloseOutcome = CloseOutcome(err: Option<string>, clientClosed: bool)

  /** `Close`: closes the client when there is one (its reply is
      `clientClose`); without a client nothing is called and nil is returned. */
  function Close(s: Service, clientClose: Option<string>): (r: CloseOutcome)
    ensures s.client.None? ==> r == CloseOutcome(None, false)
    ensures s.client.Some? ==> r == CloseOutcome(clientClose, true)
  {
    if s.client.Some? then CloseOutcome(clientClose, true) else CloseOutcome(None, false)
  }

  /** Which of the two racing signals of `Health` came first: the ping's
      result (nil or an error), or the one-second deadline. */
  datatype PingOutcome = PingReturned(err: Option<string>) | DeadlineFirst

  const HealthyMessage := "NimbleDB is healthy"
  const TimeoutMessage := "health check timeout"

  /** `Health`: the status map reported for each outcome of the race. */
  function Health(outcome: PingOutcome): (stats: map<string, string>)
    ensures "status" in stats && (stats["status"] == "up" || stats["status"] == "down")
    ensures stats["status"] == "up" <==> outcome == PingReturned(None)
    ensures outcome == PingReturned(None) ==> stats == map["status" := "up", "message" := HealthyMessage]
    ensures outcome.PingReturned? && outcome.err.Some? ==>
              stats == map["status" := "down", "error" := "db down: " + outcome.err.value]
    ensures outcome == DeadlineFirst ==> stats == map["status" := "down", "error" := TimeoutMessage]
  {
    match outcome
    case PingReturned(Some(e)) => map["status" := "down", "error" := "db down: " + e]
    case PingReturned(None) => map["status" := "up", "message" := HealthyMessage]
    case DeadlineFirst => map["status" := "down", "error" := TimeoutMessage]
  }
}
