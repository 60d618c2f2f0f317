/**
 * The HTTP lookup handler of internal/server/server_bruh.go: GET
 * /orders/{order_uid} asks the order service and maps its answer to a status
 * code, counting every request in the Prometheus counters of
 * metrics/prometheus.go. The service is a lookup function from identifier to
 * result; the JSON encoding of the body and the response writer are left out.
 */
module Server {
  import opened Wrappers
  import opened Orders
  import Lru
  import Service

  const StatusOK := 200
  const StatusBadRequest := 400
  const StatusNotFound := 404
  const StatusInternalServerError := 500

  /** What the handler writes: a status, the order for a 200, and the error text otherwise. */
  datatype Response = Response(status: int, body: Option<Order>, message: string)

  /** The request counters: http_requests_total and the four outcome counters. */
  datatype Metrics = Metrics(total: nat, success: nat, notFound: nat, badRequest: nat, serverError: nat)

  function Outcomes(m: Metrics): nat {
    m.success + m.notFound + m.badRequest + m.serverError
  }

  /** Every request counted in the total has been counted by exactly one outcome. */
  predicate Consistent(m: Metrics) {
    m.total == Outcomes(m)
  }

  /**
   * handleHTTPErr: ErrNotFound is a 404, ErrOrderUIDMissing a 400, any other
   * error a 500; the matching outcome counter goes up by one.
   */
  function HandleHttpErr(err: Error, m: Metrics): (r: (Response, Metrics))
    ensures r.0.status == StatusNotFound <==> err == NotFound
    ensures r.0.status == StatusBadRequest <==> err == OrderUidMissing
    ensures r.0.status == StatusInternalServerError <==> err != NotFound && err != OrderUidMissing
    ensures r.0.body.None?
    ensures err == NotFound ==> r.1 == m.(notFound := m.notFound + 1)
    ensures err == OrderUidMissing ==> r.1 == m.(badRequest := m.badRequest + 1)
    ensures err != NotFound && err != OrderUidMissing ==> r.1 == m.(serverError := m.serverError + 1)
    ensures r.1.total == m.total && Outcomes(r.1) == Outcomes(m) + 1
  {
    if err == NotFound then
      (Response(StatusNotFound, None, "not found"), m.(notFound := m.notFound + 1))
    else if err == OrderUidMissing then
      (Response(StatusBadRequest, None, "empty order_id"), m.(badRequest := m.badRequest + 1))
    else
      (Response(StatusInternalServerError, None, "server error"), m.(serverError := m.serverError + 1))
  }

  /**
   * Handler.GetOrder: count the request, refuse an empty identifier before
   * the service is asked, map a service error, or answer 200 with the order.
   */
  function GetOrder(uid: string, lookup: string -> Result<Order, Error>, m: Metrics): (r: (Response, Metrics))
    ensures r.1.total == m.total + 1 && Outcomes(r.1) == Outcomes(m) + 1
    ensures uid == "" ==> r.0.status == StatusBadRequest
    ensures r.0.status == StatusOK <==> uid != "" && lookup(uid).Success?
    ensures r.0.status == StatusOK ==> r.0.body == Some(lookup(uid).value)
    ensures r.0.status == StatusOK ==> r.1 == m.(total := m.total + 1, success := m.success + 1)
    ensures r.0.status == StatusBadRequest ==> r.1 == m.(total := m.total + 1, badRequest := m.badRequest + 1)
    ensures r.0.status == StatusNotFound ==> r.1 == m.(total := m.total + 1, notFound := m.notFound + 1)
    ensures r.0.status == StatusInternalServerError ==> r.1 == m.(total := m.total + 1, serverError := m.serverError + 1)
    ensures r.0.status == StatusBadRequest <==> uid == "" || lookup(uid) == Failure(OrderUidMissing)
    ensures r.0.status in {StatusOK, StatusBadRequest, StatusNotFound, StatusInternalServerError}
    ensures r.0.status == StatusNotFound <==> uid != "" && lookup(uid) == Failure(NotFound)
    ensures r.0.status == StatusInternalServerError <==>
      uid != "" && lookup(uid).Failure? && lookup(uid).error != NotFound && lookup(uid).error != OrderUidMissing
  {
    var counted := m.(total := m.total + 1);
    if uid == "" then HandleHttpErr(OrderUidMissing, counted)
    else match lookup(uid)
      case Failure(e) => HandleHttpErr(e, counted)
      case Success(o) => (Response(StatusOK, Some(o), ""), counted.(success := counted.success + 1))
  }

  /** An empty identifier is answered without looking at the service at all. */
  lemma EmptyUidSkipsService(l1: string -> Result<Order, Error>, l2: string -> Result<Order, Error>, m: Metrics)
    ensures GetOrder("", l1, m) == GetOrder("", l2, m)
    ensures GetOrder("", l1, m).0 == Response(StatusBadRequest, None, "empty order_id")
  {
  }

  /** The counters after serving a sequence of requests in order. */
  function Serve(uids: seq<string>, lookup: string -> Result<Order, Error>, m: Metrics): Metrics
    decreases |uids|
  {
    if uids == [] then m else Serve(uids[1..], lookup, GetOrder(uids[0], lookup, m).1)
  }

  /** Serving requests keeps total == success + notFound + badRequest + serverError. */
  lemma {:induction false} ServeConsistent(uids: seq<string>, lookup: string -> Result<Order, Error>, m: Metrics)
    requires Consistent(m)
    ensures Consistent(Serve(uids, lookup, m))
    ensures Serve(uids, lookup, m).total == m.total + |uids|
    decreases |uids|
  {
    if uids != [] {
      ServeConsistent(uids[1..], lookup, GetOrder(uids[0], lookup, m).1);
    }
  }

  /** The counters never go down. */
  lemma {:induction false} ServeMonotone(uids: seq<string>, lookup: string -> Result<Order, Error>, m: Metrics)
    ensures var m' := Serve(uids, lookup, m);
      m'.success >= m.success && m'.notFound >= m.notFound && m'.badRequest >= m.badRequest && m'.serverError >= m.serverError
    decreases |uids|
  {
    if uids != [] {
      ServeMonotone(uids[1..], lookup, GetOrder(uids[0], lookup, m).1);
    }
  }

  /**
   * Behind the handler, the service: a lookup is a 200 exactly when the
   * identifier is cached, or is stored and the database answers; it is a 404
   * when it is neither cached nor stored and the database answers.
   */
  lemma ServiceStatus(s: Lru.State, recs: map<string, Order>, uid: string, fault: Option<Error>, m: Metrics)
    requires uid != ""
    ensures var r := GetOrder(uid, u => Service.GetResult(s, recs, u, fault), m).0;
      && (r.status == StatusOK <==> uid in s.entries || (fault.None? && uid in recs))
      && (fault.None? ==> (r.status == StatusNotFound <==> uid !in s.entries && uid !in recs))
      && (r.status == StatusOK && uid in s.entries ==> r.body == Some(s.entries[uid]))
  {
  }
}
