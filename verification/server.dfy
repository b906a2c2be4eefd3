/** The server's error handler and its graceful-shutdown reconciliation. */
module Server {
  import opened Wrappers
  import opened Schema
  import SessionManager

  /** What a handler threw: an `Error` instance with its message, or any
      other value. */
  datatype Thrown = ErrorValue(message: string) | OtherValue

  datatype Response = Response(status: int, body: string)

  /** The framework's code for a request that failed schema validation. */
  const ValidationCode: string := "VALIDATION"

  /** onError: validation failures are the client's (400), everything else
      the server's (500); the body is the error's message when there is one. */
  function OnError(code: string, error: Thrown): (r: Response)
    ensures r.status == 400 <==> code == ValidationCode
    ensures r.status == 400 || r.status == 500
    ensures error.ErrorValue? ==> r.body == error.message
    ensures error.OtherValue? ==> r.body == "Internal Error"
  {
    var body := match error
      case ErrorValue(m) => m
      case OtherValue => "Internal Error";
    Response(if code == ValidationCode then 400 else 500, body)
  }

  /** `if (session.pid)`: a recorded, non-zero pid. */
  predicate HasTruthyPid(r: Session) {
    r.pid.Some? && r.pid.value != 0
  }

  /** The store after shutdown and the pid `kill -9` was run on, per session. */
  datatype Shutdown = Shutdown(store: Store, killed: map<SessionId, int>)

  /** gracefulShutdown: for every running session with a truthy pid run
      `kill -9` (failures are discarded, so their outcome is no parameter),
      then mark every running session stopped with no pid. */
  function GracefulShutdown(store: Store): (r: Shutdown)
    ensures r.store.Keys == store.Keys
    ensures forall id :: id in r.store ==> r.store[id].status == Stopped
    ensures forall id :: id in store && store[id].status == Running ==>
      r.store[id].pid == None && SessionManager.SameIdentity(store[id], r.store[id])
    ensures forall id :: id in store && store[id].status == Stopped ==> r.store[id] == store[id]
    ensures forall id :: id in r.killed <==> id in store && store[id].status == Running && HasTruthyPid(store[id])
    ensures forall id :: id in r.killed ==> store[id].pid == Some(r.killed[id])
  {
    var killed := map id | id in store && store[id].status == Running && HasTruthyPid(store[id]) :: store[id].pid.value;
    var updated := map id | id in store ::
      if store[id].status == Running then store[id].(status := Stopped, pid := None) else store[id];
    Shutdown(updated, killed)
  }

  /** A second shutdown finds nothing running: it kills nothing and changes nothing. */
  lemma ShutdownIdempotent(store: Store)
    ensures var once := GracefulShutdown(store);
      var twice := GracefulShutdown(once.store);
      twice.store == once.store && twice.killed == map[]
  {
    var once := GracefulShutdown(store);
    var twice := GracefulShutdown(once.store);
    assert twice.store.Keys == once.store.Keys;
    assert twice.killed.Keys == {};
  }

  /** When pids are on record exactly for running sessions, shutdown leaves
      no pid on record at all. */
  lemma ShutdownClearsPids(store: Store)
    requires forall id :: id in store ==> (store[id].status == Running <==> store[id].pid.Some?)
    ensures var after := GracefulShutdown(store).store;
      forall id :: id in after ==> after[id].pid == None && after[id].status == Stopped
  {
  }

  /** Two running sessions and one stopped one: afterwards all three are
      stopped, and only the running one with a truthy pid was killed. */
  lemma ThreeSessionExample()
    ensures var store := map[
        "a" := Session("acme/widgets", "main", 4100, Some(17), Running, 1),
        "b" := Session("acme/widgets", "dev", 4101, Some(0), Running, 2),
        "c" := Session("acme/tools", "main", 4102, None, Stopped, 3)];
      var r := GracefulShutdown(store);
      && r.store["a"].status == Stopped && r.store["b"].status == Stopped && r.store["c"].status == Stopped
      && r.killed == map["a" := 17]
  {
    var store := map[
        "a" := Session("acme/widgets", "main", 4100, Some(17), Running, 1),
        "b" := Session("acme/widgets", "dev", 4101, Some(0), Running, 2),
        "c" := Session("acme/tools", "main", 4102, None, Stopped, 3)];
    var r := GracefulShutdown(store);
    assert r.killed.Keys == {"a"};
  }
}
