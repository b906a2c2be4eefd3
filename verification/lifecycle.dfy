/** Properties of the session manager's operations taken together: the
    pid/status invariant they keep, idempotent stop, delete-implies-stop,
    and the full create → clone → start → stop → delete lifecycle. */
module Lifecycle {
  import opened Wrappers
  import opened Schema
  import opened SessionManager

  /** A pid is on record exactly while the session is marked running. */
  ghost predicate PidMatchesStatus(store: Store) {
    forall id :: id in store ==> (store[id].status == Running <==> store[id].pid.Some?)
  }

  /** Every lifecycle operation keeps the pid/status invariant. */
  lemma OperationsPreservePidMatch(store: Store, id: SessionId, input: CreateSessionInput, env: CreateEnv,
                                   token: Option<string>, clone: Outcome, spawn: SpawnOutcome)
    requires PidMatchesStatus(store)
    ensures PidMatchesStatus(CreateSession(store, input, env).store)
    ensures PidMatchesStatus(CloneRepo(store, id, token, clone).store)
    ensures PidMatchesStatus(StartOpenCode(store, id, spawn).store)
    ensures PidMatchesStatus(StopSession(store, id).store)
    ensures PidMatchesStatus(DeleteSession(store, id).store)
  {
  }

  /** Stopping twice is the same as stopping once, and never throws for a
      known id; the second kill targets no pid. */
  lemma StopIdempotent(store: Store, id: SessionId)
    requires id in store
    ensures var once := StopSession(store, id);
      var twice := StopSession(once.store, id);
      && once.result.Success? && twice.result.Success?
      && twice.store == once.store
      && twice.effects == [Kill(None)]
  {
  }

  /** Stopping a freshly started session ends where stopping it directly
      would: the new pid is dropped again. */
  lemma StartThenStop(store: Store, id: SessionId, pid: int)
    ensures StopSession(StartOpenCode(store, id, Spawned(pid)).store, id).store == StopSession(store, id).store
  {
    if id in store {
      var started := StartOpenCode(store, id, Spawned(pid)).store;
      assert started[id := started[id].(status := Stopped, pid := None)]
          == store[id := store[id].(status := Stopped, pid := None)];
    }
  }

  /** After a delete the session is gone and every other one reads as before;
      the process was sent a kill before the record was removed. */
  lemma DeleteImpliesGone(store: Store, id: SessionId)
    requires id in store
    ensures var d := DeleteSession(store, id);
      && GetSession(d.store, id) == None
      && (forall k :: k != id ==> GetSession(d.store, k) == GetSession(store, k))
      && d.effects[0] == StopSession(store, id).effects[0]
  {
  }

  /** A spawn that throws leaves a stopped session stopped. */
  lemma SpawnFailureKeepsStatus(store: Store, id: SessionId, detail: string)
    requires id in store && store[id].status == Stopped
    ensures var s := StartOpenCode(store, id, SpawnErr(detail));
      s.result.Failure? && s.store[id].status == Stopped
  {
  }

  /** An unknown id makes clone, start, stop and delete throw
      "Session not found" without touching the store or the system. */
  lemma UnknownIdIsInert(store: Store, id: SessionId, token: Option<string>, clone: Outcome, spawn: SpawnOutcome)
    requires id !in store
    ensures CloneRepo(store, id, token, clone) == Step(store, [], Failure(SessionNotFound))
    ensures StartOpenCode(store, id, spawn) == Step(store, [], Failure(SessionNotFound))
    ensures StopSession(store, id) == Step(store, [], Failure(SessionNotFound))
    ensures DeleteSession(store, id) == Step(store, [], Failure(SessionNotFound))
  {
  }

  /** The whole lifecycle of one session: created stopped, cloned, started
      with a reachable `serverUrl`, stopped, deleted — and the store is back
      to what it was before the session existed. */
  lemma FullLifecycle(store: Store, input: CreateSessionInput, env: CreateEnv,
                      token: Option<string>, pid: int)
    requires env.id !in store && env.mkdir.Ok? && env.write.Ok?
    ensures var created := CreateSession(store, input, env);
      var cloned := CloneRepo(created.store, env.id, token, Ok);
      var started := StartOpenCode(cloned.store, env.id, Spawned(pid));
      var stopped := StopSession(started.store, env.id);
      var deleted := DeleteSession(stopped.store, env.id);
      && created.result.Success? && created.result.value.status == Stopped
      && cloned.result.Success? && cloned.store == created.store
      && started.result.Success?
      && GetSession(started.store, env.id).Some?
      && GetSession(started.store, env.id).value.status == Running
      && PortOfServerUrl(GetSession(started.store, env.id).value.serverUrl) == Some(env.port)
      && stopped.result.Success? && stopped.store[env.id].status == Stopped
      && deleted.result.Success? && deleted.store == store
  {
    var created := CreateSession(store, input, env);
    var started := StartOpenCode(created.store, env.id, Spawned(pid));
    var stopped := StopSession(started.store, env.id);
    var deleted := DeleteSession(stopped.store, env.id);
    assert deleted.store.Keys == store.Keys;
  }
}
