/** The `sessions` table: one row per id (the primary key), with non-null
    repo, branch, port and creation time and a two-valued status. */
module Schema {
  import opened Wrappers

  type SessionId = string

  /** The two status values the code ever writes. The column is declared as
      text with an enum type, which the database does not itself enforce. */
  datatype Status = Running | Stopped

  /** The column default for `status`. */
  const DefaultStatus: Status := Stopped

  /** A stored session. The id is the store key, not a field. `pid` has no
      column in the table definition but is written by the session manager
      and the shutdown handler, so it is part of the record here. */
  datatype Session = Session(
    repo: string,
    branch: string,
    port: int,
    pid: Option<int>,
    status: Status,
    createdAt: int)

  /** The table, keyed by primary key: at most one record per id. */
  type Store = map<SessionId, Session>

  /** The values passed to an insert; `None` leaves a column to its default. */
  datatype SessionInsert = SessionInsert(
    id: Option<SessionId>,
    repo: string,
    branch: string,
    port: int,
    status: Option<Status>,
    createdAt: Option<int>)

  /** The store after an insert, with the id and the row it returned. */
  datatype Inserted = Inserted(store: Store, id: SessionId, row: Session)

  /** The engine's message for an insert that reuses a primary key. */
  const UniqueViolation: string := "UNIQUE constraint failed: sessions.id"

  /** Inserts a row, filling `id` from a fresh uuid, `status` with the default
      and `createdAt` with the current time when they are not given. A
      duplicate primary key is refused and leaves the table as it was. */
  function Insert(store: Store, values: SessionInsert, uuid: SessionId, now: int): (r: Result<Inserted, string>)
    ensures r.Failure? <==> values.id.GetOr(uuid) in store
    ensures r.Failure? ==> r.error == UniqueViolation
    ensures r.Success? ==>
      var ins := r.value;
      && ins.id == values.id.GetOr(uuid)
      && ins.store.Keys == store.Keys + {ins.id}
      && ins.id in ins.store && ins.store[ins.id] == ins.row
      && (forall k :: k in store ==> ins.store[k] == store[k])
    ensures r.Success? ==>
      var row := r.value.row;
      && row.repo == values.repo && row.branch == values.branch && row.port == values.port
      && row.pid == None
      && (values.status == None ==> row.status == DefaultStatus)
      && (values.status != None ==> row.status == values.status.value)
      && row.createdAt == values.createdAt.GetOr(now)
  {
    var id := values.id.GetOr(uuid);
    if id in store then Failure(UniqueViolation)
    else
      var row := Session(values.repo, values.branch, values.port, None,
                         values.status.GetOr(DefaultStatus), values.createdAt.GetOr(now));
      Success(Inserted(store[id := row], id, row))
  }
}
