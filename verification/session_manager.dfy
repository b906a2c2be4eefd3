/** The session manager: each public operation is one read of the session
    store, the side effects it attempts (recorded, with their outcomes given
    as parameters) and at most one write back to the store. */
module SessionManager {
  import opened Wrappers
  import opened Schema
  import Text

  /** Root of the per-session workspace directories. */
  const SessionsDir: string := "./sessions"

  /** The bind address handed to the agent, and the base of `serverUrl`. */
  const Hostname: string := "http://127.0.0.1"

  /** The `$schema` entry of the generated agent configuration. */
  const ConfigSchema: string := "https://opencode.ai/config.json"

  function SessionDir(id: SessionId): string {
    SessionsDir + "/" + id
  }

  /** Where the repository is cloned and the agent runs. */
  function RepoDir(id: SessionId): string {
    SessionDir(id) + "/repo"
  }

  function ConfigPath(id: SessionId): string {
    SessionDir(id) + "/opencode.json"
  }

  /** The derived `serverUrl` of a session listening on `port`. */
  function ServerUrl(port: int): string {
    Hostname + ":" + Text.IntToString(port)
  }

  /** Reads the port back out of a `serverUrl`. */
  function PortOfServerUrl(url: string): Option<int> {
    var prefix := Hostname + ":";
    if |prefix| <= |url| && url[..|prefix|] == prefix then Text.ParseInt(url[|prefix|..])
    else None
  }

  /** `serverUrl` determines the port it was made from. */
  lemma ServerUrlRoundTrip(port: int)
    ensures PortOfServerUrl(ServerUrl(port)) == Some(port)
  {
    var prefix := Hostname + ":";
    var url := ServerUrl(port);
    assert url[..|prefix|] == prefix;
    assert url[|prefix|..] == Text.IntToString(port);
    Text.IntToStringRoundTrip(port);
  }

  /** Two different ports never give the same `serverUrl`. */
  lemma ServerUrlInjective(m: int, n: int)
    ensures ServerUrl(m) == ServerUrl(n) ==> m == n
  {
    if ServerUrl(m) == ServerUrl(n) {
      var prefix := Hostname + ":";
      assert ServerUrl(m)[|prefix|..] == Text.IntToString(m);
      assert ServerUrl(n)[|prefix|..] == Text.IntToString(n);
      Text.IntToStringInjective(m, n);
    }
  }

  /** The `server` object written to `opencode.json`. */
  datatype OpenCodeConfig = OpenCodeConfig(schema: string, port: int, hostname: string)

  /** A side effect the manager attempts outside the store. */
  datatype Effect =
    | MakeDir(path: string)
    | WriteConfig(path: string, config: OpenCodeConfig)
    | GitClone(branch: string, url: string, dest: string)
    | Spawn(argv: seq<string>, cwd: string)
    | Kill(pid: Option<int>)
    | RemoveTree(path: string)

  /** Outcome of a filesystem step or of `git clone`; `detail` is the text of
      the thrown error. */
  datatype Outcome = Ok | Err(detail: string)

  /** Outcome of spawning the agent. */
  datatype SpawnOutcome = Spawned(pid: int) | SpawnErr(detail: string)

  /** What `createSession` draws from outside: the generated id, the random
      port, the clock, and the outcomes of `mkdir` and of writing the config. */
  datatype CreateEnv = CreateEnv(id: SessionId, port: int, now: int, mkdir: Outcome, write: Outcome)

  /** The errors the operations throw. */
  datatype Error =
    | SessionNotFound
    | FsFailed(detail: string)
    | StoreRejected(detail: string)
    | GitCloneFailed(detail: string)
    | SpawnFailed(detail: string)

  /** The `message` of the thrown `Error`. */
  function Message(e: Error): string {
    match e
    case SessionNotFound => "Session not found"
    case GitCloneFailed(d) => "Git clone failed: " + d
    case FsFailed(d) => d
    case StoreRejected(d) => d
    case SpawnFailed(d) => d
  }

  /** One call: the store afterwards, the side effects attempted in order,
      and the returned value or the thrown error. */
  datatype Step<T> = Step(store: Store, effects: seq<Effect>, result: Result<T, Error>)

  datatype CreateSessionInput = CreateSessionInput(repo: string, branch: string)

  /** What `createSession` returns: no `pid`, no `serverUrl`. */
  datatype CreatedSession = CreatedSession(
    id: SessionId, repo: string, branch: string, port: int, status: Status, createdAt: int)

  /** What `getSession` returns. */
  datatype SessionView = SessionView(
    id: SessionId, repo: string, branch: string, port: int, pid: Option<int>,
    status: Status, createdAt: int, serverUrl: string)

  /** An element of what `listSessions` returns: no `pid`. */
  datatype ListedSession = ListedSession(
    id: SessionId, repo: string, branch: string, port: int,
    status: Status, createdAt: int, serverUrl: string)

  /** `after` differs from `before` at most in the record under `id`. */
  ghost predicate OnlyTouches(before: Store, after: Store, id: SessionId) {
    forall k :: k != id ==> (k in before <==> k in after) && (k in before ==> after[k] == before[k])
  }

  /** The fields fixed at creation are the same in both records. */
  predicate SameIdentity(a: Session, b: Session) {
    a.repo == b.repo && a.branch == b.branch && a.port == b.port && a.createdAt == b.createdAt
  }

  /** A JavaScript optional string used in a condition: present and non-empty. */
  predicate Truthy(s: Option<string>) {
    s.Some? && s.value != ""
  }

  /** createSession: make the workspace directory, write the agent config,
      then insert a `stopped` record. A failed step ends the call, so no
      record exists unless both files were written. */
  function CreateSession(store: Store, input: CreateSessionInput, env: CreateEnv): (s: Step<CreatedSession>)
    ensures 1 <= |s.effects| <= 2 && s.effects[0] == MakeDir(SessionDir(env.id))
    ensures |s.effects| == 2 <==> env.mkdir.Ok?
    ensures |s.effects| == 2 ==>
      s.effects[1] == WriteConfig(ConfigPath(env.id), OpenCodeConfig(ConfigSchema, env.port, Hostname))
    ensures s.result.Success? <==> env.mkdir.Ok? && env.write.Ok? && env.id !in store
    ensures s.result.Failure? ==> s.store == store
    ensures env.mkdir.Err? ==> s.result == Failure(FsFailed(env.mkdir.detail))
    ensures env.mkdir.Ok? && env.write.Err? ==> s.result == Failure(FsFailed(env.write.detail))
    ensures s.result.Success? ==>
      var c := s.result.value;
      && c == CreatedSession(env.id, input.repo, input.branch, env.port, Stopped, env.now)
      && s.store.Keys == store.Keys + {env.id}
      && (forall k :: k in store ==> s.store[k] == store[k])
      && s.store[env.id] == Session(input.repo, input.branch, env.port, None, Stopped, env.now)
  {
    var made := [MakeDir(SessionDir(env.id))];
    if env.mkdir.Err? then Step(store, made, Failure(FsFailed(env.mkdir.detail)))
    else
      var written := made + [WriteConfig(ConfigPath(env.id), OpenCodeConfig(ConfigSchema, env.port, Hostname))];
      if env.write.Err? then Step(store, written, Failure(FsFailed(env.write.detail)))
      else
        var values := SessionInsert(Some(env.id), input.repo, input.branch, env.port, Some(Stopped), Some(env.now));
        match Insert(store, values, env.id, env.now)
        case Failure(msg) => Step(store, written, Failure(StoreRejected(msg)))
        case Success(ins) =>
          var row := ins.row;
          Step(ins.store, written,
               Success(CreatedSession(ins.id, row.repo, row.branch, row.port, row.status, row.createdAt)))
  }

  const Scheme: string := "https://"
  const GitHubHost: string := "github.com/"

  /** The clone URL: the scheme, then the token as userinfo when it is
      truthy, then the repository's path on GitHub. */
  function CloneUrl(repo: string, token: Option<string>): (url: string)
    ensures |url| >= |Scheme| + |GitHubHost + repo|
    ensures url[..|Scheme|] == Scheme
    ensures url[|url| - |GitHubHost + repo|..] == GitHubHost + repo
    ensures var userinfo := url[|Scheme|..|url| - |GitHubHost + repo|];
      && (Truthy(token) <==> userinfo != "")
      && (Truthy(token) ==> userinfo == token.value + "@")
  {
    var path := GitHubHost + repo;
    var url := if Truthy(token) then Scheme + token.value + "@" + path else Scheme + path;
    assert url[..|Scheme|] == Scheme;
    assert url[|url| - |path|..] == path;
    url
  }

  /** cloneRepo: a shallow clone of the session's branch into its workspace.
      Never writes the store; a clone failure is rethrown with a prefix. */
  function CloneRepo(store: Store, id: SessionId, token: Option<string>, clone: Outcome): (s: Step<()>)
    ensures s.store == store
    ensures id !in store ==> s.effects == [] && s.result == Failure(SessionNotFound)
    ensures id in store ==>
      s.effects == [GitClone(store[id].branch, CloneUrl(store[id].repo, token), RepoDir(id))]
    ensures id in store ==> (s.result.Success? <==> clone.Ok?)
    ensures id in store && clone.Err? ==> s.result == Failure(GitCloneFailed(clone.detail))
  {
    if id !in store then Step(store, [], Failure(SessionNotFound))
    else
      var r := store[id];
      var fx := [GitClone(r.branch, CloneUrl(r.repo, token), RepoDir(id))];
      match clone
      case Ok => Step(store, fx, Success(()))
      case Err(d) => Step(store, fx, Failure(GitCloneFailed(d)))
  }

  /** The agent command line for a session on `port`. */
  function ServeArgv(port: int): seq<string> {
    ["opencode", "serve", "--port", Text.IntToString(port), "--hostname", Hostname]
  }

  /** startOpenCode: spawn the agent in the workspace and mark the record
      `running` with the new pid, whatever its status was before. A spawn
      that throws leaves the store as it was. */
  function StartOpenCode(store: Store, id: SessionId, spawn: SpawnOutcome): (s: Step<()>)
    ensures id !in store ==> s == Step(store, [], Failure(SessionNotFound))
    ensures id in store ==> s.effects == [Spawn(ServeArgv(store[id].port), RepoDir(id))]
    ensures id in store && spawn.SpawnErr? ==>
      s.store == store && s.result == Failure(SpawnFailed(spawn.detail))
    ensures id in store && spawn.Spawned? ==>
      && s.result.Success?
      && s.store.Keys == store.Keys && OnlyTouches(store, s.store, id)
      && s.store[id].status == Running && s.store[id].pid == Some(spawn.pid)
      && SameIdentity(store[id], s.store[id])
  {
    if id !in store then Step(store, [], Failure(SessionNotFound))
    else
      var r := store[id];
      var fx := [Spawn(ServeArgv(r.port), RepoDir(id))];
      match spawn
      case SpawnErr(d) => Step(store, fx, Failure(SpawnFailed(d)))
      case Spawned(pid) => Step(store[id := r.(status := Running, pid := Some(pid))], fx, Success(()))
  }

  /** stopSession: `kill -9` the recorded pid (even a missing one; any failure
      is discarded, so its outcome is not a parameter) and always record the
      session as `stopped` with no pid. */
  function StopSession(store: Store, id: SessionId): (s: Step<()>)
    ensures id !in store ==> s == Step(store, [], Failure(SessionNotFound))
    ensures id in store ==>
      && s.result.Success?
      && s.effects == [Kill(store[id].pid)]
      && s.store.Keys == store.Keys && OnlyTouches(store, s.store, id)
      && s.store[id].status == Stopped && s.store[id].pid == None
      && SameIdentity(store[id], s.store[id])
  {
    if id !in store then Step(store, [], Failure(SessionNotFound))
    else
      var r := store[id];
      Step(store[id := r.(status := Stopped, pid := None)], [Kill(r.pid)], Success(()))
  }

  /** deleteSession: stop first (so an unknown id throws and nothing is
      removed), `rm -rf` the workspace (failure discarded), delete the record. */
  function DeleteSession(store: Store, id: SessionId): (s: Step<()>)
    ensures id !in store ==> s == Step(store, [], Failure(SessionNotFound))
    ensures id in store ==>
      && s.result.Success?
      && s.effects == [Kill(store[id].pid), RemoveTree(SessionDir(id))]
      && s.store.Keys == store.Keys - {id}
      && (forall k :: k in s.store ==> s.store[k] == store[k])
  {
    var stopped := StopSession(store, id);
    if stopped.result.Failure? then stopped
    else Step(stopped.store - {id}, stopped.effects + [RemoveTree(SessionDir(id))], Success(()))
  }

  /** getSession: the record with its id and derived `serverUrl`, or null. */
  function GetSession(store: Store, id: SessionId): (v: Option<SessionView>)
    ensures v.Some? <==> id in store
    ensures v.Some? ==>
      var r := store[id];
      && v.value.id == id
      && v.value.repo == r.repo && v.value.branch == r.branch && v.value.port == r.port
      && v.value.pid == r.pid && v.value.status == r.status && v.value.createdAt == r.createdAt
      && v.value.serverUrl == ServerUrl(r.port)
      && PortOfServerUrl(v.value.serverUrl) == Some(r.port)
  {
    if id !in store then None
    else
      var r := store[id];
      ServerUrlRoundTrip(r.port);
      Some(SessionView(id, r.repo, r.branch, r.port, r.pid, r.status, r.createdAt, ServerUrl(r.port)))
  }

  /** getSessionPort: the session's port, or null for an unknown id. */
  function GetSessionPort(store: Store, id: SessionId): (p: Option<int>)
    ensures p.Some? <==> GetSession(store, id).Some?
    ensures p.Some? ==> p.value == store[id].port
    ensures p.Some? ==> PortOfServerUrl(GetSession(store, id).value.serverUrl) == p
  {
    match GetSession(store, id)
    case None => None
    case Some(v) => Some(v.port)
  }

  /** The list form of a session: `getSession`'s view without `pid`. */
  function WithoutPid(v: SessionView): ListedSession {
    ListedSession(v.id, v.repo, v.branch, v.port, v.status, v.createdAt, v.serverUrl)
  }

  /** The list entry of the record `r` stored under `id`. */
  function Listed(id: SessionId, r: Session): ListedSession {
    ListedSession(id, r.repo, r.branch, r.port, r.status, r.createdAt, ServerUrl(r.port))
  }

  /** A list entry is what getSession shows for the same id, without `pid`. */
  lemma ListedIsGetSessionWithoutPid(store: Store, id: SessionId)
    requires id in store
    ensures GetSession(store, id).Some?
    ensures Listed(id, store[id]) == WithoutPid(GetSession(store, id).value)
  {
  }

  predicate SortedByCreatedAt(vs: seq<ListedSession>) {
    forall i, j :: 0 <= i < j < |vs| ==> vs[i].createdAt <= vs[j].createdAt
  }

  predicate DistinctIds(vs: seq<ListedSession>) {
    forall i, j :: 0 <= i < j < |vs| ==> vs[i].id != vs[j].id
  }

  /** A non-empty set of ids has one whose record is created earliest. */
  lemma {:induction false} EarliestExists(store: Store, ids: set<SessionId>)
    requires ids != {} && ids <= store.Keys
    ensures exists k :: k in ids && forall j :: j in ids ==> store[k].createdAt <= store[j].createdAt
    decreases ids
  {
    var x :| x in ids;
    if ids != {x} {
      EarliestExists(store, ids - {x});
      var k :| k in ids - {x} && forall j :: j in ids - {x} ==> store[k].createdAt <= store[j].createdAt;
      if store[x].createdAt < store[k].createdAt {
        assert forall j :: j in ids ==> store[x].createdAt <= store[j].createdAt;
      } else {
        assert forall j :: j in ids ==> store[k].createdAt <= store[j].createdAt;
      }
    } else {
      assert forall j :: j in ids ==> store[x].createdAt <= store[j].createdAt;
    }
  }

  /** listSessions: every record once, ordered by ascending creation time
      (records created at the same time come in no particular order), each
      being the record's `Listed` entry, which ListedIsGetSessionWithoutPid
      shows is `getSession`'s view without `pid`. */
  method ListSessions(store: Store) returns (views: seq<ListedSession>)
    ensures forall i :: 0 <= i < |views| ==>
      views[i].id in store && views[i] == Listed(views[i].id, store[views[i].id])
    ensures forall id :: id in store ==> exists i :: 0 <= i < |views| && views[i].id == id
    ensures DistinctIds(views)
    ensures SortedByCreatedAt(views)
  {
    views := [];
    var remaining := store.Keys;
    while remaining != {}
      invariant remaining <= store.Keys
      invariant forall i :: 0 <= i < |views| ==>
        views[i].id in store && views[i].id !in remaining && views[i] == Listed(views[i].id, store[views[i].id])
      invariant forall id :: id in store ==> id in remaining || exists i :: 0 <= i < |views| && views[i].id == id
      invariant DistinctIds(views)
      invariant SortedByCreatedAt(views)
      invariant forall i, k :: 0 <= i < |views| && k in remaining ==> views[i].createdAt <= store[k].createdAt
      decreases remaining
    {
      EarliestExists(store, remaining);
      var k :| k in remaining && forall j :: j in remaining ==> store[k].createdAt <= store[j].createdAt;
      var before := views;
      views := views + [Listed(k, store[k])];
      assert views[|views| - 1].id == k;
      assert forall i :: 0 <= i < |before| ==> views[i] == before[i];
      remaining := remaining - {k};
    }
  }
}
