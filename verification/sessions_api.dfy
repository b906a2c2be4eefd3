/** The `/api/sessions` routes: token resolution and the create → clone →
    start composition of POST, the not-found mapping of GET by id, and the
    start/stop/delete routes that hand the id to the manager. */
module SessionsApi {
  import opened Wrappers
  import opened Schema
  import opened SessionManager
  import Server

  /** The GitHub token to clone with: looked up only when the cookie holds a
      truthy token id, and found only when a token record has that id. */
  function ResolveToken(tokenId: Option<string>, accessTokens: map<string, string>): (t: Option<string>)
    ensures t.Some? <==> Truthy(tokenId) && tokenId.value in accessTokens
    ensures t.Some? ==> t.value == accessTokens[tokenId.value]
  {
    if Truthy(tokenId) && tokenId.value in accessTokens then Some(accessTokens[tokenId.value]) else None
  }

  /** The validated POST body. */
  datatype CreateBody = CreateBody(repo: string, branch: string)

  /** The outcomes POST draws from outside, one per manager call. */
  datatype PostEnv = PostEnv(create: CreateEnv, clone: Outcome, spawn: SpawnOutcome)

  /** POST /api/sessions after token resolution: create, clone, start, each
      only if the one before returned, and reply with what create returned.
      A throw after create leaves the new record in the store. */
  function CreateCloneStart(store: Store, body: CreateBody, token: Option<string>, env: PostEnv): (s: Step<CreatedSession>)
    ensures var c := CreateSession(store, CreateSessionInput(body.repo, body.branch), env.create);
      c.result.Failure? ==> s == c
    ensures var c := CreateSession(store, CreateSessionInput(body.repo, body.branch), env.create);
      c.result.Success? && env.clone.Err? ==>
        && s.result == Failure(GitCloneFailed(env.clone.detail))
        && s.store == c.store && s.store[env.create.id].status == Stopped
        && (forall i :: 0 <= i < |s.effects| ==> !s.effects[i].Spawn?)
    ensures var c := CreateSession(store, CreateSessionInput(body.repo, body.branch), env.create);
      c.result.Success? && env.clone.Ok? && env.spawn.SpawnErr? ==>
        && s.result == Failure(SpawnFailed(env.spawn.detail))
        && s.store == c.store
    ensures s.result.Success? ==>
      && s.result.value.status == Stopped
      && s.result.value.id in s.store
      && s.store[s.result.value.id].status == Running
      && s.store.Keys == store.Keys + {s.result.value.id}
    ensures var c := CreateSession(store, CreateSessionInput(body.repo, body.branch), env.create);
      s.result.Success? ==>
        && s.result == c.result
        && s.store == c.store[env.create.id := c.store[env.create.id].(status := Running, pid := Some(env.spawn.pid))]
    ensures s.result.Success? <==>
      && env.create.mkdir.Ok? && env.create.write.Ok? && env.create.id !in store
      && env.clone.Ok? && env.spawn.Spawned?
  {
    var created := CreateSession(store, CreateSessionInput(body.repo, body.branch), env.create);
    if created.result.Failure? then created
    else
      var id := created.result.value.id;
      var cloned := CloneRepo(created.store, id, token, env.clone);
      if cloned.result.Failure? then Step(cloned.store, created.effects + cloned.effects, Failure(cloned.result.error))
      else
        var started := StartOpenCode(cloned.store, id, env.spawn);
        var fx := created.effects + cloned.effects + started.effects;
        if started.result.Failure? then Step(started.store, fx, Failure(started.result.error))
        else Step(started.store, fx, created.result)
  }

  datatype Request =
    | ListReq
    | GetReq(id: SessionId)
    | CreateReq(body: Option<CreateBody>)
    | StartReq(id: SessionId)
    | StopReq(id: SessionId)
    | DeleteReq(id: SessionId)

  datatype Body =
    | SessionsBody(sessions: seq<ListedSession>)
    | SessionBody(session: SessionView)
    | CreatedBody(created: CreatedSession)
    | EmptyBody
    | TextBody(text: string)

  datatype Reply = Reply(status: int, body: Body)

  /** Everything a request may draw from outside: the token cookie, the token
      table, the outcomes of the manager's side effects, and the framework's
      message for a body that fails validation. */
  datatype Env = Env(tokenId: Option<string>, accessTokens: map<string, string>, post: PostEnv,
                     validationMessage: string)

  /** The framework's code for an error thrown by a handler. */
  const UnknownCode: string := "UNKNOWN"

  /** A thrown manager error as the error handler renders it. */
  function ErrorReply(code: string, message: string): (r: Reply)
    ensures r.body == TextBody(message)
    ensures r.status == 400 <==> code == Server.ValidationCode
    ensures r.status == 400 || r.status == 500
  {
    var resp := Server.OnError(code, Server.ErrorValue(message));
    Reply(resp.status, TextBody(resp.body))
  }

  /** The reply of a route that returns nothing. */
  function Completed(s: Step<()>): Reply {
    match s.result
    case Success(_) => Reply(200, EmptyBody)
    case Failure(e) => ErrorReply(UnknownCode, Message(e))
  }

  /** One request against the store. */
  method Handle(store: Store, req: Request, env: Env) returns (after: Store, reply: Reply)
    ensures (req.ListReq? || req.GetReq?) ==> after == store
    ensures req.ListReq? ==> reply.status == 200 && reply.body.SessionsBody?
    ensures req.ListReq? ==> forall id :: id in store ==>
      exists i :: 0 <= i < |reply.body.sessions| && reply.body.sessions[i].id == id
    ensures req.ListReq? ==>
      && SortedByCreatedAt(reply.body.sessions) && DistinctIds(reply.body.sessions)
      && forall i :: 0 <= i < |reply.body.sessions| ==>
           reply.body.sessions[i].id in store
           && reply.body.sessions[i] == Listed(reply.body.sessions[i].id, store[reply.body.sessions[i].id])
    ensures req.GetReq? ==>
      (reply == Reply(404, TextBody("Session not found")) <==> req.id !in store)
    ensures req.GetReq? && req.id in store ==>
      reply == Reply(200, SessionBody(GetSession(store, req.id).value))
    ensures req.StartReq? ==> after == StartOpenCode(store, req.id, env.post.spawn).store
    ensures req.StopReq? ==> after == StopSession(store, req.id).store
    ensures req.DeleteReq? ==> after == DeleteSession(store, req.id).store
    ensures (req.StartReq? || req.StopReq? || req.DeleteReq?) && req.id !in store ==>
      after == store && reply == Reply(500, TextBody("Session not found"))
    ensures (req.StopReq? || req.DeleteReq?) && req.id in store ==> reply == Reply(200, EmptyBody)
    ensures req.StartReq? && req.id in store ==>
      (reply == Reply(200, EmptyBody) <==> env.post.spawn.Spawned?)
    ensures req.CreateReq? && req.body.None? ==>
      after == store && reply == Reply(400, TextBody(env.validationMessage))
    ensures req.CreateReq? && req.body.Some? ==>
      var s := CreateCloneStart(store, req.body.value, ResolveToken(env.tokenId, env.accessTokens), env.post);
      && after == s.store
      && (s.result.Success? ==> reply == Reply(200, CreatedBody(s.result.value)))
      && (s.result.Failure? ==> reply == Reply(500, TextBody(Message(s.result.error))))
  {
    match req {
      case ListReq =>
        var sessions := ListSessions(store);
        after, reply := store, Reply(200, SessionsBody(sessions));
      case GetReq(id) =>
        after := store;
        match GetSession(store, id) {
          case None => reply := Reply(404, TextBody("Session not found"));
          case Some(v) => reply := Reply(200, SessionBody(v));
        }
      case CreateReq(body) =>
        match body {
          case None =>
            after, reply := store, ErrorReply(Server.ValidationCode, env.validationMessage);
          case Some(b) =>
            var token := ResolveToken(env.tokenId, env.accessTokens);
            var s := CreateCloneStart(store, b, token, env.post);
            after := s.store;
            match s.result {
              case Success(c) => reply := Reply(200, CreatedBody(c));
              case Failure(e) => reply := ErrorReply(UnknownCode, Message(e));
            }
        }
      case StartReq(id) =>
        var s := StartOpenCode(store, id, env.post.spawn);
        after, reply := s.store, Completed(s);
      case StopReq(id) =>
        var s := StopSession(store, id);
        after, reply := s.store, Completed(s);
      case DeleteReq(id) =>
        var s := DeleteSession(store, id);
        after, reply := s.store, Completed(s);
    }
  }

  /** POST clones the new session's repository with the signed-in user's
      token: the third effect is the clone, and its URL carries a token
      exactly when the cookie names a stored, non-empty token. */
  lemma PostClonesWithResolvedToken(store: Store, body: CreateBody, tokenId: Option<string>,
                                    accessTokens: map<string, string>, env: PostEnv)
    requires env.create.mkdir.Ok? && env.create.write.Ok? && env.create.id !in store
    ensures var token := ResolveToken(tokenId, accessTokens);
      var s := CreateCloneStart(store, body, token, env);
      && |s.effects| >= 3
      && s.effects[2] == GitClone(body.branch, CloneUrl(body.repo, token), RepoDir(env.create.id))
    ensures Truthy(ResolveToken(tokenId, accessTokens)) <==>
      Truthy(tokenId) && tokenId.value in accessTokens && accessTokens[tokenId.value] != ""
  {
  }

  /** A request whose clone fails still leaves the new session behind,
      stopped; a later shutdown or delete finds it like any other. */
  lemma FailedCloneLeavesStoppedSession(store: Store, body: CreateBody, token: Option<string>, env: PostEnv)
    requires env.create.mkdir.Ok? && env.create.write.Ok? && env.create.id !in store
    requires env.clone.Err?
    ensures var s := CreateCloneStart(store, body, token, env);
      && s.result.Failure?
      && GetSession(s.store, env.create.id).Some?
      && GetSession(s.store, env.create.id).value.status == Stopped
      && GetSession(s.store, env.create.id).value.pid == None
  {
  }
}
