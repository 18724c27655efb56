/** The session registry of the MCP endpoint (src/index.ts): a map from
    session id to session, the resolve-or-create rule shared by POST and GET,
    the reaper that evicts sessions by age, the DELETE handler, and the HTTP
    outcome of a request once the bearer gate has run. The registry is a value
    threaded through the handlers; time and id generation are inputs. */
module Sessions {
  import opened Wrappers
  import opened Json
  import Auth

  type SessionId = string

  /** 30 minutes, in milliseconds: the age past which the reaper evicts. */
  const SessionTtl := 30 * 60 * 1000

  /** The transport, which announces the id it was built with. */
  datatype Transport = Transport(sessionId: SessionId)

  /** The per-session protocol server, connected to one transport. */
  datatype McpServer = McpServer(connectedTo: Transport)

  datatype Session = Session(server: McpServer, transport: Transport, createdAt: int)

  type Registry = map<SessionId, Session>

  /** Every entry's transport announces its own key, and its server is
      connected to exactly that transport. */
  predicate WellFormed(reg: Registry) {
    forall id :: id in reg ==>
      reg[id].transport == Transport(id) && reg[id].server.connectedTo == reg[id].transport
  }

  /** What the id oracle (`randomUUID`) may return: a non-empty id that is
      not yet a key. */
  predicate IsFreshId(reg: Registry, id: SessionId) {
    id != "" && id !in reg
  }

  /** `sessionId ? sessions.get(sessionId) : undefined` finds a session. */
  predicate Known(reg: Registry, header: Option<string>) {
    header.Some? && header.value != "" && header.value in reg
  }

  /** A new server connected to a new transport that announces `id`. */
  function NewSession(id: SessionId, now: int): (s: Session)
    ensures s.transport.sessionId == id && s.server.connectedTo == s.transport
    ensures s.createdAt == now
  {
    var transport := Transport(id);
    Session(McpServer(transport), transport, now)
  }

  datatype Resolved = Resolved(registry: Registry, id: SessionId, session: Session, created: bool)

  /** Resolve-or-create, as both the POST and the GET handler do it. */
  function Resolve(reg: Registry, header: Option<string>, freshId: SessionId, now: int): (r: Resolved)
    requires IsFreshId(reg, freshId)
    // the routed-to session is the registry entry under the routed-to id
    ensures r.id in r.registry && r.registry[r.id] == r.session
    // a known id is reused, and nothing changes, createdAt included
    ensures Known(reg, header) ==>
      && !r.created && r.id == header.value
      && r.registry == reg && r.session == reg[header.value]
    // otherwise a session is created under the generated id, never the client's
    ensures !Known(reg, header) ==>
      && r.created && r.id == freshId && r.id !in reg
      && r.session.createdAt == now
    // creation adds exactly one key and changes no other entry
    ensures r.registry.Keys == reg.Keys + {r.id}
    ensures forall id :: id in reg ==> r.registry[id] == reg[id]
    ensures WellFormed(reg) ==> WellFormed(r.registry)
  {
    if Known(reg, header) then Resolved(reg, header.value, reg[header.value], false)
    else
      var session := NewSession(freshId, now);
      Resolved(reg[freshId := session], freshId, session, true)
  }

  // ---------------------------------------------------------------------
  // The reaper

  /** Strictly older than the TTL, measured from creation. */
  predicate Expired(s: Session, now: int) {
    now - s.createdAt > SessionTtl
  }

  /** The entries the reaper keeps, as a reference definition. */
  function Survivors(reg: Registry, now: int): map<SessionId, Session> {
    map id | id in reg && !Expired(reg[id], now) :: reg[id]
  }

  /** The body of the `setInterval` callback at time `now`: walk the entries
      and delete each expired one. */
  method Reap(reg: Registry, now: int) returns (kept: Registry)
    ensures forall id :: id in kept <==> id in reg && !Expired(reg[id], now)
    ensures forall id :: id in kept ==> kept[id] == reg[id]
    ensures kept == Survivors(reg, now)
  {
    kept := reg;
    var pending := reg.Keys;
    while pending != {}
      invariant pending <= reg.Keys
      invariant forall id :: id in kept <==> id in reg && (id in pending || !Expired(reg[id], now))
      invariant forall id :: id in kept ==> kept[id] == reg[id]
      decreases pending
    {
      var id :| id in pending;
      if Expired(reg[id], now) {
        kept := kept - {id};
      }
      pending := pending - {id};
    }
  }

  lemma ReapPreservesWellFormed(reg: Registry, now: int)
    requires WellFormed(reg)
    ensures WellFormed(Survivors(reg, now))
  {
  }

  /** A second pass at the same time evicts nothing more. */
  lemma ReapIdempotent(reg: Registry, now: int)
    ensures Survivors(Survivors(reg, now), now) == Survivors(reg, now)
  {
  }

  /** A later pass never brings a session back. */
  lemma ReapMonotone(reg: Registry, t1: int, t2: int)
    requires t1 <= t2
    ensures Survivors(reg, t2).Keys <= Survivors(reg, t1).Keys
  {
  }

  /** Using a session does not extend its life: a session reused at any time
      is still evicted once its creation is more than the TTL in the past. */
  lemma ReuseDoesNotRefresh(reg: Registry, id: SessionId, freshId: SessionId, t: int, later: int)
    requires IsFreshId(reg, freshId) && id != "" && id in reg
    requires later - reg[id].createdAt > SessionTtl
    ensures id !in Survivors(Resolve(reg, Some(id), freshId, t).registry, later)
  {
  }

  /** A session created at `now` survives every pass up to `now + TTL` and
      none after it. */
  lemma CreatedSessionLifetime(reg: Registry, freshId: SessionId, now: int, later: int)
    requires IsFreshId(reg, freshId)
    ensures var r := Resolve(reg, None, freshId, now);
      r.id in Survivors(r.registry, later) <==> later <= now + SessionTtl
  {
  }

  // ---------------------------------------------------------------------
  // Routing

  /** Two first-contact requests get two distinct sessions, and a later
      request citing either id is routed to that one, not the other. */
  lemma FirstContactsAreIsolated(
    reg: Registry, f1: SessionId, f2: SessionId, f3: SessionId, t1: int, t2: int, t3: int)
    requires IsFreshId(reg, f1)
    requires IsFreshId(Resolve(reg, None, f1, t1).registry, f2)
    requires IsFreshId(Resolve(Resolve(reg, None, f1, t1).registry, None, f2, t2).registry, f3)
    ensures var r1 := Resolve(reg, None, f1, t1);
      var r2 := Resolve(r1.registry, None, f2, t2);
      && r1.id != r2.id
      && Resolve(r2.registry, Some(r1.id), f3, t3).session == r1.session
      && Resolve(r2.registry, Some(r2.id), f3, t3).session == r2.session
      && r1.session != r2.session
  {
  }

  /** Resolving a known id again is stable: the same session, the same registry. */
  lemma ResolveKnownIsStable(reg: Registry, id: SessionId, f1: SessionId, f2: SessionId, t1: int, t2: int)
    requires IsFreshId(reg, f1) && IsFreshId(reg, f2) && Known(reg, Some(id))
    ensures Resolve(reg, Some(id), f1, t1) == Resolve(reg, Some(id), f2, t2)
  {
  }

  // ---------------------------------------------------------------------
  // The HTTP endpoint

  datatype Verb = Post | Get | Delete

  /** How the transport's `handleRequest` ended. */
  datatype Dispatch = Handled | Threw(headersSent: bool)

  datatype Reply = Reply(status: int, body: Value)

  /** The registry after the request, the reply written by the handler itself
      (`None` when the transport wrote it), and the session routed to. */
  datatype Outcome = Outcome(registry: Registry, reply: Option<Reply>, routedTo: Option<SessionId>)

  const InternalErrorMessage := "Internal server error"
  const SessionClosedStatus := "session closed"

  /** The catch block: a 500 only when no headers have gone out. */
  function FailureReply(d: Dispatch): (r: Option<Reply>)
    ensures r.Some? <==> d == Threw(false)
    ensures r.Some? ==> r.value == Reply(500, Single("error", Str(InternalErrorMessage)))
  {
    match d
    case Handled => None
    case Threw(sent) => if sent then None else Some(Reply(500, Single("error", Str(InternalErrorMessage))))
  }

  /** The DELETE handler: answers 200 and leaves the registry as it is. */
  function CloseSession(reg: Registry): (o: Outcome)
    ensures o.registry == reg
    ensures o.reply == Some(Reply(200, Single("status", Str(SessionClosedStatus))))
  {
    Outcome(reg, Some(Reply(200, Single("status", Str(SessionClosedStatus)))), None)
  }

  /** One request to the MCP path: the bearer gate, then the verb's handler. */
  function HandleMcp(
    reg: Registry, secret: Option<string>, authorization: Option<string>, verb: Verb,
    sessionHeader: Option<string>, freshId: SessionId, now: int, dispatch: Dispatch): (o: Outcome)
    requires IsFreshId(reg, freshId)
    // a rejected request touches nothing and gets the gate's 401
    ensures Auth.BearerAuth(secret, authorization).Reject? ==>
      && o.registry == reg && o.routedTo.None?
      && o.reply == Some(Reply(401, Single("error", Str(Auth.BearerAuth(secret, authorization).message))))
    ensures Auth.BearerAuth(secret, authorization).Pass? && verb == Delete ==>
      o == CloseSession(reg)
    // POST and GET route by resolve-or-create and report dispatch failures
    ensures Auth.BearerAuth(secret, authorization).Pass? && verb != Delete ==>
      && o.routedTo == Some(Resolve(reg, sessionHeader, freshId, now).id)
      && o.registry == Resolve(reg, sessionHeader, freshId, now).registry
      && o.reply == FailureReply(dispatch)
    ensures WellFormed(reg) ==> WellFormed(o.registry)
    ensures reg.Keys <= o.registry.Keys && |o.registry.Keys - reg.Keys| <= 1
  {
    match Auth.BearerAuth(secret, authorization)
    case Reject(status, message) => Outcome(reg, Some(Reply(status, Single("error", Str(message)))), None)
    case Pass =>
      if verb == Delete then CloseSession(reg)
      else
        var r := Resolve(reg, sessionHeader, freshId, now);
        Outcome(r.registry, FailureReply(dispatch), Some(r.id))
  }

  /** GET applies the same rule as POST. */
  lemma GetRoutesLikePost(
    reg: Registry, secret: Option<string>, authorization: Option<string>,
    sessionHeader: Option<string>, freshId: SessionId, now: int, dispatch: Dispatch)
    requires IsFreshId(reg, freshId)
    ensures HandleMcp(reg, secret, authorization, Get, sessionHeader, freshId, now, dispatch)
         == HandleMcp(reg, secret, authorization, Post, sessionHeader, freshId, now, dispatch)
  {
  }

  /** No request removes a session: only the reaper does. */
  lemma OnlyReaperRemoves(
    reg: Registry, secret: Option<string>, authorization: Option<string>, verb: Verb,
    sessionHeader: Option<string>, freshId: SessionId, now: int, dispatch: Dispatch, id: SessionId)
    requires IsFreshId(reg, freshId) && id in reg
    ensures var o := HandleMcp(reg, secret, authorization, verb, sessionHeader, freshId, now, dispatch);
      id in o.registry && o.registry[id] == reg[id]
  {
  }
}
