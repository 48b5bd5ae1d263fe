/**
 The relay's table of control sessions and streams, changed under one mutex.

 Each step is one critical section, one write of a control frame, or one action
 between sections, so a run is any interleaving of requests, stream workers,
 session closes and server close.  Tokens and stream identifiers are fresh
 because they are 32 random bytes.
 */
module RelayTable {
  import opened Wrappers

  type Host = int
  type Token = int
  type SessionId = int
  type StreamId = int
  type Socket = int
  type Conn = int

  datatype Config = Config(maxConnections: nat, maxNodes: nat, maxStreamsPerNode: nat)

  /** Frames written on a control connection. */
  datatype Frame = Registered | Opened(stream: StreamId)

  /** A published session: `Closing` from the section of its close until every
      stream found there is closed. */
  datatype Life = Live | Closing(todo: set<StreamId>) | Closed

  datatype Session = Session(
    host: Host, token: Token, canceled: bool, streams: set<StreamId>, life: Life,
    registering: bool, broken: bool, wire: seq<Frame>)

  /** The one request that may claim a stream. */
  datatype Request = Unclaimed | Upgrading | Holding(socket: Socket) | Finished

  datatype Stream = Stream(
    session: SessionId, request: Request, closed: bool, socket: Option<Socket>, slot: Option<Socket>)
  {
    predicate Claimed() {
      !request.Unclaimed?
    }
  }

  datatype State = State(
    config: Config, closed: bool, connections: set<Conn>,
    routes: map<Host, SessionId>, tokens: map<Token, SessionId>,
    sessions: map<SessionId, Session>, streams: map<StreamId, Stream>,
    sockets: map<Socket, StreamId>, closing: set<Socket>, shut: set<Socket>,
    claims: seq<StreamId>, blocked: bool)

  datatype Step =
    | Track(conn: Conn)
    | Release(conn: Conn)
    | Register(session: SessionId, host: Host, token: Token)
    | SendRegistered(session: SessionId, ok: bool)
    | Open(host: Host, stream: StreamId)
    | SendOpen(stream: StreamId, ok: bool)
    | Claim(token: Token, stream: StreamId)
    | Upgrade(stream: StreamId, accepted: Option<Socket>)
    | Attach(stream: StreamId)
    | Take(stream: StreamId)
    | CloseStream(stream: StreamId)
    | CloseSocket(socket: Socket)
    | Cancel(session: SessionId)
    | CloseSession(session: SessionId)
    | CloseNext(session: SessionId, stream: StreamId)
    | CloseServer

  function Init(config: Config): (s: State) {
    State(config, false, {}, map[], map[], map[], map[], map[], {}, {}, [], false)
  }

  /** The session's context has ended. */
  predicate Ended(s: State, c: SessionId)
    requires c in s.sessions
  {
    s.closed || s.sessions[c].canceled
  }

  /** References lead somewhere: what the steps need to be defined. */
  ghost predicate Linked(s: State) {
    && (forall h :: h in s.routes ==> s.routes[h] in s.sessions)
    && (forall t :: t in s.tokens ==> s.tokens[t] in s.sessions)
    && (forall id :: id in s.streams ==> s.streams[id].session in s.sessions)
  }

  /** Sessions are never forgotten, closed ones never reopened. */
  ghost predicate Kept(s: State, t: State) {
    && t.config == s.config
    && forall c :: c in s.sessions ==> c in t.sessions && (s.sessions[c].life.Closed? ==> t.sessions[c].life.Closed?)
  }

  function ApplyRegister(s: State, c: SessionId, host: Host, token: Token): (t: State)
    requires Linked(s) && c !in s.sessions
    ensures Linked(t) && Kept(s, t)
  {
    if s.closed || host in s.routes || |s.routes| >= s.config.maxNodes then s
    else s.(routes := s.routes[host := c], tokens := s.tokens[token := c],
            sessions := s.sessions[c := Session(host, token, false, {}, Live, true, false, [])])
  }

  /** The registered frame is written under the write lock taken before the
      session was published; a write that fails breaks the connection. */
  function ApplySendRegistered(s: State, c: SessionId, ok: bool): (t: State)
    requires Linked(s) && c in s.sessions
    ensures Linked(t) && Kept(s, t)
  {
    var session := s.sessions[c];
    if !session.registering then s
    else if ok && !session.broken then
      s.(sessions := s.sessions[c := session.(registering := false, wire := session.wire + [Registered])])
    else s.(sessions := s.sessions[c := session.(registering := false, broken := true)])
  }

  function ApplyOpen(s: State, host: Host, id: StreamId): (t: State)
    requires Linked(s)
    ensures Linked(t) && Kept(s, t)
  {
    if s.closed || host !in s.routes then s
    else
      var c := s.routes[host];
      var session := s.sessions[c];
      if Ended(s, c) || |session.streams| >= s.config.maxStreamsPerNode then s
      else s.(sessions := s.sessions[c := session.(streams := session.streams + {id})],
              streams := s.streams[id := Stream(c, Unclaimed, false, None, None)])
  }

  /** The open frame waits for the write lock, so not while registering. */
  function ApplySendOpen(s: State, id: StreamId, ok: bool): (t: State)
    requires Linked(s) && id in s.streams
    ensures Linked(t) && Kept(s, t)
  {
    var c := s.streams[id].session;
    var session := s.sessions[c];
    if session.registering || session.broken || Ended(s, c) then s
    else if ok then s.(sessions := s.sessions[c := session.(wire := session.wire + [Opened(id)])])
    else s.(sessions := s.sessions[c := session.(broken := true)])
  }

  function ApplyClaim(s: State, token: Token, id: StreamId): (t: State)
    requires Linked(s)
    ensures Linked(t) && Kept(s, t)
  {
    if s.closed || token !in s.tokens then s
    else
      var c := s.tokens[token];
      if Ended(s, c) || id !in s.sessions[c].streams || id !in s.streams
         || s.streams[id].closed || s.streams[id].Claimed() then s
      else s.(streams := s.streams[id := s.streams[id].(request := Upgrading)], claims := s.claims + [id])
  }

  function ApplyUpgrade(s: State, id: StreamId, accepted: Option<Socket>): (t: State)
    requires Linked(s) && id in s.streams
    ensures Linked(t) && Kept(s, t)
  {
    if !s.streams[id].request.Upgrading? then s
    else
      match accepted
      case None => s.(streams := s.streams[id := s.streams[id].(request := Finished)])
      case Some(k) =>
        s.(streams := s.streams[id := s.streams[id].(request := Holding(k))], sockets := s.sockets[k := id])
  }

  /** The second section of the stream request.  Sending into a full one-slot
      channel would block with the mutex held. */
  function ApplyAttach(s: State, id: StreamId): (t: State)
    requires Linked(s) && id in s.streams
    ensures Linked(t) && Kept(s, t)
  {
    var stream := s.streams[id];
    if !stream.request.Holding? then s
    else
      var k := stream.request.socket;
      if stream.closed || Ended(s, stream.session) then
        s.(streams := s.streams[id := stream.(request := Finished)], closing := s.closing + {k})
      else if stream.slot.Some? then s.(blocked := true)
      else s.(streams := s.streams[id := stream.(request := Finished, socket := Some(k), slot := Some(k))])
  }

  function ApplyCloseStream(s: State, id: StreamId): (t: State)
    requires Linked(s) && id in s.streams
    ensures Linked(t) && Kept(s, t)
  {
    var stream := s.streams[id];
    if stream.closed then s
    else
      var session := s.sessions[stream.session];
      s.(streams := s.streams[id := stream.(closed := true)],
         sessions := s.sessions[stream.session := session.(streams := session.streams - {id})],
         closing := s.closing + (if stream.socket.Some? then {stream.socket.value} else {}))
  }

  function ApplyCloseSession(s: State, c: SessionId): (t: State)
    requires Linked(s) && c in s.sessions
    ensures Linked(t) && Kept(s, t)
  {
    var session := s.sessions[c];
    if !session.life.Live? then s
    else s.(routes := if session.host in s.routes && s.routes[session.host] == c then s.routes - {session.host}
                      else s.routes,
            tokens := s.tokens - {session.token},
            sessions := s.sessions[c := session.(canceled := true, life := Closing(session.streams))])
  }

  /** Close the next of the streams found by the section; at the end the session
      is closed. */
  function ApplyCloseNext(s: State, c: SessionId, id: StreamId): (t: State)
    requires Linked(s) && c in s.sessions
    ensures Linked(t) && Kept(s, t)
  {
    if !s.sessions[c].life.Closing? then s
    else
      var todo := s.sessions[c].life.todo;
      if todo == {} then s.(sessions := s.sessions[c := s.sessions[c].(life := Closed)])
      else if id !in todo || id !in s.streams then s
      else
        var t := ApplyCloseStream(s, id);
        t.(sessions := t.sessions[c := t.sessions[c].(life := Closing(todo - {id}))])
  }

  /** Fresh: secrets and new objects are not in use yet. */
  predicate Enabled(s: State, step: Step) {
    match step
    case Register(c, _, token) => c !in s.sessions && forall d :: d in s.sessions ==> s.sessions[d].token != token
    case Open(_, id) => id !in s.streams
    case Upgrade(_, accepted) => accepted.None? || accepted.value !in s.sockets
    case _ => true
  }

  function Apply(s: State, step: Step): (t: State)
    requires Linked(s)
    ensures Linked(t) && Kept(s, t)
  {
    if !Enabled(s, step) || s.blocked then s
    else
      match step
      case Track(conn) =>
        if s.closed || |s.connections| >= s.config.maxConnections then s else s.(connections := s.connections + {conn})
      case Release(conn) => s.(connections := s.connections - {conn})
      case Register(c, host, token) => ApplyRegister(s, c, host, token)
      case SendRegistered(c, ok) => if c in s.sessions then ApplySendRegistered(s, c, ok) else s
      case Open(host, id) => ApplyOpen(s, host, id)
      case SendOpen(id, ok) => if id in s.streams then ApplySendOpen(s, id, ok) else s
      case Claim(token, id) => ApplyClaim(s, token, id)
      case Upgrade(id, accepted) => if id in s.streams then ApplyUpgrade(s, id, accepted) else s
      case Attach(id) => if id in s.streams then ApplyAttach(s, id) else s
      case Take(id) => if id in s.streams then s.(streams := s.streams[id := s.streams[id].(slot := None)]) else s
      case CloseStream(id) => if id in s.streams then ApplyCloseStream(s, id) else s
      case CloseSocket(k) => if k in s.closing then s.(closing := s.closing - {k}, shut := s.shut + {k}) else s
      case Cancel(c) => if c in s.sessions then s.(sessions := s.sessions[c := s.sessions[c].(canceled := true)]) else s
      case CloseSession(c) => if c in s.sessions then ApplyCloseSession(s, c) else s
      case CloseNext(c, id) => if c in s.sessions then ApplyCloseNext(s, c, id) else s
      case CloseServer => s.(closed := true)
  }

  function Run(s: State, steps: seq<Step>): (t: State)
    requires Linked(s)
    ensures Linked(t) && Kept(s, t)
    decreases |steps|
  {
    if steps == [] then s else Apply(Run(s, steps[..|steps| - 1]), steps[|steps| - 1])
  }

  // --------------------------------------------------------------- invariant

  predicate WireFits(session: Session) {
    && (session.registering ==> session.wire == [])
    && (session.wire == [] ==> session.registering || session.broken)
    && (session.wire != [] ==> session.wire[0] == Registered)
    && (forall i :: 1 <= i < |session.wire| ==> session.wire[i].Opened?)
  }

  /** What a session's own fields keep. */
  ghost predicate SessionFits(config: Config, session: Session) {
    && (!session.life.Live? ==> session.canceled)
    && (session.life.Closing? ==> session.streams <= session.life.todo)
    && (session.life.Closed? ==> session.streams == {})
    && |session.streams| <= config.maxStreamsPerNode
    && WireFits(session)
  }

  /** A live session is listed under both its names. */
  ghost predicate Listed(routes: map<Host, SessionId>, tokens: map<Token, SessionId>, c: SessionId, session: Session) {
    session.life.Live? ==>
      && session.host in routes && routes[session.host] == c
      && session.token in tokens && tokens[session.token] == c
  }

  /** Routes and tokens list the live sessions and nothing else. */
  ghost predicate TablesFit(
    routes: map<Host, SessionId>, tokens: map<Token, SessionId>, sessions: map<SessionId, Session>)
  {
    && (forall h :: h in routes ==>
            routes[h] in sessions && sessions[routes[h]].life.Live? && sessions[routes[h]].host == h)
    && (forall t :: t in tokens ==>
            tokens[t] in sessions && sessions[tokens[t]].life.Live? && sessions[tokens[t]].token == t)
    && (forall c :: c in sessions ==> Listed(routes, tokens, c, sessions[c]))
  }

  ghost predicate SessionsFit(config: Config, sessions: map<SessionId, Session>) {
    forall c :: c in sessions ==> SessionFits(config, sessions[c])
  }

  /** A stream is in its session's table, and in no other, exactly while it is
      open. */
  ghost predicate Seated(sessions: map<SessionId, Session>, streams: map<StreamId, Stream>) {
    && (forall id :: id in streams ==> streams[id].session in sessions)
    && (forall c, id :: c in sessions && id in sessions[c].streams ==>
          id in streams && streams[id].session == c && !streams[id].closed)
    && (forall id :: id in streams && !streams[id].closed ==> id in sessions[streams[id].session].streams)
  }

  /** The slot is empty until the one request of the stream has attached. */
  ghost predicate StreamFits(sockets: map<Socket, StreamId>, claims: seq<StreamId>, id: StreamId, stream: Stream) {
    && (!stream.request.Finished? ==> stream.slot.None? && stream.socket.None?)
    && (stream.request.Holding? ==> stream.request.socket in sockets && sockets[stream.request.socket] == id)
    && (stream.socket.Some? ==> stream.socket.value in sockets && sockets[stream.socket.value] == id)
    && (stream.Claimed() <==> id in claims)
  }

  ghost predicate StreamsFit(sockets: map<Socket, StreamId>, claims: seq<StreamId>, streams: map<StreamId, Stream>) {
    forall id :: id in streams ==> StreamFits(sockets, claims, id, streams[id])
  }

  /** Where an accepted socket is: with its request, recorded in an open stream,
      about to be closed, or closed. */
  ghost predicate SocketFits(stream: Stream, closing: set<Socket>, shut: set<Socket>, k: Socket) {
    || stream.request == Holding(k)
    || (stream.socket == Some(k) && !stream.closed)
    || k in closing
    || k in shut
  }

  ghost predicate SocketsFit(
    sockets: map<Socket, StreamId>, streams: map<StreamId, Stream>, closing: set<Socket>, shut: set<Socket>)
  {
    forall k :: k in sockets ==> sockets[k] in streams && SocketFits(streams[sockets[k]], closing, shut, k)
  }

  predicate ClaimsFit(claims: seq<StreamId>, streams: map<StreamId, Stream>) {
    && (forall i, k :: 0 <= i < k < |claims| ==> claims[i] != claims[k])
    && (forall id :: id in claims ==> id in streams)
  }

  ghost predicate Inv(s: State) {
    && Linked(s)
    && TablesFit(s.routes, s.tokens, s.sessions)
    && |s.connections| <= s.config.maxConnections && |s.routes| <= s.config.maxNodes
    && SessionsFit(s.config, s.sessions)
    && Seated(s.sessions, s.streams)
    && StreamsFit(s.sockets, s.claims, s.streams)
    && SocketsFit(s.sockets, s.streams, s.closing, s.shut)
    && ClaimsFit(s.claims, s.streams)
    && !s.blocked
  }
}
