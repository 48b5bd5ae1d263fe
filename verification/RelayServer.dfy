/**
 The relay server and its session and stream objects, in place.

 A route, a token and a stream all point at one session object, and a session's
 table and a request in flight at one stream object.  The objects stand for a
 state of the table protocol, and each method is a step of it.  What the
 protocol knows beyond the objects (the wire, how far a close has come, which
 sockets a goroutine is about to close) is in the state `s` alone.
 */
module RelayServer {
  import opened Wrappers
  import opened RelayTable
  import opened RelaySafety

  // ------------------------------------------------ what the objects show of a state

  datatype SessionView = SessionView(host: Host, token: Token, canceled: bool, streams: set<StreamId>)

  datatype StreamView = StreamView(
    session: SessionId, claimed: bool, closed: bool, socket: Option<Socket>, slot: Option<Socket>)

  datatype Picture = Picture(
    config: Config, closed: bool, connections: set<Conn>, routes: map<Host, SessionId>, tokens: map<Token, SessionId>,
    sessions: map<SessionId, SessionView>, streams: map<StreamId, StreamView>)

  function ViewSession(x: Session): SessionView {
    SessionView(x.host, x.token, x.canceled, x.streams)
  }

  function ViewStream(x: Stream): StreamView {
    StreamView(x.session, x.Claimed(), x.closed, x.socket, x.slot)
  }

  function ViewSessions(sessions: map<SessionId, Session>): map<SessionId, SessionView> {
    map c | c in sessions :: ViewSession(sessions[c])
  }

  function ViewStreams(streams: map<StreamId, Stream>): map<StreamId, StreamView> {
    map id | id in streams :: ViewStream(streams[id])
  }

  function PictureOf(s: State): Picture {
    Picture(s.config, s.closed, s.connections, s.routes, s.tokens, ViewSessions(s.sessions), ViewStreams(s.streams))
  }

  lemma SessionSet(sessions: map<SessionId, Session>, c: SessionId, x: Session)
    ensures ViewSessions(sessions[c := x]) == ViewSessions(sessions)[c := ViewSession(x)]
  {
  }

  lemma StreamSet(streams: map<StreamId, Stream>, id: StreamId, x: Stream)
    ensures ViewStreams(streams[id := x]) == ViewStreams(streams)[id := ViewStream(x)]
  {
  }

  lemma SameStream(s: State, id: StreamId)
    ensures id in PictureOf(s).streams <==> id in s.streams
    ensures id in s.streams ==> PictureOf(s).streams[id] == ViewStream(s.streams[id])
  {
  }

  lemma SameSession(s: State, c: SessionId)
    ensures c in PictureOf(s).sessions <==> c in s.sessions
    ensures c in s.sessions ==> PictureOf(s).sessions[c] == ViewSession(s.sessions[c])
  {
  }

  /** What the steps below need to know of a state and of one stream. */
  lemma Known(s: State, id: StreamId)
    requires Inv(s)
    ensures RelayTable.Linked(s) && !s.blocked
    ensures id in s.streams ==>
              && s.streams[id].session in s.sessions
              && (s.streams[id].request.Holding? ==> s.streams[id].slot.None?)
    ensures forall c :: c in s.sessions && id in s.sessions[c].streams ==> id in s.streams && s.streams[id].session == c
  {
    if id in s.streams {
      StreamFacts(s, id);
    }
    hide TablesFit, SessionsFit, StreamsFit, SocketsFit, ClaimsFit;
  }

  /** Whether the first section of a stream request goes through. */
  predicate MayClaim(p: Picture, token: Token, id: StreamId) {
    && !p.closed && token in p.tokens && p.tokens[token] in p.sessions
    && !p.sessions[p.tokens[token]].canceled && id in p.sessions[p.tokens[token]].streams
    && id in p.streams && !p.streams[id].closed && !p.streams[id].claimed
  }

  lemma ClaimPicture(s: State, token: Token, id: StreamId)
    requires Inv(s)
    ensures var (t, p) := (Apply(s, Claim(token, id)), PictureOf(s));
            && Inv(t) && (token in p.tokens ==> p.tokens[token] in p.sessions)
            && (token in p.tokens && id in p.sessions[p.tokens[token]].streams ==> id in p.streams)
            && (if MayClaim(p, token, id)
                then PictureOf(t) == p.(streams := p.streams[id := p.streams[id].(claimed := true)])
                     && t.claims == s.claims + [id]
                else t == s)
  {
    StepKeeps(s, Claim(token, id));
    Known(s, id);
    hide Inv, Kept;
    if token in s.tokens {
      SameSession(s, s.tokens[token]);
    }
    SameStream(s, id);
    hide ViewStreams, ViewSessions;
    if id in s.streams {
      StreamSet(s.streams, id, s.streams[id].(request := Upgrading));
    }
  }

  lemma TrackPicture(s: State, conn: Conn)
    requires Inv(s)
    ensures var (t, p) := (Apply(s, Track(conn)), PictureOf(s));
            && Inv(t)
            && PictureOf(t) == (if p.closed || |p.connections| >= p.config.maxConnections then p
                                else p.(connections := p.connections + {conn}))
  {
    StepKeeps(s, Track(conn));
  }

  lemma RegisterPicture(s: State, c: SessionId, host: Host, token: Token)
    requires Inv(s) && Enabled(s, Register(c, host, token))
    ensures var (t, p) := (Apply(s, Register(c, host, token)), PictureOf(s));
            && Inv(t) && c !in p.sessions
            && PictureOf(t) == (if p.closed || host in p.routes || |p.routes| >= p.config.maxNodes then p
                                else p.(routes := p.routes[host := c], tokens := p.tokens[token := c],
                                        sessions := p.sessions[c := SessionView(host, token, false, {})]))
  {
    StepKeeps(s, Register(c, host, token));
    hide TablesFit, SessionsFit, Seated, StreamsFit, SocketsFit, ClaimsFit, Kept;
    SessionSet(s.sessions, c, Session(host, token, false, {}, Live, true, false, []));
  }

  /** Whether the section of `openStream` goes through. */
  predicate MayOpen(p: Picture, host: Host) {
    && !p.closed && host in p.routes && p.routes[host] in p.sessions
    && !p.sessions[p.routes[host]].canceled && |p.sessions[p.routes[host]].streams| < p.config.maxStreamsPerNode
  }

  lemma OpenPicture(s: State, host: Host, id: StreamId)
    requires Inv(s) && id !in s.streams
    ensures var (t, p) := (Apply(s, Open(host, id)), PictureOf(s));
            && Inv(t) && id !in p.streams && (host in p.routes ==> p.routes[host] in p.sessions)
            && PictureOf(t) == (if !MayOpen(p, host) then p else
                                  var (c, view) := (p.routes[host], p.sessions[p.routes[host]]);
                                  p.(sessions := p.sessions[c := view.(streams := view.streams + {id})],
                                     streams := p.streams[id := StreamView(c, false, false, None, None)]))
  {
    StepKeeps(s, Open(host, id));
    hide TablesFit, SessionsFit, Seated, StreamsFit, SocketsFit, ClaimsFit, Kept;
    if MayOpen(PictureOf(s), host) {
      var c := s.routes[host];
      SessionSet(s.sessions, c, s.sessions[c].(streams := s.sessions[c].streams + {id}));
      StreamSet(s.streams, id, Stream(c, Unclaimed, false, None, None));
    }
  }

  lemma AttachPicture(s: State, id: StreamId, k: Socket)
    requires Inv(s) && id in s.streams && s.streams[id].request == Holding(k)
    ensures var (t, p) := (Apply(s, Attach(id)), PictureOf(s));
            && Inv(t) && p.streams[id].claimed && p.streams[id].session in p.sessions && p.streams[id].slot.None?
            && (if p.streams[id].closed || p.closed || p.sessions[p.streams[id].session].canceled
                then PictureOf(t) == p && k in t.closing
                else PictureOf(t) == p.(streams := p.streams[id := p.streams[id].(socket := Some(k), slot := Some(k))]))
  {
    StepKeeps(s, Attach(id));
    Known(s, id);
    assert Apply(s, Attach(id)) == ApplyAttach(s, id);
    hide Inv, Apply, Kept;
    SameStream(s, id);
    SameSession(s, s.streams[id].session);
    StreamSet(s.streams, id, s.streams[id].(request := Finished));
    StreamSet(s.streams, id, s.streams[id].(request := Finished, socket := Some(k), slot := Some(k)));
    Refresh(ViewStreams(s.streams), id);
    hide ViewStreams, ViewSessions;
  }

  lemma Refresh<T, U>(m: map<T, U>, key: T)
    ensures key in m ==> m[key := m[key]] == m
  {
  }

  lemma CloseStreamPicture(s: State, id: StreamId)
    requires Inv(s) && id in s.streams
    ensures var (t, p) := (ApplyCloseStream(s, id), PictureOf(s));
            && Inv(t) && p.streams[id].session in p.sessions
            && PictureOf(t) == (if p.streams[id].closed then p else
                                  var (c, view) := (p.streams[id].session, p.sessions[p.streams[id].session]);
                                  p.(sessions := p.sessions[c := view.(streams := view.streams - {id})],
                                     streams := p.streams[id := p.streams[id].(closed := true)]))
  {
    CloseStreamKeeps(s, id);
    hide TablesFit, SessionsFit, Seated, StreamsFit, SocketsFit, ClaimsFit, Kept;
    var c := s.streams[id].session;
    SessionSet(s.sessions, c, s.sessions[c].(streams := s.sessions[c].streams - {id}));
    StreamSet(s.streams, id, s.streams[id].(closed := true));
  }

  /** The section of a session's close. */
  lemma CloseSessionPicture(s: State, c: SessionId)
    requires Inv(s) && c in s.sessions && s.sessions[c].life.Live?
    ensures var (t, p) := (Apply(s, CloseSession(c)), PictureOf(s));
            && Inv(t) && t.sessions[c].life == Closing(s.sessions[c].streams) && t.streams == s.streams
            && (forall id :: id in s.sessions[c].streams ==> id in s.streams)
            && p.sessions[c].host in p.routes && p.routes[p.sessions[c].host] == c
            && PictureOf(t) == p.(routes := p.routes - {p.sessions[c].host}, tokens := p.tokens - {p.sessions[c].token},
                                  sessions := p.sessions[c := p.sessions[c].(canceled := true)])
  {
    StepKeeps(s, CloseSession(c));
    TablesRemove(s.routes, s.tokens, s.sessions, c, s.sessions[c].(life := Closed));
    hide TablesFit, SessionsFit, StreamsFit, SocketsFit, ClaimsFit, Kept;
    SessionSet(s.sessions, c, s.sessions[c].(canceled := true, life := Closing(s.sessions[c].streams)));
  }

  /** Every further turn of a session's close closes one stream. */
  lemma CloseNextPicture(s: State, c: SessionId, id: StreamId)
    requires Inv(s) && c in s.sessions && s.sessions[c].life.Closing? && id in s.sessions[c].life.todo
    requires id in s.streams
    ensures var (t, todo) := (Apply(s, CloseNext(c, id)), s.sessions[c].life.todo);
            && Inv(t) && c in t.sessions && t.sessions[c].life == Closing(todo - {id})
            && PictureOf(t) == PictureOf(ApplyCloseStream(s, id))
  {
    StepKeeps(s, CloseNext(c, id));
    CloseNextIs(s, c, id);
    hide Inv, Apply, ApplyCloseStream, RelayTable.Linked;
    var t := ApplyCloseStream(s, id);
    SessionSet(t.sessions, c, t.sessions[c].(life := Closing(s.sessions[c].life.todo - {id})));
    SameSession(t, c);
    Refresh(ViewSessions(t.sessions), c);
    hide ViewSessions, ViewStreams;
  }

  lemma CloseNextIs(s: State, c: SessionId, id: StreamId)
    requires Inv(s) && c in s.sessions && s.sessions[c].life.Closing? && id in s.sessions[c].life.todo
    requires id in s.streams
    ensures var t := ApplyCloseStream(s, id);
            && c in t.sessions
            && Apply(s, CloseNext(c, id))
            == t.(sessions := t.sessions[c := t.sessions[c].(life := Closing(s.sessions[c].life.todo - {id}))])
  {
    hide TablesFit, SessionsFit, Seated, StreamsFit, SocketsFit, ClaimsFit, ApplyCloseStream;
  }

  lemma CloseDonePicture(s: State, c: SessionId)
    requires Inv(s) && c in s.sessions && s.sessions[c].life == Closing({})
    ensures var t := Apply(s, CloseNext(c, 0));
            && Inv(t) && PictureOf(t) == PictureOf(s) && c in t.sessions && t.sessions[c].life.Closed?
            && t.sessions[c].streams == {} && t.streams == s.streams
  {
    StepKeeps(s, CloseNext(c, 0));
    SessionFact(s, c);
    hide TablesFit, SessionsFit, Seated, StreamsFit, SocketsFit, ClaimsFit, Kept;
    SessionSet(s.sessions, c, s.sessions[c].(life := Closed));
    assert ViewSessions(s.sessions)[c := ViewSession(s.sessions[c])] == ViewSessions(s.sessions);
  }

  /** Who sits in a session's table is a stream of that session. */
  lemma SeatsOf(s: State, c: SessionId)
    requires Inv(s) && c in s.sessions
    ensures forall id :: id in s.sessions[c].streams ==> id in s.streams && s.streams[id].session == c
  {
    hide TablesFit, SessionsFit, StreamsFit, SocketsFit, ClaimsFit, RelayTable.Linked;
  }

  ghost predicate Reaches(s: State, t: State) {
    RelayTable.Linked(s) && exists steps :: Run(s, steps) == t
  }

  lemma ReachesItself(s: State)
    requires Inv(s)
    ensures RelayTable.Linked(s) && Reaches(s, s)
  {
    assert Run(s, []) == s;
  }

  lemma ReachesOn(s: State, t: State, step: Step)
    requires Inv(t) && Reaches(s, t)
    ensures RelayTable.Linked(t) && Reaches(s, Apply(t, step))
  {
    var steps :| Run(s, steps) == t;
    assert (steps + [step])[..|steps|] == steps;
    assert Run(s, steps + [step]) == Apply(t, step);
  }

  lemma Inhabited(todo: set<StreamId>)
    ensures todo == {} || exists id :: id in todo
  {
    if forall id :: id !in todo {
      assert todo == {};
    }
  }

  lemma SameSize<T>(a: map<Host, T>, b: map<Host, SessionId>)
    requires forall h :: h in a <==> h in b
    ensures |a| == |b|
  {
    var names := a.Keys;
    assert forall h :: h in names <==> h in b.Keys;
    assert names == b.Keys;
  }

  // ------------------------------------------------------------- the objects

  class RelayStream {
    const id: StreamId
    const session: ControlSession
    var claimed: bool
    var closed: bool
    var socket: Option<Socket>
    /** The one-place channel `attached`. */
    var slot: Option<Socket>

    constructor (id: StreamId, session: ControlSession)
      ensures this.id == id && this.session == session && !claimed && !closed && socket.None? && slot.None?
    {
      this.id, this.session, claimed, closed, socket, slot := id, session, false, false, None, None;
    }

    ghost predicate Registered()
      reads session.server`streams
    {
      id in session.server.streams && session.server.streams[id] == this
    }

    ghost function View(): StreamView
      reads this
    {
      StreamView(session.name, claimed, closed, socket, slot)
    }
  }

  class ControlSession {
    const server: Server
    const host: Host
    const token: Token
    var canceled: bool
    var streams: map<StreamId, RelayStream>
    ghost const name: SessionId

    constructor (server: Server, host: Host, token: Token, ghost name: SessionId)
      ensures this.server == server && this.host == host && this.token == token && this.name == name
      ensures !canceled && streams == map[]
    {
      this.server, this.host, this.token, this.name, canceled, streams := server, host, token, name, false, map[];
    }

    method Cancel(ghost p: Picture)
      requires server.Linked() && server.Shows(p) && Registered()
      modifies `canceled
      ensures canceled && server.Linked()
      ensures server.Shows(p.(sessions := p.sessions[name := p.sessions[name].(canceled := true)]))
    {
      canceled := true;
    }

    ghost predicate Registered()
      reads server`sessions
    {
      name in server.sessions && server.sessions[name] == this
    }

    ghost function View(): SessionView
      reads this
    {
      SessionView(host, token, canceled, streams.Keys)
    }
  }

  class Server {
    const config: Config
    var closed: bool
    var connections: set<Conn>
    var routes: map<Host, ControlSession>
    var tokens: map<Token, ControlSession>
    ghost var sessions: map<SessionId, ControlSession>
    ghost var streams: map<StreamId, RelayStream>

    /** Every pointer to a session or stream is to the one object of that name. */
    ghost predicate Linked()
      reads `routes, `tokens, `sessions, `streams, sessions.Values
    {
      && LinkedTables() && LinkedStreams()
      && forall c, id :: c in sessions && id in sessions[c].streams ==>
           id in streams && streams[id] == sessions[c].streams[id]
    }

    ghost predicate LinkedTables()
      reads `routes, `tokens, `sessions
    {
      && (forall c :: c in sessions ==> sessions[c].name == c && sessions[c].server == this)
      && (forall h :: h in routes ==> routes[h].name in sessions && sessions[routes[h].name] == routes[h])
      && (forall t :: t in tokens ==> tokens[t].name in sessions && sessions[tokens[t].name] == tokens[t])
    }

    ghost predicate LinkedStreams()
      reads `sessions, `streams
    {
      forall id :: id in streams ==> streams[id].id == id && streams[id].session.name in sessions
                                     && sessions[streams[id].session.name] == streams[id].session
    }

    ghost predicate ShowsTables(routes': map<Host, SessionId>, tokens': map<Token, SessionId>)
      reads `routes, `tokens
    {
      && (forall h :: h in routes <==> h in routes') && (forall h :: h in routes ==> routes[h].name == routes'[h])
      && (forall t :: t in tokens <==> t in tokens') && (forall t :: t in tokens ==> tokens[t].name == tokens'[t])
    }

    ghost predicate ShowsSessions(views: map<SessionId, SessionView>)
      reads `sessions, sessions.Values
    {
      && (forall c :: c in sessions <==> c in views) && (forall c :: c in sessions ==> sessions[c].View() == views[c])
    }

    ghost predicate ShowsStreams(views: map<StreamId, StreamView>)
      reads `streams, streams.Values
    {
      && (forall id :: id in streams <==> id in views)
      && (forall id :: id in streams ==> streams[id].View() == views[id])
    }

    ghost predicate Shows(p: Picture)
      reads this, sessions.Values, streams.Values
    {
      && config == p.config && closed == p.closed && connections == p.connections
      && ShowsTables(p.routes, p.tokens) && ShowsSessions(p.sessions) && ShowsStreams(p.streams)
    }

    /** The objects stand for this state. */
    ghost predicate Models(s: State)
      reads this, sessions.Values, streams.Values
    {
      RelayTable.Linked(s) && Inv(s) && Linked() && Shows(PictureOf(s))
    }

    /** Sets the fields of one stream. */
    method SetStream(stream: RelayStream, claimed: bool, socket: Option<Socket>, slot: Option<Socket>, ghost p: Picture)
      requires Linked() && stream.id in streams && streams[stream.id] == stream && Shows(p)
      modifies stream
      ensures stream.View() == p.streams[stream.id].(claimed := claimed, socket := socket, slot := slot)
      ensures Linked() && Shows(p.(streams := p.streams[stream.id := stream.View()]))
    {
      stream.claimed, stream.socket, stream.slot := claimed, socket, slot;
    }

    /** The first section of a stream request: whoever gets the stream has used
        up its one claim. */
    method ClaimStream(token: Token, id: StreamId, ghost s: State) returns (r: Option<RelayStream>)
      requires Models(s)
      modifies streams.Values
      ensures Models(Apply(s, Claim(token, id)))
      ensures r.Some? <==> Apply(s, Claim(token, id)).claims == s.claims + [id]
      ensures r.Some? ==> id in streams && r.value == streams[id] && !old(streams[id].claimed) && r.value.claimed
      ensures r.None? ==> forall i :: i in streams ==> streams[i].claimed == old(streams[i].claimed)
    {
      hide Inv, Apply, PictureOf;
      ClaimPicture(s, token, id);
      if closed || token !in tokens {
        return None;
      }
      var owner := tokens[token];
      if owner.canceled || id !in owner.streams {
        return None;
      }
      var candidate := owner.streams[id];
      if candidate.closed || candidate.claimed {
        return None;
      }
      SetStream(candidate, true, candidate.socket, candidate.slot, PictureOf(s));
      return Some(candidate);
    }

    constructor (config: Config)
      ensures Models(Init(config))
    {
      this.config, closed, connections := config, false, {};
      routes, tokens, sessions, streams := map[], map[], map[], map[];
      InitFits(config);
    }

    method Tracked(conn: Conn, ghost s: State) returns (kept: bool)
      requires Models(s)
      modifies `connections
      ensures Models(Apply(s, Track(conn)))
      ensures connections == if kept then old(connections) + {conn} else old(connections)
      ensures kept ==> |old(connections)| < config.maxConnections
    {
      hide Inv, Apply, PictureOf;
      TrackPicture(s, conn);
      if closed || |connections| >= config.maxConnections {
        return false;
      }
      connections := connections + {conn};
      return true;
    }

    /** Publishes a session under its two names at once, or not at all. */
    method Publish(host: Host, token: Token, ghost name: SessionId, ghost s: State) returns (r: Option<ControlSession>)
      requires Models(s) && Enabled(s, Register(name, host, token))
      modifies `routes, `tokens, `sessions
      ensures Models(Apply(s, Register(name, host, token)))
      ensures r.Some? ==> fresh(r.value) && r.value.name == name && r.value.Registered()
      ensures r.Some? ==> host in routes && routes[host] == r.value && token in tokens && tokens[token] == r.value
      ensures r.None? ==> routes == old(routes) && tokens == old(tokens)
    {
      hide Inv, Apply, PictureOf;
      RegisterPicture(s, name, host, token);
      SameSize(routes, PictureOf(s).routes);
      if closed || host in routes || |routes| >= config.maxNodes {
        return None;
      }
      var connection := new ControlSession(this, host, token, name);
      ghost var p := PictureOf(s);
      Adopt(connection, p);
      List(connection, p.(sessions := p.sessions[name := SessionView(host, token, false, {})]));
      return Some(connection);
    }

    ghost method Adopt(c: ControlSession, p: Picture)
      requires Linked() && Shows(p) && c.server == this && c.name !in sessions && !c.canceled && c.streams == map[]
      modifies `sessions
      ensures Linked() && c.Registered()
      ensures Shows(p.(sessions := p.sessions[c.name := SessionView(c.host, c.token, false, {})]))
    {
      sessions := sessions[c.name := c];
    }

    method List(c: ControlSession, ghost p: Picture)
      requires Linked() && Shows(p) && c.server == this && c.Registered()
      modifies `routes, `tokens
      ensures Linked() && routes == old(routes)[c.host := c] && tokens == old(tokens)[c.token := c]
      ensures Shows(p.(routes := p.routes[c.host := c.name], tokens := p.tokens[c.token := c.name]))
    {
      routes, tokens := routes[c.host := c], tokens[c.token := c];
    }

    /** Adds a stream to the session a host name leads to. */
    method OpenStream(host: Host, id: StreamId, ghost s: State) returns (r: Option<RelayStream>)
      requires Models(s) && id !in s.streams
      modifies `streams, sessions.Values
      ensures Models(Apply(s, Open(host, id)))
      ensures r.Some? <==> MayOpen(PictureOf(s), host)
      ensures r.Some? ==> fresh(r.value) && r.value.id == id && r.value.session == routes[host] && r.value.Registered()
    {
      hide Inv, Apply, PictureOf;
      OpenPicture(s, host, id);
      if closed || host !in routes {
        return None;
      }
      var owner := routes[host];
      assert owner.View() == PictureOf(s).sessions[owner.name];
      if owner.canceled || |owner.streams| >= config.maxStreamsPerNode {
        return None;
      }
      var stream := new RelayStream(id, owner);
      ghost var p := PictureOf(s);
      Enter(stream, p);
      Seat(stream, p.(streams := p.streams[id := stream.View()]));
      return Some(stream);
    }

    ghost method Enter(stream: RelayStream, p: Picture)
      requires Linked() && Shows(p) && stream.session.Registered() && stream.session.server == this
      requires stream.id !in streams
      modifies `streams
      ensures Linked() && stream.Registered() && Shows(p.(streams := p.streams[stream.id := stream.View()]))
    {
      streams := streams[stream.id := stream];
    }

    method Seat(stream: RelayStream, ghost p: Picture)
      requires Linked() && Shows(p) && stream.session.Registered() && stream.session.server == this
      requires stream.Registered()
      modifies stream.session`streams
      ensures Linked()
      ensures var (c, view) := (stream.session.name, old(stream.session.View()));
              Shows(p.(sessions := p.sessions[c := view.(streams := view.streams + {stream.id})]))
    {
      stream.session.streams := stream.session.streams[stream.id := stream];
    }

    /** The section of `stream.close`: whatever socket it returns is to be closed. */
    method CloseStream(stream: RelayStream, ghost s: State) returns (socket: Option<Socket>)
      requires Models(s) && stream.session.server == this && stream.Registered()
      modifies stream`closed, stream.session`streams
      ensures Models(ApplyCloseStream(s, stream.id)) && stream.closed
      ensures socket == if old(stream.closed) then None else stream.socket
      ensures !old(stream.closed) ==> stream.session.streams == old(stream.session.streams) - {stream.id}
      ensures old(stream.closed) ==> stream.session.streams == old(stream.session.streams)
    {
      hide Inv, ApplyCloseStream, PictureOf;
      assert streams[stream.id].View() == PictureOf(s).streams[stream.id];
      SameStream(s, stream.id);
      CloseStreamPicture(s, stream.id);
      if stream.closed {
        return None;
      }
      Unseat(stream, PictureOf(s));
      return stream.socket;
    }

    method Unseat(stream: RelayStream, ghost p: Picture)
      requires Linked() && Shows(p) && stream.session.server == this && stream.Registered()
      modifies stream`closed, stream.session`streams
      ensures Linked() && stream.closed && stream.session.streams == old(stream.session.streams) - {stream.id}
      ensures var (c, view) := (stream.session.name, old(stream.session.View()));
              Shows(p.(sessions := p.sessions[c := view.(streams := view.streams - {stream.id})],
                       streams := p.streams[stream.id := old(stream.View()).(closed := true)]))
    {
      stream.closed := true;
      stream.session.streams := stream.session.streams - {stream.id};
    }

    /** The second section of a stream request, with the object it claimed.  The
        one place of the channel is empty, so sending does not block. */
    method AttachStream(candidate: RelayStream, k: Socket, ghost s: State) returns (attached: bool)
      requires Models(s) && candidate.session.server == this && candidate.Registered()
      requires candidate.id in s.streams && s.streams[candidate.id].request == Holding(k)
      modifies candidate
      ensures Models(Apply(s, Attach(candidate.id))) && old(candidate.slot).None?
      ensures attached <==> !candidate.closed && !closed && !candidate.session.canceled
      ensures attached ==> candidate.socket == Some(k) && candidate.slot == Some(k)
      ensures !attached ==> candidate.View() == old(candidate.View()) && k in Apply(s, Attach(candidate.id)).closing
    {
      hide Inv, Apply, PictureOf;
      AttachPicture(s, candidate.id, k);
      assert candidate.View() == PictureOf(s).streams[candidate.id];
      assert candidate.session.View() == PictureOf(s).sessions[candidate.session.name];
      if candidate.closed || closed || candidate.session.canceled {
        return false;
      }
      SetStream(candidate, candidate.claimed, Some(k), Some(k), PictureOf(s));
      return true;
    }

    /** Takes a session's names away and marks it canceled. */
    method Unlist(c: ControlSession, ghost p: Picture)
      requires Linked() && Shows(p) && c.server == this && c.Registered()
      requires c.host in routes && routes[c.host] == c
      modifies `routes, `tokens, c`canceled
      ensures Linked() && c.canceled && c.host !in routes && c.token !in tokens
      ensures Shows(p.(routes := p.routes - {c.host}, tokens := p.tokens - {c.token},
                       sessions := p.sessions[c.name := p.sessions[c.name].(canceled := true)]))
    {
      c.Cancel(p);
      Delist(c, p.(sessions := p.sessions[c.name := p.sessions[c.name].(canceled := true)]));
    }

    method Delist(c: ControlSession, ghost p: Picture)
      requires Linked() && Shows(p) && c.host in routes && routes[c.host] == c
      modifies `routes, `tokens
      ensures Linked() && c.host !in routes && c.token !in tokens
      ensures Shows(p.(routes := p.routes - {c.host}, tokens := p.tokens - {c.token}))
    {
      if c.host in routes && routes[c.host] == c {
        routes := routes - {c.host};
      }
      tokens := tokens - {c.token};
    }

    /** The stream objects a session's close found in its table. */
    ghost predicate Found(c: ControlSession, found: map<StreamId, RelayStream>)
      reads `streams
    {
      forall id :: id in found ==>
        id in streams && streams[id] == found[id] && found[id].id == id && found[id].session == c
    }

    /** One turn of a session's close: some stream it found and has not closed yet. */
    method CloseNext(c: ControlSession, found: map<StreamId, RelayStream>, todo: set<StreamId>, ghost s: State)
      returns (rest: set<StreamId>, ghost t: State)
      requires Models(s) && c.server == this && Found(c, found) && {} < todo <= found.Keys
      requires c.name in s.sessions && s.sessions[c.name].life == Closing(todo)
      modifies c`streams, found.Values
      ensures Inv(t) && Models(t) && c.name in t.sessions && t.sessions[c.name].life == Closing(rest)
      ensures rest < todo && forall id :: id in found && (id !in rest) ==> id !in todo || found[id].closed
      ensures forall id :: id in found && old(found[id].closed) ==> found[id].closed
      ensures RelayTable.Linked(s) && exists id :: t == Apply(s, RelayTable.CloseNext(c.name, id))
    {
      hide Inv, Apply, ApplyCloseStream, PictureOf;
      Inhabited(todo);
      var id :| id in todo;
      assert id in PictureOf(s).streams;
      SameStream(s, id);
      CloseNextPicture(s, c.name, id);
      var socket := CloseStream(found[id], s);
      rest, t := todo - {id}, Apply(s, RelayTable.CloseNext(c.name, id));
    }

    /** The loop of a session's close. */
    method CloseFound(c: ControlSession, found: map<StreamId, RelayStream>, ghost s: State) returns (ghost t: State)
      requires Models(s) && c.server == this && Found(c, found)
      requires c.name in s.sessions && s.sessions[c.name].life == Closing(found.Keys)
      modifies c`streams, found.Values
      ensures Reaches(s, t) && Inv(t) && Models(t) && c.name in t.sessions && t.sessions[c.name].life == Closing({})
      ensures forall id :: id in found ==> found[id].closed
    {
      hide Inv, Apply, Reaches, PictureOf, RelayTable.Linked;
      t := s;
      assert Inv(t);
      ReachesItself(s);
      hide Models;
      var todo := found.Keys;
      while todo != {}
        invariant todo <= found.Keys && Inv(t) && Models(t) && Reaches(s, t)
        invariant c.name in t.sessions && t.sessions[c.name].life == Closing(todo)
        invariant forall id :: id in found ==> id in todo || found[id].closed
        decreases todo
      {
        ghost var u := t;
        todo, t := CloseNext(c, found, todo, u);
        ghost var id :| t == Apply(u, RelayTable.CloseNext(c.name, id));
        ReachesOn(s, u, RelayTable.CloseNext(c.name, id));
      }
    }

    /** The section of a session's close. */
    method BeginClose(c: ControlSession, ghost s: State) returns (found: map<StreamId, RelayStream>)
      requires Models(s) && c.server == this && c.Registered()
      requires c.name in s.sessions && s.sessions[c.name].life.Live?
      modifies `routes, `tokens, c`canceled
      ensures found == c.streams && Found(c, found) && c.canceled && c.host !in routes && c.token !in tokens
      ensures var t := Apply(s, RelayTable.CloseSession(c.name));
              Inv(t) && Models(t) && c.name in t.sessions && t.sessions[c.name].life == Closing(found.Keys)
    {
      hide Inv, Apply, PictureOf, RelayTable.Linked;
      ReachesItself(s);
      CloseSessionPicture(s, c.name);
      assert c.View() == PictureOf(s).sessions[c.name];
      SameSession(s, c.name);
      SeatsOf(s, c.name);
      Unlist(c, PictureOf(s));
      found := c.streams;
      forall id | id in found
        ensures id in streams && streams[id] == found[id] && found[id].id == id && found[id].session == c
      {
        assert c.streams[id] == streams[id];
        assert streams[id].View() == PictureOf(s).streams[id];
        SameStream(s, id);
      }
    }

    lemma EndOfClose(c: ControlSession, s: State)
      requires Models(s) && c.server == this && c.Registered() && c.name in s.sessions
      requires s.sessions[c.name].life == Closing({})
      ensures var t := Apply(s, RelayTable.CloseNext(c.name, 0));
              Models(t) && c.name in t.sessions && t.sessions[c.name].life.Closed? && c.streams == map[]
    {
      hide Inv, Apply, PictureOf, RelayTable.Linked;
      ReachesItself(s);
      CloseDonePicture(s, c.name);
      SameSession(Apply(s, RelayTable.CloseNext(c.name, 0)), c.name);
      assert c.View() == PictureOf(s).sessions[c.name];
      assert c.streams.Keys == {};
    }

    /** `session.close` left undisturbed: its section, then every stream object
        it found.  It is a run of the protocol that ends with the session closed. */
    method CloseSession(c: ControlSession, ghost s: State) returns (ghost t: State)
      requires Models(s) && c.server == this && c.Registered()
      requires c.name in s.sessions && s.sessions[c.name].life.Live?
      modifies `routes, `tokens, c, c.streams.Values
      ensures Reaches(Apply(s, RelayTable.CloseSession(c.name)), t) && Models(t)
      ensures c.name in t.sessions && t.sessions[c.name].life.Closed? && c.streams == map[]
      ensures c.canceled && c.host !in routes && c.token !in tokens
      ensures forall id :: id in old(c.streams) ==> old(c.streams)[id].closed
    {
      hide Inv, Apply, Reaches, PictureOf, RelayTable.Linked;
      ReachesItself(s);
      hide Models;
      var found := BeginClose(c, s);
      ghost var begun := Apply(s, RelayTable.CloseSession(c.name));
      t := CloseFound(c, found, begun);
      EndOfClose(c, t);
      ReachesOn(begun, t, RelayTable.CloseNext(c.name, 0));
      t := Apply(t, RelayTable.CloseNext(c.name, 0));
    }
  }
}
