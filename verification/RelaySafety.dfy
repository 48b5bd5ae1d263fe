/**
 What every interleaving of the relay's sections keeps.
 */
module RelaySafety {
  import opened Wrappers
  import opened RelayTable

  // --------------------------------------------- tables, sessions and seats

  lemma TablesAdd(routes: map<Host, SessionId>, tokens: map<Token, SessionId>, sessions: map<SessionId, Session>,
                  c: SessionId, session: Session)
    requires TablesFit(routes, tokens, sessions) && c !in sessions
    requires session.life.Live? && session.host !in routes
    requires forall d :: d in sessions ==> sessions[d].token != session.token
    ensures TablesFit(routes[session.host := c], tokens[session.token := c], sessions[c := session])
  {
    forall d | d in sessions
      ensures Listed(routes[session.host := c], tokens[session.token := c], d, sessions[d])
    {
      assert Listed(routes, tokens, d, sessions[d]);
    }
  }

  lemma TablesRemove(routes: map<Host, SessionId>, tokens: map<Token, SessionId>, sessions: map<SessionId, Session>,
                     c: SessionId, session: Session)
    requires TablesFit(routes, tokens, sessions) && c in sessions && sessions[c].life.Live? && !session.life.Live?
    ensures TablesFit(routes - {sessions[c].host}, tokens - {sessions[c].token}, sessions[c := session])
    ensures sessions[c].host in routes && routes[sessions[c].host] == c
    ensures |routes - {sessions[c].host}| <= |routes|
  {
    assert Listed(routes, tokens, c, sessions[c]);
    forall d | d in sessions && d != c
      ensures Listed(routes - {sessions[c].host}, tokens - {sessions[c].token}, d, sessions[d])
    {
      assert Listed(routes, tokens, d, sessions[d]);
    }
    assert (routes - {sessions[c].host}).Keys == routes.Keys - {sessions[c].host};
  }

  lemma TablesSame(routes: map<Host, SessionId>, tokens: map<Token, SessionId>, sessions: map<SessionId, Session>,
                   c: SessionId, session: Session)
    requires TablesFit(routes, tokens, sessions) && c in sessions
    requires session.host == sessions[c].host && session.token == sessions[c].token
    requires session.life.Live? == sessions[c].life.Live?
    ensures TablesFit(routes, tokens, sessions[c := session])
  {
    assert Listed(routes, tokens, c, sessions[c]);
  }

  lemma SeatedSame(sessions: map<SessionId, Session>, streams: map<StreamId, Stream>, c: SessionId, session: Session)
    requires Seated(sessions, streams)
    requires if c in sessions then session.streams == sessions[c].streams else session.streams == {}
    ensures Seated(sessions[c := session], streams)
  {
  }

  lemma SeatedOpen(sessions: map<SessionId, Session>, streams: map<StreamId, Stream>, id: StreamId, stream: Stream)
    requires Seated(sessions, streams) && id !in streams && stream.session in sessions && !stream.closed
    ensures var session := sessions[stream.session];
            Seated(sessions[stream.session := session.(streams := session.streams + {id})], streams[id := stream])
  {
  }

  lemma SeatedStream(sessions: map<SessionId, Session>, streams: map<StreamId, Stream>, id: StreamId, stream: Stream)
    requires Seated(sessions, streams) && id in streams
    requires stream.session == streams[id].session && stream.closed == streams[id].closed
    ensures Seated(sessions, streams[id := stream])
  {
  }

  lemma SeatedClose(sessions: map<SessionId, Session>, streams: map<StreamId, Stream>, id: StreamId)
    requires Seated(sessions, streams) && id in streams
    ensures var session := sessions[streams[id].session];
            Seated(sessions[streams[id].session := session.(streams := session.streams - {id})],
                   streams[id := streams[id].(closed := true)])
  {
  }

  lemma SessionsChange(config: Config, sessions: map<SessionId, Session>, c: SessionId, session: Session)
    requires SessionsFit(config, sessions) && SessionFits(config, session)
    ensures SessionsFit(config, sessions[c := session])
  {
  }

  // ---------------------------------------------------- streams and sockets

  lemma StreamsChange(sockets: map<Socket, StreamId>, claims: seq<StreamId>, streams: map<StreamId, Stream>,
                      sockets': map<Socket, StreamId>, claims': seq<StreamId>, id: StreamId, stream: Stream)
    requires StreamsFit(sockets, claims, streams) && StreamFits(sockets', claims', id, stream)
    requires forall k :: k in sockets ==> k in sockets' && sockets'[k] == sockets[k]
    requires forall x :: x != id ==> (x in claims <==> x in claims')
    ensures StreamsFit(sockets', claims', streams[id := stream])
  {
    forall x | x in streams && x != id ensures StreamFits(sockets', claims', x, streams[x]) {
      assert StreamFits(sockets, claims, x, streams[x]);
      if streams[x].socket.Some? {
        var k: Socket := streams[x].socket.value;
        assert k in sockets && k in sockets' && sockets'[k] == sockets[k];
      }
    }
  }

  lemma SocketsChange(sockets: map<Socket, StreamId>, streams: map<StreamId, Stream>, closing: set<Socket>,
      shut: set<Socket>, closing': set<Socket>, shut': set<Socket>, id: StreamId, stream: Stream)
    requires SocketsFit(sockets, streams, closing, shut)
    requires forall k :: k in closing || k in shut ==> k in closing' || k in shut'
    requires forall k :: k in sockets && sockets[k] == id ==> SocketFits(stream, closing', shut', k)
    ensures SocketsFit(sockets, streams[id := stream], closing', shut')
  {
    forall k | k in sockets && sockets[k] != id ensures SocketFits(streams[sockets[k]], closing', shut', k) {
      assert SocketFits(streams[sockets[k]], closing, shut, k);
    }
  }

  /** Closing a stream hands its recorded socket on to be closed. */
  lemma SocketsClose(sockets: map<Socket, StreamId>, streams: map<StreamId, Stream>, closing: set<Socket>,
      shut: set<Socket>, id: StreamId)
    requires SocketsFit(sockets, streams, closing, shut) && id in streams
    ensures SocketsFit(sockets, streams[id := streams[id].(closed := true)],
                       closing + (if streams[id].socket.Some? then {streams[id].socket.value} else {}), shut)
  {
    var closing' := closing + (if streams[id].socket.Some? then {streams[id].socket.value} else {});
    forall k | k in sockets && sockets[k] == id ensures SocketFits(streams[id].(closed := true), closing', shut, k) {
      assert SocketFits(streams[id], closing, shut, k);
    }
    SocketsChange(sockets, streams, closing, shut, closing', shut, id, streams[id].(closed := true));
  }

  lemma SocketsShut(sockets: map<Socket, StreamId>, streams: map<StreamId, Stream>, closing: set<Socket>,
      shut: set<Socket>, k: Socket)
    requires SocketsFit(sockets, streams, closing, shut)
    ensures SocketsFit(sockets, streams, closing - {k}, shut + {k})
  {
    forall x | x in sockets ensures SocketFits(streams[sockets[x]], closing - {k}, shut + {k}, x) {
      assert SocketFits(streams[sockets[x]], closing, shut, x);
    }
  }

  lemma SocketsAdd(sockets: map<Socket, StreamId>, streams: map<StreamId, Stream>, closing: set<Socket>,
      shut: set<Socket>, k: Socket, id: StreamId)
    requires SocketsFit(sockets, streams, closing, shut) && id in streams && streams[id].request == Holding(k)
    ensures SocketsFit(sockets[k := id], streams, closing, shut)
  {
  }

  // ------------------------------------------------------- one lemma per step

  lemma SessionFact(s: State, c: SessionId)
    requires Inv(s) && c in s.sessions
    ensures SessionFits(s.config, s.sessions[c])
  {
  }

  lemma StreamFacts(s: State, id: StreamId)
    requires Inv(s) && id in s.streams
    ensures StreamFits(s.sockets, s.claims, id, s.streams[id])
    ensures forall k :: k in s.sockets && s.sockets[k] == id ==> SocketFits(s.streams[id], s.closing, s.shut, k)
  {
  }

  lemma SeatFact(s: State, id: StreamId)
    requires Inv(s) && id in s.streams && !s.streams[id].closed
    ensures s.streams[id].session in s.sessions && id in s.sessions[s.streams[id].session].streams
  {
  }

  lemma ClosedIsOut(s: State, c: SessionId, id: StreamId)
    requires Inv(s) && c in s.sessions && id in s.streams && s.streams[id].closed
    ensures id !in s.sessions[c].streams
  {
  }

  lemma OneMore(routes: map<Host, SessionId>, host: Host, c: SessionId)
    requires host !in routes
    ensures |routes[host := c]| == |routes| + 1
  {
    assert routes[host := c].Keys == routes.Keys + {host};
  }

  lemma RegisterKeeps(s: State, c: SessionId, host: Host, token: Token)
    requires Inv(s) && Enabled(s, Register(c, host, token))
    ensures Inv(ApplyRegister(s, c, host, token))
  {
    hide Linked, Kept, TablesFit, SessionsFit, Seated, StreamsFit, SocketsFit, ClaimsFit;
    var t := ApplyRegister(s, c, host, token);
    if t != s {
      var session := t.sessions[c];
      TablesAdd(s.routes, s.tokens, s.sessions, c, session);
      SessionsChange(s.config, s.sessions, c, session);
      SeatedSame(s.sessions, s.streams, c, session);
      OneMore(s.routes, host, c);
    }
  }

  /** A step that changes only details of one session. */
  lemma SessionKeeps(s: State, c: SessionId, session: Session)
    requires Inv(s) && c in s.sessions
    requires session.host == s.sessions[c].host && session.token == s.sessions[c].token
    requires session.streams == s.sessions[c].streams
    requires session.life.Live? == s.sessions[c].life.Live?
    requires SessionFits(s.config, session)
    ensures Inv(s.(sessions := s.sessions[c := session]))
  {
    assert Linked(s.(sessions := s.sessions[c := session]));
    hide Linked, Kept, TablesFit, SessionsFit, Seated, StreamsFit, SocketsFit, ClaimsFit;
    TablesSame(s.routes, s.tokens, s.sessions, c, session);
    SessionsChange(s.config, s.sessions, c, session);
    SeatedSame(s.sessions, s.streams, c, session);
  }

  lemma SendRegisteredKeeps(s: State, c: SessionId, ok: bool)
    requires Inv(s) && c in s.sessions
    ensures Inv(ApplySendRegistered(s, c, ok))
  {
    hide Linked, Kept, TablesFit, SessionsFit, Seated, StreamsFit, SocketsFit, ClaimsFit;
    SessionFact(s, c);
    var t := ApplySendRegistered(s, c, ok);
    if s.sessions[c].registering {
      SessionKeeps(s, c, t.sessions[c]);
    }
  }

  lemma SendOpenKeeps(s: State, id: StreamId, ok: bool)
    requires Inv(s) && id in s.streams
    ensures Inv(ApplySendOpen(s, id, ok))
  {
    var c := s.streams[id].session;
    hide Linked, Kept, TablesFit, SessionsFit, Seated, StreamsFit, SocketsFit, ClaimsFit;
    SessionFact(s, c);
    var t := ApplySendOpen(s, id, ok);
    if t != s {
      SessionKeeps(s, c, t.sessions[c]);
    }
  }

  lemma CancelKeeps(s: State, c: SessionId)
    requires Inv(s) && c in s.sessions
    ensures Inv(s.(sessions := s.sessions[c := s.sessions[c].(canceled := true)]))
  {
    hide Linked, Kept, TablesFit, SessionsFit, Seated, StreamsFit, SocketsFit, ClaimsFit;
    SessionFact(s, c);
    SessionKeeps(s, c, s.sessions[c].(canceled := true));
  }

  lemma OpenKeeps(s: State, host: Host, id: StreamId)
    requires Inv(s) && Enabled(s, Open(host, id))
    ensures Inv(ApplyOpen(s, host, id))
  {
    var t := ApplyOpen(s, host, id);
    if t != s {
      var c := s.routes[host];
      var (session, stream) := (t.sessions[c], t.streams[id]);
      assert SessionFits(s.config, s.sessions[c]) && s.sessions[c].life.Live? && id !in s.claims;
      assert forall k :: k in s.sockets ==> s.sockets[k] != id;
      hide Linked, Kept, TablesFit, SessionsFit, Seated, StreamsFit, SocketsFit, ClaimsFit;
      TablesSame(s.routes, s.tokens, s.sessions, c, session);
      SessionsChange(s.config, s.sessions, c, session);
      SeatedOpen(s.sessions, s.streams, id, stream);
      StreamsChange(s.sockets, s.claims, s.streams, s.sockets, s.claims, id, stream);
      SocketsChange(s.sockets, s.streams, s.closing, s.shut, s.closing, s.shut, id, stream);
      ClaimsGrow(s.claims, s.streams, id, stream);
    }
  }

  lemma ClaimsGrow(claims: seq<StreamId>, streams: map<StreamId, Stream>, id: StreamId, stream: Stream)
    requires ClaimsFit(claims, streams)
    ensures ClaimsFit(claims, streams[id := stream])
    ensures id !in claims ==> ClaimsFit(claims + [id], streams[id := stream])
  {
  }

  /** A step of one stream that stays open or closed as it was. */
  lemma StreamKeeps(s: State, id: StreamId, stream: Stream, closing: set<Socket>, claims: seq<StreamId>)
    requires Inv(s) && id in s.streams && s.closing <= closing
    requires stream.session == s.streams[id].session && stream.closed == s.streams[id].closed
    requires claims == s.claims || (id !in s.claims && claims == s.claims + [id])
    requires StreamFits(s.sockets, claims, id, stream)
    requires forall k :: k in s.sockets && s.sockets[k] == id ==> SocketFits(stream, closing, s.shut, k)
    ensures Inv(s.(streams := s.streams[id := stream], closing := closing, claims := claims))
  {
    assert Linked(s.(streams := s.streams[id := stream], closing := closing, claims := claims));
    hide Linked, Kept, TablesFit, SessionsFit, Seated, StreamsFit, SocketsFit, ClaimsFit;
    SeatedStream(s.sessions, s.streams, id, stream);
    StreamsChange(s.sockets, s.claims, s.streams, s.sockets, claims, id, stream);
    SocketsChange(s.sockets, s.streams, s.closing, s.shut, closing, s.shut, id, stream);
    ClaimsGrow(s.claims, s.streams, id, stream);
  }

  lemma ClaimKeeps(s: State, token: Token, id: StreamId)
    requires Inv(s)
    ensures Inv(ApplyClaim(s, token, id))
  {
    hide Linked, Kept, TablesFit, SessionsFit, Seated, StreamsFit, SocketsFit, ClaimsFit;
    var t := ApplyClaim(s, token, id);
    if t != s {
      StreamFacts(s, id);
      StreamKeeps(s, id, t.streams[id], s.closing, t.claims);
    }
  }

  lemma UpgradeKeeps(s: State, id: StreamId, accepted: Option<Socket>)
    requires Inv(s) && id in s.streams && Enabled(s, Upgrade(id, accepted))
    ensures Inv(ApplyUpgrade(s, id, accepted))
  {
    hide Linked, Kept, TablesFit, SessionsFit, Seated, StreamsFit, SocketsFit, ClaimsFit;
    if s.streams[id].request.Upgrading? {
      StreamFacts(s, id);
      match accepted
      case None => StreamKeeps(s, id, s.streams[id].(request := Finished), s.closing, s.claims);
      case Some(k) => AcceptKeeps(s, id, k);
    }
  }

  lemma AcceptKeeps(s: State, id: StreamId, k: Socket)
    requires Inv(s) && id in s.streams && k !in s.sockets && s.streams[id].request.Upgrading?
    ensures Inv(ApplyUpgrade(s, id, Some(k)))
  {
    hide Linked, Kept, TablesFit, SessionsFit, Seated, StreamsFit, SocketsFit, ClaimsFit;
    StreamFacts(s, id);
    var stream := s.streams[id].(request := Holding(k));
    SeatedStream(s.sessions, s.streams, id, stream);
    StreamsChange(s.sockets, s.claims, s.streams, s.sockets[k := id], s.claims, id, stream);
    SocketsChange(s.sockets, s.streams, s.closing, s.shut, s.closing, s.shut, id, stream);
    SocketsAdd(s.sockets, s.streams[id := stream], s.closing, s.shut, k, id);
    ClaimsGrow(s.claims, s.streams, id, stream);
  }

  /** The slot is free when the one request attaches. */
  lemma AttachKeeps(s: State, id: StreamId)
    requires Inv(s) && id in s.streams
    ensures Inv(ApplyAttach(s, id))
  {
    hide Linked, Kept, TablesFit, SessionsFit, Seated, StreamsFit, SocketsFit, ClaimsFit;
    var t := ApplyAttach(s, id);
    if s.streams[id].request.Holding? {
      StreamFacts(s, id);
      StreamKeeps(s, id, t.streams[id], t.closing, s.claims);
    }
  }

  lemma TakeKeeps(s: State, id: StreamId)
    requires Inv(s) && id in s.streams
    ensures Inv(s.(streams := s.streams[id := s.streams[id].(slot := None)]))
  {
    hide Linked, Kept, TablesFit, SessionsFit, Seated, StreamsFit, SocketsFit, ClaimsFit;
    StreamFacts(s, id);
    StreamKeeps(s, id, s.streams[id].(slot := None), s.closing, s.claims);
  }

  lemma CloseStreamKeeps(s: State, id: StreamId)
    requires Inv(s) && id in s.streams
    ensures Inv(ApplyCloseStream(s, id))
  {
    if !s.streams[id].closed {
      OpenStreamCloses(s, id);
    }
  }

  lemma SeatShrinks(config: Config, session: Session, id: StreamId)
    requires SessionFits(config, session) && id in session.streams
    ensures SessionFits(config, session.(streams := session.streams - {id}))
  {
    assert |session.streams - {id}| == |session.streams| - 1;
  }

  lemma OpenStreamCloses(s: State, id: StreamId)
    requires Inv(s) && id in s.streams && !s.streams[id].closed
    ensures Inv(ApplyCloseStream(s, id))
  {
    SeatFact(s, id);
    hide Linked, Kept, TablesFit, SessionsFit, Seated, StreamsFit, SocketsFit, ClaimsFit;
    var c := s.streams[id].session;
    var (session, stream) := (s.sessions[c].(streams := s.sessions[c].streams - {id}), s.streams[id].(closed := true));
    SessionFact(s, c);
    StreamFacts(s, id);
    SeatShrinks(s.config, s.sessions[c], id);
    assert StreamFits(s.sockets, s.claims, id, stream);
    hide SessionFits, StreamFits, SocketFits;
    TablesSame(s.routes, s.tokens, s.sessions, c, session);
    SessionsChange(s.config, s.sessions, c, session);
    SeatedClose(s.sessions, s.streams, id);
    StreamsChange(s.sockets, s.claims, s.streams, s.sockets, s.claims, id, stream);
    SocketsClose(s.sockets, s.streams, s.closing, s.shut, id);
    ClaimsGrow(s.claims, s.streams, id, stream);
  }

  lemma CloseSessionKeeps(s: State, c: SessionId)
    requires Inv(s) && c in s.sessions
    ensures Inv(ApplyCloseSession(s, c))
  {
    var t := ApplyCloseSession(s, c);
    if s.sessions[c].life.Live? {
      hide Linked, Kept, TablesFit, SessionsFit, Seated, StreamsFit, SocketsFit, ClaimsFit;
      SessionFact(s, c);
      TablesRemove(s.routes, s.tokens, s.sessions, c, t.sessions[c]);
      SessionsChange(s.config, s.sessions, c, t.sessions[c]);
      SeatedSame(s.sessions, s.streams, c, t.sessions[c]);
    }
  }

  lemma CloseNextKeeps(s: State, c: SessionId, id: StreamId)
    requires Inv(s) && c in s.sessions
    ensures Inv(ApplyCloseNext(s, c, id))
  {
    hide Linked, Kept, TablesFit, SessionsFit, Seated, StreamsFit, SocketsFit, ClaimsFit;
    SessionFact(s, c);
    if s.sessions[c].life.Closing? {
      var todo := s.sessions[c].life.todo;
      if todo == {} {
        SessionKeeps(s, c, s.sessions[c].(life := Closed));
      } else if id in todo && id in s.streams {
        CloseStreamKeeps(s, id);
        var t := ApplyCloseStream(s, id);
        SessionFact(t, c);
        ClosedIsOut(t, c, id);
        SessionKeeps(t, c, t.sessions[c].(life := Closing(todo - {id})));
      }
    }
  }

  lemma OneConnection(connections: set<Conn>, conn: Conn)
    ensures |connections + {conn}| <= |connections| + 1 && |connections - {conn}| <= |connections|
  {
    if conn !in connections {
      assert connections - {conn} == connections;
    } else {
      assert connections + {conn} == connections;
    }
  }

  lemma ServerStep(s: State, step: Step)
    requires Inv(s) && (step.Track? || step.Release? || step.CloseServer? || step.CloseSocket?)
    ensures Inv(Apply(s, step))
  {
    assert Linked(Apply(s, step));
    hide TablesFit, SessionsFit, Seated, StreamsFit, ClaimsFit, SocketsFit, Linked, Kept;
    if step.CloseSocket? && step.socket in s.closing {
      SocketsShut(s.sockets, s.streams, s.closing, s.shut, step.socket);
    } else if step.Track? || step.Release? {
      OneConnection(s.connections, step.conn);
    }
  }

  lemma StepKeeps(s: State, step: Step)
    requires Inv(s)
    ensures Inv(Apply(s, step))
  {
    if !Enabled(s, step) {
    } else if step.Track? || step.Release? || step.CloseServer? || step.CloseSocket? {
      ServerStep(s, step);
    } else if step.Register? || step.SendRegistered? || step.Cancel? || step.CloseSession? || step.CloseNext? {
      SessionStep(s, step);
    } else {
      StreamStep(s, step);
    }
  }

  lemma SessionStep(s: State, step: Step)
    requires Inv(s) && Enabled(s, step)
    requires step.Register? || step.SendRegistered? || step.Cancel? || step.CloseSession? || step.CloseNext?
    ensures Inv(Apply(s, step))
  {
    hide Inv, Linked, Kept, ApplyRegister, ApplySendRegistered, ApplyCloseSession, ApplyCloseNext;
    match step
    case Register(c, host, token) => RegisterKeeps(s, c, host, token);
    case SendRegistered(c, ok) => if c in s.sessions { SendRegisteredKeeps(s, c, ok); }
    case Cancel(c) => if c in s.sessions { CancelKeeps(s, c); }
    case CloseSession(c) => if c in s.sessions { CloseSessionKeeps(s, c); }
    case CloseNext(c, id) => if c in s.sessions { CloseNextKeeps(s, c, id); }
  }

  lemma StreamStep(s: State, step: Step)
    requires Inv(s) && Enabled(s, step)
    requires || step.Open? || step.SendOpen? || step.Claim? || step.Upgrade? || step.Attach? || step.Take?
             || step.CloseStream?
    ensures Inv(Apply(s, step))
  {
    hide Inv, Linked, Kept, ApplyOpen, ApplySendOpen, ApplyClaim, ApplyUpgrade, ApplyAttach, ApplyCloseStream;
    match step
    case Open(host, id) => OpenKeeps(s, host, id);
    case SendOpen(id, ok) => if id in s.streams { SendOpenKeeps(s, id, ok); }
    case Claim(token, id) => ClaimKeeps(s, token, id);
    case Upgrade(id, accepted) => if id in s.streams { UpgradeKeeps(s, id, accepted); }
    case Attach(id) => if id in s.streams { AttachKeeps(s, id); }
    case Take(id) => if id in s.streams { TakeKeeps(s, id); }
    case CloseStream(id) => if id in s.streams { CloseStreamKeeps(s, id); }
  }

  lemma {:induction false} RunKeeps(s: State, steps: seq<Step>)
    requires Inv(s)
    ensures Inv(Run(s, steps))
    decreases |steps|
  {
    if steps != [] {
      RunKeeps(s, steps[..|steps| - 1]);
      StepKeeps(Run(s, steps[..|steps| - 1]), steps[|steps| - 1]);
    }
  }

  // -------------------------------------------------------------- main results

  /** In every run, routes and tokens are in one-to-one correspondence through
      the sessions they name. */
  lemma RoutesAndTokensCorrespond(config: Config, steps: seq<Step>)
    ensures var s := Run(Init(config), steps);
            && (forall h :: h in s.routes ==>
                  s.sessions[s.routes[h]].token in s.tokens && s.tokens[s.sessions[s.routes[h]].token] == s.routes[h]
                  && s.sessions[s.routes[h]].host == h)
            && (forall t :: t in s.tokens ==>
                  s.sessions[s.tokens[t]].host in s.routes && s.routes[s.sessions[s.tokens[t]].host] == s.tokens[t]
                  && s.sessions[s.tokens[t]].token == t)
  {
    InitFits(config);
    RunKeeps(Init(config), steps);
    hide SessionsFit, Seated, StreamsFit, SocketsFit, ClaimsFit, Run;
    var s := Run(Init(config), steps);
    forall h | h in s.routes
      ensures s.sessions[s.routes[h]].token in s.tokens && s.tokens[s.sessions[s.routes[h]].token] == s.routes[h]
    {
      assert Listed(s.routes, s.tokens, s.routes[h], s.sessions[s.routes[h]]);
    }
    forall t | t in s.tokens
      ensures s.sessions[s.tokens[t]].host in s.routes && s.routes[s.sessions[s.tokens[t]].host] == s.tokens[t]
    {
      assert Listed(s.routes, s.tokens, s.tokens[t], s.sessions[s.tokens[t]]);
    }
  }

  lemma InitFits(config: Config)
    ensures Inv(Init(config))
  {
  }

  /** The three capacity limits hold in every run. */
  lemma LimitsHold(config: Config, steps: seq<Step>)
    ensures var s := Run(Init(config), steps);
            && |s.connections| <= config.maxConnections && |s.routes| <= config.maxNodes
            && forall c :: c in s.sessions ==> |s.sessions[c].streams| <= config.maxStreamsPerNode
  {
    InitFits(config);
    RunKeeps(Init(config), steps);
  }

  /** No stream is claimed twice, and the send into the one-slot channel, made
      with the mutex held, never blocks. */
  lemma ClaimedOnceNeverBlocked(config: Config, steps: seq<Step>)
    ensures var s := Run(Init(config), steps);
            && (forall i, k :: 0 <= i < k < |s.claims| ==> s.claims[i] != s.claims[k])
            && !s.blocked
  {
    InitFits(config);
    RunKeeps(Init(config), steps);
  }

  /** Every socket accepted for a stream that is closed now is still in its
      request's hands, which will close it, or was read by the close; so once
      requests and closes have run, it is closed. */
  lemma NoSocketLeaks(config: Config, steps: seq<Step>, k: Socket)
    requires k in Run(Init(config), steps).sockets
    ensures var s := Run(Init(config), steps);
            && s.sockets[k] in s.streams
            && var stream := s.streams[s.sockets[k]];
               && (stream.closed ==> stream.request == Holding(k) || k in s.closing || k in s.shut)
               && (stream.closed && stream.request.Finished? && s.closing == {} ==> k in s.shut)
  {
    InitFits(config);
    RunKeeps(Init(config), steps);
  }

  /** The request that comes too late hands its socket to be closed. */
  lemma LateRequestCloses(s: State, id: StreamId)
    requires Inv(s) && id in s.streams && s.streams[id].closed && s.streams[id].request.Holding?
    ensures var t := Apply(s, Attach(id));
            s.streams[id].request.socket in t.closing && t.streams[id].request.Finished?
  {
  }

  /** Once a session is closed its stream table is empty, whatever follows. */
  lemma ClosedStaysEmpty(s: State, steps: seq<Step>, c: SessionId)
    requires Inv(s) && c in s.sessions && s.sessions[c].life.Closed?
    ensures var t := Run(s, steps);
            c in t.sessions && t.sessions[c].life.Closed? && t.sessions[c].streams == {}
  {
    RunKeeps(s, steps);
    SessionFact(Run(s, steps), c);
  }

  /** On every control connection the registered frame comes first, once. */
  lemma RegisteredPrecedesOpen(config: Config, steps: seq<Step>, c: SessionId, i: nat)
    requires c in Run(Init(config), steps).sessions
    requires i < |Run(Init(config), steps).sessions[c].wire|
    ensures var wire := Run(Init(config), steps).sessions[c].wire;
            wire[i].Registered? <==> i == 0
  {
    InitFits(config);
    RunKeeps(Init(config), steps);
    SessionFact(Run(Init(config), steps), c);
  }
}
