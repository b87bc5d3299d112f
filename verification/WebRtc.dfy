/** The session tables of src/network/WebRtcPeerTransport.ts. */
module WebRtc {
  import opened Buckets
  import opened OrderedMaps
  import opened Prelude

  type PeerId = string
  type SessionId = string

  datatype SessionState = Created | Signaling | Connecting | Connected | Authenticated | Disconnected | Failed | Closed

  /** `readyState` of a data channel. */
  datatype Ready = ChannelConnecting | ChannelOpen | ChannelClosing | ChannelClosed

  datatype Session = Session(
    id: SessionId,
    peer: PeerId,
    outbound: bool,
    state: SessionState,
    createdAt: int,
    connectedAt: Option<int>,
    authenticatedAt: Option<int>,
    disconnectedAt: Option<int>,
    lastSeenAt: Option<int>,
    channel: Option<Ready>,
    remoteApplied: bool,
    closing: bool)

  datatype Connection = Connection(peer: PeerId, session: SessionId, connectedAt: int)

  datatype Config = Config(local: PeerId, gracePeriod: int, heartbeatInterval: int)

  datatype State = State(
    sessions: OrderedMap<SessionId, Session>,
    byPeer: map<PeerId, SessionId>,
    connections: map<PeerId, Connection>,
    sessionsCreated: nat,
    connectionsOpened: nat,
    connectionsFailed: nat)

  /** What constructing the browser's peer connection does: it works, works after all sessions were closed to
      get below the browser's limit, fails even then, or fails for another reason. */
  datatype Construction = Constructed | Recovered | AtLimit | Broken

  datatype PeerConnectionState = PcConnected | PcFailed | PcDisconnected | PcClosed

  datatype Event =
    | CreateOffer(peer: PeerId, id: SessionId, pc: Construction, completes: bool, now: int)
    | AcceptOffer(peer: PeerId, id: SessionId, pc: Construction, applied: bool, completes: bool, now: int)
    | ApplyAnswer(peer: PeerId, id: SessionId, stable: bool, completes: bool)
    | Disconnect(peer: PeerId)
    | CloseNegotiation(id: SessionId)
    | MarkAuthenticated(peer: PeerId, now: int)
    | GetConnection(peer: PeerId)
    | PruneStale(now: int)
    | CloseAll
    | ChannelArrived(id: SessionId, ready: Ready)
    | ChannelChanged(id: SessionId, ready: Ready)
    | ChannelOpened(id: SessionId, now: int)
    | ChannelLost(id: SessionId, now: int)
    | ChannelError(id: SessionId)
    | ConnectionChanged(id: SessionId, connection: PeerConnectionState, now: int)
    | DisconnectTimer(id: SessionId)
    | Heartbeat(id: SessionId, now: int)

  const MAX_ACTIVE_WEBRTC_SESSIONS := 12
  const STALE_SIGNALING_SESSION_MS := 45000

  const Fresh: State := State(NoEntries(), map[], map[], 0, 0, 0)

  // ---------- Looking things up ----------

  /** A missing time and the time zero both count as unset. */
  predicate IsSet(t: Option<int>) { t.Some? && t.value != 0 }

  /** The session a peer is mapped to; an empty id counts as none. */
  function SessionOf(s: State, p: PeerId): Option<SessionId> {
    if p in s.byPeer && s.byPeer[p] != "" then Some(s.byPeer[p]) else None
  }

  predicate ChannelIsOpen(s: State, id: SessionId) {
    id in s.sessions.table && s.sessions.table[id].channel == Some(ChannelOpen)
  }

  predicate PeerChannelOpen(s: State, p: PeerId) {
    SessionOf(s, p).Some? && ChannelIsOpen(s, SessionOf(s, p).value)
  }

  /** A connection whose channel is not open is dropped when asked for. */
  function AskFor(s: State, p: PeerId): (State, Option<Connection>) {
    if p !in s.connections then (s, None)
    else if !PeerChannelOpen(s, p) then (s.(connections := s.connections - {p}), None)
    else (s, Some(s.connections[p]))
  }

  predicate Terminal(x: Session) { x.state == Closed || x.state == Failed }

  function Active(s: State): set<SessionId> {
    set id | id in s.sessions.table && !Terminal(s.sessions.table[id])
  }

  // ---------- Closing ----------

  function Unfile(s: State, id: SessionId): State {
    if id !in s.sessions.table then s
    else
      var p := s.sessions.table[id].peer;
      var byPeer := if p in s.byPeer && s.byPeer[p] == id then s.byPeer - {p} else s.byPeer;
      var t := s.(sessions := Delete(s.sessions, id), byPeer := byPeer);
      if p in t.connections && t.connections[p].peer == p && SessionOf(t, p).None?
      then t.(connections := t.connections - {p})
      else t
  }

  /** The final state given to the session object is not kept: the object leaves the table. */
  function Close(s: State, id: SessionId): State {
    if id !in s.sessions.table then s
    else
      var x := s.sessions.table[id];
      if x.closing && Terminal(x) then s
      else Unfile(s.(connections := s.connections - {x.peer}), id)
  }

  function CloseFailed(s: State, id: SessionId): State {
    Close(s.(connectionsFailed := s.connectionsFailed + 1), id)
  }

  /** Which sessions a sweep closes. */
  datatype Sweep = All | Stale(now: int) | Superseded(peer: PeerId, next: SessionId)

  predicate Swept(w: Sweep, x: Session) {
    match w
    case All => true
    case Stale(now) =>
      || Terminal(x)
      || ((x.state == Created || x.state == Signaling || x.state == Connecting || x.state == Disconnected)
          && now - x.createdAt > STALE_SIGNALING_SESSION_MS)
    case Superseded(peer, next) =>
      x.peer == peer && x.id != next && !(x.state == Authenticated && x.channel == Some(ChannelOpen))
  }

  function SweepOne(s: State, w: Sweep, id: SessionId): State {
    if id in s.sessions.table && Swept(w, s.sessions.table[id]) then Unfile(Close(s, id), id) else s
  }

  /** The sessions are visited in the order of a copy of the table. */
  function SweepEach(s: State, w: Sweep, ids: seq<SessionId>): State {
    if ids == [] then s else SweepOne(SweepEach(s, w, ids[..|ids| - 1]), w, ids[|ids| - 1])
  }

  function SweepAll(s: State, w: Sweep): State { SweepEach(s, w, s.sessions.order) }

  // ---------- Opening ----------

  function Put(s: State, id: SessionId, x: Session): State { s.(sessions := Set(s.sessions, id, x)) }

  function AddSession(c: Config, s: State, x: Session): State {
    var t := Put(s, x.id, x);
    t.(byPeer := if x.peer != c.local then t.byPeer[x.peer := x.id] else t.byPeer,
       sessionsCreated := t.sessionsCreated + 1)
  }

  /** Sets the connection and the mapping of a session that has been connected. */
  function Refresh(c: Config, s: State, id: SessionId, x: Session): State {
    if !IsSet(x.connectedAt) || x.peer == c.local then s
    else
      s.(connections := s.connections[x.peer := Connection(x.peer, id, x.connectedAt.value)],
         byPeer := s.byPeer[x.peer := id])
  }

  /** The budget is checked, then the peer connection is constructed, then the session is filed. */
  function Open(c: Config, s: State, x: Session, pc: Construction): State {
    if |Active(s)| >= MAX_ACTIVE_WEBRTC_SESSIONS then s
    else
      match pc
      case Constructed => AddSession(c, s, x)
      case Recovered => AddSession(c, SweepAll(s, All), x)
      case AtLimit => SweepAll(s, All)
      case Broken => s
  }

  predicate Room(s: State) { |Active(s)| < MAX_ACTIVE_WEBRTC_SESSIONS }

  predicate Constructs(pc: Construction) { pc == Constructed || pc == Recovered }

  /** An offer opens a session for a peer that is not connected, within the budget after the sweeps. */
  predicate OfferOpens(c: Config, s: State, p: PeerId, id: SessionId, pc: Construction, now: int) {
    var pruned := SweepAll(s, Stale(now));
    var t := AskFor(pruned, p).0;
    && Constructs(pc)
    && (p != c.local ==> AskFor(pruned, p).1.None?)
    && Room(if p == c.local then pruned else SweepAll(t, Superseded(p, id)))
  }

  predicate AcceptOpens(s: State, p: PeerId, id: SessionId, pc: Construction, now: int) {
    var t := AskFor(s, p).0;
    Constructs(pc) && AskFor(s, p).1.None? && Room(SweepAll(SweepAll(t, Superseded(p, id)), Stale(now)))
  }

  function NewSession(id: SessionId, p: PeerId, outbound: bool, state: SessionState, now: int, applied: bool): Session {
    Session(id, p, outbound, state, now, None, None, None, None,
            if outbound then Some(ChannelConnecting) else None, applied, false)
  }

  function Offer(c: Config, s: State, p: PeerId, id: SessionId, pc: Construction, completes: bool, now: int): State {
    var pruned := SweepAll(s, Stale(now));
    var x := NewSession(id, p, true, if completes then Signaling else Created, now, false);
    if p == c.local then Open(c, pruned, x, pc)
    else
      var (t, connection) := AskFor(pruned, p);
      if connection.Some? then t else Open(c, SweepAll(t, Superseded(p, id)), x, pc)
  }

  function Accept(c: Config, s: State, p: PeerId, id: SessionId, pc: Construction, applied: bool, completes: bool,
                  now: int): State {
    var (t, connection) := AskFor(s, p);
    if connection.Some? then t
    else
      var x := NewSession(id, p, false, if applied && completes then Connecting else Created, now, applied);
      Open(c, SweepAll(SweepAll(t, Superseded(p, id)), Stale(now)), x, pc)
  }

  /** The answer's peer takes the session over, whoever it was offered to. */
  function Rename(s: State, id: SessionId, p: PeerId): State
    requires id in s.sessions.table
  {
    var x := s.sessions.table[id];
    var t := if x.peer != p then s.(connections := s.connections - {x.peer}, byPeer := s.byPeer - {x.peer}) else s;
    Put(t, id, x.(peer := p)).(byPeer := t.byPeer[p := id])
  }

  function Answer(c: Config, s: State, p: PeerId, id: SessionId, stable: bool, completes: bool): State {
    if id !in s.sessions.table then s
    else
      var t := Rename(s, id, p);
      var x := t.sessions.table[id];
      if x.remoteApplied || stable || !completes then t
      else
        var y := x.(remoteApplied := true, state := Connecting);
        Refresh(c, Put(t, id, y), id, y)
  }

  // ---------- Events of the browser ----------

  function Opened(c: Config, s: State, id: SessionId, now: int): State {
    if id !in s.sessions.table || s.sessions.table[id].channel.None? then s
    else
      var x := s.sessions.table[id].(channel := Some(ChannelOpen), state := Connected,
                                     connectedAt := Some(now), lastSeenAt := Some(now));
      Refresh(c, Put(s, id, x), id, x).(connectionsOpened := s.connectionsOpened + 1)
  }

  /** A session is marked disconnected; with no grace period it fails at once. */
  function Disconnecting(c: Config, s: State, id: SessionId, now: int): State
    requires id in s.sessions.table
  {
    var t := Put(s, id, s.sessions.table[id].(state := Disconnected, disconnectedAt := Some(now)));
    if c.gracePeriod <= 0 then Close(t, id) else t
  }

  function Lost(c: Config, s: State, id: SessionId, now: int): State {
    if id !in s.sessions.table || s.sessions.table[id].channel.None? then s
    else
      var x := s.sessions.table[id];
      var t := Put(s, id, x.(channel := Some(ChannelClosed)));
      if x.closing then t else Disconnecting(c, t.(connections := t.connections - {x.peer}), id, now)
  }

  function PcChanged(c: Config, s: State, id: SessionId, pc: PeerConnectionState, now: int): State {
    if id !in s.sessions.table then s
    else
      var x := s.sessions.table[id];
      match pc
      case PcConnected =>
        if x.state == Disconnected && x.channel == Some(ChannelOpen) then
          Put(s, id, x.(state := if IsSet(x.authenticatedAt) then Authenticated else Connected,
                        disconnectedAt := None, lastSeenAt := Some(now)))
        else s
      case PcFailed => CloseFailed(s, id)
      case PcDisconnected => Disconnecting(c, s, id, now)
      case PcClosed => Unfile(s.(connections := s.connections - {x.peer}), id)
  }

  function Timeout(s: State, id: SessionId): State {
    if id in s.sessions.table && !s.sessions.table[id].closing && s.sessions.table[id].state == Disconnected
    then CloseFailed(s, id)
    else s
  }

  function Max(a: int, b: int): int { if a >= b then a else b }

  /** The session is alive and has been heard from within the limit, if there is one. */
  predicate Listening(c: Config, x: Session, now: int) {
    var limit := Max(c.gracePeriod, c.heartbeatInterval * 3);
    && !x.closing && !Terminal(x)
    && !(IsSet(x.lastSeenAt) && limit > 0 && now - x.lastSeenAt.value > limit)
  }

  function Beat(c: Config, s: State, id: SessionId, now: int): State {
    if id !in s.sessions.table then s
    else
      var x, limit := s.sessions.table[id], Max(c.gracePeriod, c.heartbeatInterval * 3);
      if x.closing || Terminal(x) || x.channel != Some(ChannelOpen) then s
      else if IsSet(x.lastSeenAt) && limit > 0 && now - x.lastSeenAt.value > limit then CloseFailed(s, id)
      else s
  }

  function SetReady(s: State, id: SessionId, ready: Ready): State {
    if id in s.sessions.table then Put(s, id, s.sessions.table[id].(channel := Some(ready))) else s
  }

  function Authenticate(s: State, p: PeerId, now: int): State {
    var id := SessionOf(s, p);
    if id.Some? && id.value in s.sessions.table then
      Put(s, id.value, s.sessions.table[id.value].(state := Authenticated, authenticatedAt := Some(now)))
    else s
  }

  function Step(c: Config, s: State, e: Event): State {
    match e
    case CreateOffer(p, id, pc, completes, now) => Offer(c, s, p, id, pc, completes, now)
    case AcceptOffer(p, id, pc, applied, completes, now) => Accept(c, s, p, id, pc, applied, completes, now)
    case ApplyAnswer(p, id, stable, completes) => Answer(c, s, p, id, stable, completes)
    case Disconnect(p) => if SessionOf(s, p).Some? then Close(s, SessionOf(s, p).value) else s
    case CloseNegotiation(id) => Unfile(Close(s, id), id)
    case MarkAuthenticated(p, now) => Authenticate(s, p, now)
    case GetConnection(p) => AskFor(s, p).0
    case PruneStale(now) => SweepAll(s, Stale(now))
    case CloseAll => SweepAll(s, All)
    case ChannelArrived(id, ready) =>
      if id in s.sessions.table && !s.sessions.table[id].outbound then SetReady(s, id, ready) else s
    case ChannelChanged(id, ready) =>
      if id in s.sessions.table && s.sessions.table[id].channel.Some? then SetReady(s, id, ready) else s
    case ChannelOpened(id, now) => Opened(c, s, id, now)
    case ChannelLost(id, now) => Lost(c, s, id, now)
    case ChannelError(id) => if id in s.sessions.table then CloseFailed(s, id) else s
    case ConnectionChanged(id, connection, now) => PcChanged(c, s, id, connection, now)
    case DisconnectTimer(id) => Timeout(s, id)
    case Heartbeat(id, now) => Beat(c, s, id, now)
  }

  function Run(c: Config, s: State, events: seq<Event>): State {
    if events == [] then s else Step(c, Run(c, s, events[..|events| - 1]), events[|events| - 1])
  }

  // ---------- The invariant ----------

  /** Each session is filed under its own id, and none is closed, failed or closing. */
  ghost predicate Filed(sessions: OrderedMap<SessionId, Session>) {
    WellFormed(sessions) && forall id | id in sessions.table ::
      sessions.table[id].id == id && !Terminal(sessions.table[id]) && !sessions.table[id].closing
  }

  ghost predicate Stored(sessions: OrderedMap<SessionId, Session>, id: SessionId, p: PeerId) {
    id in sessions.table && sessions.table[id].peer == p
  }

  /** A peer is mapped to a stored session of its own. */
  ghost predicate Mapped(s: State) {
    forall p | p in s.byPeer :: Stored(s.sessions, s.byPeer[p], p)
  }

  /** A connection belongs to a mapped remote peer and to a stored session of that peer. */
  ghost predicate Wired(c: Config, s: State) {
    forall p | p in s.connections ::
      p in s.byPeer && p != c.local && s.connections[p].peer == p && Stored(s.sessions, s.connections[p].session, p)
  }

  ghost predicate Tables(c: Config, s: State) { Filed(s.sessions) && Mapped(s) && Wired(c, s) }

  ghost predicate Inv(c: Config, s: State) {
    Tables(c, s) && |s.sessions.table.Keys| <= MAX_ACTIVE_WEBRTC_SESSIONS
  }

  /** A session id is not used for two peers. */
  ghost predicate OwnId(s: State, id: SessionId, p: PeerId) {
    id in s.sessions.table ==> s.sessions.table[id].peer == p
  }

  ghost predicate Allowed(s: State, e: Event) {
    && (e.CreateOffer? ==> OwnId(s, e.id, e.peer))
    && (e.AcceptOffer? ==> OwnId(s, e.id, e.peer))
  }

  // ---------- Single operations ----------

  lemma CloseKeeps(c: Config, s: State, id: SessionId)
    requires Tables(c, s)
    ensures Tables(c, Close(s, id))
    ensures Close(s, id).sessions == if id in s.sessions.table then Delete(s.sessions, id) else s.sessions
    ensures Unfile(Close(s, id), id) == Close(s, id)
  {
    hide Mapped, Wired, WellFormed, Deleted;
    if id in s.sessions.table {
      DeleteKeeps(s.sessions, id);
      CloseMapped(s, id);
      CloseWired(c, s, id);
    }
  }

  lemma CloseMapped(s: State, id: SessionId)
    requires Mapped(s) && id in s.sessions.table
    ensures Mapped(Close(s, id))
  {
    hide Deleted;
  }

  lemma CloseWired(c: Config, s: State, id: SessionId)
    requires Wired(c, s) && id in s.sessions.table && !s.sessions.table[id].closing
    ensures Wired(c, Close(s, id))
  {
    hide Deleted;
  }

  lemma DropKeeps(c: Config, s: State, p: PeerId)
    requires Tables(c, s)
    ensures Tables(c, s.(connections := s.connections - {p}))
  {
  }

  lemma PutKeeps(c: Config, s: State, id: SessionId, x: Session)
    requires Tables(c, s) && id in s.sessions.table && x.id == id && x.peer == s.sessions.table[id].peer
    requires !Terminal(x) && !x.closing
    ensures Tables(c, Put(s, id, x)) && Put(s, id, x).sessions.table.Keys == s.sessions.table.Keys
  {
  }

  lemma RefreshKeeps(c: Config, s: State, id: SessionId, x: Session)
    requires Tables(c, s) && id in s.sessions.table && x == s.sessions.table[id]
    ensures Tables(c, Refresh(c, s, id, x))
  {
  }

  lemma RenameKeeps(c: Config, s: State, id: SessionId, p: PeerId)
    requires Tables(c, s) && id in s.sessions.table
    ensures Tables(c, Rename(s, id, p)) && Rename(s, id, p).sessions.table.Keys == s.sessions.table.Keys
    ensures Rename(s, id, p).sessions.table[id] == s.sessions.table[id].(peer := p)
  {
    hide Mapped, Wired;
    RenameMapped(s, id, p);
    RenameWired(c, s, id, p);
  }

  lemma RenameMapped(s: State, id: SessionId, p: PeerId)
    requires Filed(s.sessions) && Mapped(s) && id in s.sessions.table
    ensures Mapped(Rename(s, id, p))
  {
    hide Filed;
  }

  lemma RenameWired(c: Config, s: State, id: SessionId, p: PeerId)
    requires Wired(c, s) && id in s.sessions.table
    ensures Wired(c, Rename(s, id, p))
  {
  }

  lemma AddKeeps(c: Config, s: State, x: Session)
    requires Tables(c, s) && OwnId(s, x.id, x.peer) && !Terminal(x) && !x.closing
    ensures Tables(c, AddSession(c, s, x)) && AddSession(c, s, x).sessions.table.Keys == s.sessions.table.Keys + {x.id}
  {
    hide Mapped, Wired;
    AddMapped(c, s, x);
    AddWired(c, s, x);
  }

  lemma AddMapped(c: Config, s: State, x: Session)
    requires Mapped(s) && OwnId(s, x.id, x.peer)
    ensures Mapped(AddSession(c, s, x))
  {
  }

  lemma AddWired(c: Config, s: State, x: Session)
    requires Wired(c, s) && OwnId(s, x.id, x.peer)
    ensures Wired(c, AddSession(c, s, x))
  {
  }

  lemma ConnectedKeeps(c: Config, s: State, p: PeerId)
    requires Tables(c, s)
    ensures Tables(c, AskFor(s, p).0) && AskFor(s, p).0.sessions == s.sessions
  {
  }

  /** Asking for a connection gives one exactly when the peer has a connection and its mapped session's
      channel is open; that session is then a stored, live session of the peer, and so is the connection's. */
  lemma ConnectedMeans(c: Config, s: State, p: PeerId)
    requires Tables(c, s)
    ensures AskFor(s, p).1.Some? <==> p in s.connections && PeerChannelOpen(s, p)
    ensures AskFor(s, p).1.Some? ==>
              var x, y := s.sessions.table[s.byPeer[p]], s.connections[p].session;
              && AskFor(s, p).1.value == s.connections[p] && p != c.local
              && x.peer == p && !Terminal(x) && x.channel == Some(ChannelOpen)
              && y in s.sessions.table && s.sessions.table[y].peer == p && !Terminal(s.sessions.table[y])
  {
  }

  // ---------- Sweeps ----------

  /** After visiting some ids, exactly the visited sessions that the sweep is after are gone. */
  ghost predicate SweptFrom(s: State, t: State, w: Sweep, ids: seq<SessionId>) {
    && (forall id ::
          id in t.sessions.table <==> id in s.sessions.table && !(id in ids && Swept(w, s.sessions.table[id])))
    && (forall id | id in t.sessions.table :: t.sessions.table[id] == s.sessions.table[id])
  }

  lemma {:induction false} SweepEachKeeps(c: Config, s: State, w: Sweep, ids: seq<SessionId>)
    requires Tables(c, s)
    ensures Tables(c, SweepEach(s, w, ids)) && SweptFrom(s, SweepEach(s, w, ids), w, ids)
  {
    if ids != [] {
      var front, last := ids[..|ids| - 1], ids[|ids| - 1];
      SweepEachKeeps(c, s, w, front);
      assert ids == front + [last];
      SweepOneKeeps(c, s, SweepEach(s, w, front), w, front, last);
    }
  }

  lemma SweepOneKeeps(c: Config, s: State, t: State, w: Sweep, ids: seq<SessionId>, id: SessionId)
    requires Tables(c, t) && SweptFrom(s, t, w, ids)
    ensures Tables(c, SweepOne(t, w, id)) && SweptFrom(s, SweepOne(t, w, id), w, ids + [id])
  {
    hide Tables, Close, Unfile, Swept, Deleted;
    CloseKeeps(c, t, id);
    assert forall k :: k in ids + [id] <==> k in ids || k == id;
  }

  /** A sweep closes all the sessions it is after and leaves every other session as it was. */
  lemma SweepAllKeeps(c: Config, s: State, w: Sweep)
    requires Tables(c, s)
    ensures var t := SweepAll(s, w);
            && Tables(c, t)
            && (forall id :: id in t.sessions.table <==> id in s.sessions.table && !Swept(w, s.sessions.table[id]))
            && (forall id | id in t.sessions.table :: t.sessions.table[id] == s.sessions.table[id])
    ensures SweepAll(s, w).sessions.table.Keys <= s.sessions.table.Keys
  {
    hide Swept, SweepOne;
    SweepEachKeeps(c, s, w, s.sessions.order);
  }

  // ---------- What a sweep takes and what it spares ----------

  /** No session of the peer is among those the sweep closes. */
  ghost predicate Untouched(s: State, w: Sweep, ids: seq<SessionId>, q: PeerId) {
    forall id <- ids :: id in s.sessions.table && Swept(w, s.sessions.table[id]) ==> s.sessions.table[id].peer != q
  }

  /** A peer keeps its connection if no session of its own is closed. */
  ghost predicate KeptConnections(s: State, t: State, w: Sweep, ids: seq<SessionId>) {
    && (forall q :: q in t.connections <==> q in s.connections && Untouched(s, w, ids, q))
    && (forall q | q in t.connections :: t.connections[q] == s.connections[q])
  }

  predicate Goes(s: State, w: Sweep, ids: seq<SessionId>, id: SessionId) {
    id in ids && id in s.sessions.table && Swept(w, s.sessions.table[id])
  }

  /** And its mapping, if the mapped session is not closed. */
  ghost predicate KeptMappings(s: State, t: State, w: Sweep, ids: seq<SessionId>) {
    && (forall q :: q in t.byPeer <==> q in s.byPeer && !Goes(s, w, ids, s.byPeer[q]))
    && (forall q | q in t.byPeer :: t.byPeer[q] == s.byPeer[q])
  }

  ghost predicate KeptBy(s: State, t: State, w: Sweep, ids: seq<SessionId>) {
    KeptConnections(s, t, w, ids) && KeptMappings(s, t, w, ids)
  }

  lemma SweepOneMaps(c: Config, s: State, w: Sweep, id: SessionId)
    requires Tables(c, s)
    ensures var t, swept := SweepOne(s, w, id), id in s.sessions.table && Swept(w, s.sessions.table[id]);
            && t.connections == (if swept then s.connections - {s.sessions.table[id].peer} else s.connections)
            && (forall q :: q in t.byPeer <==> q in s.byPeer && !(swept && s.byPeer[q] == id))
            && (forall q | q in t.byPeer :: t.byPeer[q] == s.byPeer[q])
  {
    hide Swept, Deleted, Wired;
    CloseKeeps(c, s, id);
  }

  lemma UntouchedMore(s: State, w: Sweep, ids: seq<SessionId>, id: SessionId, q: PeerId)
    ensures Untouched(s, w, ids + [id], q) <==>
            Untouched(s, w, ids, q) && Untouched(s, w, [id], q)
  {
    assert forall k :: k in ids + [id] <==> k in ids || k in [id];
  }

  lemma {:induction false} SweepEachMaps(c: Config, s: State, w: Sweep, ids: seq<SessionId>)
    requires Tables(c, s)
    ensures KeptBy(s, SweepEach(s, w, ids), w, ids)
  {
    hide Swept, Tables, SweepOne;
    if ids != [] {
      var front, last := ids[..|ids| - 1], ids[|ids| - 1];
      SweepEachMaps(c, s, w, front);
      SweepEachKeeps(c, s, w, front);
      assert ids == front + [last];
      KeptMore(c, s, SweepEach(s, w, front), w, front, last);
    } else {
      assert forall q :: Untouched(s, w, ids, q);
    }
  }

  lemma KeptMore(c: Config, s: State, t: State, w: Sweep, ids: seq<SessionId>, id: SessionId)
    requires Tables(c, t) && SweptFrom(s, t, w, ids) && KeptBy(s, t, w, ids)
    ensures KeptBy(s, SweepOne(t, w, id), w, ids + [id])
  {
    SweepOneMaps(c, t, w, id);
    hide Tables, SweepOne, KeptConnections, KeptMappings;
    KeptMoreConnections(s, t, SweepOne(t, w, id), w, ids, id);
    KeptMoreMappings(s, t, SweepOne(t, w, id), w, ids, id);
  }

  lemma KeptMoreConnections(s: State, t: State, u: State, w: Sweep, ids: seq<SessionId>, id: SessionId)
    requires SweptFrom(s, t, w, ids) && KeptConnections(s, t, w, ids)
    requires u.connections == if id in t.sessions.table && Swept(w, t.sessions.table[id])
                              then t.connections - {t.sessions.table[id].peer} else t.connections
    ensures KeptConnections(s, u, w, ids + [id])
  {
    hide Swept;
    forall q ensures q in u.connections <==> q in s.connections && Untouched(s, w, ids + [id], q) {
      UntouchedMore(s, w, ids, id, q);
      if Untouched(s, w, ids, q) {
        OneUntouched(s, t, w, ids, id, q);
      }
    }
  }

  lemma OneUntouched(s: State, t: State, w: Sweep, ids: seq<SessionId>, id: SessionId, q: PeerId)
    requires SweptFrom(s, t, w, ids) && Untouched(s, w, ids, q)
    ensures Untouched(s, w, [id], q) <==>
            !(id in t.sessions.table && Swept(w, t.sessions.table[id]) && t.sessions.table[id].peer == q)
  {
    hide Swept;
    assert id in [id];
  }

  lemma KeptMoreMappings(s: State, t: State, u: State, w: Sweep, ids: seq<SessionId>, id: SessionId)
    requires SweptFrom(s, t, w, ids) && KeptMappings(s, t, w, ids)
    requires var swept := id in t.sessions.table && Swept(w, t.sessions.table[id]);
             forall q :: q in u.byPeer <==> q in t.byPeer && !(swept && t.byPeer[q] == id)
    requires forall q | q in u.byPeer :: u.byPeer[q] == t.byPeer[q]
    ensures KeptMappings(s, u, w, ids + [id])
  {
    hide Swept;
    assert forall k :: k in ids + [id] <==> k in ids || k == id;
    forall q ensures q in u.byPeer <==> q in s.byPeer && !Goes(s, w, ids + [id], s.byPeer[q]) {
      assert q in s.byPeer && !Goes(s, w, ids, s.byPeer[q]) <==> q in t.byPeer;
    }
  }

  /** What `pruneStaleSessions` closes: closed and failed sessions, and those not yet or no longer connected that are
      older than forty-five seconds. */
  predicate TooOld(x: Session, now: int) {
    || x.state == Closed || x.state == Failed
    || (x.createdAt + 45000 < now
        && (x.state == Created || x.state == Signaling || x.state == Connecting || x.state == Disconnected))
  }

  /** What a new session closes of its peer's sessions: all that are not both authenticated and open. */
  predicate Replaceable(x: Session) { !(x.state == Authenticated && x.channel == Some(ChannelOpen)) }

  ghost predicate NoneTooOld(s: State, q: PeerId, now: int) {
    forall id | id in s.sessions.table :: s.sessions.table[id].peer == q ==> !TooOld(s.sessions.table[id], now)
  }

  ghost predicate NoneSwept(s: State, w: Sweep, q: PeerId) {
    forall id | id in s.sessions.table :: s.sessions.table[id].peer == q ==> !Swept(w, s.sessions.table[id])
  }

  /** What asking for a peer's connection gives, and its mapping, are the same in both; or the peer is no longer
      connected, and mapped as before if at all. */
  ghost predicate Spared(s: State, t: State, q: PeerId, kept: bool) {
    && AskFor(t, q).1 == (if kept then AskFor(s, q).1 else None)
    && (q in t.byPeer ==> q in s.byPeer && t.byPeer[q] == s.byPeer[q])
    && (kept ==> (q in s.byPeer <==> q in t.byPeer))
  }

  /** A sweep takes exactly the sessions it is after, and spares the peers none of whose sessions it takes. */
  lemma SweepSpares(c: Config, s: State, w: Sweep)
    requires Tables(c, s)
    ensures var t := SweepAll(s, w);
            && Tables(c, t)
            && (forall id :: id in t.sessions.table <==> id in s.sessions.table && !Swept(w, s.sessions.table[id]))
            && (forall id | id in t.sessions.table :: t.sessions.table[id] == s.sessions.table[id])
            && forall q :: Spared(s, t, q, NoneSwept(s, w, q))
  {
    var t := SweepAll(s, w);
    SweepAllKeeps(c, s, w);
    SweepEachMaps(c, s, w, s.sessions.order);
    AllVisited(s);
    hide Swept, SweepEach;
    forall q ensures Spared(s, t, q, NoneSwept(s, w, q)) {
      assert Untouched(s, w, s.sessions.order, q) <==> NoneSwept(s, w, q);
      assert NoneSwept(s, w, q) && q in s.byPeer ==> !Goes(s, w, s.sessions.order, s.byPeer[q]);
      hide NoneSwept, Untouched, Goes;
      PruneAsk(c, s, t, q, NoneSwept(s, w, q));
    }
  }

  lemma SweptIs(now: int, p: PeerId, next: SessionId, x: Session)
    ensures Swept(Stale(now), x) <==> TooOld(x, now)
    ensures Swept(Superseded(p, next), x) <==> x.peer == p && x.id != next && Replaceable(x)
  {
  }

  lemma NoneSweptIs(s: State, now: int, p: PeerId, next: SessionId, q: PeerId)
    ensures NoneSwept(s, Stale(now), q) <==> NoneTooOld(s, q, now)
    ensures q != p ==> NoneSwept(s, Superseded(p, next), q)
  {
  }

  /** A prune takes exactly the sessions that are too old. A peer keeps what asking for its connection gives, if no
      session of its own was too old; otherwise it is no longer connected. */
  lemma PruneTakes(c: Config, s: State, now: int)
    requires Tables(c, s)
    ensures var t := SweepAll(s, Stale(now));
            && Tables(c, t)
            && (forall id :: id in t.sessions.table <==> id in s.sessions.table && !TooOld(s.sessions.table[id], now))
            && (forall id | id in t.sessions.table :: t.sessions.table[id] == s.sessions.table[id])
            && forall q :: Spared(s, t, q, NoneTooOld(s, q, now))
  {
    hide Tables, Swept, TooOld, Spared, SweepAll, NoneSwept, NoneTooOld;
    SweepSpares(c, s, Stale(now));
    forall id | id in s.sessions.table
      ensures Swept(Stale(now), s.sessions.table[id]) <==> TooOld(s.sessions.table[id], now)
    {
      SweptIs(now, "", "", s.sessions.table[id]);
    }
    forall q ensures Spared(s, SweepAll(s, Stale(now)), q, NoneTooOld(s, q, now)) {
      NoneSweptIs(s, now, "", "", q);
    }
  }

  /** A peer with a session that is too old loses its connection even if that is another session: closing any session
      of a peer drops the peer's connection. */
  lemma OldSiblingDrops(c: Config, s: State, now: int, q: PeerId, old': SessionId)
    requires Tables(c, s) && AskFor(s, q).1.Some?
    requires Stored(s.sessions, old', q) && TooOld(s.sessions.table[old'], now) && s.byPeer[q] != old'
    ensures var t := SweepAll(s, Stale(now));
            AskFor(t, q).1.None? && (!TooOld(s.sessions.table[s.byPeer[q]], now) ==> s.byPeer[q] in t.sessions.table)
  {
    hide TooOld, SweepAll;
    PruneTakes(c, s, now);
    assert !NoneTooOld(s, q, now);
    assert Spared(s, SweepAll(s, Stale(now)), q, NoneTooOld(s, q, now));
  }

  lemma AllVisited(s: State)
    requires WellFormed(s.sessions)
    ensures forall id :: id in s.sessions.order <==> id in s.sessions.table
  {
  }

  /** With the connection goes what asking gives; with the connection and its mapping kept, so is what asking gives. */
  lemma PruneAsk(c: Config, s: State, t: State, q: PeerId, kept: bool)
    requires Tables(c, s) && Tables(c, t)
    requires q in t.connections <==> q in s.connections && kept
    requires q in t.connections ==> t.connections[q] == s.connections[q]
    requires q in t.byPeer ==> q in s.byPeer && t.byPeer[q] == s.byPeer[q]
    requires forall id | id in t.sessions.table ::
               id in s.sessions.table && t.sessions.table[id] == s.sessions.table[id]
    ensures AskFor(t, q).1 == if kept then AskFor(s, q).1 else None
  {
    hide Filed;
  }

  // ---------- Opening ----------

  lemma ActiveIsAll(c: Config, s: State)
    requires Tables(c, s)
    ensures Active(s) == s.sessions.table.Keys
  {
  }

  lemma Fewer(a: set<SessionId>, b: set<SessionId>)
    requires a <= b
    ensures |a| <= |b|
  {
    if a != b {
      assert a + (b - a) == b;
    }
  }

  lemma SweepInv(c: Config, s: State, w: Sweep)
    requires Inv(c, s)
    ensures Inv(c, SweepAll(s, w)) && forall id, p | OwnId(s, id, p) :: OwnId(SweepAll(s, w), id, p)
  {
    hide Tables;
    SweepAllKeeps(c, s, w);
    Fewer(SweepAll(s, w).sessions.table.Keys, s.sessions.table.Keys);
  }

  /** Whatever the construction does, and however full the tables are. */
  lemma OpenKeeps(c: Config, s: State, x: Session, pc: Construction)
    requires Inv(c, s) && OwnId(s, x.id, x.peer) && !Terminal(x) && !x.closing
    ensures Inv(c, Open(c, s, x, pc))
  {
    hide Tables, AddSession, OwnId, SweepAll;
    ActiveIsAll(c, s);
    if |Active(s)| < MAX_ACTIVE_WEBRTC_SESSIONS {
      SweepAllKeeps(c, s, All);
      Fewer(SweepAll(s, All).sessions.table.Keys, s.sessions.table.Keys);
      SweepInv(c, s, All);
      AddKeeps(c, s, x);
      AddKeeps(c, SweepAll(s, All), x);
    }
  }

  lemma OfferKeeps(c: Config, s: State, p: PeerId, id: SessionId, pc: Construction, completes: bool, now: int)
    requires Inv(c, s) && OwnId(s, id, p)
    ensures Inv(c, Offer(c, s, p, id, pc, completes, now))
  {
    hide Tables, SweepAll, OwnId, Open, AskFor;
    var pruned := SweepAll(s, Stale(now));
    var x := NewSession(id, p, true, if completes then Signaling else Created, now, false);
    SweepInv(c, s, Stale(now));
    if p == c.local {
      OpenKeeps(c, pruned, x, pc);
    } else {
      ConnectedKeeps(c, pruned, p);
      var t := AskFor(pruned, p).0;
      SameOwner(pruned, t, id, p);
      SweepInv(c, t, Superseded(p, id));
      OpenKeeps(c, SweepAll(t, Superseded(p, id)), x, pc);
    }
  }

  lemma SameOwner(s: State, t: State, id: SessionId, p: PeerId)
    requires s.sessions == t.sessions
    ensures OwnId(s, id, p) == OwnId(t, id, p)
  {
  }

  lemma AcceptKeeps(c: Config, s: State, p: PeerId, id: SessionId, pc: Construction, applied: bool, completes: bool,
                    now: int)
    requires Inv(c, s) && OwnId(s, id, p)
    ensures Inv(c, Accept(c, s, p, id, pc, applied, completes, now))
  {
    hide Tables, SweepAll, OwnId, Open, AskFor;
    ConnectedKeeps(c, s, p);
    var t := AskFor(s, p).0;
    SameOwner(s, t, id, p);
    var x := NewSession(id, p, false, if applied && completes then Connecting else Created, now, applied);
    SweepInv(c, t, Superseded(p, id));
    SweepInv(c, SweepAll(t, Superseded(p, id)), Stale(now));
    OpenKeeps(c, SweepAll(SweepAll(t, Superseded(p, id)), Stale(now)), x, pc);
  }

  // ---------- What opening a session takes and what it spares ----------

  lemma OpenSpares(c: Config, s: State, x: Session, pc: Construction)
    requires Tables(c, s) && OwnId(s, x.id, x.peer) && (pc == Constructed || pc == Broken)
    ensures var t := Open(c, s, x, pc);
            && (forall j | j != x.id ::
                  (j in t.sessions.table <==> j in s.sessions.table)
                  && (j in s.sessions.table ==> t.sessions.table[j] == s.sessions.table[j]))
            && forall q | q != x.peer :: Spared(s, t, q, true)
  {
    hide Active, Filed, Wired;
    var t := Open(c, s, x, pc);
    forall q | q != x.peer ensures Spared(s, t, q, true) {
      assert q in s.byPeer ==> s.byPeer[q] != x.id;
    }
  }

  /** Recovery from the browser's limit closes every session there is, whoever it belongs to. */
  lemma RecoveryTakesAll(c: Config, s: State, x: Session, pc: Construction)
    requires Tables(c, s) && |s.sessions.table.Keys| < 12 && (pc == Recovered || pc == AtLimit)
    ensures var t := Open(c, s, x, pc);
            t.sessions.table == if pc == Recovered then map[x.id := x] else map[]
  {
    ActiveIsAll(c, s);
    SweepAllKeeps(c, s, All);
    var u := SweepAll(s, All);
    hide Tables, SweepAll, Active;
    assert u.sessions.table == map[];
  }

  lemma SparedSelf(s: State, q: PeerId)
    ensures Spared(s, s, q, true)
  {
  }

  lemma SparedThrough(s: State, t: State, u: State, q: PeerId, kept: bool)
    requires Spared(s, t, q, kept) && Spared(t, u, q, true)
    ensures Spared(s, u, q, kept)
  {
    hide AskFor;
  }

  lemma AskSpares(s: State, p: PeerId, q: PeerId)
    requires q != p
    ensures Spared(s, AskFor(s, p).0, q, true)
  {
    var t := AskFor(s, p).0;
    assert t.sessions == s.sessions && t.byPeer == s.byPeer;
    assert PeerChannelOpen(t, q) == PeerChannelOpen(s, q);
    hide PeerChannelOpen;
  }

  lemma SparedByAsking(c: Config, s: State, p: PeerId)
    requires Tables(c, s)
    ensures var t := AskFor(s, p).0;
            Tables(c, t) && t.sessions == s.sessions && forall q | q != p :: Spared(s, t, q, true)
  {
    hide Tables, Spared;
    ConnectedKeeps(c, s, p);
    forall q | q != p ensures Spared(s, AskFor(s, p).0, q, true) {
      AskSpares(s, p, q);
    }
  }

  lemma SupersedeSpares(c: Config, s: State, p: PeerId, next: SessionId)
    requires Tables(c, s)
    ensures var t := SweepAll(s, Superseded(p, next));
            && Tables(c, t)
            && (forall id :: id in t.sessions.table <==>
                  id in s.sessions.table && !(s.sessions.table[id].peer == p && id != next
                                              && Replaceable(s.sessions.table[id])))
            && (forall id | id in t.sessions.table :: t.sessions.table[id] == s.sessions.table[id])
            && forall q | q != p :: Spared(s, t, q, true)
  {
    var w := Superseded(p, next);
    FiledIds(c, s);
    hide Tables, Swept, Spared, SweepAll, NoneSwept, Replaceable;
    SweepSpares(c, s, w);
    forall id | id in s.sessions.table
      ensures Swept(w, s.sessions.table[id]) <==>
              s.sessions.table[id].peer == p && id != next && Replaceable(s.sessions.table[id])
    {
      SweptIs(0, p, next, s.sessions.table[id]);
    }
    forall q | q != p ensures Spared(s, SweepAll(s, w), q, true) {
      NoneSweptIs(s, 0, p, next, q);
      assert Spared(s, SweepAll(s, w), q, NoneSwept(s, w, q));
    }
  }

  lemma FiledIds(c: Config, s: State)
    requires Tables(c, s)
    ensures forall id | id in s.sessions.table :: s.sessions.table[id].id == id
  {
  }

  /** Whether the session stays when a new one is opened with `p`, who is `replaced` if it was not connected. */
  predicate Stays(x: Session, p: PeerId, now: int, replaced: bool) {
    !TooOld(x, now) && !(replaced && x.peer == p && Replaceable(x))
  }

  /** What opening a session with `p` under the id `next` leaves of all others. */
  ghost predicate OthersAfter(s: State, t: State, p: PeerId, next: SessionId, now: int, replaced: bool) {
    && (forall j | j != next ::
          (j in t.sessions.table <==> j in s.sessions.table && Stays(s.sessions.table[j], p, now, replaced))
          && (j in t.sessions.table ==> t.sessions.table[j] == s.sessions.table[j]))
    && forall q | q != p :: Spared(s, t, q, NoneTooOld(s, q, now))
  }

  /** `createOffer` without recovery: of the other sessions exactly those stay that are not too old and, if `p` is
      another peer that is not connected then, not replaceable sessions of `p`. Every other peer keeps its mapping and
      what asking for its connection gives, unless one of its own sessions is too old. */
  lemma OfferSpares(c: Config, s: State, p: PeerId, id: SessionId, pc: Construction, completes: bool, now: int)
    requires Inv(c, s) && OwnId(s, id, p) && (pc == Constructed || pc == Broken)
    ensures var connected := AskFor(s, p).1.Some? && NoneTooOld(s, p, now);
            OthersAfter(s, Offer(c, s, p, id, pc, completes, now), p, id, now, p != c.local && !connected)
  {
    hide Tables, SweepAll, Open, AskFor, TooOld, Replaceable, NoneTooOld, Spared;
    var pruned := SweepAll(s, Stale(now));
    var x := NewSession(id, p, true, if completes then Signaling else Created, now, false);
    PruneTakes(c, s, now);
    AskAfterPrune(c, s, p, now);
    if p == c.local {
      OpenSpares(c, pruned, x, pc);
      forall q ensures Spared(pruned, pruned, q, true) {
        SparedSelf(pruned, q);
      }
      AfterOpen(s, pruned, pruned, Open(c, pruned, x, pc), p, id, now, false);
    } else {
      SparedByAsking(c, pruned, p);
      var t := AskFor(pruned, p).0;
      if AskFor(pruned, p).1.Some? {
        AfterAsk(s, pruned, t, p, id, now);
      } else {
        SupersedeSpares(c, t, p, id);
        var u := SweepAll(t, Superseded(p, id));
        OpenSpares(c, u, x, pc);
        forall q | q != p ensures Spared(pruned, u, q, true) {
          SparedThrough(pruned, t, u, q, true);
        }
        AfterOpen(s, pruned, u, Open(c, u, x, pc), p, id, now, true);
      }
    }
  }

  /** `acceptOffer` without recovery changes nothing if the peer is connected; otherwise it leaves of the other
      sessions and peers what `createOffer` leaves. */
  lemma AcceptSpares(c: Config, s: State, p: PeerId, id: SessionId, pc: Construction, applied: bool, completes: bool,
                     now: int)
    requires Inv(c, s) && OwnId(s, id, p) && (pc == Constructed || pc == Broken)
    ensures var t := Accept(c, s, p, id, pc, applied, completes, now);
            if AskFor(s, p).1.Some? then t == s else OthersAfter(s, t, p, id, now, true)
  {
    hide Tables, SweepAll, Open, TooOld, Replaceable, NoneTooOld, Spared;
    if AskFor(s, p).1.None? {
      SparedByAsking(c, s, p);
      var t := AskFor(s, p).0;
      hide AskFor;
      var x := NewSession(id, p, false, if applied && completes then Connecting else Created, now, applied);
      SupersedeSpares(c, t, p, id);
      var u := SweepAll(t, Superseded(p, id));
      PruneTakes(c, u, now);
      var v := SweepAll(u, Stale(now));
      OpenSpares(c, v, x, pc);
      var w := Open(c, v, x, pc);
      forall q | q != p ensures Spared(s, w, q, NoneTooOld(s, q, now)) {
        OwnSessionsOnly(s, u, p, q, now);
        AcceptSparesPeer(s, t, u, v, w, q, NoneTooOld(s, q, now));
      }
      hide Open, SweepAll;
      AcceptLeaves(s, u, v, w, p, id, now);
    }
  }

  /** The sessions left when a new one is opened with `p` under the id `next`. */
  ghost function Leaves(s: State, p: PeerId, next: SessionId, now: int): set<SessionId> {
    set j | j in s.sessions.table && !TooOld(s.sessions.table[j], now)
            && !(s.sessions.table[j].peer == p && j != next && Replaceable(s.sessions.table[j]))
  }

  /** `x` is stored under its id, and its peer mapped to it. */
  predicate Files(c: Config, t: State, x: Session) {
    && x.id in t.sessions.table && t.sessions.table[x.id] == x
    && (x.peer != c.local ==> x.peer in t.byPeer && t.byPeer[x.peer] == x.id)
  }

  /** An offer to another peer opens a session if and only if the peer is not connected and fewer than twelve sessions
      are left. It is then outbound and mapped, with a channel that is connecting. */
  lemma OfferFiles(c: Config, s: State, p: PeerId, id: SessionId, completes: bool, now: int)
    requires Inv(c, s) && OwnId(s, id, p) && p != c.local
    ensures var t := Offer(c, s, p, id, Constructed, completes, now);
            var connected, left := AskFor(s, p).1.Some? && NoneTooOld(s, p, now), Leaves(s, p, id, now);
            if !connected && |left| < 12 then
              Files(c, t, Session(id, p, true, if completes then Signaling else Created, now, None, None, None, None,
                                  Some(ChannelConnecting), false, false))
            else !connected ==> t.sessions.table.Keys == left
  {
    hide Tables, SweepAll, Open, AskFor, TooOld, Replaceable, NoneTooOld, Spared;
    var pruned := SweepAll(s, Stale(now));
    PruneTakes(c, s, now);
    AskAfterPrune(c, s, p, now);
    SparedByAsking(c, pruned, p);
    var t := AskFor(pruned, p).0;
    SupersedeSpares(c, t, p, id);
    var u := SweepAll(t, Superseded(p, id));
    assert u.sessions.table.Keys == Leaves(s, p, id, now);
    OpenFiles(c, u, NewSession(id, p, true, if completes then Signaling else Created, now, false));
  }

  /** An offer taken from a peer opens a session under the same conditions; it is inbound, and waits for a channel. */
  lemma AcceptFiles(c: Config, s: State, p: PeerId, id: SessionId, applied: bool, completes: bool, now: int)
    requires Inv(c, s) && OwnId(s, id, p)
    ensures var t := Accept(c, s, p, id, Constructed, applied, completes, now);
            var connected, left := AskFor(s, p).1.Some?, Leaves(s, p, id, now);
            if !connected && |left| < 12 then
              Files(c, t, Session(id, p, false, if applied && completes then Connecting else Created, now,
                                  None, None, None, None, None, applied, false))
            else !connected ==> t.sessions.table.Keys == left
  {
    hide Tables, SweepAll, Open, TooOld, Replaceable, Spared;
    SparedByAsking(c, s, p);
    var t := AskFor(s, p).0;
    hide AskFor;
    SupersedeSpares(c, t, p, id);
    var u := SweepAll(t, Superseded(p, id));
    PruneTakes(c, u, now);
    var v := SweepAll(u, Stale(now));
    assert v.sessions.table.Keys == Leaves(s, p, id, now);
    OpenFiles(c, v, NewSession(id, p, false, if applied && completes then Connecting else Created, now, applied));
  }

  lemma OpenFiles(c: Config, s: State, x: Session)
    requires Tables(c, s)
    ensures var t := Open(c, s, x, Constructed);
            if |s.sessions.table.Keys| < 12 then Files(c, t, x) else t == s
  {
    ActiveIsAll(c, s);
    hide Tables, Active;
  }

  lemma AcceptSparesPeer(s: State, t: State, u: State, v: State, w: State, q: PeerId, kept: bool)
    requires Spared(s, t, q, true) && Spared(t, u, q, true) && Spared(u, v, q, kept) && Spared(v, w, q, true)
    ensures Spared(s, w, q, kept)
  {
    hide Spared;
    SparedThrough(s, t, u, q, true);
    SparedBefore(s, u, v, q, kept);
    SparedThrough(s, v, w, q, kept);
  }

  lemma AcceptLeaves(s: State, u: State, v: State, w: State, p: PeerId, next: SessionId, now: int)
    requires forall j :: j in u.sessions.table <==>
               j in s.sessions.table
               && !(s.sessions.table[j].peer == p && j != next && Replaceable(s.sessions.table[j]))
    requires forall j | j in u.sessions.table :: u.sessions.table[j] == s.sessions.table[j]
    requires forall j :: j in v.sessions.table <==> j in u.sessions.table && !TooOld(u.sessions.table[j], now)
    requires forall j | j in v.sessions.table :: v.sessions.table[j] == u.sessions.table[j]
    requires forall j | j != next ::
               (j in w.sessions.table <==> j in v.sessions.table)
               && (j in v.sessions.table ==> w.sessions.table[j] == v.sessions.table[j])
    requires forall q | q != p :: Spared(s, w, q, NoneTooOld(s, q, now))
    ensures OthersAfter(s, w, p, next, now, true)
  {
    hide TooOld, Replaceable, NoneTooOld, Spared;
  }

  lemma SparedBefore(s: State, t: State, u: State, q: PeerId, kept: bool)
    requires Spared(s, t, q, true) && Spared(t, u, q, kept)
    ensures Spared(s, u, q, kept)
  {
    hide AskFor;
  }

  lemma OwnSessionsOnly(s: State, u: State, p: PeerId, q: PeerId, now: int)
    requires q != p
    requires forall j :: j in u.sessions.table ==> j in s.sessions.table && u.sessions.table[j] == s.sessions.table[j]
    requires forall j | j in s.sessions.table :: s.sessions.table[j].peer != p ==> j in u.sessions.table
    ensures NoneTooOld(s, q, now) <==> NoneTooOld(u, q, now)
  {
    hide TooOld;
  }

  lemma AskAfterPrune(c: Config, s: State, p: PeerId, now: int)
    requires Tables(c, s)
    ensures AskFor(SweepAll(s, Stale(now)), p).1.Some? <==> AskFor(s, p).1.Some? && NoneTooOld(s, p, now)
  {
    hide Tables, SweepAll, AskFor, TooOld, NoneTooOld;
    PruneTakes(c, s, now);
    assert Spared(s, SweepAll(s, Stale(now)), p, NoneTooOld(s, p, now));
  }

  lemma AfterAsk(s: State, pruned: State, t: State, p: PeerId, next: SessionId, now: int)
    requires t.sessions == pruned.sessions
    requires forall j :: j in pruned.sessions.table <==> j in s.sessions.table && !TooOld(s.sessions.table[j], now)
    requires forall j | j in pruned.sessions.table :: pruned.sessions.table[j] == s.sessions.table[j]
    requires forall q :: Spared(s, pruned, q, NoneTooOld(s, q, now))
    requires forall q | q != p :: Spared(pruned, t, q, true)
    ensures OthersAfter(s, t, p, next, now, false)
  {
    hide TooOld, Replaceable, NoneTooOld, Spared;
    forall q | q != p ensures Spared(s, t, q, NoneTooOld(s, q, now)) {
      SparedThrough(s, pruned, t, q, NoneTooOld(s, q, now));
    }
  }

  lemma AfterOpen(s: State, pruned: State, u: State, v: State, p: PeerId, next: SessionId, now: int, replaced: bool)
    requires forall j :: j in pruned.sessions.table <==> j in s.sessions.table && !TooOld(s.sessions.table[j], now)
    requires forall j | j in pruned.sessions.table :: pruned.sessions.table[j] == s.sessions.table[j]
    requires forall j | j != next :: j in u.sessions.table <==>
               j in pruned.sessions.table && !(replaced && pruned.sessions.table[j].peer == p
                                               && Replaceable(pruned.sessions.table[j]))
    requires forall j | j in u.sessions.table :: j in pruned.sessions.table
                                                 && u.sessions.table[j] == pruned.sessions.table[j]
    requires forall j | j != next ::
               (j in v.sessions.table <==> j in u.sessions.table)
               && (j in u.sessions.table ==> v.sessions.table[j] == u.sessions.table[j])
    requires forall q :: Spared(s, pruned, q, NoneTooOld(s, q, now))
    requires forall q | q != p :: Spared(pruned, u, q, true)
    requires forall q | q != p :: Spared(u, v, q, true)
    ensures OthersAfter(s, v, p, next, now, replaced)
  {
    hide TooOld, Replaceable, NoneTooOld, Spared;
    forall q | q != p ensures Spared(s, v, q, NoneTooOld(s, q, now)) {
      SparedThrough(s, pruned, u, q, NoneTooOld(s, q, now));
      SparedThrough(s, u, v, q, NoneTooOld(s, q, now));
    }
  }

  lemma AnswerKeeps(c: Config, s: State, p: PeerId, id: SessionId, stable: bool, completes: bool)
    requires Inv(c, s)
    ensures Inv(c, Answer(c, s, p, id, stable, completes))
  {
    hide Rename, Put, Refresh;
    if id in s.sessions.table {
      RenameKeeps(c, s, id, p);
      var t := Rename(s, id, p);
      StoredLive(c, t, id);
      var y := t.sessions.table[id].(remoteApplied := true, state := Connecting);
      hide Tables;
      PutKeeps(c, t, id, y);
      PutStored(t, id, y);
      RefreshKeeps(c, Put(t, id, y), id, y);
      RefreshSessions(c, Put(t, id, y), id, y);
    }
  }

  lemma StoredLive(c: Config, s: State, id: SessionId)
    requires Tables(c, s) && id in s.sessions.table
    ensures var x := s.sessions.table[id]; x.id == id && !Terminal(x) && !x.closing
  {
  }

  lemma PutStored(s: State, id: SessionId, x: Session)
    ensures id in Put(s, id, x).sessions.table && Put(s, id, x).sessions.table[id] == x
  {
  }

  lemma RefreshSessions(c: Config, s: State, id: SessionId, x: Session)
    ensures Refresh(c, s, id, x).sessions == s.sessions
  {
  }

  // ---------- Every run ----------

  lemma CloseInv(c: Config, s: State, id: SessionId)
    requires Inv(c, s)
    ensures Inv(c, Close(s, id)) && Inv(c, CloseFailed(s, id)) && Inv(c, Unfile(Close(s, id), id))
  {
    hide Tables, Close, Unfile;
    CloseKeeps(c, s, id);
    Counted(c, s);
    CloseKeeps(c, s.(connectionsFailed := s.connectionsFailed + 1), id);
    Fewer(Delete(s.sessions, id).table.Keys, s.sessions.table.Keys);
  }

  lemma Counted(c: Config, s: State)
    requires Tables(c, s)
    ensures forall n: nat :: Tables(c, s.(connectionsFailed := n)) && Tables(c, s.(connectionsOpened := n))
  {
  }

  lemma DisconnectingKeeps(c: Config, s: State, id: SessionId, now: int)
    requires Inv(c, s) && id in s.sessions.table
    ensures Inv(c, Disconnecting(c, s, id, now))
  {
    hide Tables, Close, Put;
    StoredLive(c, s, id);
    var x := s.sessions.table[id].(state := Disconnected, disconnectedAt := Some(now));
    PutKeeps(c, s, id, x);
    CloseInv(c, Put(s, id, x), id);
  }

  lemma OpenedKeeps(c: Config, s: State, id: SessionId, now: int)
    requires Inv(c, s)
    ensures Inv(c, Opened(c, s, id, now))
  {
    hide Tables, Put, Refresh;
    if id in s.sessions.table && s.sessions.table[id].channel.Some? {
      StoredLive(c, s, id);
      var x := s.sessions.table[id].(channel := Some(ChannelOpen), state := Connected,
                                     connectedAt := Some(now), lastSeenAt := Some(now));
      PutKeeps(c, s, id, x);
      PutStored(s, id, x);
      RefreshKeeps(c, Put(s, id, x), id, x);
      RefreshSessions(c, Put(s, id, x), id, x);
      Counted(c, Refresh(c, Put(s, id, x), id, x));
    }
  }

  lemma LostKeeps(c: Config, s: State, id: SessionId, now: int)
    requires Inv(c, s)
    ensures Inv(c, Lost(c, s, id, now))
  {
    hide Tables, Put, Disconnecting;
    if id in s.sessions.table && s.sessions.table[id].channel.Some? {
      StoredLive(c, s, id);
      var x := s.sessions.table[id];
      var t := Put(s, id, x.(channel := Some(ChannelClosed)));
      PutKeeps(c, s, id, x.(channel := Some(ChannelClosed)));
      DropKeeps(c, t, x.peer);
      DisconnectingKeeps(c, t.(connections := t.connections - {x.peer}), id, now);
    }
  }

  lemma PcChangedKeeps(c: Config, s: State, id: SessionId, pc: PeerConnectionState, now: int)
    requires Inv(c, s)
    ensures Inv(c, PcChanged(c, s, id, pc, now))
  {
    hide Tables, Put, Disconnecting, CloseFailed;
    if id in s.sessions.table {
      StoredLive(c, s, id);
      var x := s.sessions.table[id];
      PutKeeps(c, s, id, x.(state := if IsSet(x.authenticatedAt) then Authenticated else Connected,
                            disconnectedAt := None, lastSeenAt := Some(now)));
      DisconnectingKeeps(c, s, id, now);
      CloseInv(c, s, id);
    }
  }

  lemma AuthenticateKeeps(c: Config, s: State, p: PeerId, now: int)
    requires Inv(c, s)
    ensures Inv(c, Authenticate(s, p, now))
  {
    hide Tables, Put;
    if SessionOf(s, p).Some? && SessionOf(s, p).value in s.sessions.table {
      var id := SessionOf(s, p).value;
      StoredLive(c, s, id);
      PutKeeps(c, s, id, s.sessions.table[id].(state := Authenticated, authenticatedAt := Some(now)));
    }
  }

  lemma SetReadyKeeps(c: Config, s: State, id: SessionId, ready: Ready)
    requires Inv(c, s)
    ensures Inv(c, SetReady(s, id, ready))
  {
    hide Tables, Put;
    if id in s.sessions.table {
      StoredLive(c, s, id);
      PutKeeps(c, s, id, s.sessions.table[id].(channel := Some(ready)));
    }
  }

  lemma StepKeeps(c: Config, s: State, e: Event)
    requires Inv(c, s) && Allowed(s, e)
    ensures Inv(c, Step(c, s, e))
  {
    hide Inv, OwnId, SweepAll, Close, Unfile, CloseFailed, SetReady, Disconnecting, AskFor, Offer, Accept, Answer,
      Opened, Lost, PcChanged, Authenticate;
    match e
    case CreateOffer(p, id, pc, completes, now) => OfferKeeps(c, s, p, id, pc, completes, now);
    case AcceptOffer(p, id, pc, applied, completes, now) => AcceptKeeps(c, s, p, id, pc, applied, completes, now);
    case ApplyAnswer(p, id, stable, completes) => AnswerKeeps(c, s, p, id, stable, completes);
    case Disconnect(p) => if SessionOf(s, p).Some? { CloseInv(c, s, SessionOf(s, p).value); }
    case CloseNegotiation(id) => CloseInv(c, s, id);
    case MarkAuthenticated(p, now) => AuthenticateKeeps(c, s, p, now);
    case GetConnection(p) => ConnectedInv(c, s, p);
    case PruneStale(now) => SweepInv(c, s, Stale(now));
    case CloseAll => SweepInv(c, s, All);
    case ChannelArrived(id, ready) => SetReadyKeeps(c, s, id, ready);
    case ChannelChanged(id, ready) => SetReadyKeeps(c, s, id, ready);
    case ChannelOpened(id, now) => OpenedKeeps(c, s, id, now);
    case ChannelLost(id, now) => LostKeeps(c, s, id, now);
    case ChannelError(id) => CloseInv(c, s, id);
    case ConnectionChanged(id, connection, now) => PcChangedKeeps(c, s, id, connection, now);
    case DisconnectTimer(id) => CloseInv(c, s, id);
    case Heartbeat(id, now) => CloseInv(c, s, id);
  }

  lemma ConnectedInv(c: Config, s: State, p: PeerId)
    requires Inv(c, s)
    ensures Inv(c, AskFor(s, p).0)
  {
    ConnectedKeeps(c, s, p);
  }

  ghost predicate AllAllowed(c: Config, s: State, events: seq<Event>) {
    events != [] ==>
      AllAllowed(c, s, events[..|events| - 1]) && Allowed(Run(c, s, events[..|events| - 1]), events[|events| - 1])
  }

  /** Over every run in which no session id serves two peers: the tables agree, no dead session is stored, there
      are at most twelve, and a connection is handed out only for a live, open session of the peer asked for. */
  lemma {:induction false} RunKeeps(c: Config, events: seq<Event>)
    requires AllAllowed(c, Fresh, events)
    ensures Inv(c, Run(c, Fresh, events))
    ensures forall p :: AskFor(Run(c, Fresh, events), p).1.Some? ==>
              var s := Run(c, Fresh, events);
              p in s.byPeer && s.byPeer[p] in s.sessions.table &&
              var x := s.sessions.table[s.byPeer[p]]; x.peer == p && !Terminal(x) && x.channel == Some(ChannelOpen)
  {
    InvRun(c, events);
    hide Run, AllAllowed;
    forall p ensures AskFor(Run(c, Fresh, events), p).1.Some? ==>
              var s := Run(c, Fresh, events);
              p in s.byPeer && s.byPeer[p] in s.sessions.table &&
              var x := s.sessions.table[s.byPeer[p]]; x.peer == p && !Terminal(x) && x.channel == Some(ChannelOpen)
    {
      ConnectedMeans(c, Run(c, Fresh, events), p);
    }
  }

  lemma {:induction false} InvRun(c: Config, events: seq<Event>)
    requires AllAllowed(c, Fresh, events)
    ensures Inv(c, Run(c, Fresh, events))
  {
    hide Allowed, Step;
    if events != [] {
      InvRun(c, events[..|events| - 1]);
      StepKeeps(c, Run(c, Fresh, events[..|events| - 1]), events[|events| - 1]);
    }
  }

  // ---------- Where the assumptions end ----------

  /** The id is stored for another peer that is still mapped to it or connected through it. */
  ghost predicate SharedId(s: State, x: Session) {
    x.id in s.sessions.table &&
    var q := s.sessions.table[x.id].peer;
    q != x.peer && ((q in s.byPeer && s.byPeer[q] == x.id) || (q in s.connections && s.connections[q].session == x.id))
  }

  /** Filing a session under a used id breaks the tables exactly when the id still serves another peer. */
  lemma SharedIdBreaks(c: Config, s: State, x: Session)
    requires Tables(c, s) && !Terminal(x) && !x.closing
    ensures Tables(c, AddSession(c, s, x)) <==> !SharedId(s, x)
  {
    if SharedId(s, x) {
      SharedIdFails(c, s, x);
    } else {
      UnsharedKeeps(c, s, x);
    }
  }

  lemma SharedIdFails(c: Config, s: State, x: Session)
    requires SharedId(s, x)
    ensures !Tables(c, AddSession(c, s, x))
  {
    hide Filed;
    var t, q := AddSession(c, s, x), s.sessions.table[x.id].peer;
    assert !Stored(t.sessions, x.id, q);
    if q in s.byPeer && s.byPeer[q] == x.id {
      assert q in t.byPeer && t.byPeer[q] == x.id;
    } else {
      assert q in t.connections && t.connections[q].session == x.id;
    }
  }

  lemma UnsharedKeeps(c: Config, s: State, x: Session)
    requires Tables(c, s) && !Terminal(x) && !x.closing && !SharedId(s, x)
    ensures Tables(c, AddSession(c, s, x))
  {
    hide Mapped, Wired;
    UnsharedMapped(c, s, x);
    UnsharedWired(c, s, x);
  }

  lemma UnsharedMapped(c: Config, s: State, x: Session)
    requires Mapped(s) && !SharedId(s, x)
    ensures Mapped(AddSession(c, s, x))
  {
  }

  lemma UnsharedWired(c: Config, s: State, x: Session)
    requires Wired(c, s) && !SharedId(s, x)
    ensures Wired(c, AddSession(c, s, x))
  {
  }

  /** The channel of a session object that has left the table opens all the same. */
  function LateOpened(c: Config, s: State, x: Session, now: int): State {
    Refresh(c, s, x.id, x.(connectedAt := Some(now))).(connectionsOpened := s.connectionsOpened + 1)
  }

  /** A late open breaks the tables exactly when it names a peer and the id is not, or no longer, that peer's. */
  lemma LateOpenBreaks(c: Config, s: State, x: Session, now: int)
    requires Tables(c, s)
    ensures Tables(c, LateOpened(c, s, x, now)) <==>
              x.peer == c.local || now == 0 || (x.id in s.sessions.table && s.sessions.table[x.id].peer == x.peer)
  {
    var t := LateOpened(c, s, x, now);
    if x.peer != c.local && now != 0 {
      assert x.peer in t.byPeer && t.byPeer[x.peer] == x.id;
    }
  }

  /** The answer only renames: it is a duplicate, or setting the remote description fails. */
  predicate Ignored(x: Session, stable: bool, completes: bool) { x.remoteApplied || stable || !completes }

  /** An answer that names a peer with an open connection takes the mapping away from that connection's session.
      The peer stays connected exactly when the answered session is open itself; otherwise the connection is
      dropped. A duplicate answer has the same effect, but leaves the connection of the other session in place. */
  lemma AnswerHidesConnection(c: Config, s: State, p: PeerId, id: SessionId, stable: bool, completes: bool)
    requires Tables(c, s) && AskFor(s, p).1.Some? && id in s.sessions.table
    ensures var x, r := s.sessions.table[id], AskFor(Answer(c, s, p, id, stable, completes), p);
            && (r.1.Some? <==> id != "" && x.channel == Some(ChannelOpen))
            && (r.1.None? <==> p !in r.0.connections)
            && (r.1.Some? ==>
                  r.1.value == if Ignored(x, stable, completes) || !IsSet(x.connectedAt) then s.connections[p]
                               else Connection(p, id, x.connectedAt.value))
  {
    ConnectedMeans(c, s, p);
    AnswerMaps(c, s, p, id, stable, completes);
    hide Answer, Tables, Ignored;
  }

  lemma AnswerMaps(c: Config, s: State, p: PeerId, id: SessionId, stable: bool, completes: bool)
    requires id in s.sessions.table && p in s.connections && p != c.local
    ensures var t, x := Answer(c, s, p, id, stable, completes), s.sessions.table[id];
            && p in t.byPeer && t.byPeer[p] == id && id in t.sessions.table
            && t.sessions.table[id].channel == x.channel
            && p in t.connections && t.connections[p] ==
                 if Ignored(x, stable, completes) || !IsSet(x.connectedAt) then s.connections[p]
                 else Connection(p, id, x.connectedAt.value)
  {
  }

  /** Two offers that overlap pass the budget one after the other before either session is filed; together they
      stay within it exactly when there was room for both. */
  lemma OverlappingOffers(c: Config, s: State, x: Session, y: Session)
    requires Tables(c, s) && |Active(s)| < MAX_ACTIVE_WEBRTC_SESSIONS
    requires x.id != y.id && x.id !in s.sessions.table && y.id !in s.sessions.table
    ensures |AddSession(c, AddSession(c, s, x), y).sessions.table.Keys| <= MAX_ACTIVE_WEBRTC_SESSIONS
       <==> |Active(s)| + 2 <= MAX_ACTIVE_WEBRTC_SESSIONS
  {
    ActiveIsAll(c, s);
    AddedKeys(c, s, x);
    AddedKeys(c, AddSession(c, s, x), y);
    hide Tables, Active, AddSession;
  }

  lemma AddedKeys(c: Config, s: State, x: Session)
    ensures AddSession(c, s, x).sessions.table.Keys == s.sessions.table.Keys + {x.id}
  {
  }

  // ---------- What events do to a session ----------

  /** The same tables but for one session's record. */
  ghost predicate OnlyRecord(s: State, t: State, id: SessionId, x: Session) {
    && t.sessions.table == s.sessions.table[id := x] && t.sessions.order == s.sessions.order
    && t.byPeer == s.byPeer && t.connections == s.connections
  }

  /** A channel that opens makes its session connected from now on, and the peer's connection and mapping its own, if
      the peer is another one. */
  lemma OpeningConnects(c: Config, s: State, id: SessionId, now: int)
    requires Tables(c, s) && id in s.sessions.table && s.sessions.table[id].channel.Some? && now != 0
    ensures var t, x := Step(c, s, ChannelOpened(id, now)), s.sessions.table[id];
            && t.sessions.table == s.sessions.table[id := x.(channel := Some(ChannelOpen), state := Connected,
                                                             connectedAt := Some(now), lastSeenAt := Some(now))]
            && t.connections == (if x.peer == c.local then s.connections
                                 else s.connections[x.peer := Connection(x.peer, id, now)])
            && t.byPeer == (if x.peer == c.local then s.byPeer else s.byPeer[x.peer := id])
  {
    hide Mapped, Wired, WellFormed;
  }

  /** A heartbeat closes an open session exactly if its peer has been silent for longer than the grace period and three
      intervals, when one of these is positive; otherwise it changes nothing. */
  /** An answer gives its session to the peer it names, mapped; the first one applied also sets it connecting. */
  lemma AnswerTakes(c: Config, s: State, p: PeerId, id: SessionId, stable: bool, completes: bool)
    ensures var t := Step(c, s, ApplyAnswer(p, id, stable, completes));
            if id !in s.sessions.table then t == s
            else
              var x := s.sessions.table[id];
              && t.byPeer == (if x.peer != p then s.byPeer - {x.peer} else s.byPeer)[p := id]
              && t.sessions.table == s.sessions.table[id :=
                   if x.remoteApplied || stable || !completes then x.(peer := p)
                   else x.(peer := p, remoteApplied := true, state := Connecting)]
  {
    if id in s.sessions.table {
      var x := s.sessions.table[id];
      var t := Rename(s, id, p);
      RenameIs(s, id, p);
      hide Rename;
      var y := x.(peer := p, remoteApplied := true, state := Connecting);
      assert s.sessions.table[id := x.(peer := p)][id := y] == s.sessions.table[id := y];
      RefreshMaps(c, Put(t, id, y), id, y);
      hide Refresh;
    }
  }

  lemma RenameIs(s: State, id: SessionId, p: PeerId)
    requires id in s.sessions.table
    ensures var t, x := Rename(s, id, p), s.sessions.table[id];
            && t.sessions.table == s.sessions.table[id := x.(peer := p)]
            && t.byPeer == (if x.peer != p then s.byPeer - {x.peer} else s.byPeer)[p := id]
  {
  }

  lemma RefreshMaps(c: Config, s: State, id: SessionId, x: Session)
    requires x.peer in s.byPeer && s.byPeer[x.peer] == id
    ensures Refresh(c, s, id, x).sessions == s.sessions && Refresh(c, s, id, x).byPeer == s.byPeer
  {
  }

  /** The session is gone, with its peer's connection and the mapping to it, and nothing else. */
  predicate Gone(s: State, t: State, id: SessionId) {
    if id !in s.sessions.table then t.sessions == s.sessions && t.byPeer == s.byPeer && t.connections == s.connections
    else
      var p := s.sessions.table[id].peer;
      && t.sessions.table == s.sessions.table - {id} && t.connections == s.connections - {p}
      && t.byPeer == if p in s.byPeer && s.byPeer[p] == id then s.byPeer - {p} else s.byPeer
  }

  /** Errors, failures and closings take the session they are for and no other. */
  lemma ClosingTakes(c: Config, s: State, id: SessionId, now: int)
    requires Tables(c, s)
    ensures Gone(s, Step(c, s, ChannelError(id)), id) && Gone(s, Step(c, s, CloseNegotiation(id)), id)
    ensures Gone(s, Step(c, s, ConnectionChanged(id, PcFailed, now)), id)
    ensures Gone(s, Step(c, s, ConnectionChanged(id, PcClosed, now)), id)
  {
    hide Wired, Mapped, WellFormed, Deleted, Close, CloseFailed, Unfile, Gone;
    CloseTakes(s, id);
    CloseKeeps(c, s, id);
    CountedTakes(s, id);
    if id in s.sessions.table {
      UnfileTakes(s, id);
    }
    NoneGone(s, id);
    hide Tables;
  }

  /** Disconnecting a peer takes the session it is mapped to; shutting down takes all. */
  lemma DisconnectTakes(c: Config, s: State, p: PeerId)
    requires Tables(c, s)
    ensures var t := Step(c, s, Disconnect(p));
            if p in s.byPeer && s.byPeer[p] != "" then Gone(s, t, s.byPeer[p]) else t == s
    ensures Step(c, s, CloseAll).sessions.table == map[]
  {
    hide SweepAll, Wired, WellFormed, Deleted, Close, Gone;
    SweepAllKeeps(c, s, All);
    if p in s.byPeer {
      CloseTakes(s, s.byPeer[p]);
    }
    hide Tables;
  }

  lemma CountedTakes(s: State, id: SessionId)
    requires id in s.sessions.table ==> !s.sessions.table[id].closing
    ensures Gone(s, CloseFailed(s, id), id)
  {
    hide Close;
    var counted := s.(connectionsFailed := s.connectionsFailed + 1);
    CloseTakes(counted, id);
  }

  lemma UnfileTakes(s: State, id: SessionId)
    requires id in s.sessions.table
    ensures Gone(s, Unfile(s.(connections := s.connections - {s.sessions.table[id].peer}), id), id)
  {
    hide Deleted;
  }

  lemma NoneGone(s: State, id: SessionId)
    ensures id !in s.sessions.table ==> Gone(s, s, id)
  {
  }

  lemma CloseTakes(s: State, id: SessionId)
    requires id in s.sessions.table ==> !s.sessions.table[id].closing
    ensures Gone(s, Close(s, id), id)
  {
    hide Deleted;
  }

  lemma SilenceCloses(c: Config, s: State, id: SessionId, now: int)
    requires Tables(c, s)
    ensures var t, stored := Step(c, s, Heartbeat(id, now)), id in s.sessions.table;
            var silent :=
              && stored && s.sessions.table[id].channel == Some(ChannelOpen) && IsSet(s.sessions.table[id].lastSeenAt)
              && (c.gracePeriod > 0 || c.heartbeatInterval > 0)
              && s.sessions.table[id].lastSeenAt.value + c.gracePeriod < now
              && s.sessions.table[id].lastSeenAt.value + 3 * c.heartbeatInterval < now;
            && (silent ==> t.sessions == Delete(s.sessions, id))
            && (!silent ==> t == s)
  {
    hide Mapped, Wired, WellFormed, Deleted;
    if id in s.sessions.table {
      CloseDeletes(c, s.(connectionsFailed := s.connectionsFailed + 1), id);
    }
  }

  lemma CloseDeletes(c: Config, s: State, id: SessionId)
    requires id in s.sessions.table && !s.sessions.table[id].closing
    ensures Close(s, id).sessions == Delete(s.sessions, id)
  {
    hide Deleted;
  }

  /** When the grace period ends, a session is closed exactly if it is disconnected still. */
  lemma GraceEnds(c: Config, s: State, id: SessionId)
    requires Tables(c, s)
    ensures var t := Step(c, s, DisconnectTimer(id));
            if id in s.sessions.table && s.sessions.table[id].state == Disconnected
            then t.sessions == Delete(s.sessions, id) else t == s
  {
    hide Mapped, Wired, WellFormed, Deleted;
    if id in s.sessions.table {
      CloseDeletes(c, s.(connectionsFailed := s.connectionsFailed + 1), id);
    }
  }

  /** A lost channel takes the peer's connection, and leaves the session disconnected for the grace period, if there is
      one; a lost peer connection leaves it disconnected too. */
  lemma LosingDisconnects(c: Config, s: State, id: SessionId, now: int)
    requires Tables(c, s) && id in s.sessions.table && s.sessions.table[id].channel.Some? && c.gracePeriod > 0
    ensures var t, x := Step(c, s, ChannelLost(id, now)), s.sessions.table[id];
            && t.connections == s.connections - {x.peer} && t.byPeer == s.byPeer
            && t.sessions.table == s.sessions.table[id := x.(channel := Some(ChannelClosed), state := Disconnected,
                                                             disconnectedAt := Some(now))]
    ensures var x := s.sessions.table[id];
            OnlyRecord(s, Step(c, s, ConnectionChanged(id, PcDisconnected, now)), id,
                       x.(state := Disconnected, disconnectedAt := Some(now)))
  {
    hide Mapped, Wired, WellFormed;
  }

  /** A peer connection that comes back revives a disconnected session whose channel is open, as authenticated if it had
      been; a peer is authenticated in its mapped session. */
  lemma RevivingKeeps(c: Config, s: State, id: SessionId, p: PeerId, now: int)
    requires Tables(c, s) && id in s.sessions.table
    ensures var t, x := Step(c, s, ConnectionChanged(id, PcConnected, now)), s.sessions.table[id];
            if x.state == Disconnected && x.channel == Some(ChannelOpen) then
              OnlyRecord(s, t, id, x.(state := if IsSet(x.authenticatedAt) then Authenticated else Connected,
                                      disconnectedAt := None, lastSeenAt := Some(now)))
            else t == s
    ensures p in s.byPeer && s.byPeer[p] == id && id != "" ==>
              OnlyRecord(s, Step(c, s, MarkAuthenticated(p, now)), id,
                         s.sessions.table[id].(state := Authenticated, authenticatedAt := Some(now)))
  {
    hide Wired, WellFormed;
  }

  // ---------- The transport ----------

  class WebRtcPeerTransport {
    const config: Config
    var sessions: OrderedMap<SessionId, Session>
    var sessionsByPeer: map<PeerId, SessionId>
    var connections: map<PeerId, Connection>
    var sessionsCreated: nat
    var connectionsOpened: nat
    var connectionsFailed: nat

    ghost function Value(): State
      reads this
    {
      State(sessions, sessionsByPeer, connections, sessionsCreated, connectionsOpened, connectionsFailed)
    }

    constructor (config: Config)
      ensures this.config == config && Value() == Fresh && Inv(config, Value())
    {
      this.config := config;
      sessions, sessionsByPeer, connections := NoEntries(), map[], map[];
      sessionsCreated, connectionsOpened, connectionsFailed := 0, 0, 0;
    }

    method RemoveSession(id: SessionId)
      modifies this
      ensures Value() == Unfile(old(Value()), id)
    {
      if id !in sessions.table {
        return;
      }
      var p := sessions.table[id].peer;
      sessions := Delete(sessions, id);
      if p in sessionsByPeer && sessionsByPeer[p] == id {
        sessionsByPeer := sessionsByPeer - {p};
      }
      if p in connections && connections[p].peer == p {
        if p !in sessionsByPeer || sessionsByPeer[p] == "" {
          connections := connections - {p};
        }
      }
    }

    /** The session object is marked first; the table then loses it. */
    method CloseSession(id: SessionId, state: SessionState, now: int)
      requires state == Closed || state == Failed
      modifies this
      ensures Value() == Close(old(Value()), id)
    {
      hide Set, Delete;
      if id !in sessions.table {
        return;
      }
      var x := sessions.table[id];
      if x.closing && (x.state == Closed || x.state == Failed) {
        return;
      }
      var marked := x.(closing := true, state := state, disconnectedAt := Some(now));
      DeleteMarked(sessions, id, marked);
      sessions := Set(sessions, id, marked);
      connections := connections - {x.peer};
      RemoveSession(id);
    }

    /** The loop of pruning, of closing superseded sessions and of closing all: over a copy of the table. */
    method CloseSwept(w: Sweep, now: int)
      modifies this
      ensures Value() == SweepAll(old(Value()), w)
    {
      hide Close, Unfile, Swept;
      var ids := sessions.order;
      for i := 0 to |ids|
        invariant Value() == SweepEach(old(Value()), w, ids[..i])
      {
        assert ids[..i + 1][..i] == ids[..i];
        if ids[i] in sessions.table && Swept(w, sessions.table[ids[i]]) {
          CloseSession(ids[i], if sessions.table[ids[i]].state == Failed then Failed else Closed, now);
          RemoveSession(ids[i]);
        }
      }
      assert ids[..|ids|] == ids;
    }

    method GetOpenConnection(p: PeerId) returns (connection: Option<Connection>)
      modifies this
      ensures (Value(), connection) == AskFor(old(Value()), p)
    {
      if p !in connections {
        return None;
      }
      if !(p in sessionsByPeer && sessionsByPeer[p] != "" && sessionsByPeer[p] in sessions.table
           && sessions.table[sessionsByPeer[p]].channel == Some(ChannelOpen)) {
        connections := connections - {p};
        return None;
      }
      return Some(connections[p]);
    }

    method WithinBudget() returns (ok: bool)
      ensures ok <==> |Active(Value())| < MAX_ACTIVE_WEBRTC_SESSIONS
    {
      var active := set id | id in sessions.table && !Terminal(sessions.table[id]);
      assert active == Active(Value());
      return |active| < MAX_ACTIVE_WEBRTC_SESSIONS;
    }

    method CreateSession(x: Session)
      modifies this
      ensures Value() == AddSession(config, old(Value()), x)
    {
      sessions := Set(sessions, x.id, x);
      if x.peer != config.local {
        sessionsByPeer := sessionsByPeer[x.peer := x.id];
      }
      sessionsCreated := sessionsCreated + 1;
    }

    /** The session is stored, and its peer, if remote, is mapped to it. */
    ghost predicate FiledFor(x: Session)
      reads this
    {
      && x.id in sessions.table && sessions.table[x.id] == x
      && (x.peer != config.local ==> x.peer in sessionsByPeer && sessionsByPeer[x.peer] == x.id)
    }

    method OpenSession(x: Session, pc: Construction) returns (added: bool)
      modifies this
      ensures Value() == Open(config, old(Value()), x, pc)
      ensures added <==> Room(old(Value())) && Constructs(pc)
      ensures added ==> FiledFor(x)
    {
      hide SweepAll, Active;
      var ok := WithinBudget();
      if !ok {
        return false;
      }
      if pc == Recovered || pc == AtLimit {
        CloseSwept(All, x.createdAt);
      }
      if pc == AtLimit || pc == Broken {
        return false;
      }
      CreateSession(x);
      return true;
    }

    method MakeOffer(p: PeerId, id: SessionId, pc: Construction, completes: bool, now: int) returns (added: bool)
      modifies this
      ensures Value() == Offer(config, old(Value()), p, id, pc, completes, now)
      ensures added <==> OfferOpens(config, old(Value()), p, id, pc, now)
      ensures added ==> FiledFor(NewSession(id, p, true, if completes then Signaling else Created, now, false))
    {
      hide SweepAll, AskFor, Open, Room;
      CloseSwept(Stale(now), now);
      if p != config.local {
        var connection := GetOpenConnection(p);
        if connection.Some? {
          return false;
        }
        CloseSwept(Superseded(p, id), now);
      }
      added := OpenSession(NewSession(id, p, true, if completes then Signaling else Created, now, false), pc);
    }

    method TakeOffer(p: PeerId, id: SessionId, pc: Construction, applied: bool, completes: bool, now: int)
      returns (added: bool)
      modifies this
      ensures Value() == Accept(config, old(Value()), p, id, pc, applied, completes, now)
      ensures added <==> AcceptOpens(old(Value()), p, id, pc, now)
      ensures added ==> FiledFor(NewSession(id, p, false, if applied && completes then Connecting else Created,
                                            now, applied))
    {
      hide SweepAll, AskFor, Open, Room;
      var connection := GetOpenConnection(p);
      if connection.Some? {
        return false;
      }
      CloseSwept(Superseded(p, id), now);
      CloseSwept(Stale(now), now);
      var state := if applied && completes then Connecting else Created;
      added := OpenSession(NewSession(id, p, false, state, now, applied), pc);
    }

    method RefreshConnection(id: SessionId)
      requires id in sessions.table
      modifies this
      ensures Value() == Refresh(config, old(Value()), id, old(sessions).table[id])
    {
      var x := sessions.table[id];
      if !IsSet(x.connectedAt) || x.peer == config.local {
        return;
      }
      connections := connections[x.peer := Connection(x.peer, id, x.connectedAt.value)];
      sessionsByPeer := sessionsByPeer[x.peer := id];
    }

    method TakeAnswer(p: PeerId, id: SessionId, stable: bool, completes: bool)
      modifies this
      ensures Value() == Answer(config, old(Value()), p, id, stable, completes)
    {
      hide Refresh, Set;
      if id !in sessions.table {
        return;
      }
      var x := sessions.table[id];
      if x.peer != p {
        connections := connections - {x.peer};
        sessionsByPeer := sessionsByPeer - {x.peer};
      }
      SetAt(sessions, id, x.(peer := p));
      sessions := Set(sessions, id, x.(peer := p));
      sessionsByPeer := sessionsByPeer[p := id];
      if x.remoteApplied || stable || !completes {
        return;
      }
      var y := x.(peer := p, remoteApplied := true, state := Connecting);
      SetAt(sessions, id, y);
      sessions := Set(sessions, id, y);
      RefreshConnection(id);
    }

    method HandleChannelOpen(id: SessionId, now: int)
      modifies this
      ensures Value() == Opened(config, old(Value()), id, now)
    {
      hide Set;
      if id !in sessions.table || sessions.table[id].channel.None? {
        return;
      }
      var x := sessions.table[id].(channel := Some(ChannelOpen), state := Connected);
      x := x.(connectedAt := Some(now), lastSeenAt := Some(now));
      SetAt(sessions, id, x);
      sessions := Set(sessions, id, x);
      RefreshConnection(id);
      connectionsOpened := connectionsOpened + 1;
    }

    method MarkDisconnected(id: SessionId, now: int)
      requires id in sessions.table
      modifies this
      ensures Value() == Disconnecting(config, old(Value()), id, now)
    {
      hide Close;
      sessions := Set(sessions, id, sessions.table[id].(state := Disconnected, disconnectedAt := Some(now)));
      if config.gracePeriod <= 0 {
        CloseSession(id, Failed, now);
      }
    }

    method HandleDataChannelClosed(id: SessionId, now: int)
      modifies this
      ensures Value() == Lost(config, old(Value()), id, now)
    {
      hide Disconnecting;
      if id !in sessions.table || sessions.table[id].channel.None? {
        return;
      }
      var x := sessions.table[id];
      sessions := Set(sessions, id, x.(channel := Some(ChannelClosed)));
      if x.closing {
        return;
      }
      connections := connections - {x.peer};
      MarkDisconnected(id, now);
    }

    method Fail(id: SessionId, now: int)
      modifies this
      ensures Value() == CloseFailed(old(Value()), id)
    {
      hide Close;
      connectionsFailed := connectionsFailed + 1;
      CloseSession(id, Failed, now);
    }

    method HandleConnectionState(id: SessionId, pc: PeerConnectionState, now: int)
      modifies this
      ensures Value() == PcChanged(config, old(Value()), id, pc, now)
    {
      hide Disconnecting, CloseFailed, Unfile;
      if id !in sessions.table {
        return;
      }
      var x := sessions.table[id];
      match pc {
        case PcConnected =>
          if x.state == Disconnected && x.channel == Some(ChannelOpen) {
            var state := if IsSet(x.authenticatedAt) then Authenticated else Connected;
            sessions := Set(sessions, id, x.(state := state, disconnectedAt := None, lastSeenAt := Some(now)));
          }
        case PcFailed => Fail(id, now);
        case PcDisconnected => MarkDisconnected(id, now);
        case PcClosed =>
          connections := connections - {x.peer};
          RemoveSession(id);
      }
    }

    method SendHeartbeat(id: SessionId, now: int) returns (sent: bool)
      modifies this
      ensures Value() == Beat(config, old(Value()), id, now)
      ensures sent <==> ChannelIsOpen(old(Value()), id) && Listening(config, old(sessions).table[id], now)
      ensures sent ==> Value() == old(Value())
    {
      hide CloseFailed;
      if id !in sessions.table {
        return false;
      }
      var x := sessions.table[id];
      if x.closing || Terminal(x) || x.channel != Some(ChannelOpen) {
        return false;
      }
      var limit := Max(config.gracePeriod, config.heartbeatInterval * 3);
      if IsSet(x.lastSeenAt) && limit > 0 && now - x.lastSeenAt.value > limit {
        Fail(id, now);
        return false;
      }
      return true;
    }

    method SetAuthenticated(p: PeerId, now: int)
      modifies this
      ensures Value() == Authenticate(old(Value()), p, now)
    {
      if p in sessionsByPeer && sessionsByPeer[p] != "" && sessionsByPeer[p] in sessions.table {
        var id := sessionsByPeer[p];
        sessions := Set(sessions, id, sessions.table[id].(state := Authenticated, authenticatedAt := Some(now)));
      }
    }
  }

  lemma DeleteMarked(sessions: OrderedMap<SessionId, Session>, id: SessionId, x: Session)
    requires id in sessions.table
    ensures Delete(Set(sessions, id, x), id) == Delete(sessions, id)
    ensures id in Set(sessions, id, x).table && Set(sessions, id, x).table[id] == x
  {
  }

  lemma SetAt(sessions: OrderedMap<SessionId, Session>, id: SessionId, x: Session)
    ensures id in Set(sessions, id, x).table && Set(sessions, id, x).table[id] == x
  {
  }
}
