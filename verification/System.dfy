/** The whole server (src/server.rs) with everything around it: any number of Iroh connections
    with their clients, datagrams from anywhere, the reaper, and the trust store with other
    processes at work on the same file. One step is one stretch of code that runs without
    anything else coming between; the steps of different parties come in any order. */
module System {
  import opened Wire
  import opened Postcard
  import opened Framing
  import opened Trust
  import opened Sessions
  import T = TrustSystem
  import C = Connection

  type Addr = nat

  /** The server's process; administrators' commands run in others, or in the same one. */
  const SERVER: nat := 0

  datatype Source = Udp(addr: Addr) | Iroh(conn: nat)

  datatype UdpPhase =
    | Idle
    | Checking(addr: Addr, handshake: Handshake)
    | Registering(addr: Addr, handshake: Handshake)
    | Opening(addr: Addr, handshake: Handshake)

  /** Ghost record of what became of the handshakes that came by datagram. */
  datatype Answer =
    | Unanswered(addr: Addr)
    | Welcomed(addr: Addr, handshake: Handshake)
    | Deferred(addr: Addr)
    | TurnedAway(addr: Addr)

  /** Ghost record of a handshake that passed `is_approved`, and how many deeds the trust store
      had seen by then. */
  datatype Passed = Passed(source: Source, handshake: Handshake, deeds: nat)

  /** Ghost record of a batch passed to a device. */
  datatype Emission = Emission(source: Source, key: Key, serial: nat, batch: Vec<Event>)

  /** Ghost record of a device and the handshake it was made for. */
  datatype Creation = Creation(handshake: Handshake, device: Device)

  datatype State = State(now: nat, trust: T.State, sessions: Table, udp: UdpPhase,
                         peers: map<Addr, Key>, conns: map<nat, C.Conn>,
                         created: seq<Creation>, passed: seq<Passed>,
                         emitted: seq<Emission>, answers: seq<Answer>)

  datatype Step =
    | Tick(elapsed: nat)
    | Store(step: T.Step)
    | Datagram(addr: Addr, message: Message)
    | UdpDecide(stamp: Str)
    | UdpAnswerPending
    | UdpOpen(created: bool)
    | Connect(conn: nat)
    | ClientStep(conn: nat, action: C.Action)
    | Frame(conn: nat)
    | HandlerDecide(conn: nat, stamp: Str)
    | HandlerAnswerPending(conn: nat, hostname: Str, text: Str)
    | HandlerOpen(conn: nat, created: bool, hostname: Str, text: Str)
    | LoseHandler(conn: nat)
    | ReaperPass

  // ---- Pieces of steps ---------------------------------------------------------------

  function SetConn(s: State, i: nat, conn: C.Conn): State {
    s.(conns := s.conns[i := conn])
  }

  function Emit(s: State, source: Source, key: Key, batch: Vec<Event>): State
    requires key in s.sessions
  {
    s.(sessions := Touch(s.sessions, key, s.now),
       emitted := s.emitted + [Emission(source, key, s.sessions[key].device.serial, batch)])
  }

  /** What a message does to a session that is there. */
  function Serve(s: State, source: Source, key: Key, m: Message): (s': State)
    requires key in s.sessions
    ensures s' == s.(sessions := s'.sessions, emitted := s'.emitted)
  {
    match m
    case Events(es) => Emit(s, source, key, es)
    case Ping => s.(sessions := Touch(s.sessions, key, s.now))
    case _ => s
  }

  ghost function BeginCheck(s: State, who: T.Who, h: Handshake): (s': State)
    ensures s' == s.(trust := s'.trust)
  {
    s.(trust := T.Next(s.trust, T.Begin(who, SERVER, IsApproved(h.clientId))))
  }

  /** The thread has reloaded and asks under the lock. */
  ghost predicate CanDecide(s: State, who: T.Who, h: Handshake) {
    && T.Enabled(s.trust, T.Execute(who, h.clientId))
    && s.trust.ops[who].pid == SERVER && s.trust.ops[who].request == IsApproved(h.clientId)
  }

  ghost predicate IsApprovedNow(s: State, h: Handshake) {
    SERVER in s.trust.memory && h.clientId in s.trust.memory[SERVER].approved
  }

  function PendingRecord(h: Handshake, transport: Transport, stamp: Str): PendingInfo {
    PendingInfo(h.clientId, h.clientHostname, h.metadata.name, transport, stamp)
  }

  /** The answer of `is_approved`; when it is no, the thread goes on to register the client. */
  ghost function Decided(s: State, who: T.Who, source: Source, h: Handshake, info: PendingInfo): (s': State)
    ensures s' == s.(trust := s'.trust, passed := s'.passed)
  {
    var asked := T.Next(s.trust, T.Execute(who, h.clientId));
    if IsApprovedNow(s, h) then
      s.(trust := asked, passed := s.passed + [Passed(source, h, |s.trust.deeds|)])
    else s.(trust := T.Next(asked, T.Begin(who, SERVER, Register(info))))
  }

  /** The locked section that checks, counts and inserts. */
  function WithSession(s: State, h: Handshake, created: bool): (s': State)
    ensures s' == s.(sessions := s'.sessions, created := s'.created)
  {
    var serial := |s.created|;
    s.(sessions := OpenSession(s.sessions, h, s.now, created, serial),
       created := if KeyOf(h) !in s.sessions && created
                  then s.created + [Creation(h, NewDevice(s.sessions, h, serial))] else s.created)
  }

  // ---- Steps -------------------------------------------------------------------------

  ghost function OnDatagram(s: State, addr: Addr, m: Message): (s': State)
    ensures s'.conns == s.conns
  {
    if !s.udp.Idle? then s
    else if m.Hello? then
      BeginCheck(s, T.UdpLoop, m.handshake).(peers := s.peers - {addr}, udp := Checking(addr, m.handshake),
                                             answers := s.answers + [Unanswered(addr)])
    else if addr in s.peers && s.peers[addr] in s.sessions then Serve(s, Udp(addr), s.peers[addr], m)
    else s
  }

  ghost function OnUdpDecide(s: State, stamp: Str): (s': State)
    ensures s'.conns == s.conns
  {
    if !s.udp.Checking? || !CanDecide(s, T.UdpLoop, s.udp.handshake) then s
    else
      var addr, h := s.udp.addr, s.udp.handshake;
      Decided(s, T.UdpLoop, Udp(addr), h, PendingRecord(h, DirectUdp, stamp)).(
        udp := if IsApprovedNow(s, h) then Opening(addr, h) else Registering(addr, h))
  }

  function OnUdpAnswerPending(s: State): (s': State)
    ensures s'.conns == s.conns
  {
    if !s.udp.Registering? || T.UdpLoop in s.trust.ops then s
    else s.(udp := Idle, answers := s.answers + [Deferred(s.udp.addr)])
  }

  function OnUdpOpen(s: State, created: bool): (s': State)
    ensures s'.conns == s.conns
  {
    if !s.udp.Opening? then s
    else
      var addr, h := s.udp.addr, s.udp.handshake;
      var s' := WithSession(s, h, created).(udp := Idle);
      if Admits(s.sessions, h, created) then
        s'.(peers := s.peers[addr := KeyOf(h)], answers := s.answers + [Welcomed(addr, h)])
      else s'.(answers := s.answers + [TurnedAway(addr)])
  }

  /** The message the handler is about to read, if there is one and it can be read. */
  function Head(c: Codec<Message>, conn: C.Conn): Option<Message> {
    if |conn.up| == 0 then None else C.Received(c, conn.up[0])
  }

  ghost function OnFrame(c: Codec<Message>, s: State, i: nat): State
    requires i in s.conns
  {
    var conn := s.conns[i];
    var m := Head(c, conn);
    if conn.core.handler.Serving? then
      var key := KeyOf(conn.core.handler.handshake);
      var live := key in s.sessions;
      var s' := SetConn(s, i, C.Next(c, conn, C.HandlerReads(live)));
      if live && m.Some? then Serve(s', Iroh(i), key, m.value) else s'
    else
      var s' := SetConn(s, i, C.Next(c, conn, C.HandlerReads(true)));
      var handler := s'.conns[i].core.handler;
      if conn.core.handler.Listening? && handler.Checking? then BeginCheck(s', T.Handler(i), handler.handshake)
      else s'
  }

  ghost function OnHandlerDecide(c: Codec<Message>, s: State, i: nat, stamp: Str): State
    requires i in s.conns
  {
    var handler := s.conns[i].core.handler;
    if !handler.Checking? || !CanDecide(s, T.Handler(i), handler.handshake) then s
    else
      var h := handler.handshake;
      SetConn(Decided(s, T.Handler(i), Iroh(i), h, PendingRecord(h, IrohP2P, stamp)), i,
              C.Next(c, s.conns[i], C.Decide(IsApprovedNow(s, h))))
  }

  function OnHandlerAnswerPending(c: Codec<Message>, s: State, i: nat, hostname: Str, text: Str): State
    requires i in s.conns
  {
    if T.Handler(i) in s.trust.ops then s
    else SetConn(s, i, C.Next(c, s.conns[i], C.AnswerPending(hostname, text)))
  }

  function OnHandlerOpen(c: Codec<Message>, s: State, i: nat, created: bool, hostname: Str, text: Str): State
    requires i in s.conns
  {
    var handler := s.conns[i].core.handler;
    if !handler.Opening? then s
    else
      var h := handler.handshake;
      SetConn(WithSession(s, h, created), i,
              C.Next(c, s.conns[i], C.Open(Admits(s.sessions, h, created), hostname, text)))
  }

  predicate ClientOnly(a: C.Action) {
    C.ClientActs(a) || a.ClientReads?
  }

  ghost function Next(c: Codec<Message>, s: State, a: Step): State {
    match a
    case Tick(elapsed) => s.(now := s.now + elapsed)
    case Store(step) => if T.StoreOnly(s.trust, step) then s.(trust := T.Next(s.trust, step)) else s
    case Datagram(addr, m) => OnDatagram(s, addr, m)
    case UdpDecide(stamp) => OnUdpDecide(s, stamp)
    case UdpAnswerPending => OnUdpAnswerPending(s)
    case UdpOpen(created) => OnUdpOpen(s, created)
    case Connect(i) => if i in s.conns then s else SetConn(s, i, C.START)
    case ClientStep(i, action) =>
      if i in s.conns && ClientOnly(action) then SetConn(s, i, C.Next(c, s.conns[i], action)) else s
    case Frame(i) => if i in s.conns then OnFrame(c, s, i) else s
    case HandlerDecide(i, stamp) => if i in s.conns then OnHandlerDecide(c, s, i, stamp) else s
    case HandlerAnswerPending(i, hostname, text) =>
      if i in s.conns then OnHandlerAnswerPending(c, s, i, hostname, text) else s
    case HandlerOpen(i, created, hostname, text) =>
      if i in s.conns then OnHandlerOpen(c, s, i, created, hostname, text) else s
    case LoseHandler(i) =>
      if i in s.conns then SetConn(s, i, C.Next(c, s.conns[i], C.LoseHandler)) else s
    case ReaperPass => s.(sessions := Reap(s.sessions, s.now))
  }

  ghost function Run(c: Codec<Message>, s: State, steps: seq<Step>): State {
    if |steps| == 0 then s else Next(c, Run(c, s, steps[..|steps| - 1]), steps[|steps| - 1])
  }

  /** A server that has just started, on whatever file is there, whether or not it could read it. */
  function Init(disk: Option<TrustData>, readable: bool): State {
    State(0, T.State(disk, map[SERVER := Reloaded(ReadFrom(disk, readable), EMPTY)], map[], []), map[], Idle, map[], map[], [], [], [], [])
  }
}
