/** One Iroh client (src/client.rs) and the server's handler for it (src/server.rs), joined by
    a stream in each direction. What depends on the rest of the system - whether the client is
    approved, whether the session is still there, whether a device can be created, when timers
    fire and connections break - is chosen freely by the actions. */
module Connection {
  import opened Wire
  import opened Postcard
  import opened Framing
  import opened Protocol

  datatype ClientExit =
    | ExpectedPong              // "Expected Pong while waiting for controller"
    | ExpectedAck               // "Expected HandshakeAck from server"
    | Unauthorised
    | Refused
    | ClientLost                // keepalive timeout, device failure, unreadable frame, broken connection

  datatype Client =
    | Waiting                   // for a controller
    | AwaitPong
    | AwaitAck
    | Streaming(controller: bool)
    | Stopped(why: ClientExit)

  datatype HandlerExit =
    | ExpectedHandshake         // "Expected Handshake message"
    | Unapproved
    | DeviceFailed
    | SessionGone
    | HandlerLost               // unreadable frame, broken connection

  datatype Handler =
    | Listening
    | Checking(handshake: Handshake)
    | Registering(handshake: Handshake)
    | Opening(handshake: Handshake)
    | Serving(handshake: Handshake)
    | Closed(why: HandlerExit)

  /** The two ends; `sent`, `emitted` and `warnings` are ghost records: the events the client
      wrote, the batches the handler passed to the device, and the client's warnings about
      unexpected messages. */
  datatype Core = Core(client: Client, handler: Handler, sent: seq<Event>,
                       emitted: seq<Vec<Event>>, warnings: nat)

  datatype Action =
    | Keepalive
    | OpenDevice(handshake: Handshake)
    | Forward(event: Event)
    | ControllerLost
    | ControllerBack
    | LoseClient
    | ClientReads
    | HandlerReads(live: bool)
    | Decide(approved: bool)
    | AnswerPending(hostname: Str, text: Str)
    | Open(created: bool, hostname: Str, text: Str)
    | LoseHandler
    | ArriveUp(n: nat)
    | ArriveDown(n: nat)

  /** The ends after an action and what they wrote: `up` to the server, `down` to the client. */
  datatype Effect = Effect(core: Core, up: seq<Message>, down: seq<Message>)

  /** Actions other than reading a frame. */
  function Act(c: Core, a: Action): Effect {
    match a
    case Keepalive =>
      if c.client.Waiting? then Effect(c.(client := AwaitPong), [Ping], [])
      else if c.client.Streaming? then Effect(c, [Ping], [])
      else Effect(c, [], [])
    case OpenDevice(h) =>
      if c.client.Waiting? then Effect(c.(client := AwaitAck), [Hello(h)], []) else Effect(c, [], [])
    case Forward(e) =>
      if c.client == Streaming(true) then Effect(c.(sent := c.sent + [e]), [EventMessage(e)], [])
      else Effect(c, [], [])
    case ControllerLost =>
      Effect(if c.client.Streaming? then c.(client := Streaming(false)) else c, [], [])
    case ControllerBack =>
      Effect(if c.client.Streaming? then c.(client := Streaming(true)) else c, [], [])
    case LoseClient =>
      Effect(if c.client.Stopped? then c else c.(client := Stopped(ClientLost)), [], [])
    case Decide(approved) =>
      if !c.handler.Checking? then Effect(c, [], [])
      else if approved then Effect(c.(handler := Opening(c.handler.handshake)), [], [])
      else Effect(c.(handler := Registering(c.handler.handshake)), [], [])
    case AnswerPending(hostname, text) =>
      if c.handler.Registering? then
        Effect(c.(handler := Closed(Unapproved)), [], [Ack(PendingApproval, hostname, text)])
      else Effect(c, [], [])
    case Open(created, hostname, text) =>
      if !c.handler.Opening? then Effect(c, [], [])
      else if created then
        Effect(c.(handler := Serving(c.handler.handshake)), [], [Ack(Approved, hostname, text)])
      else Effect(c.(handler := Closed(DeviceFailed)), [], [Ack(Rejected, hostname, text)])
    case LoseHandler =>
      Effect(if c.handler.Closed? then c else c.(handler := Closed(HandlerLost)), [], [])
    case _ => Effect(c, [], [])
  }

  predicate ClientIsReading(c: Core) {
    c.client.AwaitPong? || c.client.AwaitAck? || c.client.Streaming?
  }

  predicate HandlerIsReading(c: Core) {
    c.handler.Listening? || c.handler.Serving?
  }

  /** The client's reaction to a frame; None is a frame that could not be read. */
  function ClientGets(c: Core, m: Option<Message>): Core {
    if m.None? then c.(client := Stopped(ClientLost))
    else if c.client.AwaitPong? then
      c.(client := if m.value.Pong? then Waiting else Stopped(ExpectedPong))
    else if c.client.AwaitAck? then
      if !m.value.Ack? then c.(client := Stopped(ExpectedAck))
      else
        c.(client := match m.value.status
                     case Approved => Streaming(true)
                     case PendingApproval => Stopped(Unauthorised)
                     case Rejected => Stopped(Refused))
    else if m.value.Pong? then c
    else c.(warnings := c.warnings + 1)
  }

  /** The handler's reaction to a frame; `live` says whether its session is still there. */
  function HandlerGets(c: Core, m: Option<Message>, live: bool): Effect {
    if m.None? then Effect(c.(handler := Closed(HandlerLost)), [], [])
    else if c.handler.Listening? then
      match m.value
      case Hello(h) => Effect(c.(handler := Checking(h)), [], [])
      case Ping => Effect(c, [], [Pong])
      case _ => Effect(c.(handler := Closed(ExpectedHandshake)), [], [])
    else
      match m.value
      case Events(es) =>
        if live then Effect(c.(emitted := c.emitted + [es]), [], [])
        else Effect(c.(handler := Closed(SessionGone)), [], [])
      case Ping =>
        if live then Effect(c, [], [Pong])
        else Effect(c.(handler := Closed(SessionGone)), [], [])
      case _ => Effect(c, [], [])
  }

  // ---- Whole messages in order -------------------------------------------------------

  /** The connection with each stream seen as the messages not yet read. */
  datatype Conn = Conn(core: Core, up: seq<Message>, down: seq<Message>)

  const FRESH: Core := Core(Waiting, Listening, [], [], 0)

  const START: Conn := Conn(FRESH, [], [])

  /** A message whose encoding is over the limit cannot be read. */
  function Received(c: Codec<Message>, m: Message): Option<Message> {
    if Fits(c, m) then Some(m) else None
  }

  function Next(c: Codec<Message>, s: Conn, a: Action): Conn {
    match a
    case ClientReads =>
      if !ClientIsReading(s.core) || |s.down| == 0 then s
      else Conn(ClientGets(s.core, Received(c, s.down[0])), s.up, s.down[1..])
    case HandlerReads(live) =>
      if !HandlerIsReading(s.core) || |s.up| == 0 then s
      else
        var e := HandlerGets(s.core, Received(c, s.up[0]), live);
        Conn(e.core, s.up[1..] + e.up, s.down + e.down)
    case _ =>
      var e := Act(s.core, a);
      Conn(e.core, s.up + e.up, s.down + e.down)
  }

  function Run(c: Codec<Message>, acts: seq<Action>): Conn {
    if |acts| == 0 then START else Next(c, Run(c, acts[..|acts| - 1]), acts[|acts| - 1])
  }

  // ---- What every run keeps ----------------------------------------------------------

  /** What a client streams: keepalives and single events. */
  predicate Streamed(m: Message) {
    m.Ping? || (m.Events? && |m.events| == 1)
  }

  predicate AllStreamed(ms: seq<Message>) {
    forall m | m in ms :: Streamed(m)
  }

  predicate AllPongs(ms: seq<Message>) {
    forall m | m in ms :: m.Pong?
  }

  predicate OneHello(ms: seq<Message>) {
    |ms| == 1 && ms[0].Hello?
  }

  predicate OneAck(ms: seq<Message>) {
    |ms| == 1 && ms[0].Ack?
  }

  predicate Deciding(h: Handler) {
    h.Checking? || h.Registering? || h.Opening?
  }

  /** What may be waiting for the handler. */
  predicate HandlerShape(s: Conn) {
    var h := s.core.handler;
    && (h.Listening? ==> s.up == [] || s.up == [Ping] || OneHello(s.up))
    && (Deciding(h) ==> s.up == [])
    && (h.Serving? ==> AllStreamed(s.up))
    && h != Closed(ExpectedHandshake)
  }

  /** What may be on the streams, by what the client is doing. */
  predicate ClientShape(s: Conn) {
    var h := s.core.handler;
    match s.core.client
    case Waiting =>
      s.down == [] && (h.Closed? || (h.Listening? && s.up == []))
    case AwaitPong =>
      || (h.Listening? && s.up == [Ping] && s.down == [])
      || (h.Listening? && s.up == [] && s.down == [Pong])
      || (h.Closed? && (s.down == [] || s.down == [Pong]))
    case AwaitAck =>
      || (h.Listening? && OneHello(s.up) && s.down == [])
      || (Deciding(h) && s.up == [] && s.down == [])
      || (h.Serving? && s.up == [] && OneAck(s.down) && s.down[0].status.Approved?)
      || (h.Closed? && (s.down == [] || OneAck(s.down)))
    case Streaming(_) =>
      (h.Serving? || h.Closed?) && AllPongs(s.down)
    case Stopped(why) =>
      why != ExpectedPong && why != ExpectedAck
  }

  predicate Reads(a: Action) {
    a.ClientReads? || a.HandlerReads?
  }

  predicate Shape(s: Conn) {
    HandlerShape(s) && ClientShape(s) && s.core.warnings == 0
  }

  function Flatten(batches: seq<Vec<Event>>): seq<Event> {
    if |batches| == 0 then [] else Flatten(batches[..|batches| - 1]) + batches[|batches| - 1]
  }

  function Carried(m: Message): seq<Event> {
    if m.Events? then m.events else []
  }

  function EventsIn(ms: seq<Message>): seq<Event> {
    if |ms| == 0 then [] else Carried(ms[0]) + EventsIn(ms[1..])
  }

  /** Until the handler closes, what it emitted and what is still on the stream are exactly the
      events sent; after that, what it emitted is how they began. */
  predicate Conserved(s: Conn) {
    if s.core.handler.Closed? then Flatten(s.core.emitted) <= s.core.sent
    else Flatten(s.core.emitted) + EventsIn(s.up) == s.core.sent
  }

  predicate Inv(s: Conn) {
    Shape(s) && Conserved(s)
  }

  lemma EventsInCons(m: Message, ms: seq<Message>)
    ensures EventsIn([m] + ms) == Carried(m) + EventsIn(ms)
  {
    hide Carried;
    assert ([m] + ms)[1..] == ms;
  }

  lemma {:induction false} EventsInConcat(a: seq<Message>, b: seq<Message>)
    ensures EventsIn(a + b) == EventsIn(a) + EventsIn(b)
  {
    hide Carried, EventsIn;
    if |a| == 0 {
      assert a + b == b && a == [];
      assert EventsIn([]) == [] by { NoEvents(); }
    } else {
      var m, rest := a[0], a[1..];
      EventsInConcat(rest, b);
      EventsInCons(m, rest);
      EventsInCons(m, rest + b);
      assert a == [m] + rest && a + b == [m] + (rest + b);
    }
  }

  lemma NoEvents()
    ensures EventsIn([]) == []
  {
  }

  predicate ClientActs(a: Action) {
    a.Keepalive? || a.OpenDevice? || a.Forward? || a.ControllerLost? || a.ControllerBack? || a.LoseClient?
  }

  lemma ClientActKeepsShape(c: Codec<Message>, s: Conn, a: Action)
    requires Shape(s) && ClientActs(a)
    ensures Shape(Next(c, s, a))
  {
    hide Next, HandlerShape, ClientShape;
    ClientActKeepsHandlerShape(c, s, a);
    ClientActKeepsClientShape(c, s, a);
  }

  lemma ClientActKeepsHandlerShape(c: Codec<Message>, s: Conn, a: Action)
    requires Shape(s) && ClientActs(a)
    ensures HandlerShape(Next(c, s, a)) && Next(c, s, a).core.warnings == 0
  {
  }

  lemma ClientActKeepsClientShape(c: Codec<Message>, s: Conn, a: Action)
    requires Shape(s) && ClientActs(a)
    ensures ClientShape(Next(c, s, a))
  {
    hide Next, Shape, ClientShape;
    match a
    case Keepalive => KeepaliveKeepsShape(c, s);
    case OpenDevice(h) => OpenDeviceKeepsShape(c, s, h);
    case Forward(e) => ForwardKeepsShape(c, s, e);
    case _ => SilentActKeepsShape(c, s, a);
  }

  lemma KeepaliveKeepsShape(c: Codec<Message>, s: Conn)
    requires Shape(s)
    ensures ClientShape(Next(c, s, Keepalive))
  {
  }

  lemma OpenDeviceKeepsShape(c: Codec<Message>, s: Conn, h: Handshake)
    requires Shape(s)
    ensures ClientShape(Next(c, s, OpenDevice(h)))
  {
  }

  lemma ForwardKeepsShape(c: Codec<Message>, s: Conn, e: Event)
    requires Shape(s)
    ensures ClientShape(Next(c, s, Forward(e)))
  {
  }

  lemma SilentActKeepsShape(c: Codec<Message>, s: Conn, a: Action)
    requires Shape(s) && (a.ControllerLost? || a.ControllerBack? || a.LoseClient?)
    ensures ClientShape(Next(c, s, a))
  {
  }

  lemma HandlerActKeepsShape(c: Codec<Message>, s: Conn, a: Action)
    requires Shape(s) && !ClientActs(a) && !Reads(a)
    ensures Shape(Next(c, s, a))
  {
    hide Next, HandlerShape, ClientShape;
    HandlerActKeepsHandlerShape(c, s, a);
    HandlerActKeepsClientShape(c, s, a);
  }

  lemma HandlerActKeepsHandlerShape(c: Codec<Message>, s: Conn, a: Action)
    requires Shape(s) && !ClientActs(a) && !Reads(a)
    ensures HandlerShape(Next(c, s, a)) && Next(c, s, a).core.warnings == 0
  {
    hide ClientShape;
  }

  lemma HandlerActKeepsClientShape(c: Codec<Message>, s: Conn, a: Action)
    requires Shape(s) && !ClientActs(a) && !Reads(a)
    ensures ClientShape(Next(c, s, a))
  {
    hide Next, Shape, ClientShape;
    match a
    case AnswerPending(_, _) => AnswerKeepsShape(c, s, a);
    case Open(_, _, _) => AnswerKeepsShape(c, s, a);
    case _ => WordlessActKeepsShape(c, s, a);
  }

  lemma AnswerKeepsShape(c: Codec<Message>, s: Conn, a: Action)
    requires Shape(s) && (a.AnswerPending? || a.Open?)
    ensures ClientShape(Next(c, s, a))
  {
  }

  lemma WordlessActKeepsShape(c: Codec<Message>, s: Conn, a: Action)
    requires Shape(s) && (a.Decide? || a.LoseHandler? || a.ArriveUp? || a.ArriveDown?)
    ensures ClientShape(Next(c, s, a))
  {
  }

  lemma ClientReadKeepsShape(c: Codec<Message>, s: Conn)
    requires Shape(s)
    ensures Shape(Next(c, s, ClientReads))
  {
    hide Fits;
  }

  lemma HandlerReadKeepsShape(c: Codec<Message>, s: Conn, live: bool)
    requires Shape(s)
    ensures Shape(Next(c, s, HandlerReads(live)))
  {
    hide Fits;
  }

  /** An action writes the events it adds to the record of what was sent, and emits nothing. */
  lemma ActFacts(core: Core, a: Action)
    ensures var e := Act(core, a);
            && e.core.emitted == core.emitted
            && e.core.sent == core.sent + EventsIn(e.up)
            && (core.handler.Closed? ==> e.core.handler.Closed?)
  {
    if a.Forward? {
      assert EventsIn([EventMessage(a.event)]) == [a.event];
    }
  }

  lemma ActKeepsConserved(c: Codec<Message>, s: Conn, a: Action)
    requires Conserved(s) && !Reads(a)
    ensures Conserved(Next(c, s, a))
  {
    hide Flatten, EventsIn, Act;
    var e := Act(s.core, a);
    ActFacts(s.core, a);
    EventsInConcat(s.up, e.up);
    var f := Flatten(s.core.emitted);
    assert f + (EventsIn(s.up) + EventsIn(e.up)) == (f + EventsIn(s.up)) + EventsIn(e.up);
  }

  /** A handler that goes on has emitted exactly the events the message carried. */
  lemma HandlerGetsFacts(core: Core, m: Option<Message>, live: bool)
    requires HandlerIsReading(core)
    ensures var e := HandlerGets(core, m, live);
            && e.up == [] && e.core.sent == core.sent
            && (e.core.handler.Closed? ==> e.core.emitted == core.emitted)
            && (!e.core.handler.Closed? ==> m.Some? && Flatten(e.core.emitted) == Flatten(core.emitted) + Carried(m.value))
  {
    var e := HandlerGets(core, m, live);
    if e.core.emitted != core.emitted {
      assert e.core.emitted[..|e.core.emitted| - 1] == core.emitted;
    }
  }

  lemma HandlerReadKeepsConserved(c: Codec<Message>, s: Conn, live: bool)
    requires Conserved(s)
    ensures Conserved(Next(c, s, HandlerReads(live)))
  {
    hide Fits, HandlerGets, Flatten, Carried;
    if HandlerIsReading(s.core) && |s.up| > 0 {
      HandlerGetsFacts(s.core, Received(c, s.up[0]), live);
      var f, rest := Flatten(s.core.emitted), EventsIn(s.up[1..]);
      assert f + (Carried(s.up[0]) + rest) == (f + Carried(s.up[0])) + rest;
      assert s.up[1..] + [] == s.up[1..];
    }
  }

  lemma NextKeepsInv(c: Codec<Message>, s: Conn, a: Action)
    requires Inv(s)
    ensures Inv(Next(c, s, a))
  {
    hide HandlerShape, ClientShape;
    match a
    case ClientReads => ClientReadKeepsShape(c, s);
    case HandlerReads(live) => HandlerReadKeepsShape(c, s, live); HandlerReadKeepsConserved(c, s, live);
    case _ =>
      if ClientActs(a) { ClientActKeepsShape(c, s, a); } else { HandlerActKeepsShape(c, s, a); }
      ActKeepsConserved(c, s, a);
  }

  lemma {:induction false} RunKeepsInv(c: Codec<Message>, acts: seq<Action>)
    ensures Inv(Run(c, acts))
  {
    if |acts| > 0 {
      var s := Run(c, acts[..|acts| - 1]);
      RunKeepsInv(c, acts[..|acts| - 1]);
      NextKeepsInv(c, s, acts[|acts| - 1]);
    }
  }

  /** Neither end ever meets a message it did not expect. */
  lemma NoUnexpectedMessage(c: Codec<Message>, acts: seq<Action>)
    ensures var core := Run(c, acts).core;
            && core.client != Stopped(ExpectedPong) && core.client != Stopped(ExpectedAck)
            && core.handler != Closed(ExpectedHandshake) && core.warnings == 0
  {
    RunKeepsInv(c, acts);
  }
}
