/** The handler of `Handler.HandleIrohClient` and the machine of `System` agree: the steps in which
    the handler of a connection reads what is on its stream, checks, registers or opens, and
    serves, at whatever times, with nothing in between, do to the tables, the trust data, the
    file and the answers what the method does. */
module HandlerSteps {
  import opened Wire
  import opened Postcard
  import opened Framing
  import opened Trust
  import opened Sessions
  import opened System
  import opened SystemProgress
  import opened ServerSteps
  import S = Server
  import H = Handler
  import T = TrustSystem
  import C = Connection

  function Readings(i: nat, n: nat): seq<Step> {
    if n == 0 then [] else [Step.Frame(i)] + Readings(i, n - 1)
  }

  // ---- The main loop -----------------------------------------------------------------

  /** The clock does not go back: the messages from the k-th on come no earlier than now. */
  ghost predicate Ascending(now: nat, times: nat -> nat, k: nat) {
    now <= times(k) && forall a, b | k <= a <= b :: times(a) <= times(b)
  }

  /** Each message is read at its own time. */
  function TimedReadings(i: nat, n: nat, now: nat, times: nat -> nat, k: nat): seq<Step> {
    if n == 0 then []
    else [Tick(if now <= times(k) then times(k) - now else 0), Step.Frame(i)] + TimedReadings(i, n - 1, times(k), times, k + 1)
  }

  /** The handler serves a live session, and these messages are on its stream. */
  predicate Serves(s: State, i: nat, h: Handshake, ms: seq<Message>) {
    && i in s.conns && s.conns[i].core.handler == C.Serving(h) && KeyOf(h) in s.sessions
    && s.conns[i].up == ms
  }

  /** What reading one message does. */
  ghost predicate ReadOne(s: State, u: State, i: nat, h: Handshake, m: Message, now: nat)
    requires i in s.conns && KeyOf(h) in s.sessions
  {
    var key := KeyOf(h);
    && i in u.conns && key in u.sessions && u.now == now
    && u.sessions[key].device == s.sessions[key].device
    && u == s.(now := now, sessions := u.sessions, emitted := u.emitted, conns := u.conns)
    && u.sessions == H.WithActivity(s.sessions, key, if m.Events? || m.Ping? then now else s.sessions[key].lastActive)
    && u.emitted == s.emitted + (if m.Events? then [Emission(Iroh(i), key, s.sessions[key].device.serial, m.events)] else [])
    && u.conns[i].down == s.conns[i].down + (if m.Ping? then [Pong] else [])
  }

  lemma OneReading(c: Codec<Message>, s: State, i: nat, h: Handshake, ms: seq<Message>, elapsed: nat)
    requires Serves(s, i, h, ms) && |ms| > 0 && Fits(c, ms[0])
    ensures var t := Next(c, Next(c, s, Tick(elapsed)), Step.Frame(i));
            Serves(t, i, h, ms[1..]) && ReadOne(s, t, i, h, ms[0], s.now + elapsed) && t.now == s.now + elapsed
  {
    hide KeyOf, Fits, OnDatagram, OnUdpDecide, OnUdpOpen, OnHandlerDecide, OnHandlerOpen;
    assert Head(c, s.conns[i]) == Some(ms[0]);
    assert ms[1..] + [] == ms[1..];
    var key := KeyOf(h);
    assert s.sessions[key := s.sessions[key].(lastActive := s.sessions[key].lastActive)] == s.sessions;
  }

  lemma FirstThen(c: Codec<Message>, s: State, a: Step, rest: seq<Step>)
    ensures Run(c, s, [a] + rest) == Run(c, Next(c, s, a), rest)
  {
    hide Next;
    RunOfConcat(c, s, [a], rest);
    RunOne(c, s, a);
  }

  lemma FirstTwo(c: Codec<Message>, s: State, a: Step, b: Step, rest: seq<Step>)
    ensures Run(c, s, [a, b] + rest) == Run(c, Next(c, Next(c, s, a), b), rest)
  {
    hide Next;
    RunOfConcat(c, s, [a, b], rest);
    RunTwo(c, s, a, b);
  }

  lemma PongsGrow(n: nat)
    ensures H.Pongs(n) + [] == H.Pongs(n) && [Pong] + H.Pongs(n) == H.Pongs(n + 1)
  {
  }

  lemma EmissionsGrow(source: Source, key: Key, serial: nat, es: Vec<Event>, rest: seq<Vec<Event>>)
    ensures H.Emissions(source, key, serial, [es] + rest)
            == [Emission(source, key, serial, es)] + H.Emissions(source, key, serial, rest)
  {
    assert ([es] + rest)[1..] == rest;
  }

  /** What the loop makes of the stream: the session was last active when it says, the log has grown
      by the batches it emits, and every ping is answered. */
  ghost predicate ServedAs(s: State, t: State, i: nat, h: Handshake, ms: seq<Message>, times: nat -> nat, k: nat)
    requires i in s.conns && KeyOf(h) in s.sessions
  {
    var key := KeyOf(h);
    && Serves(t, i, h, [])
    && t == s.(now := t.now, sessions := t.sessions, emitted := t.emitted, conns := t.conns)
    && t.sessions == H.WithActivity(s.sessions, key, H.LastActive(s.sessions[key].lastActive, ms, times, k))
    && t.emitted == s.emitted + H.Emissions(Iroh(i), key, s.sessions[key].device.serial, H.Batches(ms))
    && t.conns[i].down == s.conns[i].down + H.Pongs(H.PingCount(ms))
  }

  lemma NothingServed(s: State, i: nat, h: Handshake, times: nat -> nat, k: nat)
    requires Serves(s, i, h, [])
    ensures ServedAs(s, s, i, h, [], times, k)
  {
    var key := KeyOf(h);
    hide KeyOf;
    assert s.sessions[key := s.sessions[key].(lastActive := s.sessions[key].lastActive)] == s.sessions;
  }

  lemma OneMoreServed(s: State, u: State, t: State, i: nat, h: Handshake, ms: seq<Message>, times: nat -> nat, k: nat)
    requires i in s.conns && KeyOf(h) in s.sessions && |ms| > 0 && ReadOne(s, u, i, h, ms[0], times(k))
    requires ServedAs(u, t, i, h, ms[1..], times, k + 1)
    ensures ServedAs(s, t, i, h, ms, times, k)
  {
    hide KeyOf, H.Pongs, H.Emissions, H.Batches, H.PingCount, H.LastActive;
    var key, serial := KeyOf(h), s.sessions[KeyOf(h)].device.serial;
    var n, batches := H.PingCount(ms[1..]), H.Batches(ms[1..]);
    H.StreamStep(ms, s.sessions[key].lastActive, times, k);
    PongsGrow(n);
    Regroup(s.conns[i].down, if ms[0].Ping? then [Pong] else [], H.Pongs(n));
    Regroup(s.emitted, if ms[0].Events? then [Emission(Iroh(i), key, serial, ms[0].events)] else [],
            H.Emissions(Iroh(i), key, serial, batches));
    if ms[0].Events? { EmissionsGrow(Iroh(i), key, serial, ms[0].events, batches); }
    assert [] + batches == batches && [] + H.Pongs(n) == H.Pongs(n);
    assert [] + H.Emissions(Iroh(i), key, serial, batches) == H.Emissions(Iroh(i), key, serial, batches);
    ActivityTwice(s.sessions, key, u.sessions[key].lastActive, H.LastActive(u.sessions[key].lastActive, ms[1..], times, k + 1));
  }

  /** The whole stream, each message at its time: as many readings as there are messages do what the
      loop does. */
  lemma {:induction false} ServingAgrees(c: Codec<Message>, s: State, i: nat, h: Handshake, ms: seq<Message>,
                                         times: nat -> nat, k: nat)
    requires Serves(s, i, h, ms) && forall m | m in ms :: Fits(c, m)
    requires Ascending(s.now, times, k)
    ensures ServedAs(s, Run(c, s, TimedReadings(i, |ms|, s.now, times, k)), i, h, ms, times, k)
    decreases |ms|
  {
    hide Next, KeyOf, Fits, ServedAs, ReadOne;
    if |ms| == 0 {
      assert ms == [];
      NothingServed(s, i, h, times, k);
    } else {
      var elapsed := times(k) - s.now;
      var u := Next(c, Next(c, s, Tick(elapsed)), Step.Frame(i));
      assert ms[0] in ms;
      OneReading(c, s, i, h, ms, elapsed);
      FirstTwo(c, s, Tick(elapsed), Step.Frame(i), TimedReadings(i, |ms| - 1, times(k), times, k + 1));
      assert forall m | m in ms[1..] :: m in ms;
      assert times(k) <= times(k + 1);
      ServingAgrees(c, u, i, h, ms[1..], times, k + 1);
      OneMoreServed(s, u, Run(c, u, TimedReadings(i, |ms| - 1, times(k), times, k + 1)), i, h, ms, times, k);
    }
  }

  lemma Regroup<T>(a: seq<T>, b: seq<T>, c: seq<T>)
    ensures (a + b) + c == a + (b + c)
  {
  }

  lemma NoPongs()
    ensures H.Pongs(0) == []
  {
  }

  lemma ActivityTwice(t: Table, key: Key, a: nat, b: nat)
    requires key in t
    ensures H.WithActivity(H.WithActivity(t, key, a), key, b) == H.WithActivity(t, key, b)
  {
  }

  // ---- The handshake -----------------------------------------------------------------

  /** The handler waits for a handshake, these messages are on its stream, and nobody is about to
      write the trust file. */
  ghost predicate Awaits(s: State, i: nat, ms: seq<Message>) {
    && i in s.conns && s.conns[i].core.handler.Listening? && s.conns[i].up == ms
    && T.Handler(i) !in s.trust.ops && SERVER in s.trust.memory && T.NobodySaves(s.trust)
  }

  /** The handler goes on to something else, with this left to read, having written that. */
  function Moved(s: State, i: nat, handler: C.Handler, up: seq<Message>, written: seq<Message>): State
    requires i in s.conns
  {
    var conn := s.conns[i];
    SetConn(s, i, C.Conn(conn.core.(handler := handler), up, conn.down + written))
  }

  lemma MovedTwice(s: State, i: nat, a: C.Handler, b: C.Handler, up: seq<Message>, up': seq<Message>, w: seq<Message>, w': seq<Message>)
    requires i in s.conns
    ensures Moved(Moved(s, i, a, up, w), i, b, up', w') == Moved(s, i, b, up', w + w')
  {
    var u := Moved(s, i, a, up, w);
    assert (s.conns[i].down + w) + w' == s.conns[i].down + (w + w');
    assert s.conns[i := u.conns[i]][i := Moved(s, i, b, up', w + w').conns[i]] == s.conns[i := Moved(s, i, b, up', w + w').conns[i]];
  }

  /** What the handler reads while it waits. */
  lemma WaitingReads(c: Codec<Message>, s: State, i: nat, ms: seq<Message>)
    requires Awaits(s, i, ms) && |ms| > 0 && Fits(c, ms[0])
    ensures var t := Next(c, s, Step.Frame(i));
            match ms[0]
            case Ping => t == Moved(s, i, C.Listening, ms[1..], [Pong])
            case Hello(h) =>
              t == Moved(s, i, C.Checking(h), ms[1..], []).(
                     trust := T.Next(s.trust, T.Begin(T.Handler(i), SERVER, IsApproved(h.clientId))))
            case _ => t == Moved(s, i, C.Closed(C.ExpectedHandshake), ms[1..], [])
  {
    hide Fits, T.Next, OnDatagram, OnUdpDecide, OnUdpOpen, OnHandlerDecide, OnHandlerOpen, T.NobodySaves;
    assert ms[1..] + [] == ms[1..] && s.conns[i].down + [] == s.conns[i].down;
  }

  lemma {:induction false} PingsAreAnswered(c: Codec<Message>, s: State, i: nat, ms: seq<Message>)
    requires Awaits(s, i, ms) && forall m | m in ms :: Fits(c, m)
    ensures var rest := H.AfterPings(ms);
            Run(c, s, Readings(i, |ms| - |rest|)) == Moved(s, i, C.Listening, rest, H.Pongs(|ms| - |rest|))
    decreases |ms|
  {
    hide Next, Fits, H.Pongs, Moved;
    NoPongs();
    if |ms| > 0 && ms[0].Ping? {
      assert ms[0] in ms && forall m | m in ms[1..] :: m in ms;
      WaitingReads(c, s, i, ms);
      MovedAwaits(s, i, ms[1..], [Pong]);
      var u, n := Next(c, s, Step.Frame(i)), |ms| - 1 - |H.AfterPings(ms[1..])|;
      PingsAreAnswered(c, u, i, ms[1..]);
      FirstThen(c, s, Step.Frame(i), Readings(i, n));
      MovedTwice(s, i, C.Listening, C.Listening, ms[1..], H.AfterPings(ms), [Pong], H.Pongs(n));
      PongsGrow(n);
    } else {
      SameMoved(s, i, ms);
    }
  }

  lemma MovedAwaits(s: State, i: nat, up: seq<Message>, written: seq<Message>)
    requires i in s.conns && Awaits(s, i, s.conns[i].up)
    ensures Awaits(Moved(s, i, C.Listening, up, written), i, up)
  {
    hide T.NobodySaves;
  }

  lemma SameMoved(s: State, i: nat, ms: seq<Message>)
    requires Awaits(s, i, ms)
    ensures Moved(s, i, C.Listening, ms, []) == s
  {
    hide T.NobodySaves;
    assert s.conns[i].down + [] == s.conns[i].down;
    assert s.conns[i := s.conns[i]] == s.conns;
  }

  /** The trust store when the handler has reloaded and is about to ask. */
  function Asking(s: State, i: nat, h: Handshake, readable: bool): T.State
    requires SERVER in s.trust.memory
  {
    Refreshed(s, readable).(ops := s.trust.ops[T.Handler(i) := T.Op(SERVER, IsApproved(h.clientId), T.Ready)])
  }

  lemma HandlerLoads(c: Codec<Message>, s: State, u: State, i: nat, h: Handshake, at: S.Surroundings)
    requires T.Handler(i) !in s.trust.ops && SERVER in s.trust.memory && T.NobodySaves(s.trust)
    requires u.trust == T.Next(s.trust, T.Begin(T.Handler(i), SERVER, IsApproved(h.clientId)))
    ensures Run(c, u, Loading(T.Handler(i), at)) == u.(trust := Asking(s, i, h, at.readable))
  {
    hide Next, T.Next, Run, T.NobodySaves;
    StoreTwo(c, u, T.ReadFile(T.Handler(i), at.readable), T.Install(T.Handler(i)));
    T.UndisturbedReload(s.trust, T.Call(T.Handler(i), SERVER, IsApproved(h.clientId), h.clientId), at.readable);
  }

  lemma AskingCanDecide(s: State, u: State, i: nat, h: Handshake, readable: bool)
    requires T.Handler(i) !in s.trust.ops && SERVER in s.trust.memory && T.NobodySaves(s.trust)
    requires u.trust == Asking(s, i, h, readable)
    ensures CanDecide(u, T.Handler(i), h)
    ensures T.Next(u.trust, T.Execute(T.Handler(i), h.clientId)) == Refreshed(s, readable)
  {
    assert !T.Locked(u.trust, SERVER);
    assert u.trust.ops - {T.Handler(i)} == s.trust.ops;
  }

  lemma HandlerDecides(c: Codec<Message>, s: State, u: State, i: nat, h: Handshake, at: S.Surroundings)
    requires T.Handler(i) !in s.trust.ops && SERVER in s.trust.memory && T.NobodySaves(s.trust)
    requires u.trust == Asking(s, i, h, at.readable) && i in u.conns && u.conns[i].core.handler == C.Checking(h)
    ensures var t, info := Refreshed(s, at.readable), PendingRecord(h, IrohP2P, at.stamp);
            Next(c, u, HandlerDecide(i, at.stamp)) ==
            if h.clientId in Known(s, at.readable).approved
            then Moved(u, i, C.Opening(h), u.conns[i].up, []).(trust := t, passed := u.passed + [Passed(Iroh(i), h, |s.trust.deeds|)])
            else Moved(u, i, C.Registering(h), u.conns[i].up, []).(trust := T.Next(t, T.Begin(T.Handler(i), SERVER, Register(info))))
  {
    hide OnFrame, OnDatagram, OnUdpDecide, OnUdpOpen, OnHandlerOpen, CanDecide, T.Next, T.NobodySaves;
    AskingCanDecide(s, u, i, h, at.readable);
    assert u.conns[i].up + [] == u.conns[i].up;
  }

  lemma HandlerOpens(c: Codec<Message>, s: State, i: nat, h: Handshake, at: S.Surroundings)
    requires i in s.conns && s.conns[i].core.handler == C.Opening(h)
    ensures var admits := Admits(s.sessions, h, at.creatable);
            Next(c, s, HandlerOpen(i, at.creatable, at.hostname, at.text)) ==
            Moved(WithSession(s, h, at.creatable), i, if admits then C.Serving(h) else C.Closed(C.DeviceFailed), s.conns[i].up,
                  [Ack(if admits then Approved else Rejected, at.hostname, at.text)])
  {
    hide OnFrame, OnDatagram, OnUdpDecide, OnUdpOpen, OnHandlerDecide, OpenSession, KeyOf, NewDevice;
    assert s.conns[i].up + [] == s.conns[i].up;
  }

  lemma HandlerAnswersPending(c: Codec<Message>, s: State, i: nat, h: Handshake, at: S.Surroundings)
    requires i in s.conns && s.conns[i].core.handler == C.Registering(h) && T.Handler(i) !in s.trust.ops
    ensures Next(c, s, HandlerAnswerPending(i, at.hostname, at.text)) ==
            Moved(s, i, C.Closed(C.Unapproved), s.conns[i].up, [Ack(PendingApproval, at.hostname, at.text)])
  {
    hide OnFrame, OnDatagram, OnUdpDecide, OnUdpOpen, OnHandlerDecide, OnHandlerOpen;
    assert s.conns[i].up + [] == s.conns[i].up;
  }

  // ---- The whole handler -------------------------------------------------------------

  function UntilDecided(i: nat, pings: nat, at: S.Surroundings): seq<Step> {
    Readings(i, pings) + [Step.Frame(i)] + Loading(T.Handler(i), at) + [HandlerDecide(i, at.stamp)]
  }

  /** The steps of a handler for what is on its stream, with nothing in between. */
  function StepsForStream(s: State, i: nat, ms: seq<Message>, at: S.Surroundings, times: nat -> nat): seq<Step>
    requires SERVER in s.trust.memory
  {
    var rest := H.AfterPings(ms);
    var pings := |ms| - |rest|;
    match H.Greeted(ms)
    case None => Readings(i, pings) + if |rest| > 0 then [Step.Frame(i)] else []
    case Some(h) =>
      UntilDecided(i, pings, at)
      + if h.clientId !in Known(s, at.readable).approved
        then ServerSteps.Registering(T.Handler(i), h, at) + [HandlerAnswerPending(i, at.hostname, at.text)]
        else [HandlerOpen(i, at.creatable, at.hostname, at.text)]
             + if Admits(s.sessions, h, at.creatable) then TimedReadings(i, |rest| - 1, s.now, times, 0) else []
  }

  /** The machine after its steps, and what the method leaves and writes. */
  ghost predicate Matches(s: State, t: State, i: nat, r: H.Attended)
    requires i in s.conns
  {
    && SERVER in t.trust.memory && TablesOf(t) == r.tables
    && i in t.conns && t.conns[i].down == s.conns[i].down + r.answers
  }

  lemma UngreetedAgrees(c: Codec<Message>, s: State, i: nat, ms: seq<Message>, at: S.Surroundings, times: nat -> nat)
    requires Awaits(s, i, ms) && H.Greeted(ms).None? && forall m | m in ms :: Fits(c, m)
    ensures Matches(s, Run(c, s, StepsForStream(s, i, ms, at, times)), i, H.Attend(TablesOf(s), i, ms, at, times))
  {
    hide Next, Run, Readings, Fits, H.Pongs, T.NobodySaves;
    var rest := H.AfterPings(ms);
    var pings := |ms| - |rest|;
    PingsAreAnswered(c, s, i, ms);
    var u := Moved(s, i, C.Listening, rest, H.Pongs(pings));
    if |rest| == 0 {
      assert Readings(i, pings) + [] == Readings(i, pings);
    } else {
      RestIsOfStream(ms);
      MovedAwaits(s, i, rest, H.Pongs(pings));
      WaitingReads(c, u, i, rest);
      RunOfConcat(c, s, Readings(i, pings), [Step.Frame(i)]);
      RunOne(c, u, Step.Frame(i));
      MovedTwice(s, i, C.Listening, C.Closed(C.ExpectedHandshake), rest, rest[1..], H.Pongs(pings), []);
      assert H.Pongs(pings) + [] == H.Pongs(pings);
    }
  }

  /** What follows the pings is on the stream, and does not begin with a ping. */
  lemma {:induction false} RestIsOfStream(ms: seq<Message>)
    ensures forall m | m in H.AfterPings(ms) :: m in ms
    ensures |H.AfterPings(ms)| > 0 ==> !H.AfterPings(ms)[0].Ping?
    decreases |ms|
  {
    if |ms| > 0 && ms[0].Ping? {
      RestIsOfStream(ms[1..]);
    }
  }

  /** Up to the handshake. */
  lemma StreamIsGreeted(c: Codec<Message>, s: State, i: nat, ms: seq<Message>)
    requires Awaits(s, i, ms) && H.Greeted(ms).Some? && forall m | m in ms :: Fits(c, m)
    ensures var h, rest := H.Greeted(ms).value, H.AfterPings(ms);
            Run(c, s, Readings(i, |ms| - |rest|) + [Step.Frame(i)])
            == Moved(s, i, C.Checking(h), rest[1..], H.Pongs(|ms| - |rest|)).(
                 trust := T.Next(s.trust, T.Begin(T.Handler(i), SERVER, IsApproved(h.clientId))))
  {
    hide Fits, Next, Run, T.Next, H.Pongs, Readings, T.NobodySaves, Moved;
    var h, rest := H.Greeted(ms).value, H.AfterPings(ms);
    var pings := |ms| - |rest|;
    RestIsOfStream(ms);
    PingsAreAnswered(c, s, i, ms);
    var s1 := Moved(s, i, C.Listening, rest, H.Pongs(pings));
    assert rest[0] in ms;
    MovedAwaits(s, i, rest, H.Pongs(pings));
    WaitingReads(c, s1, i, rest);
    MovedTwice(s, i, C.Listening, C.Checking(h), rest, rest[1..], H.Pongs(pings), []);
    MovedKeepsTrust(s, i, C.Listening, rest, H.Pongs(pings));
    assert H.Pongs(pings) + [] == H.Pongs(pings);
    RunOfConcat(c, s, Readings(i, pings), [Step.Frame(i)]);
    RunOne(c, s1, Step.Frame(i));
  }

  lemma MovedKeepsTrust(s: State, i: nat, handler: C.Handler, up: seq<Message>, written: seq<Message>)
    requires i in s.conns
    ensures Moved(s, i, handler, up, written).trust == s.trust && Moved(s, i, handler, up, written).passed == s.passed
    ensures i in Moved(s, i, handler, up, written).conns
    ensures Moved(s, i, handler, up, written).conns[i].core.handler == handler && Moved(s, i, handler, up, written).conns[i].up == up
  {
  }

  /** What the check makes of a handler that is checking. */
  lemma CheckIsDecided(c: Codec<Message>, s: State, i: nat, h: Handshake, up: seq<Message>, written: seq<Message>, at: S.Surroundings)
    requires i in s.conns && T.Handler(i) !in s.trust.ops && SERVER in s.trust.memory && T.NobodySaves(s.trust)
    ensures var u0 := Moved(s, i, C.Checking(h), up, written).(
                        trust := T.Next(s.trust, T.Begin(T.Handler(i), SERVER, IsApproved(h.clientId))));
            var u, t := Run(c, u0, Loading(T.Handler(i), at) + [HandlerDecide(i, at.stamp)]), Refreshed(s, at.readable);
            if h.clientId in Known(s, at.readable).approved
            then u == Moved(s, i, C.Opening(h), up, written).(trust := t, passed := u.passed)
            else u == Moved(s, i, C.Registering(h), up, written).(
                        trust := T.Next(t, T.Begin(T.Handler(i), SERVER, Register(PendingRecord(h, IrohP2P, at.stamp)))))
  {
    hide Next, Run, T.Next, Loading, T.NobodySaves, Refreshed, Known, PendingRecord, Asking;
    var m0 := Moved(s, i, C.Checking(h), up, written);
    var u0 := m0.(trust := T.Next(s.trust, T.Begin(T.Handler(i), SERVER, IsApproved(h.clientId))));
    HandlerLoads(c, s, u0, i, h, at);
    var u1 := u0.(trust := Asking(s, i, h, at.readable));
    HandlerDecides(c, s, u1, i, h, at);
    RunOfConcat(c, u0, Loading(T.Handler(i), at), [HandlerDecide(i, at.stamp)]);
    RunOne(c, u1, HandlerDecide(i, at.stamp));
    MovedOver(s, u1, i, C.Checking(h), C.Opening(h), up, written);
    MovedOver(s, u1, i, C.Checking(h), C.Registering(h), up, written);
  }

  lemma MovedOver(s: State, u: State, i: nat, a: C.Handler, b: C.Handler, up: seq<Message>, written: seq<Message>)
    requires i in s.conns && u == Moved(s, i, a, up, written).(trust := u.trust)
    ensures u.conns[i].up == up && Moved(u, i, b, up, []) == Moved(s, i, b, up, written).(trust := u.trust)
  {
    MovedTwice(s, i, a, b, up, up, written, []);
    assert written + [] == written;
  }

  /** Up to the answer of the approval check. */
  lemma StreamIsDecided(c: Codec<Message>, s: State, i: nat, ms: seq<Message>, at: S.Surroundings)
    requires Awaits(s, i, ms) && H.Greeted(ms).Some? && forall m | m in ms :: Fits(c, m)
    ensures var h, rest, t := H.Greeted(ms).value, H.AfterPings(ms), Refreshed(s, at.readable);
            var u := Run(c, s, UntilDecided(i, |ms| - |rest|, at));
            var pongs := H.Pongs(|ms| - |rest|);
            if h.clientId in Known(s, at.readable).approved
            then u == Moved(s, i, C.Opening(h), rest[1..], pongs).(trust := t, passed := u.passed)
            else u == Moved(s, i, C.Registering(h), rest[1..], pongs).(
                        trust := T.Next(t, T.Begin(T.Handler(i), SERVER, Register(PendingRecord(h, IrohP2P, at.stamp)))))
  {
    hide Fits, Next, Run, T.Next, H.Pongs, Loading, Readings, T.NobodySaves, Moved, Refreshed, Known, PendingRecord;
    var h, rest := H.Greeted(ms).value, H.AfterPings(ms);
    var first, last := Readings(i, |ms| - |rest|) + [Step.Frame(i)], Loading(T.Handler(i), at) + [HandlerDecide(i, at.stamp)];
    StreamIsGreeted(c, s, i, ms);
    CheckIsDecided(c, s, i, h, rest[1..], H.Pongs(|ms| - |rest|), at);
    RunOfConcat(c, s, first, last);
    Regroup(first, Loading(T.Handler(i), at), [HandlerDecide(i, at.stamp)]);
  }

  lemma GreetedSteps(s: State, i: nat, ms: seq<Message>, at: S.Surroundings, times: nat -> nat)
    requires SERVER in s.trust.memory && H.Greeted(ms).Some?
    ensures var h, rest, steps := H.Greeted(ms).value, H.AfterPings(ms), StepsForStream(s, i, ms, at, times);
            var first := UntilDecided(i, |ms| - |rest|, at);
            if h.clientId in Known(s, at.readable).approved then
              steps == (first + [HandlerOpen(i, at.creatable, at.hostname, at.text)])
                       + if Admits(s.sessions, h, at.creatable) then TimedReadings(i, |rest| - 1, s.now, times, 0) else []
            else steps == (first + ServerSteps.Registering(T.Handler(i), h, at)) + [HandlerAnswerPending(i, at.hostname, at.text)]
  {
    hide UntilDecided, ServerSteps.Registering, TimedReadings, Admits, Known;
    var h, rest := H.Greeted(ms).value, H.AfterPings(ms);
    var first := UntilDecided(i, |ms| - |rest|, at);
    Regroup(first, [HandlerOpen(i, at.creatable, at.hostname, at.text)],
            if Admits(s.sessions, h, at.creatable) then TimedReadings(i, |rest| - 1, s.now, times, 0) else []);
    Regroup(first, ServerSteps.Registering(T.Handler(i), h, at), [HandlerAnswerPending(i, at.hostname, at.text)]);
  }

  lemma GreetedTables(t: S.Tables, i: nat, ms: seq<Message>, at: S.Surroundings, times: nat -> nat)
    requires H.Greeted(ms).Some?
    ensures var h, rest, r := H.Greeted(ms).value, H.AfterPings(ms), H.Attend(t, i, ms, at, times);
            var pongs, d := H.Pongs(|ms| - |rest|), Reloaded(ReadFrom(t.file, at.readable), t.known);
            if h.clientId in d.approved then
              if Admits(t.sessions, h, at.creatable) then
                && KeyOf(h) in S.WithSessionFor(t, h, at).sessions
                && r == H.Attended(H.ServedTables(S.WithSessionFor(t, h, at).(known := d), i, KeyOf(h), rest[1..], times),
                                   pongs + [Ack(Approved, at.hostname, at.text)] + H.Pongs(H.PingCount(rest[1..])))
              else
                && r == H.Attended(t.(known := d), pongs + [Ack(Rejected, at.hostname, at.text)])
                && S.WithSessionFor(t, h, at) == t
            else
              var d' := WithPending(d, PendingRecord(h, IrohP2P, at.stamp));
              r == H.Attended(t.(known := d', file := if at.writable then Some(d') else t.file),
                              pongs + [Ack(PendingApproval, at.hostname, at.text)])
  {
    hide KeyOf, H.Pongs, H.ServedTables, H.PingCount, WithPending, PendingRecord, NewDevice, Reloaded;
  }

  /** The trust store after the client was registered. */
  function Registered(s: State, h: Handshake, at: S.Surroundings): T.State
    requires SERVER in s.trust.memory
  {
    var d' := WithPending(Known(s, at.readable), PendingRecord(h, IrohP2P, at.stamp));
    T.State(if at.writable then Some(d') else s.trust.disk, s.trust.memory[SERVER := d'], s.trust.ops,
            s.trust.deeds + [T.Requested(h.clientId)])
  }

  lemma RegisteredAfterReload(s: State, h: Handshake, at: S.Surroundings)
    requires SERVER in s.trust.memory
    ensures var t := Refreshed(s, at.readable);
            var d' := WithPending(Reloaded(ReadFrom(t.disk, at.readable), t.memory[SERVER]), PendingRecord(h, IrohP2P, at.stamp));
            T.State(if at.writable then Some(d') else t.disk, t.memory[SERVER := d'], t.ops, t.deeds + [T.Requested(h.clientId)])
            == Registered(s, h, at)
    ensures Reloaded(ReadFrom(Refreshed(s, at.readable).disk, at.readable), Refreshed(s, at.readable).memory[SERVER])
            == Known(s, at.readable)
  {
    hide WithPending, PendingRecord;
    ReadAgain(s.trust.disk, s.trust.memory[SERVER], at.readable);
  }

  /** Up to the answer to the handshake of a client that is not approved. */
  lemma StreamIsPending(c: Codec<Message>, s: State, i: nat, ms: seq<Message>, at: S.Surroundings)
    requires Awaits(s, i, ms) && H.Greeted(ms).Some? && forall m | m in ms :: Fits(c, m)
    requires H.Greeted(ms).value.clientId !in Known(s, at.readable).approved
    ensures var h, rest := H.Greeted(ms).value, H.AfterPings(ms);
            Run(c, s, (UntilDecided(i, |ms| - |rest|, at) + ServerSteps.Registering(T.Handler(i), h, at))
                      + [HandlerAnswerPending(i, at.hostname, at.text)])
            == Moved(s, i, C.Closed(C.Unapproved), rest[1..], H.Pongs(|ms| - |rest|) + [Ack(PendingApproval, at.hostname, at.text)]).(
                 trust := Registered(s, h, at))
  {
    hide Next, Run, Fits, T.Next, H.Pongs, UntilDecided, ServerSteps.Registering, WithPending, PendingRecord, T.NobodySaves;
    var h, rest := H.Greeted(ms).value, H.AfterPings(ms);
    var first, pongs := UntilDecided(i, |ms| - |rest|, at), H.Pongs(|ms| - |rest|);
    var r, last := ServerSteps.Registering(T.Handler(i), h, at), [HandlerAnswerPending(i, at.hostname, at.text)];
    StreamIsDecided(c, s, i, ms, at);
    RegisteredAfterReload(s, h, at);
    var u := Run(c, s, first);
    assert T.NobodySaves(Refreshed(s, at.readable)) by { RefreshedSavesNothing(s, at.readable); }
    RegistrationRuns(c, u, Refreshed(s, at.readable), T.Handler(i), h, IrohP2P, at);
    hide Registered, Refreshed, Known;
    RunOfConcat(c, s, first + r, last);
    RunOfConcat(c, s, first, r);
    var v := Run(c, s, first + r);
    assert v == Moved(s, i, C.Registering(h), rest[1..], pongs).(trust := Registered(s, h, at));
    assert T.Handler(i) !in v.trust.ops by { RegisteredOps(s, h, at); }
    HandlerAnswersPending(c, v, i, h, at);
    RunOne(c, v, last[0]);
    MovedTwice(s, i, C.Registering(h), C.Closed(C.Unapproved), rest[1..], rest[1..], pongs, [Ack(PendingApproval, at.hostname, at.text)]);
  }

  lemma RefreshedSavesNothing(s: State, readable: bool)
    requires SERVER in s.trust.memory && T.NobodySaves(s.trust)
    ensures T.NobodySaves(Refreshed(s, readable))
  {
  }

  lemma RegisteredOps(s: State, h: Handshake, at: S.Surroundings)
    requires SERVER in s.trust.memory
    ensures Registered(s, h, at).ops == s.trust.ops
  {
  }

  lemma PendingAgrees(c: Codec<Message>, s: State, i: nat, ms: seq<Message>, at: S.Surroundings, times: nat -> nat)
    requires Awaits(s, i, ms) && H.Greeted(ms).Some? && forall m | m in ms :: Fits(c, m)
    requires H.Greeted(ms).value.clientId !in Known(s, at.readable).approved
    ensures Matches(s, Run(c, s, StepsForStream(s, i, ms, at, times)), i, H.Attend(TablesOf(s), i, ms, at, times))
  {
    hide Next, Run, Fits, T.Next, H.Pongs, UntilDecided, ServerSteps.Registering, WithPending, StepsForStream, H.Attend, PendingRecord, Admits;
    hide KeyOf, H.Greeted, H.AfterPings, T.NobodySaves;
    StreamIsPending(c, s, i, ms, at);
    GreetedSteps(s, i, ms, at, times);
    GreetedTables(TablesOf(s), i, ms, at, times);
  }

  /** Serving after the answers so far. */
  lemma ServedMatches(s: State, v: State, t: State, i: nat, h: Handshake, ms: seq<Message>, answers: seq<Message>, times: nat -> nat)
    requires i in s.conns && i in v.conns && KeyOf(h) in v.sessions && SERVER in v.trust.memory
    requires v.conns[i].down == s.conns[i].down + answers && ServedAs(v, t, i, h, ms, times, 0)
    ensures Matches(s, t, i, H.Attended(H.ServedTables(TablesOf(v), i, KeyOf(h), ms, times), answers + H.Pongs(H.PingCount(ms))))
  {
    hide KeyOf, H.Pongs, H.PingCount, H.LastActive, H.Emissions, H.Batches;
    Regroup(s.conns[i].down, answers, H.Pongs(H.PingCount(ms)));
  }

  /** A session opened on the way does not depend on what the handler has read and written. */
  lemma OpensElsewhere(s: State, u: State, i: nat, h: Handshake, created: bool, handler: C.Handler, handler': C.Handler,
                       up: seq<Message>, w: seq<Message>, w': seq<Message>)
    requires i in s.conns && u == Moved(s, i, handler, up, w).(trust := u.trust, passed := u.passed)
    ensures Moved(WithSession(u, h, created), i, handler', up, w')
            == Moved(WithSession(s, h, created), i, handler', up, w + w').(trust := u.trust, passed := u.passed)
  {
    hide OpenSession, KeyOf, NewDevice;
    MovedTwice(s, i, handler, handler', up, up, w, w');
  }

  /** Up to the answer to the handshake of an approved client. */
  lemma StreamIsOpened(c: Codec<Message>, s: State, i: nat, ms: seq<Message>, at: S.Surroundings)
    requires Awaits(s, i, ms) && H.Greeted(ms).Some? && forall m | m in ms :: Fits(c, m)
    requires H.Greeted(ms).value.clientId in Known(s, at.readable).approved
    ensures var h, rest := H.Greeted(ms).value, H.AfterPings(ms);
            var admits := Admits(s.sessions, h, at.creatable);
            var v := Run(c, s, UntilDecided(i, |ms| - |rest|, at) + [HandlerOpen(i, at.creatable, at.hostname, at.text)]);
            v == Moved(WithSession(s, h, at.creatable), i, if admits then C.Serving(h) else C.Closed(C.DeviceFailed), rest[1..],
                       H.Pongs(|ms| - |rest|) + [Ack(if admits then Approved else Rejected, at.hostname, at.text)]).(
                   trust := Refreshed(s, at.readable), passed := v.passed)
  {
    hide Next, Run, Fits, H.Pongs, UntilDecided, T.NobodySaves, KeyOf, Refreshed, WithSession, Known;
    var h, rest := H.Greeted(ms).value, H.AfterPings(ms);
    var first, pongs := UntilDecided(i, |ms| - |rest|, at), H.Pongs(|ms| - |rest|);
    StreamIsDecided(c, s, i, ms, at);
    var u := Run(c, s, first);
    RunOfConcat(c, s, first, [HandlerOpen(i, at.creatable, at.hostname, at.text)]);
    RunOne(c, u, HandlerOpen(i, at.creatable, at.hostname, at.text));
    HandlerOpens(c, u, i, h, at);
    var admits := Admits(s.sessions, h, at.creatable);
    OpensElsewhere(s, u, i, h, at.creatable, C.Opening(h), if admits then C.Serving(h) else C.Closed(C.DeviceFailed), rest[1..], pongs,
                   [Ack(if admits then Approved else Rejected, at.hostname, at.text)]);
  }

  lemma OpenedTables(s: State, v: State, i: nat, h: Handshake, at: S.Surroundings, handler: C.Handler, up: seq<Message>, w: seq<Message>)
    requires i in s.conns && SERVER in s.trust.memory && at.now == s.now
    requires v == Moved(WithSession(s, h, at.creatable), i, handler, up, w).(trust := Refreshed(s, at.readable), passed := v.passed)
    ensures SERVER in v.trust.memory && v.now == s.now
    ensures TablesOf(v) == S.WithSessionFor(TablesOf(s), h, at).(known := Known(s, at.readable))
    ensures i in v.conns && v.conns[i].down == s.conns[i].down + w && v.conns[i].up == up && v.conns[i].core.handler == handler
    ensures Admits(s.sessions, h, at.creatable) <==> KeyOf(h) in v.sessions
  {
    hide KeyOf, NewDevice;
  }

  lemma RejectedAgrees(c: Codec<Message>, s: State, i: nat, ms: seq<Message>, at: S.Surroundings, times: nat -> nat)
    requires Awaits(s, i, ms) && H.Greeted(ms).Some? && forall m | m in ms :: Fits(c, m)
    requires H.Greeted(ms).value.clientId in Known(s, at.readable).approved && at.now == s.now
    requires !Admits(s.sessions, H.Greeted(ms).value, at.creatable)
    ensures Matches(s, Run(c, s, StepsForStream(s, i, ms, at, times)), i, H.Attend(TablesOf(s), i, ms, at, times))
  {
    hide Next, Run, Fits, H.Pongs, UntilDecided, T.NobodySaves, KeyOf, WithSession, Admits, S.WithSessionFor, Refreshed, StepsForStream;
    hide H.Attend;
    var h, rest := H.Greeted(ms).value, H.AfterPings(ms);
    var first := UntilDecided(i, |ms| - |rest|, at) + [HandlerOpen(i, at.creatable, at.hostname, at.text)];
    GreetedSteps(s, i, ms, at, times);
    GreetedTables(TablesOf(s), i, ms, at, times);
    assert first + [] == first;
    StreamIsOpened(c, s, i, ms, at);
    OpenedTables(s, Run(c, s, first), i, h, at, C.Closed(C.DeviceFailed), rest[1..],
                 H.Pongs(|ms| - |rest|) + [Ack(Rejected, at.hostname, at.text)]);
  }

  lemma AdmittedAgrees(c: Codec<Message>, s: State, i: nat, ms: seq<Message>, at: S.Surroundings, times: nat -> nat)
    requires Awaits(s, i, ms) && H.Greeted(ms).Some? && forall m | m in ms :: Fits(c, m)
    requires H.Greeted(ms).value.clientId in Known(s, at.readable).approved && at.now == s.now
    requires Admits(s.sessions, H.Greeted(ms).value, at.creatable) && Ascending(s.now, times, 0)
    ensures Matches(s, Run(c, s, StepsForStream(s, i, ms, at, times)), i, H.Attend(TablesOf(s), i, ms, at, times))
  {
    hide Next, Run, Fits, H.Pongs, UntilDecided, T.NobodySaves, KeyOf, WithSession, Admits, S.WithSessionFor, Refreshed, StepsForStream;
    hide H.Attend, H.PingCount, TimedReadings, ServedAs, H.ServedTables, Matches, Ascending;
    var h, rest := H.Greeted(ms).value, H.AfterPings(ms);
    var first := UntilDecided(i, |ms| - |rest|, at) + [HandlerOpen(i, at.creatable, at.hostname, at.text)];
    var last, answers := TimedReadings(i, |rest| - 1, s.now, times, 0), H.Pongs(|ms| - |rest|) + [Ack(Approved, at.hostname, at.text)];
    GreetedSteps(s, i, ms, at, times);
    GreetedTables(TablesOf(s), i, ms, at, times);
    RunOfConcat(c, s, first, last);
    StreamIsOpened(c, s, i, ms, at);
    RestIsOfStream(ms);
    var v := Run(c, s, first);
    OpenedTables(s, v, i, h, at, C.Serving(h), rest[1..], answers);
    ServingAgrees(c, v, i, h, rest[1..], times, 0);
    ServedMatches(s, v, Run(c, v, last), i, h, rest[1..], answers, times);
  }

  /** Whatever is on the stream: the steps of the machine, with nothing in between, do to the tables,
      the trust data and the file what the method does, and write the same answers. */
  lemma StreamAgrees(c: Codec<Message>, s: State, i: nat, ms: seq<Message>, at: S.Surroundings, times: nat -> nat)
    requires Awaits(s, i, ms) && forall m | m in ms :: Fits(c, m)
    requires at.now == s.now && Ascending(s.now, times, 0)
    ensures Matches(s, Run(c, s, StepsForStream(s, i, ms, at, times)), i, H.Attend(TablesOf(s), i, ms, at, times))
  {
    hide Run, Fits, T.NobodySaves, StepsForStream, H.Attend, Matches, Ascending, H.Greeted, Admits;
    if H.Greeted(ms).None? {
      UngreetedAgrees(c, s, i, ms, at, times);
    } else if H.Greeted(ms).value.clientId !in Known(s, at.readable).approved {
      PendingAgrees(c, s, i, ms, at, times);
    } else if Admits(s.sessions, H.Greeted(ms).value, at.creatable) {
      AdmittedAgrees(c, s, i, ms, at, times);
    } else {
      RejectedAgrees(c, s, i, ms, at, times);
    }
  }
}
