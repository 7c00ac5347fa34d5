/** What holds in every run of the whole server, in every interleaving. */
module SystemSafety {
  import opened Wire
  import opened Postcard
  import opened Framing
  import opened Trust
  import opened Sessions
  import opened Lifetimes
  import opened System
  import T = TrustSystem
  import C = Connection

  // ---- The trust store inside the system ---------------------------------------------

  /** Whatever the server does with the store, it does in steps of the store. */
  lemma NextKeepsTrust(c: Codec<Message>, init: TrustData, s: State, a: Step)
    requires T.Inv(init, s.trust)
    ensures T.Inv(init, Next(c, s, a).trust) && s.trust.deeds <= Next(c, s, a).trust.deeds
  {
    hide T.Inv, T.Next, C.Next, OpenSession, KeyOf, T.Enabled, CanDecide, Decided, Serve, WithSession, IsApprovedNow;
    match a
    case Store(step) => T.NextKeepsInv(init, s.trust, step);
    case Datagram(addr, m) =>
      if m.Hello? { T.NextKeepsInv(init, s.trust, T.Begin(T.UdpLoop, SERVER, IsApproved(m.handshake.clientId))); }
    case UdpDecide(stamp) =>
      if s.udp.Checking? { DecidedKeepsTrust(init, s, T.UdpLoop, Udp(s.udp.addr), s.udp.handshake, PendingRecord(s.udp.handshake, DirectUdp, stamp)); }
    case HandlerDecide(i, stamp) =>
      if i in s.conns && s.conns[i].core.handler.Checking? {
        var h := s.conns[i].core.handler.handshake;
        DecidedKeepsTrust(init, s, T.Handler(i), Iroh(i), h, PendingRecord(h, IrohP2P, stamp));
      }
    case Frame(i) =>
      if i in s.conns {
        var handler := C.Next(c, s.conns[i], C.HandlerReads(true)).core.handler;
        if handler.Checking? {
          T.NextKeepsInv(init, s.trust, T.Begin(T.Handler(i), SERVER, IsApproved(handler.handshake.clientId)));
        }
      }
    case _ =>
  }

  lemma DecidedKeepsTrust(init: TrustData, s: State, who: T.Who, source: Source, h: Handshake, info: PendingInfo)
    requires T.Inv(init, s.trust)
    ensures T.Inv(init, Decided(s, who, source, h, info).trust)
    ensures s.trust.deeds <= Decided(s, who, source, h, info).trust.deeds
  {
    hide T.Inv, T.Next;
    T.NextKeepsInv(init, s.trust, T.Execute(who, h.clientId));
    T.NextKeepsInv(init, T.Next(s.trust, T.Execute(who, h.clientId)), T.Begin(who, SERVER, Register(info)));
  }

  // ---- The connections inside the system ---------------------------------------------

  ghost predicate ConnsOk(s: State) {
    forall i | i in s.conns :: C.Inv(s.conns[i])
  }

  /** The action of the connection that a step of the system performs, if any. */
  ghost function ActionOf(s: State, a: Step): C.Action {
    match a
    case ClientStep(_, action) => action
    case Frame(i) => C.HandlerReads(i in s.conns && FrameIsLive(s, i))
    case HandlerDecide(i, _) =>
      C.Decide(i in s.conns && s.conns[i].core.handler.Checking? && IsApprovedNow(s, s.conns[i].core.handler.handshake))
    case HandlerAnswerPending(_, hostname, text) => C.AnswerPending(hostname, text)
    case HandlerOpen(i, created, hostname, text) =>
      C.Open(i in s.conns && s.conns[i].core.handler.Opening? && Admits(s.sessions, s.conns[i].core.handler.handshake, created),
             hostname, text)
    case _ => C.LoseHandler
  }

  ghost predicate FrameIsLive(s: State, i: nat)
    requires i in s.conns
  {
    var handler := s.conns[i].core.handler;
    handler.Serving? ==> KeyOf(handler.handshake) in s.sessions
  }

  function ConnOf(a: Step): Option<nat> {
    match a
    case ClientStep(i, action) => if ClientOnly(action) then Some(i) else None
    case Frame(i) => Some(i)
    case HandlerDecide(i, _) => Some(i)
    case HandlerAnswerPending(i, _, _) => Some(i)
    case HandlerOpen(i, _, _, _) => Some(i)
    case LoseHandler(i) => Some(i)
    case _ => None
  }

  lemma NextMovesConns(c: Codec<Message>, s: State, a: Step)
    ensures var conns' := Next(c, s, a).conns;
            match ConnOf(a)
            case None => conns' == s.conns || (a.Connect? && a.conn !in s.conns && conns' == s.conns[a.conn := C.START])
            case Some(i) =>
              || (conns' == s.conns && (i in s.conns ==> !a.Frame?))
              || (i in s.conns && conns' == s.conns[i := C.Next(c, s.conns[i], ActionOf(s, a))])
  {
    hide T.Next, C.Next, KeyOf, CanDecide, IsApprovedNow, BeginCheck, Decided, Serve, WithSession;
    hide OnDatagram, OnUdpDecide, OnUdpAnswerPending, OnUdpOpen, Admits;
  }

  /** A connection starts fresh and moves only by its own actions. */
  lemma NextMovesConn(c: Codec<Message>, s: State, a: Step, i: nat)
    requires i in Next(c, s, a).conns
    ensures var conn := Next(c, s, a).conns[i];
            if i !in s.conns then conn == C.START
            else conn == s.conns[i] || (ConnOf(a) == Some(i) && conn == C.Next(c, s.conns[i], ActionOf(s, a)))
    ensures a == Frame(i) && i in s.conns ==> Next(c, s, a).conns[i] == C.Next(c, s.conns[i], ActionOf(s, a))
    ensures s.conns.Keys <= Next(c, s, a).conns.Keys
  {
    hide Next, C.Next, ActionOf;
    NextMovesConns(c, s, a);
  }

  lemma NextKeepsConnsOk(c: Codec<Message>, s: State, a: Step)
    requires ConnsOk(s)
    ensures ConnsOk(Next(c, s, a))
  {
    hide C.Inv, C.Next, Next;
    forall i | i in Next(c, s, a).conns ensures C.Inv(Next(c, s, a).conns[i]) {
      NextMovesConn(c, s, a, i);
      if i !in s.conns {
        assert C.Inv(C.START) by { C.RunKeepsInv(c, []); }
      } else if Next(c, s, a).conns[i] != s.conns[i] {
        C.NextKeepsInv(c, s.conns[i], ActionOf(s, a));
      }
    }
  }

  // ---- What a step does to sessions and devices --------------------------------------

  datatype Change =
    | Unchanged
    | Refreshed(key: Key)
    | Emits(source: Source, key: Key, batch: Vec<Event>)
    | Opens(source: Source, handshake: Handshake, created: bool)
    | Reaps

  function Served(source: Source, key: Key, m: Message): Change {
    match m
    case Events(es) => Emits(source, key, es)
    case Ping => Refreshed(key)
    case _ => Unchanged
  }

  function ChangeOf(c: Codec<Message>, s: State, a: Step): Change {
    match a
    case Datagram(addr, m) =>
      if s.udp.Idle? && addr in s.peers && s.peers[addr] in s.sessions then Served(Udp(addr), s.peers[addr], m)
      else Unchanged
    case UdpOpen(created) =>
      if s.udp.Opening? then Opens(Udp(s.udp.addr), s.udp.handshake, created) else Unchanged
    case Frame(i) =>
      if i in s.conns && s.conns[i].core.handler.Serving? then
        var key, m := KeyOf(s.conns[i].core.handler.handshake), Head(c, s.conns[i]);
        if key in s.sessions && m.Some? then Served(Iroh(i), key, m.value) else Unchanged
      else Unchanged
    case HandlerOpen(i, created, _, _) =>
      if i in s.conns && s.conns[i].core.handler.Opening? then
        Opens(Iroh(i), s.conns[i].core.handler.handshake, created)
      else Unchanged
    case ReaperPass => Reaps
    case _ => Unchanged
  }

  /** What a change of each kind leaves. */
  ghost predicate Changed(s: State, s': State, change: Change) {
    match change
    case Unchanged => s'.sessions == s.sessions && s'.created == s.created && s'.emitted == s.emitted
    case Refreshed(key) =>
      && key in s.sessions && s'.sessions == Touch(s.sessions, key, s.now)
      && s'.created == s.created && s'.emitted == s.emitted
    case Emits(source, key, batch) =>
      && key in s.sessions && s'.sessions == Touch(s.sessions, key, s.now) && s'.created == s.created
      && s'.emitted == s.emitted + [Emission(source, key, s.sessions[key].device.serial, batch)]
    case Opens(_, h, created) =>
      && s'.sessions == WithSession(s, h, created).sessions && s'.created == WithSession(s, h, created).created
      && s'.emitted == s.emitted
    case Reaps => s'.sessions == Reap(s.sessions, s.now) && s'.created == s.created && s'.emitted == s.emitted
  }

  /** Sessions, devices and emissions change in these five ways only. */
  lemma NextChanges(c: Codec<Message>, s: State, a: Step)
    ensures Changed(s, Next(c, s, a), ChangeOf(c, s, a))
  {
    hide Next, Changed, ChangeOf;
    if a.Frame? { FrameChanges(c, s, a); }
    else if a.Datagram? || a.UdpOpen? { UdpChanges(c, s, a); }
    else if a.HandlerOpen? { OpenChanges(c, s, a); }
    else { OtherChanges(c, s, a); }
  }

  lemma FrameChanges(c: Codec<Message>, s: State, a: Step)
    requires a.Frame?
    ensures Changed(s, Next(c, s, a), ChangeOf(c, s, a))
  {
    hide T.Next, C.Next, KeyOf, Touch, Reap, C.Received, BeginCheck, WithSession;
    hide OnDatagram, OnUdpDecide, OnUdpOpen, OnHandlerDecide, OnHandlerOpen;
  }

  lemma UdpChanges(c: Codec<Message>, s: State, a: Step)
    requires a.Datagram? || a.UdpOpen?
    ensures Changed(s, Next(c, s, a), ChangeOf(c, s, a))
  {
    hide T.Next, C.Next, KeyOf, Touch, Reap, C.Received, BeginCheck, WithSession, Admits;
    hide OnFrame, OnUdpDecide, OnHandlerDecide, OnHandlerOpen;
  }

  lemma OpenChanges(c: Codec<Message>, s: State, a: Step)
    requires a.HandlerOpen?
    ensures Changed(s, Next(c, s, a), ChangeOf(c, s, a))
  {
    hide T.Next, C.Next, KeyOf, Touch, Reap, C.Received, BeginCheck, WithSession, Admits;
    hide OnFrame, OnDatagram, OnUdpDecide, OnUdpOpen, OnHandlerDecide;
  }

  lemma OtherChanges(c: Codec<Message>, s: State, a: Step)
    requires !a.Frame? && !a.Datagram? && !a.UdpOpen? && !a.HandlerOpen?
    ensures Changed(s, Next(c, s, a), ChangeOf(c, s, a))
  {
    hide T.Next, C.Next, KeyOf, Touch, Reap, C.Received, Decided, CanDecide, IsApprovedNow, WithSession;
    hide OnFrame, OnDatagram, OnUdpOpen, OnHandlerOpen;
  }

  // ---- Devices -----------------------------------------------------------------------

  predicate MadeFor(d: Device, h: Handshake) {
    d.metadata == h.metadata && d.name.hostname == h.clientHostname && d.name.device == h.metadata.name
  }

  predicate CreationsOk(created: seq<Creation>) {
    forall n | 0 <= n < |created| :: created[n].device.serial == n && MadeFor(created[n].device, created[n].handshake)
  }

  /** The device was made for a handshake of this key. */
  predicate MadeForKey(created: seq<Creation>, serial: nat, key: Key) {
    serial < |created| && KeyOf(created[serial].handshake) == key
  }

  predicate SessionsOk(created: seq<Creation>, t: Table) {
    forall k | k in t :: MadeForKey(created, t[k].device.serial, k) && created[t[k].device.serial].device == t[k].device
  }

  predicate EmissionsOk(created: seq<Creation>, log: seq<Emission>) {
    forall e | e in log :: MadeForKey(created, e.serial, e.key)
  }

  /** Each live key owns one device, the one made for it; no two keys share one; and a batch
      went to the device made for its key. */
  ghost predicate DevicesOk(s: State) {
    CreationsOk(s.created) && SessionsOk(s.created, s.sessions) && EmissionsOk(s.created, s.emitted)
  }

  lemma MadeForKeyStays(created: seq<Creation>, more: seq<Creation>, serial: nat, key: Key)
    requires MadeForKey(created, serial, key) && created <= more
    ensures MadeForKey(more, serial, key)
  {
    hide KeyOf;
  }

  lemma EmissionsStayOk(created: seq<Creation>, more: seq<Creation>, log: seq<Emission>)
    requires EmissionsOk(created, log) && created <= more
    ensures EmissionsOk(more, log)
  {
    hide MadeForKey;
    forall e | e in log ensures MadeForKey(more, e.serial, e.key) {
      MadeForKeyStays(created, more, e.serial, e.key);
    }
  }

  lemma WithSessionKeepsSessions(s: State, h: Handshake, created: bool)
    requires CreationsOk(s.created) && SessionsOk(s.created, s.sessions)
    ensures var s' := WithSession(s, h, created);
            && s.created <= s'.created && CreationsOk(s'.created) && SessionsOk(s'.created, s'.sessions)
  {
    hide KeyOf;
    var s' := WithSession(s, h, created);
    forall k | k in s'.sessions
      ensures MadeForKey(s'.created, s'.sessions[k].device.serial, k)
              && s'.created[s'.sessions[k].device.serial].device == s'.sessions[k].device
    {
      if k in s.sessions {
        assert s'.sessions[k].device == s.sessions[k].device;
        assert MadeForKey(s.created, s.sessions[k].device.serial, k);
      }
    }
  }

  lemma SameDevicesKeepSessions(created: seq<Creation>, t: Table, t': Table)
    requires SessionsOk(created, t)
    requires forall k | k in t' :: k in t && t'[k].device == t[k].device
    ensures SessionsOk(created, t')
  {
    hide KeyOf;
    forall k | k in t' ensures MadeForKey(created, t'[k].device.serial, k) && created[t'[k].device.serial].device == t'[k].device {
      assert MadeForKey(created, t[k].device.serial, k);
    }
  }

  lemma NextKeepsDevicesOk(c: Codec<Message>, s: State, a: Step)
    requires DevicesOk(s)
    ensures DevicesOk(Next(c, s, a))
  {
    hide Next, WithSession, ChangeOf, SessionsOk, CreationsOk, MadeForKey;
    var s' := Next(c, s, a);
    NextChanges(c, s, a);
    match ChangeOf(c, s, a)
    case Unchanged =>
    case Refreshed(_) => SameDevicesKeepSessions(s.created, s.sessions, s'.sessions);
    case Emits(_, key, _) =>
      SameDevicesKeepSessions(s.created, s.sessions, s'.sessions);
      assert MadeForKey(s.created, s.sessions[key].device.serial, key) by { LiveKeyIsMade(s, key); }
    case Opens(_, h, created) =>
      WithSessionKeepsSessions(s, h, created);
      EmissionsStayOk(s.created, s'.created, s.emitted);
    case Reaps => SameDevicesKeepSessions(s.created, s.sessions, s'.sessions);
  }

  lemma LiveKeyIsMade(s: State, k: Key)
    requires SessionsOk(s.created, s.sessions) && k in s.sessions
    ensures MadeForKey(s.created, s.sessions[k].device.serial, k)
  {
    hide MadeForKey;
  }

  /** A step leaves the device of a live key alone, and the only step that removes a session is
      a reaper pass that found it idle for 900 seconds. */
  lemma NextKeepsDevice(c: Codec<Message>, s: State, a: Step, k: Key)
    requires k in s.sessions
    ensures var s' := Next(c, s, a);
            && (k in s'.sessions ==> s'.sessions[k].device == s.sessions[k].device)
            && (k !in s'.sessions ==> a.ReaperPass? && s.now - s.sessions[k].lastActive >= IDLE_LIMIT)
  {
    hide Next, KeyOf, NewDevice;
    NextChanges(c, s, a);
  }

  /** Over any run, a session is still there with the device it had, or some reaper pass of the
      run found it idle for 900 seconds and removed it. */
  lemma {:induction false} DeviceIsStable(c: Codec<Message>, s: State, steps: seq<Step>, k: Key)
    requires k in s.sessions
    ensures var s' := Run(c, s, steps);
            || (k in s'.sessions && s'.sessions[k].device == s.sessions[k].device)
            || exists i | 0 <= i < |steps| ::
                 && steps[i].ReaperPass?
                 && var si := Run(c, s, steps[..i]);
                    k in si.sessions && si.now - si.sessions[k].lastActive >= IDLE_LIMIT
  {
    hide Next;
    if |steps| > 0 {
      var n := |steps| - 1;
      DeviceIsStable(c, s, steps[..n], k);
      var before := Run(c, s, steps[..n]);
      if k in before.sessions && before.sessions[k].device == s.sessions[k].device {
        NextKeepsDevice(c, before, steps[n], k);
      } else {
        var i :| 0 <= i < n && steps[..n][i].ReaperPass?
                 && var si := Run(c, s, steps[..n][..i]); k in si.sessions && si.now - si.sessions[k].lastActive >= IDLE_LIMIT;
        assert steps[..n][..i] == steps[..i];
      }
    }
  }

  // ---- Who may emit ------------------------------------------------------------------

  ghost predicate HasPassed(s: State, source: Source, h: Handshake) {
    exists p | p in s.passed :: p.source == source && p.handshake == h
  }

  ghost predicate KeyWasGranted(s: State, source: Source, key: Key) {
    exists h :: HasPassed(s, source, h) && KeyOf(h) == key
  }

  predicate Admitted(handler: C.Handler) {
    handler.Opening? || handler.Serving?
  }

  ghost predicate ConnsPassed(s: State) {
    forall i | i in s.conns && Admitted(s.conns[i].core.handler) :: HasPassed(s, Iroh(i), s.conns[i].core.handler.handshake)
  }

  ghost predicate Evidence(s: State) {
    && ConnsPassed(s)
    && (s.udp.Opening? ==> HasPassed(s, Udp(s.udp.addr), s.udp.handshake))
    && (forall addr | addr in s.peers :: KeyWasGranted(s, Udp(addr), s.peers[addr]))
    && (forall e | e in s.emitted :: KeyWasGranted(s, e.source, e.key))
  }

  /** Those who passed were approved at the start, or by an approve before they passed. */
  ghost predicate PassedOk(init: TrustData, s: State) {
    forall p | p in s.passed ::
      && p.deeds <= |s.trust.deeds|
      && (p.handshake.clientId in init.approved || T.Granted(p.handshake.clientId) in s.trust.deeds[..p.deeds])
  }

  lemma NextGrowsPassed(c: Codec<Message>, s: State, a: Step)
    ensures s.passed <= Next(c, s, a).passed
  {
    hide T.Next, C.Next, OpenSession, KeyOf, CanDecide, IsApprovedNow, Touch, NewDevice, Reap, C.Received;
  }

  lemma PassedStays(s: State, s': State, source: Source, h: Handshake)
    requires s.passed <= s'.passed && HasPassed(s, source, h)
    ensures HasPassed(s', source, h)
  {
    var p :| p in s.passed && p.source == source && p.handshake == h;
    assert p in s'.passed;
  }

  lemma GrantStays(s: State, s': State, source: Source, key: Key)
    requires s.passed <= s'.passed && KeyWasGranted(s, source, key)
    ensures KeyWasGranted(s', source, key)
  {
    var h :| HasPassed(s, source, h) && KeyOf(h) == key;
    PassedStays(s, s', source, h);
  }

  /** Which conversations a connection's action can admit. */
  lemma ConnAdmits(c: Codec<Message>, conn: C.Conn, action: C.Action)
    requires Admitted(C.Next(c, conn, action).core.handler)
    ensures || (Admitted(conn.core.handler) && C.Next(c, conn, action).core.handler.handshake == conn.core.handler.handshake)
            || (action == C.Decide(true) && conn.core.handler.Checking?
                && C.Next(c, conn, action).core.handler.handshake == conn.core.handler.handshake)
  {
    hide Fits;
  }

  lemma NextKeepsConnsPassed(c: Codec<Message>, s: State, a: Step)
    requires ConnsPassed(s)
    ensures ConnsPassed(Next(c, s, a))
  {
    hide Next, C.Next, T.Next, HasPassed;
    var s' := Next(c, s, a);
    NextGrowsPassed(c, s, a);
    forall i | i in s'.conns && Admitted(s'.conns[i].core.handler)
      ensures HasPassed(s', Iroh(i), s'.conns[i].core.handler.handshake)
    {
      NextMovesConn(c, s, a, i);
      if i in s.conns {
        if s'.conns[i] != s.conns[i] { ConnAdmits(c, s.conns[i], ActionOf(s, a)); }
        if Admitted(s.conns[i].core.handler) {
          PassedStays(s, s', Iroh(i), s.conns[i].core.handler.handshake);
        } else {
          DecidingPasses(c, s, a, i);
        }
      }
    }
  }

  /** The step by which a handler moves on to opening its session records that it passed. */
  lemma DecidingPasses(c: Codec<Message>, s: State, a: Step, i: nat)
    requires i in s.conns && i in Next(c, s, a).conns && Next(c, s, a).conns[i] != s.conns[i]
    requires ActionOf(s, a) == C.Decide(true) && s.conns[i].core.handler.Checking?
    ensures HasPassed(Next(c, s, a), Iroh(i), s.conns[i].core.handler.handshake)
  {
    hide T.Next, C.Next, OpenSession, KeyOf, Touch, NewDevice, Reap, C.Received, CanDecide;
  }

  lemma UdpAdmits(c: Codec<Message>, s: State, a: Step)
    requires Next(c, s, a).udp.Opening?
    ensures Next(c, s, a).udp == s.udp || HasPassed(Next(c, s, a), Udp(Next(c, s, a).udp.addr), Next(c, s, a).udp.handshake)
  {
    hide T.Next, C.Next, OpenSession, KeyOf, Touch, NewDevice, Reap, C.Received, CanDecide;
  }

  lemma PeersChange(c: Codec<Message>, s: State, a: Step)
    ensures var s' := Next(c, s, a);
            forall addr | addr in s'.peers ::
              || (addr in s.peers && s'.peers[addr] == s.peers[addr])
              || (s.udp.Opening? && addr == s.udp.addr && s'.peers[addr] == KeyOf(s.udp.handshake))
  {
    hide T.Next, C.Next, OpenSession, KeyOf, Touch, NewDevice, Reap, C.Received, CanDecide, IsApprovedNow;
  }

  lemma NextKeepsEvidence(c: Codec<Message>, s: State, a: Step)
    requires Evidence(s)
    ensures Evidence(Next(c, s, a))
  {
    hide Next, C.Next, T.Next, HasPassed, KeyOf, WithSession, Touch, Reap;
    var s' := Next(c, s, a);
    NextGrowsPassed(c, s, a);
    NextKeepsConnsPassed(c, s, a);
    if s'.udp.Opening? {
      UdpAdmits(c, s, a);
      if s'.udp == s.udp { PassedStays(s, s', Udp(s.udp.addr), s.udp.handshake); }
    }
    forall addr | addr in s'.peers ensures KeyWasGranted(s', Udp(addr), s'.peers[addr]) {
      PeersChange(c, s, a);
      if addr in s.peers && s'.peers[addr] == s.peers[addr] {
        GrantStays(s, s', Udp(addr), s.peers[addr]);
      } else {
        PassedStays(s, s', Udp(addr), s.udp.handshake);
      }
    }
    forall e | e in s'.emitted ensures KeyWasGranted(s', e.source, e.key) {
      NextChanges(c, s, a);
      if e in s.emitted {
        GrantStays(s, s', e.source, e.key);
      } else {
        EmitterWasGranted(c, s, a);
        GrantStays(s, s', e.source, e.key);
      }
    }
  }

  lemma EmitterWasGranted(c: Codec<Message>, s: State, a: Step)
    requires Evidence(s) && ChangeOf(c, s, a).Emits?
    ensures KeyWasGranted(s, ChangeOf(c, s, a).source, ChangeOf(c, s, a).key)
  {
    hide HasPassed, KeyOf, C.Received;
    if a.Frame? {
      assert HasPassed(s, Iroh(a.conn), s.conns[a.conn].core.handler.handshake);
    }
  }

  lemma NextKeepsPassedOk(c: Codec<Message>, init: TrustData, s: State, a: Step)
    requires T.Inv(init, s.trust) && PassedOk(init, s)
    ensures PassedOk(init, Next(c, s, a))
  {
    hide Next, C.Next, T.Next, T.Inv;
    var s' := Next(c, s, a);
    NextKeepsTrust(c, init, s, a);
    forall p | p in s'.passed
      ensures && p.deeds <= |s'.trust.deeds|
              && (p.handshake.clientId in init.approved || T.Granted(p.handshake.clientId) in s'.trust.deeds[..p.deeds])
    {
      if p in s.passed {
        assert s'.trust.deeds[..p.deeds] == s.trust.deeds[..p.deeds];
      } else {
        NewlyPassed(c, s, a, p);
        ApprovedIsTraced(init, s, p.handshake.clientId);
        assert s'.trust.deeds[..p.deeds] == s.trust.deeds;
      }
    }
  }

  lemma NewlyPassed(c: Codec<Message>, s: State, a: Step, p: Passed)
    requires p in Next(c, s, a).passed && p !in s.passed
    ensures IsApprovedNow(s, p.handshake) && p.deeds == |s.trust.deeds|
  {
    hide T.Next, C.Next, OpenSession, KeyOf, Touch, NewDevice, Reap, C.Received, CanDecide, IsApprovedNow;
  }

  lemma ApprovedIsTraced(init: TrustData, s: State, id: Str)
    requires T.Inv(init, s.trust) && SERVER in s.trust.memory && id in s.trust.memory[SERVER].approved
    ensures id in init.approved || T.Granted(id) in s.trust.deeds
  {
    hide WellFormed;
    assert T.IsCopy(s.trust, s.trust.memory[SERVER]);
  }

  // ---- The emission log and the connections ------------------------------------------

  /** The batches a source had emitted, in order. */
  function BatchesOf(log: seq<Emission>, source: Source): seq<Vec<Event>> {
    if |log| == 0 then []
    else
      var e := log[|log| - 1];
      BatchesOf(log[..|log| - 1], source) + if e.source == source then [e.batch] else []
  }

  function EmittedBy(s: State, i: nat): seq<Vec<Event>> {
    if i in s.conns then s.conns[i].core.emitted else []
  }

  /** The log is an interleaving of what the handlers emitted, batch by batch. */
  ghost predicate LogIsInterleaving(s: State) {
    forall i: nat :: BatchesOf(s.emitted, Iroh(i)) == EmittedBy(s, i)
  }

  lemma ConnEmits(c: Codec<Message>, conn: C.Conn, action: C.Action)
    ensures C.Next(c, conn, action).core.emitted ==
            if action.HandlerReads? && conn.core.handler.Serving? && action.live && Head(c, conn).Some? && Head(c, conn).value.Events?
            then conn.core.emitted + [Head(c, conn).value.events] else conn.core.emitted
  {
    hide Fits;
  }

  lemma NextKeepsInterleaving(c: Codec<Message>, s: State, a: Step)
    requires LogIsInterleaving(s)
    ensures LogIsInterleaving(Next(c, s, a))
  {
    hide Next, BatchesOf, EmittedBy;
    forall i: nat ensures BatchesOf(Next(c, s, a).emitted, Iroh(i)) == EmittedBy(Next(c, s, a), i) {
      assert BatchesOf(s.emitted, Iroh(i)) == EmittedBy(s, i);
      LogMoves(c, s, a, Iroh(i));
      ConnMoves(c, s, a, i);
    }
  }

  /** What a step adds to the batches of a source. */
  function Added(change: Change, source: Source): seq<Vec<Event>> {
    if change.Emits? && change.source == source then [change.batch] else []
  }

  lemma LogMoves(c: Codec<Message>, s: State, a: Step, source: Source)
    ensures BatchesOf(Next(c, s, a).emitted, source) == BatchesOf(s.emitted, source) + Added(ChangeOf(c, s, a), source)
  {
    hide Next, ChangeOf, Touch, Reap, WithSession;
    var s' := Next(c, s, a);
    NextChanges(c, s, a);
    if s'.emitted != s.emitted {
      assert s'.emitted[..|s'.emitted| - 1] == s.emitted;
    }
  }

  lemma ConnMoves(c: Codec<Message>, s: State, a: Step, i: nat)
    ensures EmittedBy(Next(c, s, a), i) == EmittedBy(s, i) + Added(ChangeOf(c, s, a), Iroh(i))
  {
    hide Next, C.Next, KeyOf, Head, Touch, Reap, WithSession;
    NextMovesConns(c, s, a);
    if i in Next(c, s, a).conns {
      NextMovesConn(c, s, a, i);
      if i in s.conns { ConnEmits(c, s.conns[i], ActionOf(s, a)); }
    }
  }
}
