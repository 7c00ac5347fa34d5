/** The main results about the whole server: what is true after any sequence of steps, of any
    parties, in any order, from any well-formed trust file. */
module SystemTheorems {
  import opened Wire
  import opened Postcard
  import opened Framing
  import opened Trust
  import opened Sessions
  import opened Lifetimes
  import opened System
  import opened SystemSafety
  import T = TrustSystem
  import C = Connection

  ghost predicate Inv(init: TrustData, s: State) {
    T.Inv(init, s.trust) && ConnsOk(s) && DevicesOk(s) && Evidence(s) && PassedOk(init, s) && LogIsInterleaving(s)
  }

  lemma InitInv(disk: Option<TrustData>, readable: bool)
    requires WellFormed(Reloaded(disk, EMPTY))
    ensures Inv(Reloaded(disk, EMPTY), Init(disk, readable))
  {
    hide WellFormed;
    var init := Reloaded(disk, EMPTY);
    assert EMPTY.approved == map[] && WellFormed(EMPTY) by { EmptyIsWellFormed(); }
    assert T.Inv(init, Init(disk, readable).trust);
  }

  lemma EmptyIsWellFormed()
    ensures WellFormed(EMPTY)
  {
  }

  lemma NextKeepsInv(c: Codec<Message>, init: TrustData, s: State, a: Step)
    requires Inv(init, s)
    ensures Inv(init, Next(c, s, a))
  {
    hide Next, T.Inv, ConnsOk, DevicesOk, Evidence, PassedOk, LogIsInterleaving;
    NextKeepsTrust(c, init, s, a);
    NextKeepsConnsOk(c, s, a);
    NextKeepsDevicesOk(c, s, a);
    NextKeepsEvidence(c, s, a);
    NextKeepsPassedOk(c, init, s, a);
    NextKeepsInterleaving(c, s, a);
  }

  lemma {:induction false} RunKeepsInv(c: Codec<Message>, init: TrustData, s: State, steps: seq<Step>)
    requires Inv(init, s)
    ensures Inv(init, Run(c, s, steps))
  {
    hide Next, Inv;
    if |steps| > 0 {
      RunKeepsInv(c, init, s, steps[..|steps| - 1]);
      NextKeepsInv(c, init, Run(c, s, steps[..|steps| - 1]), steps[|steps| - 1]);
    }
  }

  lemma Reachable(c: Codec<Message>, disk: Option<TrustData>, readable: bool, steps: seq<Step>)
    requires WellFormed(Reloaded(disk, EMPTY))
    ensures Inv(Reloaded(disk, EMPTY), Run(c, Init(disk, readable), steps))
  {
    hide Inv, Run, WellFormed;
    InitInv(disk, readable);
    RunKeepsInv(c, Reloaded(disk, EMPTY), Init(disk, readable), steps);
  }

  /** Every batch that ever reached a device came from a source whose handshake, for that very
      session, passed the approval check; and when it passed, the client had been approved in
      the file at the start or by an earlier approve. */
  lemma EmissionsAreAuthorised(c: Codec<Message>, disk: Option<TrustData>, readable: bool, steps: seq<Step>, e: Emission)
    returns (p: Passed)
    requires WellFormed(Reloaded(disk, EMPTY))
    requires e in Run(c, Init(disk, readable), steps).emitted
    ensures var init, s := Reloaded(disk, EMPTY), Run(c, Init(disk, readable), steps);
            && p in s.passed && p.source == e.source && KeyOf(p.handshake) == e.key
            && p.deeds <= |s.trust.deeds|
            && (p.handshake.clientId in init.approved
                || T.Granted(p.handshake.clientId) in s.trust.deeds[..p.deeds])
  {
    hide Run, WellFormed, T.Inv, ConnsOk, DevicesOk, LogIsInterleaving, KeyOf;
    Reachable(c, disk, readable, steps);
    var s := Run(c, Init(disk, readable), steps);
    assert KeyWasGranted(s, e.source, e.key);
    var h :| HasPassed(s, e.source, h) && KeyOf(h) == e.key;
    p :| p in s.passed && p.source == e.source && p.handshake == h;
  }

  /** When client ids have no colons, a client's events reach only devices that were made for
      that client and that device of its own - the device with the same id, or the same name where
      there is no id - with the metadata and the name of the handshake they were made for. */
  lemma DevicesAreIsolated(c: Codec<Message>, disk: Option<TrustData>, readable: bool, steps: seq<Step>, e: Emission, p: Passed)
    requires WellFormed(Reloaded(disk, EMPTY))
    requires e in Run(c, Init(disk, readable), steps).emitted
    requires p in Run(c, Init(disk, readable), steps).passed && p.source == e.source && KeyOf(p.handshake) == e.key
    requires forall made | made in Run(c, Init(disk, readable), steps).created :: ':' as int !in made.handshake.clientId
    requires ':' as int !in p.handshake.clientId
    ensures var s := Run(c, Init(disk, readable), steps);
            && e.serial < |s.created|
            && var h, d := s.created[e.serial].handshake, s.created[e.serial].device;
               && h.clientId == p.handshake.clientId
               && (if h.deviceId.Some? then h.deviceId.value else h.metadata.name)
                  == (if p.handshake.deviceId.Some? then p.handshake.deviceId.value else p.handshake.metadata.name)
               && d.metadata == h.metadata && d.name.hostname == h.clientHostname && d.name.device == h.metadata.name
  {
    hide Run, WellFormed, T.Inv, ConnsOk, Evidence, PassedOk, LogIsInterleaving;
    Reachable(c, disk, readable, steps);
    var s := Run(c, Init(disk, readable), steps);
    var h := s.created[e.serial].handshake;
    assert s.created[e.serial] in s.created;
    ColonFreeKeysAreUnique(h.clientId, DeviceId(h), p.handshake.clientId, DeviceId(p.handshake));
  }

  /** The events of two devices of one client never reach the same device of the server. */
  lemma OwnDevicesStayApart(c: Codec<Message>, disk: Option<TrustData>, readable: bool, steps: seq<Step>,
                            e: Emission, p: Passed, e': Emission, p': Passed)
    requires WellFormed(Reloaded(disk, EMPTY))
    requires var s := Run(c, Init(disk, readable), steps);
             && e in s.emitted && p in s.passed && p.source == e.source && KeyOf(p.handshake) == e.key
             && e' in s.emitted && p' in s.passed && p'.source == e'.source && KeyOf(p'.handshake) == e'.key
             && forall made | made in s.created :: ':' as int !in made.handshake.clientId
    requires ':' as int !in p.handshake.clientId && p'.handshake.clientId == p.handshake.clientId
    requires p.handshake.deviceId.Some? && p'.handshake.deviceId.Some? && p.handshake.deviceId != p'.handshake.deviceId
    ensures e.serial != e'.serial && e.key != e'.key
  {
    hide Run, WellFormed, KeyOf;
    DevicesAreIsolated(c, disk, readable, steps, e, p);
    DevicesAreIsolated(c, disk, readable, steps, e', p');
    SameSessionIff(p.handshake, p'.handshake);
  }

  /** For each connection, the batches in the log of all devices are, in order and whole, what
      its handler emitted, and those are the first events its client sent. While the handler
      serves, all that is missing is still on the stream. */
  lemma DeliveredInOrder(c: Codec<Message>, disk: Option<TrustData>, readable: bool, steps: seq<Step>, i: nat)
    requires WellFormed(Reloaded(disk, EMPTY))
    requires i in Run(c, Init(disk, readable), steps).conns
    ensures var s := Run(c, Init(disk, readable), steps);
            var conn := s.conns[i];
            && C.Flatten(BatchesOf(s.emitted, Iroh(i))) <= conn.core.sent
            && (!conn.core.handler.Closed? ==>
                  C.Flatten(BatchesOf(s.emitted, Iroh(i))) + C.EventsIn(conn.up) == conn.core.sent)
            && conn.core.client != C.Stopped(C.ExpectedPong) && conn.core.client != C.Stopped(C.ExpectedAck)
            && conn.core.handler != C.Closed(C.ExpectedHandshake) && conn.core.warnings == 0
  {
    hide Run, WellFormed, T.Inv, DevicesOk, Evidence, PassedOk, C.Flatten, C.EventsIn, BatchesOf;
    Reachable(c, disk, readable, steps);
    var s := Run(c, Init(disk, readable), steps);
    assert C.Inv(s.conns[i]);
    assert BatchesOf(s.emitted, Iroh(i)) == EmittedBy(s, i);
  }

  // ---- The UDP table -----------------------------------------------------------------

  function LastAnswer(answers: seq<Answer>, addr: Addr): Option<Answer> {
    if |answers| == 0 then None
    else if answers[|answers| - 1].addr == addr then Some(answers[|answers| - 1])
    else LastAnswer(answers[..|answers| - 1], addr)
  }

  /** The last handshake of an address, if it was welcomed. */
  function WelcomedBy(answers: seq<Answer>, addr: Addr): Option<Handshake> {
    match LastAnswer(answers, addr)
    case None => None
    case Some(a) => if a.Welcomed? then Some(a.handshake) else None
  }

  /** The key of that handshake. */
  function WelcomeOf(answers: seq<Answer>, addr: Addr): Option<Key> {
    match WelcomedBy(answers, addr)
    case None => None
    case Some(h) => Some(KeyOf(h))
  }

  function PeerKey(s: State, addr: Addr): Option<Key> {
    if addr in s.peers then Some(s.peers[addr]) else None
  }

  ghost predicate PeersFollowAnswers(s: State) {
    && (forall addr: Addr :: PeerKey(s, addr) == WelcomeOf(s.answers, addr))
    && (!s.udp.Idle? ==> LastAnswer(s.answers, s.udp.addr) == Some(Unanswered(s.udp.addr)))
  }

  lemma AnswerAdded(answers: seq<Answer>, a: Answer, addr: Addr)
    ensures LastAnswer(answers + [a], addr) == if a.addr == addr then Some(a) else LastAnswer(answers, addr)
  {
    assert (answers + [a])[..|answers + [a]| - 1] == answers;
  }

  predicate MovesUdp(a: Step) {
    a.Datagram? || a.UdpDecide? || a.UdpAnswerPending? || a.UdpOpen?
  }

  lemma OthersLeaveUdp(c: Codec<Message>, s: State, a: Step)
    requires !MovesUdp(a)
    ensures Next(c, s, a).udp == s.udp && Next(c, s, a).peers == s.peers && Next(c, s, a).answers == s.answers
  {
    hide T.Next, C.Next, OpenSession, KeyOf, CanDecide, IsApprovedNow, Touch, NewDevice, Reap, C.Received, Admits;
    hide BeginCheck, Decided, Serve, WithSession, OnDatagram, OnUdpDecide, OnUdpAnswerPending, OnUdpOpen;
  }

  /** How a step moves the UDP loop, its table and the record of answers. */
  lemma NextAnswers(c: Codec<Message>, s: State, a: Step)
    ensures var s' := Next(c, s, a);
            || (s'.peers == s.peers && s'.answers == s.answers
                && (s'.udp == s.udp || (!s.udp.Idle? && !s'.udp.Idle? && s'.udp.addr == s.udp.addr)))
            || (s.udp.Idle? && !s'.udp.Idle? && s'.peers == s.peers - {s'.udp.addr}
                && s'.answers == s.answers + [Unanswered(s'.udp.addr)])
            || (!s.udp.Idle? && s'.udp.Idle? && s'.peers == s.peers
                && (s'.answers == s.answers + [Deferred(s.udp.addr)] || s'.answers == s.answers + [TurnedAway(s.udp.addr)]))
            || (s.udp.Opening? && s'.udp.Idle? && s'.peers == s.peers[s.udp.addr := KeyOf(s.udp.handshake)]
                && s'.answers == s.answers + [Welcomed(s.udp.addr, s.udp.handshake)])
  {
    hide T.Next, C.Next, OpenSession, KeyOf, CanDecide, IsApprovedNow, Touch, NewDevice, Reap, C.Received, Admits;
    hide BeginCheck, Decided, Serve, WithSession, OnFrame, OnHandlerDecide, OnHandlerAnswerPending, OnHandlerOpen;
    if !MovesUdp(a) { OthersLeaveUdp(c, s, a); }
  }

  lemma NextKeepsPeers(c: Codec<Message>, s: State, a: Step)
    requires PeersFollowAnswers(s)
    ensures PeersFollowAnswers(Next(c, s, a))
  {
    hide Next, KeyOf, LastAnswer;
    var s' := Next(c, s, a);
    NextAnswers(c, s, a);
    forall addr: Addr ensures PeerKey(s', addr) == WelcomeOf(s'.answers, addr) {
      assert PeerKey(s, addr) == WelcomeOf(s.answers, addr);
      if |s'.answers| > |s.answers| {
        AnswerAdded(s.answers, s'.answers[|s.answers|], addr);
        if !s.udp.Idle? { AnswerAdded(s.answers, s'.answers[|s.answers|], s.udp.addr); }
      }
    }
    if !s'.udp.Idle? && |s'.answers| > |s.answers| {
      AnswerAdded(s.answers, s'.answers[|s.answers|], s'.udp.addr);
    }
  }

  /** After any run, an address is in the UDP table exactly when its last handshake was answered
      with an approval, and then with that handshake's session. */
  lemma {:induction false} PeersAreTheLastWelcomes(c: Codec<Message>, disk: Option<TrustData>, readable: bool, steps: seq<Step>)
    ensures PeersFollowAnswers(Run(c, Init(disk, readable), steps))
  {
    hide Next;
    if |steps| > 0 {
      PeersAreTheLastWelcomes(c, disk, readable, steps[..|steps| - 1]);
      NextKeepsPeers(c, Run(c, Init(disk, readable), steps[..|steps| - 1]), steps[|steps| - 1]);
    }
  }

  /** After any run, a datagram of events that the idle loop picks up is emitted exactly when the
      last handshake from its address was welcomed and that session is still live, and then on
      that session's device. */
  lemma DatagramEmitsIff(c: Codec<Message>, disk: Option<TrustData>, readable: bool, steps: seq<Step>, addr: Addr, es: Vec<Event>)
    requires Run(c, Init(disk, readable), steps).udp.Idle?
    ensures var s := Run(c, Init(disk, readable), steps);
            var welcome := WelcomeOf(s.answers, addr);
            Next(c, s, Datagram(addr, Events(es))).emitted ==
            if welcome.Some? && welcome.value in s.sessions
            then s.emitted + [Emission(Udp(addr), welcome.value, s.sessions[welcome.value].device.serial, es)]
            else s.emitted
  {
    hide Run, LastAnswer, Touch;
    PeersAreTheLastWelcomes(c, disk, readable, steps);
    assert PeerKey(Run(c, Init(disk, readable), steps), addr) == WelcomeOf(Run(c, Init(disk, readable), steps).answers, addr);
  }

  /** The batches of the datagrams from an address that came while its last handshake was
      welcomed and that session was live. */
  ghost function DatagramBatches(c: Codec<Message>, s: State, steps: seq<Step>, addr: Addr): seq<Vec<Event>> {
    if |steps| == 0 then []
    else
      var n := |steps| - 1;
      DatagramBatches(c, s, steps[..n], addr) + Accepted(Run(c, s, steps[..n]), steps[n], addr)
  }

  function Accepted(s: State, a: Step, addr: Addr): seq<Vec<Event>> {
    if !a.Datagram? || a.addr != addr || !a.message.Events? || !s.udp.Idle? then []
    else
      match WelcomeOf(s.answers, addr)
      case None => []
      case Some(key) => if key in s.sessions then [a.message.events] else []
  }

  /** In the log of all devices the batches of a UDP peer are those of its accepted datagrams, in
      order and whole. */
  lemma {:induction false} DatagramsAreLogged(c: Codec<Message>, disk: Option<TrustData>, readable: bool, steps: seq<Step>, addr: Addr)
    ensures BatchesOf(Run(c, Init(disk, readable), steps).emitted, Udp(addr)) == DatagramBatches(c, Init(disk, readable), steps, addr)
  {
    hide Next, BatchesOf, Accepted, Added, ChangeOf, PeersFollowAnswers;
    if |steps| == 0 {
      NothingLogged(Udp(addr));
    } else {
      var n := |steps| - 1;
      var s := Run(c, Init(disk, readable), steps[..n]);
      DatagramsAreLogged(c, disk, readable, steps[..n], addr);
      PeersAreTheLastWelcomes(c, disk, readable, steps[..n]);
      LogMoves(c, s, steps[n], Udp(addr));
      AcceptedIsAdded(c, s, steps[n], addr);
    }
  }

  lemma NothingLogged(source: Source)
    ensures BatchesOf([], source) == []
  {
  }

  lemma AcceptedIsAdded(c: Codec<Message>, s: State, a: Step, addr: Addr)
    requires PeersFollowAnswers(s)
    ensures Added(ChangeOf(c, s, a), Udp(addr)) == Accepted(s, a, addr)
  {
    hide KeyOf, LastAnswer, Head;
    assert PeerKey(s, addr) == WelcomeOf(s.answers, addr);
  }

  // ---- Lifetimes ---------------------------------------------------------------------

  /** The last activity of a key's session, if it has one. */
  function LifeOf(s: State, k: Key): Option<nat> {
    if k in s.sessions then Some(s.sessions[k].lastActive) else None
  }

  /** What a step means for the session of a key. */
  function BeatOf(c: Codec<Message>, s: State, a: Step, k: Key): seq<Beat> {
    match ChangeOf(c, s, a)
    case Unchanged => []
    case Refreshed(key) => if key == k then [Active(s.now)] else []
    case Emits(_, key, _) => if key == k then [Active(s.now)] else []
    case Opens(_, h, created) =>
      if KeyOf(h) == k && Admits(s.sessions, h, created) then [Opened(s.now)] else []
    case Reaps => [Pass(s.now)]
  }

  ghost function Beats(c: Codec<Message>, s: State, steps: seq<Step>, k: Key): seq<Beat> {
    if |steps| == 0 then []
    else
      var n := |steps| - 1;
      Beats(c, s, steps[..n], k) + BeatOf(c, Run(c, s, steps[..n]), steps[n], k)
  }

  lemma NextBeat(c: Codec<Message>, s: State, a: Step, k: Key)
    ensures LifeOf(Next(c, s, a), k) ==
            if |BeatOf(c, s, a, k)| == 0 then LifeOf(s, k) else After(LifeOf(s, k), BeatOf(c, s, a, k)[0])
  {
    hide Next, KeyOf, ChangeOf, NewDevice;
    NextChanges(c, s, a);
  }

  /** Over any run the session of a key lives and dies by its beats alone. */
  lemma {:induction false} SessionsLiveByTheirBeats(c: Codec<Message>, s: State, steps: seq<Step>, k: Key)
    ensures LifeOf(Run(c, s, steps), k) == Life(LifeOf(s, k), Beats(c, s, steps, k))
  {
    hide Next, BeatOf, After, LifeOf;
    if |steps| > 0 {
      var n := |steps| - 1;
      SessionsLiveByTheirBeats(c, s, steps[..n], k);
      NextBeat(c, Run(c, s, steps[..n]), steps[n], k);
      AtMostOneBeat(c, Run(c, s, steps[..n]), steps[n], k);
      var beats, b := Beats(c, s, steps, k), BeatOf(c, Run(c, s, steps[..n]), steps[n], k);
      if |b| == 0 {
        assert beats == Beats(c, s, steps[..n], k);
      } else {
        assert b == [b[0]] && beats[..|beats| - 1] == Beats(c, s, steps[..n], k);
      }
    }
  }

  lemma AtMostOneBeat(c: Codec<Message>, s: State, a: Step, k: Key)
    ensures |BeatOf(c, s, a, k)| <= 1
  {
    hide ChangeOf;
  }

  /** The beats that the server notices. */
  function Arrivals(beats: seq<Beat>): seq<Beat> {
    if |beats| == 0 then []
    else
      var b := beats[|beats| - 1];
      Arrivals(beats[..|beats| - 1]) + if b.Lost? then [] else [b]
  }

  lemma {:induction false} LostBeatsDoNotShow(last: Option<nat>, beats: seq<Beat>)
    ensures Life(last, Arrivals(beats)) == Life(last, beats)
  {
    hide After;
    if |beats| > 0 {
      var n := |beats| - 1;
      LostBeatsDoNotShow(last, beats[..n]);
      var arrived := Arrivals(beats);
      if beats[n].Lost? {
        assert arrived == Arrivals(beats[..n]);
        assert After(Life(last, beats[..n]), beats[n]) == Life(last, beats[..n]) by { LostChangesNothing(Life(last, beats[..n]), beats[n]); }
      } else {
        assert arrived[..|arrived| - 1] == Arrivals(beats[..n]);
      }
    }
  }

  lemma LostChangesNothing(last: Option<nat>, b: Beat)
    requires b.Lost?
    ensures After(last, b) == last
  {
  }

  /** A run of the whole server in which a live session is kept up by nothing but keepalives, of
      which at most 88 in a row are lost, ends with the session live and on the same device. */
  lemma KeepalivesKeepTheSession(c: Codec<Message>, s: State, steps: seq<Step>, k: Key, beats: seq<Beat>)
    requires k in s.sessions
    requires OnlyKeepalives(s.sessions[k].lastActive, beats) && LosesAtMost(beats, 88)
    requires Beats(c, s, steps, k) == Arrivals(beats)
    ensures k in Run(c, s, steps).sessions && Run(c, s, steps).sessions[k].device == s.sessions[k].device
  {
    hide Run, Beats, OnlyKeepalives, LosesAtMost, Life, Arrivals;
    SessionsLiveByTheirBeats(c, s, steps, k);
    LostBeatsDoNotShow(LifeOf(s, k), beats);
    KeptAlive(s.sessions[k].lastActive, beats);
    KeepalivesDoNotOpen(s.sessions[k].lastActive, beats);
    SameDeviceUnlessReopened(c, s, steps, k);
  }

  lemma {:induction false} KeepalivesDoNotOpen(start: nat, beats: seq<Beat>)
    requires OnlyKeepalives(start, beats)
    ensures forall b | b in Arrivals(beats) :: !b.Opened?
  {
    hide Pings;
    if |beats| > 0 {
      KeepalivesDoNotOpen(start, beats[..|beats| - 1]);
    }
  }

  /** A session that is there at the end of a run without having been opened again still has
      the device it had. */
  lemma {:induction false} SameDeviceUnlessReopened(c: Codec<Message>, s: State, steps: seq<Step>, k: Key)
    requires k in s.sessions && k in Run(c, s, steps).sessions
    requires forall b | b in Beats(c, s, steps, k) :: !b.Opened?
    ensures Run(c, s, steps).sessions[k].device == s.sessions[k].device
  {
    hide Next, BeatOf;
    if |steps| > 0 {
      var n := |steps| - 1;
      var before := Run(c, s, steps[..n]);
      var b := BeatOf(c, before, steps[n], k);
      NextBeat(c, before, steps[n], k);
      assert forall x | x in b :: x in Beats(c, s, steps, k);
      assert |b| > 0 ==> b[0] in b;
      assert k in before.sessions;
      SameDeviceUnlessReopened(c, s, steps[..n], k);
      NextKeepsDevice(c, before, steps[n], k);
    }
  }

  // ---- An idle session ---------------------------------------------------------------

  lemma {:induction false} PassesBefore(first: nat, n: nat, m: nat)
    requires m <= n
    ensures |Passes(first, n)| == n && Passes(first, n)[..m] == Passes(first, m)
    decreases n
  {
    if m < n {
      PassesBefore(first, n - 1, m);
    } else {
      PassesCount(first, n);
    }
  }

  lemma {:induction false} PassesCount(first: nat, n: nat)
    ensures |Passes(first, n)| == n
  {
    if n > 0 { PassesCount(first, n - 1); }
  }

  /** In a run of the whole server in which nothing is heard of a session but reaper passes come by
      every 60 seconds, it is there exactly as long as no pass came 900 seconds after its last
      activity, or later. */
  lemma IdleSessionIsThereIff(c: Codec<Message>, s: State, steps: seq<Step>, k: Key, first: nat, n: nat)
    requires k in s.sessions && s.sessions[k].lastActive <= first <= s.sessions[k].lastActive + PASS_INTERVAL
    requires Beats(c, s, steps, k) == Passes(first, n)
    ensures k in Run(c, s, steps).sessions
            <==> n == 0 || first + (n - 1) * PASS_INTERVAL < s.sessions[k].lastActive + IDLE_LIMIT
  {
    hide Run, Beats, Passes, Life;
    SessionsLiveByTheirBeats(c, s, steps, k);
    IdleSessionGoesWithin960(s.sessions[k].lastActive, first, n);
  }

  /** And the step that takes it is a reaper pass at least 900 and less than 960 seconds after. */
  lemma {:induction false} IdleSessionIsTaken(c: Codec<Message>, s: State, steps: seq<Step>, k: Key, first: nat, n: nat)
    returns (j: nat)
    requires k in s.sessions && k !in Run(c, s, steps).sessions
    requires s.sessions[k].lastActive <= first <= s.sessions[k].lastActive + PASS_INTERVAL
    requires Beats(c, s, steps, k) == Passes(first, n)
    ensures j < |steps| && steps[j].ReaperPass?
    ensures k in Run(c, s, steps[..j]).sessions && k !in Run(c, s, steps[..j + 1]).sessions
    ensures s.sessions[k].lastActive + 900 * SECOND <= Run(c, s, steps[..j]).now < s.sessions[k].lastActive + 960 * SECOND
    decreases |steps|
  {
    hide Next, BeatOf, Passes;
    j := |steps| - 1;
    var before, start := Run(c, s, steps[..j]), s.sessions[k].lastActive;
    var beats, b := Beats(c, s, steps[..j], k), BeatOf(c, before, steps[j], k);
    assert Beats(c, s, steps, k) == beats + b;
    PassesCount(first, n);
    PassesBefore(first, n, |beats|);
    assert beats == Passes(first, n)[..|beats|];
    IdleSessionIsThereIff(c, s, steps[..j], k, first, |beats|);
    if k in before.sessions {
      TakenByPass(c, before, steps[j], k);
      AtMostOneBeat(c, before, steps[j], k);
      assert b == [b[0]] && b[0] == Passes(first, n)[|beats|];
      LastPass(first, n);
      IdleSessionIsThereIff(c, s, steps, k, first, n);
      assert steps[..j + 1] == steps;
    } else {
      j := IdleSessionIsTaken(c, s, steps[..j], k, first, |beats|);
      assert steps[..|steps| - 1][..j] == steps[..j] && steps[..|steps| - 1][..j + 1] == steps[..j + 1];
    }
  }

  lemma LastPass(first: nat, n: nat)
    ensures |Passes(first, n)| == n
    ensures n > 0 ==> Passes(first, n)[n - 1] == Pass(first + (n - 1) * PASS_INTERVAL)
  {
    PassesCount(first, n);
    if n > 0 { PassesCount(first, n - 1); }
  }

  lemma TakenByPass(c: Codec<Message>, s: State, a: Step, k: Key)
    requires k in s.sessions && k !in Next(c, s, a).sessions
    ensures a.ReaperPass? && BeatOf(c, s, a, k) == [Pass(s.now)]
  {
    hide Next;
    NextKeepsDevice(c, s, a, k);
  }

  // ---- Ordinals ----------------------------------------------------------------------

  /** No reaper pass of the run removes a session of the host. */
  ghost predicate SparesHost(c: Codec<Message>, s: State, steps: seq<Step>, host: Str) {
    forall i, k | 0 <= i < |steps| && steps[i].ReaperPass? && k in Run(c, s, steps[..i]).sessions
                  && Run(c, s, steps[..i]).sessions[k].hostname == host ::
      Fresh(Run(c, s, steps[..i]).sessions[k], Run(c, s, steps[..i]).now)
  }

  lemma NextKeepsOrdinals(c: Codec<Message>, s: State, a: Step, host: Str)
    requires Dense(Ranks(s.sessions, host))
    requires a.ReaperPass? ==> forall k | k in s.sessions && s.sessions[k].hostname == host :: Fresh(s.sessions[k], s.now)
    ensures Dense(Ranks(Next(c, s, a).sessions, host))
  {
    hide Next, KeyOf, Dense, Touch, OpenSession;
    NextChanges(c, s, a);
    match ChangeOf(c, s, a)
    case Unchanged =>
    case Refreshed(key) => TouchKeepsRanks(s.sessions, key, s.now, host);
    case Emits(_, key, _) => TouchKeepsRanks(s.sessions, key, s.now, host);
    case Opens(_, h, created) => OpenKeepsDense(s.sessions, h, s.now, created, |s.created|, host);
    case Reaps => ReapSparing(s, a, host);
  }

  lemma ReapSparing(s: State, a: Step, host: Str)
    requires forall k | k in s.sessions && s.sessions[k].hostname == host :: Fresh(s.sessions[k], s.now)
    ensures Ranks(Reap(s.sessions, s.now), host) == Ranks(s.sessions, host)
  {
  }

  /** As long as none of a host's sessions has been removed, its live sessions, over both
      transports and despite devices that could not be created, carry the ordinals 1 to n, each
      once. */
  lemma {:induction false} OrdinalsAreDense(c: Codec<Message>, disk: Option<TrustData>, readable: bool, steps: seq<Step>, host: Str)
    requires SparesHost(c, Init(disk, readable), steps, host)
    ensures Dense(Ranks(Run(c, Init(disk, readable), steps).sessions, host))
  {
    hide Next, Dense, Ranks;
    if |steps| == 0 {
      NoRanks(host);
    } else {
      var n := |steps| - 1;
      var s := Init(disk, readable);
      forall i, k | 0 <= i < n && steps[..n][i].ReaperPass? && k in Run(c, s, steps[..n][..i]).sessions
                    && Run(c, s, steps[..n][..i]).sessions[k].hostname == host
        ensures Fresh(Run(c, s, steps[..n][..i]).sessions[k], Run(c, s, steps[..n][..i]).now)
      {
        assert steps[..n][..i] == steps[..i];
      }
      OrdinalsAreDense(c, disk, readable, steps[..n], host);
      NextKeepsOrdinals(c, Run(c, s, steps[..n]), steps[n], host);
    }
  }

  lemma NoRanks(host: Str)
    ensures Dense(Ranks(map[], host))
  {
    assert Ranks(map[], host) == map[];
  }

  lemma {:induction false} RunKeepsDevicesOk(c: Codec<Message>, disk: Option<TrustData>, readable: bool, steps: seq<Step>)
    ensures DevicesOk(Run(c, Init(disk, readable), steps))
  {
    hide Next, DevicesOk;
    if |steps| == 0 {
      NoDevices(disk, readable);
    } else {
      RunKeepsDevicesOk(c, disk, readable, steps[..|steps| - 1]);
      NextKeepsDevicesOk(c, Run(c, Init(disk, readable), steps[..|steps| - 1]), steps[|steps| - 1]);
    }
  }

  lemma NoDevices(disk: Option<TrustData>, readable: bool)
    ensures DevicesOk(Init(disk, readable))
  {
  }

  lemma SessionsAreKeyed(s: State)
    requires DevicesOk(s)
    ensures Keyed(s.sessions)
  {
    hide KeyOf;
    forall k | k in s.sessions ensures exists h: Handshake :: KeyOf(h) == k {
      assert MadeForKey(s.created, s.sessions[k].device.serial, k);
      assert KeyOf(s.created[s.sessions[k].device.serial].handshake) == k;
    }
  }

  /** After any run that leaves a host's ordinals dense, a reaper pass keeps those of all the
      sessions that may be opened later apart exactly when each session of the host that it
      removes has a higher ordinal than each one it leaves. */
  lemma PassKeepsApartIff(c: Codec<Message>, disk: Option<TrustData>, readable: bool, steps: seq<Step>, host: Str)
    requires Dense(Ranks(Run(c, Init(disk, readable), steps).sessions, host))
    ensures var s := Run(c, Init(disk, readable), steps);
            var ranks := Ranks(s.sessions, host);
            StaysApart(Next(c, s, ReaperPass).sessions, host) <==>
            forall j, k | j in ranks && k in ranks && Fresh(s.sessions[j], s.now) && !Fresh(s.sessions[k], s.now) ::
              ranks[j] < ranks[k]
  {
    hide Run, Dense, DevicesOk, Keyed, StaysApart, OnFrame, OnDatagram, OnUdpDecide, OnUdpOpen, OnHandlerDecide, OnHandlerOpen;
    var s := Run(c, Init(disk, readable), steps);
    RunKeepsDevicesOk(c, disk, readable, steps);
    SessionsAreKeyed(s);
    StaysApartIff(s.sessions, s.now, host);
  }
}
