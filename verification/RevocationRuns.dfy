/** Where a conversation is there, a continuation in which the client is heard; and a run in which
    a client is revoked and goes on. */
module RevocationRuns {
  import opened Wire
  import opened Postcard
  import opened Framing
  import opened Protocol
  import opened Trust
  import opened Sessions
  import opened System
  import opened SystemSafety
  import opened SystemTheorems
  import opened SystemProgress
  import opened SystemService
  import opened ServerSteps
  import opened Revocation
  import S = Server
  import T = TrustSystem
  import C = Connection
  import B = ByteConnection
  import D = Durability

  /** What a client streams can be read, and so can an answer with short texts. */
  ghost predicate SmallFits(c: Codec<Message>) {
    (forall m | C.Streamed(m) :: Fits(c, m)) && Fits(c, Ack(Approved, [], []))
  }

  lemma HeardThrough(c: Codec<Message>, s: State, t: State, a: Step, id: Str)
    requires Leads(c, s, t) && Ungranted(s.trust, Next(c, t, a).trust, id) && EmitsFor(c, t, a, id)
    ensures StillHeard(c, s, id)
  {
    hide Next, Run, Ungranted, EmitsFor;
    var steps :| Run(c, s, steps) == t;
    assert IsHeard(c, s, steps, a, id);
  }

  // ---- A UDP peer --------------------------------------------------------------------

  lemma PeerIsHeard(c: Codec<Message>, s: State, addr: Addr, h: Handshake)
    requires s.udp.Idle? && PeersFollowAnswers(s) && WelcomedBy(s.answers, addr) == Some(h) && KeyOf(h) in s.sessions
    ensures EmitsFor(c, s, Datagram(addr, Events([])), h.clientId)
    ensures Next(c, s, Datagram(addr, Events([]))).trust == s.trust
  {
    hide KeyOf, Touch, LastAnswer, OnFrame, OnUdpDecide, OnUdpOpen, OnHandlerDecide, OnHandlerOpen;
    assert PeerKey(s, addr) == WelcomeOf(s.answers, addr) == Some(KeyOf(h));
  }

  lemma NothingGranted(t: T.State, id: Str)
    ensures Ungranted(t, t, id)
  {
  }

  lemma GrantedNothing(t: T.State, t': T.State, id: Str)
    requires GrantsNothing(t.deeds, t'.deeds)
    ensures Ungranted(t, t', id)
  {
  }

  /** The UDP loop opens the session and hears its peer. */
  lemma OpeningPeerIsHeard(c: Codec<Message>, s: State)
    requires s.udp.Opening? && PeersFollowAnswers(s)
    ensures StillHeard(c, s, s.udp.handshake.clientId)
  {
    hide Next, Leads, KeyOf, PeersFollowAnswers, LastAnswer;
    var addr, h := s.udp.addr, s.udp.handshake;
    var t := Next(c, s, UdpOpen(true));
    LeadsNowhere(c, s);
    LeadsOn(c, s, s, UdpOpen(true));
    SessionIsOpened(c, s, true);
    NextKeepsPeers(c, s, UdpOpen(true));
    AnswerAdded(s.answers, Welcomed(addr, h), addr);
    OpenedIsLive(s, h);
    PeerIsHeard(c, t, addr, h);
    NothingGranted(s.trust, h.clientId);
    HeardThrough(c, s, t, Datagram(addr, Events([])), h.clientId);
  }

  lemma OpenedIsLive(s: State, h: Handshake)
    ensures KeyOf(h) in OpenSession(s.sessions, h, s.now, true, |s.created|) && Admits(s.sessions, h, true)
  {
    hide KeyOf, NewDevice;
  }

  // ---- Making a session live ---------------------------------------------------------

  /** The state of the server when its UDP loop waits. */
  ghost predicate AtRest(s: State) {
    Sound(s) && Undisturbed(s)
  }

  /** What stays for those who wait: conversations, peers and sessions. */
  ghost predicate Stays(s: State, t: State, addr: Addr, id: Str) {
    && (forall i | i in s.conns && s.conns[i].core.handler.Serving? :: i in t.conns && t.conns[i] == s.conns[i])
    && WelcomedBy(t.answers, addr) == WelcomedBy(s.answers, addr)
    && Ungranted(s.trust, t.trust, id)
  }

  /** A handler that is opening opens. */
  lemma HandlerMakesLive(c: Codec<Message>, s: State, i: nat, key: Key, addr: Addr, id: Str)
    requires i in s.conns && ConnOpens(s.conns[i], key)
    ensures var t := Next(c, s, HandlerOpen(i, true, [], []));
            key in t.sessions && t.trust == s.trust && t.udp == s.udp && Stays(s, t, addr, id)
  {
    hide KeyOf, OnFrame, OnDatagram, OnUdpDecide, OnUdpOpen, OnHandlerDecide, C.Next, NewDevice, LastAnswer;
    NothingGranted(s.trust, id);
  }

  function Surroundings(s: State, text: Str): S.Surroundings {
    S.Surroundings(s.now, true, true, true, text, text, text)
  }

  lemma AnswersElsewhere(answers: seq<Answer>, src: Addr, last: Answer, addr: Addr)
    requires src != addr && last.addr == src
    ensures WelcomedBy(answers + [Unanswered(src)] + [last], addr) == WelcomedBy(answers, addr)
  {
    hide LastAnswer;
    AnswerAdded(answers, Unanswered(src), addr);
    AnswerAdded(answers + [Unanswered(src)], last, addr);
  }

  /** A handshake of an approved client by datagram makes its session live. */
  lemma WelcomeMakesLive(c: Codec<Message>, s: State, src: Addr, h: Handshake, addr: Addr, id: Str) returns (t: State)
    requires AtRest(s) && src != addr && h.clientId in Known(s, true).approved
    ensures Leads(c, s, t) && AtRest(t) && KeyOf(h) in t.sessions && Stays(s, t, addr, id)
  {
    hide Next, KeyOf, Undisturbed, Sound, LastAnswer, S.Handled;
    var at := Surroundings(s, h.clientId);
    UndisturbedMemory(s);
    WelcomeAgrees(c, s, src, h, at);
    var steps := StepsFor(s, src, Hello(h), at);
    t := Run(c, s, steps);
    hide Run;
    assert Leads(c, s, t);
    LeadsKeepsSound(c, s, t);
    HandledIsLive(TablesOf(s), src, h, at);
    AnswersElsewhere(s.answers, src, if Admits(s.sessions, h, true) then Welcomed(src, h) else TurnedAway(src), addr);
    assert s.trust.deeds == t.trust.deeds;
    assert Ungranted(s.trust, t.trust, id) by { NothingGranted(s.trust, id); }
  }

  lemma UndisturbedMemory(s: State)
    requires AtRest(s)
    ensures SERVER in s.trust.memory && Undisturbed(s)
  {
  }

  lemma HandledIsLive(t: S.Tables, src: Addr, h: Handshake, at: S.Surroundings)
    requires at.creatable && h.clientId in Reloaded(ReadFrom(t.file, at.readable), t.known).approved
    ensures KeyOf(h) in S.Handled(t, src, Some(Hello(h)), at).sessions
  {
    hide KeyOf, NewDevice;
  }

  /** An administrator's command, with nothing in between. */
  lemma AdminActs(c: Codec<Message>, s: State, request: Request, choice: Str) returns (t: State, call: T.Call)
    requires T.NobodySaves(s.trust) && SERVER in s.trust.memory && s.trust.disk.Some?
    requires T.Settled(s.trust.disk.value, request, choice) && !request.IsApproved?
    ensures call.request == request && call.choice == choice && call.pid == SERVER
    ensures Leads(c, s, t) && t == s.(trust := T.Executed(s.trust, call, s.trust.disk.value, true))
  {
    hide Next, T.Next, Leads, ValidUtf8;
    var n := D.SomeAdminIsFree(s.trust.ops.Keys);
    var d := s.trust.disk.value;
    call := T.Call(T.Admin(n), SERVER, request, choice);
    T.UndisturbedReload(s.trust, call, true);
    T.UndisturbedExecution(s.trust, call, d, true);
    LeadsNowhere(c, s);
    var t1 := StoreLeads(c, s, s, T.Begin(T.Admin(n), SERVER, request));
    var t2 := StoreLeads(c, s, t1, T.ReadFile(T.Admin(n), true));
    var t3 := StoreLeads(c, s, t2, T.Install(T.Admin(n)));
    assert t3.trust.ops == s.trust.ops[T.Admin(n) := T.Op(SERVER, request, T.Ready)];
    var t4 := StoreLeads(c, s, t3, T.Execute(T.Admin(n), choice));
    t := StoreLeads(c, s, t4, T.Save(T.Admin(n), true));
  }

  /** An administrator approves a pending client. */
  lemma AdminApproves(c: Codec<Message>, s: State, who: Str) returns (t: State)
    requires AtRest(s) && s.trust.disk.Some? && who in s.trust.disk.value.pending
    ensures Leads(c, s, t) && AtRest(t) && t == s.(trust := t.trust)
    ensures t.trust.disk.Some? && who in t.trust.disk.value.approved
    ensures t.trust.deeds == s.trust.deeds + [T.Granted(who)]
  {
    hide Next, T.Next, Leads, Sound, T.NobodySaves, ValidUtf8;
    var call;
    assert Resolves(s.trust.disk.value.pending.Keys, who, who);
    t, call := AdminActs(c, s, Approve(who, who), who);
    LeadsKeepsSound(c, s, t);
    SameOpsNobodySaves(s.trust, t.trust);
  }

  lemma SameOpsNobodySaves(t: T.State, t': T.State)
    requires T.NobodySaves(t) && t'.ops == t.ops
    ensures T.NobodySaves(t')
  {
  }

  lemma StoreLeads(c: Codec<Message>, s: State, t: State, a: T.Step) returns (u: State)
    requires Leads(c, s, t) && T.StoreOnly(t.trust, a)
    ensures Leads(c, s, u) && u == t.(trust := T.Next(t.trust, a))
  {
    hide Next, T.Next, Leads, T.StoreOnly;
    LeadsOn(c, s, t, Store(a));
    StoreSteps(c, t, a);
    u := Next(c, t, Store(a));
  }

  /** Another client asks, is approved, and opens the session. */
  lemma OtherMakesLive(c: Codec<Message>, s: State, h: Handshake, addr: Addr, id: Str) returns (t: State)
    requires AtRest(s) && h.clientId != id
    ensures Leads(c, s, t) && AtRest(t) && KeyOf(h) in t.sessions && Stays(s, t, addr, id)
  {
    hide Next, KeyOf, Sound, Leads, LastAnswer, WithPending;
    var src, at := addr + 1, Surroundings(s, h.clientId);
    if h.clientId in Known(s, true).approved {
      t := WelcomeMakesLive(c, s, src, h, addr, id);
    } else {
      var u := AsksToBePending(c, s, src, h, addr);
      var v := AdminApproves(c, u, h.clientId);
      LeadsFar(c, s, u, v);
      t := WelcomeMakesLive(c, v, src, h, addr, id);
      LeadsFar(c, s, v, t);
      OthersGranted(s.trust, v.trust, h.clientId, id);
      UngrantedJoins(s.trust, v.trust, t.trust, id);
    }
  }

  lemma OthersGranted(t: T.State, t': T.State, who: Str, id: Str)
    requires t'.deeds == t.deeds + [T.Requested(who)] + [T.Granted(who)] && who != id
    ensures Ungranted(t, t', id)
  {
    assert t'.deeds[|t.deeds|..] == [T.Requested(who), T.Granted(who)];
  }

  /** A handshake by datagram of a client that is not approved puts it among the pending ones. */
  lemma AsksToBePending(c: Codec<Message>, s: State, src: Addr, h: Handshake, addr: Addr) returns (t: State)
    requires AtRest(s) && src != addr && h.clientId !in Known(s, true).approved
    ensures Leads(c, s, t) && AtRest(t) && t.conns == s.conns && WelcomedBy(t.answers, addr) == WelcomedBy(s.answers, addr)
    ensures t.trust.disk.Some? && h.clientId in t.trust.disk.value.pending
    ensures t.trust.deeds == s.trust.deeds + [T.Requested(h.clientId)]
  {
    hide Next, KeyOf, Undisturbed, Sound, LastAnswer, S.Handled;
    var at := Surroundings(s, h.clientId);
    UndisturbedMemory(s);
    RegistrationAgrees(c, s, src, h, at);
    var steps := StepsFor(s, src, Hello(h), at);
    t := Run(c, s, steps);
    hide Run;
    assert Leads(c, s, t);
    LeadsKeepsSound(c, s, t);
    HandledIsPending(TablesOf(s), src, h, at);
    AnswersElsewhere(s.answers, src, Deferred(src), addr);
  }

  lemma HandledIsPending(t: S.Tables, src: Addr, h: Handshake, at: S.Surroundings)
    requires at.writable && h.clientId !in Reloaded(ReadFrom(t.file, at.readable), t.known).approved
    ensures var t' := S.Handled(t, src, Some(Hello(h)), at); t'.file.Some? && h.clientId in t'.file.value.pending
  {
    hide KeyOf;
  }

  /** A session that is live or can become so is made live. */
  lemma MakesLive(c: Codec<Message>, s: State, key: Key, addr: Addr, id: Str) returns (t: State)
    requires AtRest(s) && CanLive(s, key, id)
    ensures Leads(c, s, t) && AtRest(t) && key in t.sessions && Stays(s, t, addr, id)
  {
    hide Next, KeyOf, Sound, Leads, LastAnswer;
    t := s;
    LeadsNowhere(c, s);
    NothingGranted(s.trust, id);
    if key !in s.sessions {
      if i :| i in s.conns && ConnOpens(s.conns[i], key) {
        HandlerMakesLive(c, s, i, key, addr, id);
        LeadsOn(c, s, s, HandlerOpen(i, true, [], []));
        t := Next(c, s, HandlerOpen(i, true, [], []));
        LeadsKeepsSound(c, s, t);
      } else {
        var h: Handshake :| IsOther(h, key, id);
        t := OtherMakesLive(c, s, h, addr, id);
      }
    }
  }

  /** From any state to rest, with what waits as it was. */
  lemma ComesToRest(c: Codec<Message>, s: State, key: Key, id: Str) returns (t: State)
    requires Sound(s) && CanLive(s, key, id)
    ensures Leads(c, s, t) && AtRest(t) && CanLive(t, key, id) && t.conns == s.conns && Ungranted(s.trust, t.trust, id)
    ensures forall addr: Addr | WelcomedBy(s.answers, addr).Some? :: WelcomedBy(t.answers, addr) == WelcomedBy(s.answers, addr)
  {
    hide Next, KeyOf, Leads, WelcomedBy, PeersFollowAnswers, ConnsOk, D.ProcessesRun;
    t := UdpGetsIdle(c, s);
    GrantedNothing(s.trust, t.trust, id);
  }

  lemma PeerConversationIsHeard(c: Codec<Message>, s: State, addr: Addr, id: Str)
    requires Sound(s) && PeerCanEmit(s, addr, id)
    ensures StillHeard(c, s, id)
  {
    hide Next, KeyOf, Leads, WelcomedBy, PeersFollowAnswers, ConnsOk, D.ProcessesRun, CanLive, ThreadsOk, T.NobodySaves;
    var h := WelcomedBy(s.answers, addr).value;
    var t := ComesToRest(c, s, KeyOf(h), id);
    var u := MakesLive(c, t, KeyOf(h), addr, id);
    LeadsFar(c, s, t, u);
    UngrantedJoins(s.trust, t.trust, u.trust, id);
    PeerIsHeard(c, u, addr, h);
    HeardThrough(c, s, u, Datagram(addr, Events([])), id);
  }

  // ---- A connection ------------------------------------------------------------------

  /** A handler that serves a live session. */
  predicate ServesLive(s: State, i: nat, h: Handshake) {
    i in s.conns && s.conns[i].core.handler == C.Serving(h) && KeyOf(h) in s.sessions
  }

  /** Reading a ping goes on to the next message. */
  lemma PingIsRead(c: Codec<Message>, s: State, i: nat, h: Handshake)
    requires ServesLive(s, i, h) && |s.conns[i].up| > 0 && s.conns[i].up[0].Ping? && Fits(c, Ping)
    ensures var t := Next(c, s, Frame(i));
            ServesLive(t, i, h) && t.conns[i].up == s.conns[i].up[1..] && t.trust == s.trust
  {
    hide KeyOf, Fits, OnDatagram, OnUdpDecide, OnUdpOpen, OnHandlerDecide, OnHandlerOpen;
    assert Head(c, s.conns[i]) == Some(Ping);
    assert s.conns[i].up[1..] + [] == s.conns[i].up[1..];
  }

  lemma EventsAreEmitted(c: Codec<Message>, s: State, i: nat, h: Handshake)
    requires ServesLive(s, i, h) && |s.conns[i].up| > 0 && s.conns[i].up[0].Events? && Fits(c, s.conns[i].up[0])
    ensures EmitsFor(c, s, Frame(i), h.clientId) && Next(c, s, Frame(i)).trust == s.trust
  {
    hide KeyOf, Fits, Touch, OnDatagram, OnUdpDecide, OnUdpOpen, OnHandlerDecide, OnHandlerOpen;
    assert Head(c, s.conns[i]) == Some(s.conns[i].up[0]);
  }

  /** Events on the stream are heard after what stands before them. */
  lemma {:induction false} StreamIsHeard(c: Codec<Message>, s: State, t: State, i: nat, h: Handshake)
    requires SmallFits(c) && Leads(c, s, t) && Ungranted(s.trust, t.trust, h.clientId)
    requires ServesLive(t, i, h) && C.AllStreamed(t.conns[i].up) && exists m | m in t.conns[i].up :: m.Events?
    ensures StillHeard(c, s, h.clientId)
    decreases |t.conns[i].up|
  {
    hide Next, KeyOf, Leads, Fits, Ungranted, EmitsFor;
    var up := t.conns[i].up;
    assert C.Streamed(up[0]) && Fits(c, up[0]) && C.Streamed(Ping);
    if up[0].Events? {
      EventsAreEmitted(c, t, i, h);
      HeardThrough(c, s, t, Frame(i), h.clientId);
    } else {
      PingIsRead(c, t, i, h);
      LeadsOn(c, s, t, Frame(i));
      var m :| m in up && m.Events?;
      assert m in up[1..];
      StreamIsHeard(c, s, Next(c, t, Frame(i)), i, h);
    }
  }

  const ANY_EVENT: Event := Event(0, 0, 0)

  /** A client that streams writes an event. */
  lemma StreamerIsHeard(c: Codec<Message>, s: State, t: State, i: nat, h: Handshake)
    requires SmallFits(c) && Leads(c, s, t) && Ungranted(s.trust, t.trust, h.clientId)
    requires ServesLive(t, i, h) && C.AllStreamed(t.conns[i].up) && t.conns[i].core.client.Streaming?
    ensures StillHeard(c, s, h.clientId)
  {
    hide Leads, SmallFits, Ungranted, KeyOf;
    var conn := t.conns[i];
    ClientActs(c, t, i, C.ControllerBack);
    LeadsOn(c, s, t, ClientStep(i, C.ControllerBack));
    var t1 := Next(c, t, ClientStep(i, C.ControllerBack));
    ClientActs(c, t1, i, C.Forward(ANY_EVENT));
    LeadsOn(c, s, t1, ClientStep(i, C.Forward(ANY_EVENT)));
    var t2 := Next(c, t1, ClientStep(i, C.Forward(ANY_EVENT)));
    assert t2.conns[i].up == conn.up + [EventMessage(ANY_EVENT)];
    assert EventMessage(ANY_EVENT) in t2.conns[i].up && EventMessage(ANY_EVENT).Events?;
    StreamIsHeard(c, s, t2, i, h);
  }

  /** A client that waits for an answer it can read becomes one that streams. */
  lemma WaiterIsHeard(c: Codec<Message>, s: State, t: State, i: nat, h: Handshake)
    requires SmallFits(c) && Leads(c, s, t) && Ungranted(s.trust, t.trust, h.clientId)
    requires ServesLive(t, i, h) && t.conns[i].core.client.AwaitAck? && C.Shape(t.conns[i]) && Fits(c, t.conns[i].down[0])
    ensures StillHeard(c, s, h.clientId)
  {
    hide Leads, SmallFits, Ungranted, KeyOf, Fits;
    ClientActs(c, t, i, C.ClientReads);
    LeadsOn(c, s, t, ClientStep(i, C.ClientReads));
    StreamerIsHeard(c, s, Next(c, t, ClientStep(i, C.ClientReads)), i, h);
  }

  lemma ServingIsHeard(c: Codec<Message>, s: State, t: State, i: nat, h: Handshake)
    requires SmallFits(c) && Leads(c, s, t) && Ungranted(s.trust, t.trust, h.clientId)
    requires ServesLive(t, i, h) && C.Shape(t.conns[i]) && HasWords(c, t.conns[i])
    ensures StillHeard(c, s, h.clientId)
  {
    hide Leads, SmallFits, Ungranted, KeyOf, Fits, C.ClientShape;
    if exists m | m in t.conns[i].up :: m.Events? {
      StreamIsHeard(c, s, t, i, h);
    } else if t.conns[i].core.client.Streaming? {
      StreamerIsHeard(c, s, t, i, h);
    } else {
      WaiterIsHeard(c, s, t, i, h);
    }
  }

  /** A handler that has admitted its client opens the session, and the client hears of it. */
  lemma OpeningIsHeard(c: Codec<Message>, s: State, i: nat, h: Handshake)
    requires SmallFits(c) && i in s.conns && C.Shape(s.conns[i])
    requires s.conns[i].core.handler == C.Opening(h) && s.conns[i].core.client.AwaitAck?
    ensures StillHeard(c, s, h.clientId)
  {
    hide Leads, KeyOf, NewDevice, Fits;
    LeadsNowhere(c, s);
    LeadsOn(c, s, s, HandlerOpen(i, true, [], []));
    NothingGranted(s.trust, h.clientId);
    var t := Next(c, s, HandlerOpen(i, true, [], []));
    assert t.conns[i].core.handler == C.Serving(h) && t.conns[i].down == [Ack(Approved, [], [])];
    WaiterIsHeard(c, s, t, i, h);
  }

  lemma ConnConversationIsHeard(c: Codec<Message>, s: State, i: nat, id: Str)
    requires SmallFits(c) && Sound(s) && i in s.conns && ConnCanEmit(c, s, s.conns[i], id)
    ensures StillHeard(c, s, id)
  {
    hide Next, KeyOf, Leads, WelcomedBy, PeersFollowAnswers, D.ProcessesRun, CanLive, ThreadsOk, T.NobodySaves;
    hide C.Shape, C.Conserved, SmallFits;
    var conn := s.conns[i];
    assert C.Inv(conn);
    var h := conn.core.handler.handshake;
    if conn.core.handler.Opening? {
      OpeningIsHeard(c, s, i, h);
    } else {
      var t := ComesToRest(c, s, KeyOf(h), id);
      var u := MakesLive(c, t, KeyOf(h), 0, id);
      LeadsFar(c, s, t, u);
      UngrantedJoins(s.trust, t.trust, u.trust, id);
      ServingIsHeard(c, s, u, i, h);
    }
  }

  // ---- The exact condition -----------------------------------------------------------

  /** A client that is approved nowhere is heard again, in some continuation in which nobody
      approves it, exactly when it has a conversation that was admitted before. */
  lemma HeardIffConversation(c: Codec<Message>, s: State, id: Str)
    requires SmallFits(c) && Sound(s) && ApprovedNowhere(s.trust, id)
    ensures StillHeard(c, s, id) <==> HasConversation(c, s, id)
  {
    hide StillHeard, Sound, SmallFits, ApprovedNowhere, PeerCanEmit, ConnCanEmit;
    if StillHeard(c, s, id) {
      HeardNeedsConversation(c, s, id);
    }
    if s.udp.Opening? && s.udp.handshake.clientId == id {
      SoundConns(s);
      OpeningPeerIsHeard(c, s);
    } else if addr: Addr :| PeerCanEmit(s, addr, id) {
      PeerConversationIsHeard(c, s, addr, id);
    } else if i :| i in s.conns && ConnCanEmit(c, s, s.conns[i], id) {
      ConnConversationIsHeard(c, s, i, id);
    }
  }

  lemma MessagesAreSmall()
    ensures SmallFits(MessageCodec())
  {
    hide MessageCodec, Fits;
    forall m | C.Streamed(m) ensures Fits(MessageCodec(), m) {
      B.StreamedFits(m);
    }
    ShortAckFits();
  }

  lemma ShortAckFits()
    ensures Fits(MessageCodec(), Ack(Approved, [], []))
  {
    var m := Ack(Approved, [], []);
    assert Encode(m) == Varint(Tag(m)) + EncodeBody(m);
    assert |Varint(0)| == 1 && |Varint(1)| == 1;
    assert AckCodec().enc((Approved, ([], []))) == EncodeStatus(Approved) + (Text().enc([]) + Text().enc([]));
    assert |Encode(m)| == 4;
  }

  /** After any run: a client that is approved in no copy of the trust data is heard again, unless
      somebody approves it, exactly when it has a conversation that was admitted before. */
  lemma RevokedIsHeardIff(disk: Option<TrustData>, readable: bool, steps: seq<Step>, id: Str)
    requires ApprovedNowhere(Run(MessageCodec(), Init(disk, readable), steps).trust, id)
    ensures var s := Run(MessageCodec(), Init(disk, readable), steps);
            StillHeard(MessageCodec(), s, id) <==> HasConversation(MessageCodec(), s, id)
  {
    hide Run, MessageCodec, StillHeard, HasConversation, ApprovedNowhere, Sound, SmallFits;
    var c := MessageCodec();
    InitIsSound(c, disk, readable);
    RunKeepsSound(c, Init(disk, readable), steps);
    MessagesAreSmall();
    HeardIffConversation(c, Run(c, Init(disk, readable), steps), id);
  }

  // ---- A run in which this happens ---------------------------------------------------

  lemma RevokedIsNowhere(t: T.State, call: T.Call, d: TrustData, id: Str)
    requires t.ops == map[] && t.memory.Keys == {SERVER} && call.pid == SERVER
    requires call.request == Revoke(id) && call.choice == id && id in d.approved
    ensures var t' := T.Executed(t, call, d, true);
            && ApprovedNowhere(t', id) && t'.disk.Some? && id !in t'.disk.value.approved
            && t'.deeds == t.deeds + [T.Withdrawn(id)]
  {
    hide ValidUtf8;
    assert Resolves(d.approved.Keys, id, id);
  }

  /** A revoked client goes on: a run in which an approved client forwards some events, is revoked
      in the file and everywhere else, and then forwards others, which are emitted all the same. */
  lemma RevokedClientGoesOn(d: TrustData, h: Handshake, before: seq<Event>, after: seq<Event>)
    returns (i: nat, t: State, u: State)
    requires h.clientId in d.approved && Fits(MessageCodec(), Hello(h))
    ensures Leads(MessageCodec(), Init(Some(d), true), t) && Leads(MessageCodec(), t, u)
    ensures T.Withdrawn(h.clientId) in t.trust.deeds && ApprovedNowhere(t.trust, h.clientId)
    ensures t.trust.disk.Some? && h.clientId !in t.trust.disk.value.approved
    ensures KeyOf(h) in t.sessions && var serial := t.sessions[KeyOf(h)].device.serial;
            && t.emitted == Forwarded(i, KeyOf(h), serial, before)
            && u.emitted == t.emitted + Forwarded(i, KeyOf(h), serial, after) && u.trust == t.trust
  {
    hide Next, Leads, MessageCodec, Fits, KeyOf, Sound, Forwarded, T.IsCopy, ApprovedNowhere;
    var c := MessageCodec();
    MessagesAreSmall();
    assert forall e | e in before + after :: C.Streamed(EventMessage(e));
    InitIsSound(c, Some(d), true);
    var s;
    i, s := ApprovedClientIsServed(c, Init(Some(d), true), h, [], [], before);
    assert s.trust.ops == map[];
    var id := h.clientId;
    var call;
    assert Resolves(d.approved.Keys, id, id);
    t, call := AdminActs(c, s, Revoke(id), id);
    RevokedIsNowhere(s.trust, call, d, id);
    LeadsFar(c, Init(Some(d), true), s, t);
    u := ForwardsAll(c, t, i, h, before, t.conns[i].core.emitted, after);
  }
}
