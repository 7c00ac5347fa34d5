/** The other direction of authorisation: an approved client gets through, from any state of any
    run. */
module SystemService {
  import opened Wire
  import opened Postcard
  import opened Framing
  import opened Trust
  import opened Protocol
  import opened Sessions
  import opened System
  import opened SystemProgress
  import opened SystemTheorems
  import opened SystemSafety
  import T = TrustSystem
  import C = Connection
  import D = Durability

  /** A connection without anything on its streams. */
  function Still(client: C.Client, handler: C.Handler, sent: seq<Event>, emitted: seq<Vec<Event>>): C.Conn {
    C.Conn(C.Core(client, handler, sent, emitted, 0), [], [])
  }

  lemma {:induction false} SomeIndexIsFree(conns: set<nat>, busy: set<T.Who>) returns (n: nat)
    ensures forall i | i in conns :: i < n
    ensures forall i: nat | T.Handler(i) in busy :: i < n
    decreases |conns|, |busy|
  {
    n := 0;
    if i :| i in conns {
      n := SomeIndexIsFree(conns - {i}, busy);
      assert forall j | j in conns :: j == i || j in conns - {i};
      if i >= n { n := i + 1; }
    } else if who :| who in busy {
      n := SomeIndexIsFree(conns, busy - {who});
      assert forall w | w in busy :: w == who || w in busy - {who};
      if who.Handler? && who.conn >= n { n := who.conn + 1; }
    }
  }

  lemma ClientActs(c: Codec<Message>, s: State, i: nat, action: C.Action)
    requires i in s.conns && ClientOnly(action)
    ensures Next(c, s, ClientStep(i, action)) == SetConn(s, i, C.Next(c, s.conns[i], action))
  {
    hide C.Next;
  }

  lemma SetTwice(s: State, i: nat, a: C.Conn, b: C.Conn)
    ensures SetConn(SetConn(s, i, a), i, b) == SetConn(s, i, b)
  {
    assert s.conns[i := a][i := b] == s.conns[i := b];
  }

  /** A client connects and opens its device. */
  lemma Greets(c: Codec<Message>, s: State, i: nat, h: Handshake)
    requires i !in s.conns
    ensures Leads(c, s, SetConn(s, i, C.Conn(C.Core(C.AwaitAck, C.Listening, [], [], 0), [Hello(h)], [])))
  {
    hide Leads;
    LeadsNowhere(c, s);
    LeadsOn(c, s, s, Connect(i));
    var s1 := SetConn(s, i, C.START);
    LeadsOn(c, s, s1, ClientStep(i, C.OpenDevice(h)));
    ClientActs(c, s1, i, C.OpenDevice(h));
    assert C.Next(c, C.START, C.OpenDevice(h)) == C.Conn(C.Core(C.AwaitAck, C.Listening, [], [], 0), [Hello(h)], []);
    SetTwice(s, i, C.START, C.Next(c, C.START, C.OpenDevice(h)));
  }

  lemma HelloArrives(c: Codec<Message>, s: State, i: nat, h: Handshake)
    requires i in s.conns && s.conns[i] == C.Conn(C.Core(C.AwaitAck, C.Listening, [], [], 0), [Hello(h)], [])
    requires Fits(c, Hello(h))
    ensures Next(c, s, Frame(i)) ==
            SetConn(s, i, Still(C.AwaitAck, C.Checking(h), [], [])).(
              trust := T.Next(s.trust, T.Begin(T.Handler(i), SERVER, IsApproved(h.clientId))))
  {
    hide Fits, T.Next, OnDatagram, OnUdpDecide, OnUdpOpen, OnHandlerDecide, OnHandlerOpen;
    assert C.Next(c, s.conns[i], C.HandlerReads(true)) == Still(C.AwaitAck, C.Checking(h), [], []);
  }

  /** The handler's thread with data it has just reloaded. */
  function Ready(s: State, i: nat, h: Handshake, d: TrustData): State {
    s.(trust := s.trust.(memory := s.trust.memory[SERVER := d],
                         ops := s.trust.ops[T.Handler(i) := T.Op(SERVER, IsApproved(h.clientId), T.Ready)]))
  }

  lemma Reloads(c: Codec<Message>, s: State, t: State, i: nat, h: Handshake, d: TrustData)
    requires T.Handler(i) !in s.trust.ops && SERVER in s.trust.memory && T.NobodySaves(s.trust) && s.trust.disk == Some(d)
    requires t == s.(conns := t.conns, trust := T.Next(s.trust, T.Begin(T.Handler(i), SERVER, IsApproved(h.clientId))))
    ensures Leads(c, t, Ready(s.(conns := t.conns), i, h, d))
  {
    hide T.Next, Leads, LeadsCalmly, T.Run;
    var read, install := T.ReadFile(T.Handler(i), true), T.Install(T.Handler(i));
    CalmlyThroughStore(c, t, [read, install]);
    CalmlyLeads(c, t, t.(trust := T.Run(t.trust, [read, install])));
    RunFew(t.trust, read, install);
    assert [read, install] == [read] + [install];
    T.UndisturbedReload(s.trust, T.Call(T.Handler(i), SERVER, IsApproved(h.clientId), h.clientId), true);
  }

  lemma PassesCheck(c: Codec<Message>, s: State, i: nat, h: Handshake, d: TrustData, stamp: Str)
    requires T.Handler(i) !in s.trust.ops && T.NobodySaves(s.trust) && h.clientId in d.approved
    requires i in s.conns && s.conns[i] == Still(C.AwaitAck, C.Checking(h), [], [])
    ensures Next(c, Ready(s, i, h, d), HandlerDecide(i, stamp)) ==
            SetConn(s, i, Still(C.AwaitAck, C.Opening(h), [], [])).(
              trust := s.trust.(memory := s.trust.memory[SERVER := d]),
              passed := s.passed + [Passed(Iroh(i), h, |s.trust.deeds|)])
  {
    hide OnFrame, OnDatagram, OnUdpDecide, OnUdpOpen, OnHandlerOpen;
    var s0 := Ready(s, i, h, d);
    assert !T.Locked(s0.trust, SERVER);
    assert CanDecide(s0, T.Handler(i), h) && IsApprovedNow(s0, h);
    assert s0.trust.ops - {T.Handler(i)} == s.trust.ops;
    assert C.Next(c, s.conns[i], C.Decide(true)) == Still(C.AwaitAck, C.Opening(h), [], []);
  }

  lemma SessionOpens(c: Codec<Message>, s: State, i: nat, h: Handshake, hostname: Str, text: Str)
    requires i in s.conns && s.conns[i] == Still(C.AwaitAck, C.Opening(h), [], [])
    ensures var s' := Next(c, s, HandlerOpen(i, true, hostname, text));
            && s' == SetConn(s, i, C.Conn(C.Core(C.AwaitAck, C.Serving(h), [], [], 0), [], [Ack(Approved, hostname, text)])).(
                       sessions := s'.sessions, created := s'.created)
            && KeyOf(h) in s'.sessions
  {
    hide KeyOf, OnFrame, OnDatagram, OnUdpDecide, OnUdpOpen, OnHandlerDecide, NewDevice;
    assert C.Next(c, s.conns[i], C.Open(true, hostname, text))
           == C.Conn(C.Core(C.AwaitAck, C.Serving(h), [], [], 0), [], [Ack(Approved, hostname, text)]);
  }

  lemma AckArrives(c: Codec<Message>, s: State, i: nat, h: Handshake, ack: Message)
    requires i in s.conns && s.conns[i] == C.Conn(C.Core(C.AwaitAck, C.Serving(h), [], [], 0), [], [ack])
    requires ack.Ack? && ack.status.Approved? && Fits(c, ack)
    ensures Next(c, s, ClientStep(i, C.ClientReads)) == SetConn(s, i, Still(C.Streaming(true), C.Serving(h), [], []))
  {
    hide Fits;
    ClientActs(c, s, i, C.ClientReads);
    assert [ack][1..] == [];
  }

  /** A connection that is being served, with nothing on its streams and its session live. */
  predicate IsServed(s: State, i: nat, h: Handshake, sent: seq<Event>, emitted: seq<Vec<Event>>) {
    i in s.conns && KeyOf(h) in s.sessions && s.conns[i] == Still(C.Streaming(true), C.Serving(h), sent, emitted)
  }

  /** Each event as a batch of its own, emitted for a session. */
  function Forwarded(i: nat, key: Key, serial: nat, es: seq<Event>): seq<Emission> {
    if |es| == 0 then []
    else Forwarded(i, key, serial, es[..|es| - 1]) + [Emission(Iroh(i), key, serial, [es[|es| - 1]])]
  }

  lemma ForwardsOne(c: Codec<Message>, s: State, i: nat, h: Handshake, sent: seq<Event>, emitted: seq<Vec<Event>>, e: Event)
    requires IsServed(s, i, h, sent, emitted) && Fits(c, EventMessage(e))
    ensures var t := Next(c, Next(c, s, ClientStep(i, C.Forward(e))), Frame(i));
            && IsServed(t, i, h, sent + [e], emitted + [[e]])
            && t.sessions[KeyOf(h)].device == s.sessions[KeyOf(h)].device
            && t.emitted == s.emitted + [Emission(Iroh(i), KeyOf(h), s.sessions[KeyOf(h)].device.serial, [e])]
            && t.trust == s.trust
  {
    hide Fits, KeyOf, OnDatagram, OnUdpDecide, OnUdpOpen, OnHandlerDecide, OnHandlerOpen;
    ClientActs(c, s, i, C.Forward(e));
    var s1 := Next(c, s, ClientStep(i, C.Forward(e)));
    assert s1.conns[i] == C.Conn(C.Core(C.Streaming(true), C.Serving(h), sent + [e], emitted, 0), [EventMessage(e)], []);
    assert Head(c, s1.conns[i]) == Some(EventMessage(e));
  }

  lemma {:induction false} ForwardsAll(c: Codec<Message>, s: State, i: nat, h: Handshake, sent: seq<Event>, emitted: seq<Vec<Event>>,
                                        es: seq<Event>) returns (t: State)
    requires IsServed(s, i, h, sent, emitted) && forall e | e in es :: Fits(c, EventMessage(e))
    ensures Leads(c, s, t) && t.trust == s.trust && i in t.conns && IsServed(t, i, h, sent + es, t.conns[i].core.emitted)
    ensures t.sessions[KeyOf(h)].device == s.sessions[KeyOf(h)].device
    ensures t.emitted == s.emitted + Forwarded(i, KeyOf(h), s.sessions[KeyOf(h)].device.serial, es)
    decreases |es|
  {
    hide Next, Leads, Fits, KeyOf;
    if |es| == 0 {
      t := s;
      assert sent + es == sent;
      LeadsNowhere(c, s);
    } else {
      var n := |es| - 1;
      assert forall e | e in es[..n] :: e in es;
      var u := ForwardsAll(c, s, i, h, sent, emitted, es[..n]);
      ForwardsOne(c, u, i, h, sent + es[..n], u.conns[i].core.emitted, es[n]);
      LeadsOn(c, s, u, ClientStep(i, C.Forward(es[n])));
      LeadsOn(c, s, Next(c, u, ClientStep(i, C.Forward(es[n]))), Frame(i));
      t := Next(c, Next(c, u, ClientStep(i, C.Forward(es[n]))), Frame(i));
      assert sent + es == (sent + es[..n]) + [es[n]];
    }
  }

  /** From the check on. */
  lemma GoesOn(c: Codec<Message>, s: State, i: nat, h: Handshake, d: TrustData, hostname: Str, text: Str, es: seq<Event>)
    returns (t: State)
    requires T.Handler(i) !in s.trust.ops && T.NobodySaves(s.trust) && h.clientId in d.approved
    requires i in s.conns && s.conns[i] == Still(C.AwaitAck, C.Checking(h), [], [])
    requires Fits(c, Ack(Approved, hostname, text)) && forall e | e in es :: Fits(c, EventMessage(e))
    ensures Leads(c, Ready(s, i, h, d), t) && i in t.conns && IsServed(t, i, h, es, t.conns[i].core.emitted)
    ensures t.emitted == s.emitted + Forwarded(i, KeyOf(h), t.sessions[KeyOf(h)].device.serial, es)
    ensures t.trust == s.trust.(memory := s.trust.memory[SERVER := d])
  {
    hide Next, Leads, Fits, KeyOf;
    var s0 := Ready(s, i, h, d);
    LeadsNowhere(c, s0);
    PassesCheck(c, s, i, h, d, hostname);
    LeadsOn(c, s0, s0, HandlerDecide(i, hostname));
    var s1 := Next(c, s0, HandlerDecide(i, hostname));
    SessionOpens(c, s1, i, h, hostname, text);
    LeadsOn(c, s0, s1, HandlerOpen(i, true, hostname, text));
    var s2 := Next(c, s1, HandlerOpen(i, true, hostname, text));
    AckArrives(c, s2, i, h, Ack(Approved, hostname, text));
    LeadsOn(c, s0, s2, ClientStep(i, C.ClientReads));
    var s3 := Next(c, s2, ClientStep(i, C.ClientReads));
    t := ForwardsAll(c, s3, i, h, [], [], es);
    assert [] + es == es;
    LeadsFar(c, s0, s3, t);
  }

  /** From every state of every run in which the file says that a client is approved, and with
      whatever others are in the middle of, the client can connect and is served: its events,
      however many, reach a device of its session, one batch each, in order. */
  lemma ApprovedClientIsServed(c: Codec<Message>, s: State, h: Handshake, hostname: Str, text: Str, es: seq<Event>)
    returns (i: nat, t: State)
    requires Sound(s) && s.trust.disk.Some? && h.clientId in s.trust.disk.value.approved
    requires Fits(c, Hello(h)) && Fits(c, Ack(Approved, hostname, text)) && forall e | e in es :: Fits(c, EventMessage(e))
    ensures i !in s.conns && Leads(c, s, t)
    ensures i in t.conns && IsServed(t, i, h, es, t.conns[i].core.emitted)
    ensures t.emitted == s.emitted + Forwarded(i, KeyOf(h), t.sessions[KeyOf(h)].device.serial, es)
    ensures t.trust.disk == s.trust.disk && t.trust.deeds == s.trust.deeds && T.NobodySaves(t.trust)
    ensures t.trust.memory == s.trust.memory[SERVER := s.trust.disk.value]
    ensures forall who | who in t.trust.ops :: who in s.trust.ops && t.trust.ops[who] == s.trust.ops[who]
  {
    hide Next, Leads, LeadsCalmly, Fits, KeyOf, PeersFollowAnswers, ConnsOk, D.ProcessesRun;
    var d := s.trust.disk.value;
    var u := Unlocks(c, s);
    i := SomeIndexIsFree(u.conns.Keys, u.trust.ops.Keys);
    Greets(c, u, i, h);
    var u1 := SetConn(u, i, C.Conn(C.Core(C.AwaitAck, C.Listening, [], [], 0), [Hello(h)], []));
    LeadsFar(c, s, u, u1);
    HelloArrives(c, u1, i, h);
    LeadsOn(c, s, u1, Frame(i));
    var checking := Still(C.AwaitAck, C.Checking(h), [], []);
    SetTwice(u, i, u1.conns[i], checking);
    var u2 := SetConn(u, i, checking);
    Reloads(c, u, Next(c, u1, Frame(i)), i, h, d);
    LeadsFar(c, s, Next(c, u1, Frame(i)), Ready(u2, i, h, d));
    t := GoesOn(c, u2, i, h, d, hostname, text, es);
    LeadsFar(c, s, Ready(u2, i, h, d), t);
  }
}
