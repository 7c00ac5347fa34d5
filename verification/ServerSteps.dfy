/** The object of `Server` and the machine of `System` agree: when nothing else comes between,
    the steps of the machine for one datagram make of the server's tables, its trust data and
    the trust file just what `HandleDatagram` promises. */
module ServerSteps {
  import opened Wire
  import opened Postcard
  import opened Trust
  import opened Sessions
  import opened System
  import opened SystemProgress
  import S = Server
  import T = TrustSystem
  import C = Connection

  /** The UDP loop waits for a datagram, and nobody is about to write the trust file. */
  ghost predicate Undisturbed(s: State) {
    s.udp.Idle? && T.UdpLoop !in s.trust.ops && SERVER in s.trust.memory && T.NobodySaves(s.trust)
  }

  /** The machine's tables as those of the object. */
  function TablesOf(s: State): S.Tables
    requires SERVER in s.trust.memory
  {
    S.Tables(s.sessions, s.peers, |s.created|, s.emitted, s.trust.memory[SERVER], s.trust.disk)
  }

  /** The trust data of the server after a reload. */
  function Known(s: State, readable: bool): TrustData
    requires SERVER in s.trust.memory
  {
    Reloaded(ReadFrom(s.trust.disk, readable), s.trust.memory[SERVER])
  }

  function Refreshed(s: State, readable: bool): T.State
    requires SERVER in s.trust.memory
  {
    s.trust.(memory := s.trust.memory[SERVER := Known(s, readable)])
  }

  function Loading(who: T.Who, at: S.Surroundings): seq<Step> {
    [Store(T.ReadFile(who, at.readable)), Store(T.Install(who))]
  }

  function Registering(who: T.Who, h: Handshake, at: S.Surroundings): seq<Step> {
    Loading(who, at) + [Store(T.Execute(who, h.clientId)), Store(T.Save(who, at.writable))]
  }

  /** The steps of the machine for one datagram, with nothing in between. */
  function StepsFor(s: State, src: Addr, m: Message, at: S.Surroundings): seq<Step>
    requires SERVER in s.trust.memory
  {
    if !m.Hello? then [Datagram(src, m)]
    else
      [Datagram(src, m)] + Loading(T.UdpLoop, at) + [UdpDecide(at.stamp)]
      + if m.handshake.clientId in Known(s, at.readable).approved then [UdpOpen(at.creatable)]
        else Registering(T.UdpLoop, m.handshake, at) + [UdpAnswerPending]
  }

  // ---- Runs of a few steps -----------------------------------------------------------

  lemma RunOne(c: Codec<Message>, s: State, a: Step)
    ensures Run(c, s, [a]) == Next(c, s, a)
  {
    hide Next;
    assert [a][..0] == [];
  }

  lemma RunTwo(c: Codec<Message>, s: State, a: Step, b: Step)
    ensures Run(c, s, [a, b]) == Next(c, Next(c, s, a), b)
  {
    hide Next;
    RunOne(c, s, a);
    assert [a, b][..1] == [a];
  }

  /** Two steps of the trust store. */
  lemma StoreTwo(c: Codec<Message>, s: State, a: T.Step, b: T.Step)
    requires T.StoreOnly(s.trust, a) && T.StoreOnly(T.Next(s.trust, a), b)
    ensures Run(c, s, [Store(a), Store(b)]) == s.(trust := T.Next(T.Next(s.trust, a), b))
  {
    hide Next, T.Next, T.StoreOnly, Run;
    RunTwo(c, s, Store(a), Store(b));
    StoreSteps(c, s, a);
    StoreSteps(c, s.(trust := T.Next(s.trust, a)), b);
  }

  // ---- A handshake -------------------------------------------------------------------

  /** The loop with a handshake for which it has just reloaded the trust data. */
  function Checked(s: State, src: Addr, h: Handshake, readable: bool): State
    requires SERVER in s.trust.memory
  {
    s.(trust := Refreshed(s, readable).(ops := s.trust.ops[T.UdpLoop := T.Op(SERVER, IsApproved(h.clientId), T.Ready)]),
       peers := s.peers - {src}, udp := Checking(src, h), answers := s.answers + [Unanswered(src)])
  }

  lemma HandshakeArrives(c: Codec<Message>, s: State, src: Addr, h: Handshake)
    requires Undisturbed(s)
    ensures Next(c, s, Datagram(src, Hello(h))) ==
            s.(trust := T.Next(s.trust, T.Begin(T.UdpLoop, SERVER, IsApproved(h.clientId))),
               peers := s.peers - {src}, udp := Checking(src, h), answers := s.answers + [Unanswered(src)])
  {
    hide OnFrame, OnUdpDecide, OnUdpOpen, OnHandlerDecide, OnHandlerOpen, Serve, T.Next;
  }

  /** The handshake arrives, and the file is read, if it can be, and installed. */
  lemma HandshakeIsChecked(c: Codec<Message>, s: State, src: Addr, h: Handshake, at: S.Surroundings)
    requires Undisturbed(s)
    ensures Run(c, Next(c, s, Datagram(src, Hello(h))), Loading(T.UdpLoop, at)) == Checked(s, src, h, at.readable)
  {
    hide Next, T.Next, Run;
    HandshakeArrives(c, s, src, h);
    var s1 := Next(c, s, Datagram(src, Hello(h)));
    StoreTwo(c, s1, T.ReadFile(T.UdpLoop, at.readable), T.Install(T.UdpLoop));
    T.UndisturbedReload(s.trust, T.Call(T.UdpLoop, SERVER, IsApproved(h.clientId), h.clientId), at.readable);
  }

  lemma CheckedCanDecide(s: State, src: Addr, h: Handshake, readable: bool)
    requires Undisturbed(s)
    ensures CanDecide(Checked(s, src, h, readable), T.UdpLoop, h)
    ensures T.Next(Checked(s, src, h, readable).trust, T.Execute(T.UdpLoop, h.clientId)) == Refreshed(s, readable)
  {
    var t := Checked(s, src, h, readable).trust;
    assert !T.Locked(t, SERVER);
    assert t.ops - {T.UdpLoop} == s.trust.ops;
  }

  /** The answer of the approval check. */
  lemma HandshakeIsDecided(c: Codec<Message>, s: State, src: Addr, h: Handshake, at: S.Surroundings)
    requires Undisturbed(s)
    ensures var s3, info := Checked(s, src, h, at.readable), PendingRecord(h, DirectUdp, at.stamp);
            var t := Refreshed(s, at.readable);
            Next(c, s3, UdpDecide(at.stamp)) ==
            if h.clientId in Known(s, at.readable).approved
            then s3.(trust := t, udp := Opening(src, h), passed := s.passed + [Passed(Udp(src), h, |s.trust.deeds|)])
            else s3.(trust := T.Next(t, T.Begin(T.UdpLoop, SERVER, Register(info))), udp := UdpPhase.Registering(src, h))
  {
    hide OnFrame, OnDatagram, OnUdpOpen, OnHandlerDecide, OnHandlerOpen, CanDecide, T.Next;
    CheckedCanDecide(s, src, h, at.readable);
  }

  /** Registering: four steps of the store that nothing disturbs. */
  lemma RegistrationRuns(c: Codec<Message>, s: State, t: T.State, who: T.Who, h: Handshake, transport: Transport, at: S.Surroundings)
    requires who !in t.ops && SERVER in t.memory && T.NobodySaves(t)
    requires s.trust == T.Next(t, T.Begin(who, SERVER, Register(PendingRecord(h, transport, at.stamp))))
    requires h.clientId !in Reloaded(ReadFrom(t.disk, at.readable), t.memory[SERVER]).approved
    ensures var d' := WithPending(Reloaded(ReadFrom(t.disk, at.readable), t.memory[SERVER]), PendingRecord(h, transport, at.stamp));
            Run(c, s, Registering(who, h, at)) ==
            s.(trust := T.State(if at.writable then Some(d') else t.disk, t.memory[SERVER := d'], t.ops,
                                t.deeds + [T.Requested(h.clientId)]))
  {
    var call := T.Call(who, SERVER, Register(PendingRecord(h, transport, at.stamp)), h.clientId);
    var d := Reloaded(ReadFrom(t.disk, at.readable), t.memory[SERVER]);
    T.UndisturbedReload(t, call, at.readable);
    T.UndisturbedExecution(t, call, d, at.writable);
    hide Next, T.Next, T.NobodySaves, WithPending, Run;
    RunOfConcat(c, s, Loading(who, at), [Store(T.Execute(who, h.clientId)), Store(T.Save(who, at.writable))]);
    StoreTwo(c, s, T.ReadFile(who, at.readable), T.Install(who));
    var s2 := Run(c, s, Loading(who, at));
    StoreTwo(c, s2, T.Execute(who, h.clientId), T.Save(who, at.writable));
  }

  lemma PendingIsAnswered(c: Codec<Message>, s: State)
    requires s.udp.Registering? && T.UdpLoop !in s.trust.ops
    ensures Next(c, s, UdpAnswerPending) == s.(udp := Idle, answers := s.answers + [Deferred(s.udp.addr)])
  {
    hide OnFrame, OnDatagram, OnUdpDecide, OnUdpOpen, OnHandlerDecide, OnHandlerOpen;
  }

  lemma SessionIsOpened(c: Codec<Message>, s: State, created: bool)
    requires s.udp.Opening?
    ensures var addr, h := s.udp.addr, s.udp.handshake;
            var s' := Next(c, s, UdpOpen(created));
            && s'.udp.Idle? && s'.trust == s.trust && s'.emitted == s.emitted && s'.conns == s.conns && s'.now == s.now
            && s'.sessions == OpenSession(s.sessions, h, s.now, created, |s.created|)
            && |s'.created| == |s.created| + (if KeyOf(h) !in s.sessions && created then 1 else 0)
            && s'.peers == (if Admits(s.sessions, h, created) then s.peers[addr := KeyOf(h)] else s.peers)
            && s'.answers == s.answers + [if Admits(s.sessions, h, created) then Welcomed(addr, h) else TurnedAway(addr)]
  {
    hide OnFrame, OnDatagram, OnUdpDecide, OnHandlerDecide, OnHandlerOpen, OpenSession, KeyOf, NewDevice;
  }

  /** What the machine makes of a handshake. */
  ghost predicate HandshakeDone(c: Codec<Message>, s: State, src: Addr, h: Handshake, at: S.Surroundings) {
    SERVER in s.trust.memory && at.now == s.now &&
    var s' := Run(c, s, StepsFor(s, src, Hello(h), at));
    && Undisturbed(s') && TablesOf(s') == S.Handled(TablesOf(s), src, Some(Hello(h)), at) && s'.conns == s.conns
    && s'.trust.ops == s.trust.ops && s'.now == s.now
    && (h.clientId in Known(s, at.readable).approved ==> s'.trust.deeds == s.trust.deeds)
    && (h.clientId !in Known(s, at.readable).approved ==> s'.trust.deeds == s.trust.deeds + [T.Requested(h.clientId)])
    && s'.answers == s.answers + [Unanswered(src)]
                     + [if h.clientId !in Known(s, at.readable).approved then Deferred(src)
                        else if Admits(s.sessions, h, at.creatable) then Welcomed(src, h) else TurnedAway(src)]
  }

  /** An approved client: the session is opened, as the object does it. */
  lemma WelcomeAgrees(c: Codec<Message>, s: State, src: Addr, h: Handshake, at: S.Surroundings)
    requires Undisturbed(s) && at.now == s.now && h.clientId in Known(s, at.readable).approved
    ensures HandshakeDone(c, s, src, h, at)
  {
    hide Next, Run, OpenSession, KeyOf, Admits, T.Next;
    var first, last := [Datagram(src, Hello(h))] + Loading(T.UdpLoop, at) + [UdpDecide(at.stamp)], [UdpOpen(at.creatable)];
    RunOfConcat(c, s, first, last);
    DecisionRuns(c, s, src, h, at);
    var s4 := Run(c, s, first);
    HandshakeIsDecided(c, s, src, h, at);
    RunOne(c, s4, UdpOpen(at.creatable));
    SessionIsOpened(c, s4, at.creatable);
    assert (s.peers - {src})[src := KeyOf(h)] == s.peers[src := KeyOf(h)];
  }

  lemma DecisionRuns(c: Codec<Message>, s: State, src: Addr, h: Handshake, at: S.Surroundings)
    requires Undisturbed(s)
    ensures Run(c, s, [Datagram(src, Hello(h))] + Loading(T.UdpLoop, at) + [UdpDecide(at.stamp)])
            == Next(c, Checked(s, src, h, at.readable), UdpDecide(at.stamp))
  {
    hide Next, Run;
    var d := [Datagram(src, Hello(h))];
    RunOfConcat(c, s, d + Loading(T.UdpLoop, at), [UdpDecide(at.stamp)]);
    RunOfConcat(c, s, d, Loading(T.UdpLoop, at));
    RunOne(c, s, Datagram(src, Hello(h)));
    HandshakeIsChecked(c, s, src, h, at);
    HandshakeIsDecided(c, s, src, h, at);
    RunOne(c, Checked(s, src, h, at.readable), UdpDecide(at.stamp));
  }

  /** Any other client: it is put among the pending ones, as the object does it, whether or not the
      trust file can be read and written. */
  lemma RegistrationAgrees(c: Codec<Message>, s: State, src: Addr, h: Handshake, at: S.Surroundings)
    requires Undisturbed(s) && at.now == s.now && h.clientId !in Known(s, at.readable).approved
    ensures HandshakeDone(c, s, src, h, at)
  {
    hide Next, Run, WithPending, T.Next;
    var first := [Datagram(src, Hello(h))] + Loading(T.UdpLoop, at) + [UdpDecide(at.stamp)];
    var r, last := Registering(T.UdpLoop, h, at), [UdpAnswerPending];
    assert first + (r + last) == (first + r) + last;
    RunOfConcat(c, s, first + r, last);
    RunOfConcat(c, s, first, r);
    DecisionRuns(c, s, src, h, at);
    var s4 := Run(c, s, first);
    HandshakeIsDecided(c, s, src, h, at);
    ReadAgain(s.trust.disk, s.trust.memory[SERVER], at.readable);
    RegistrationRuns(c, s4, Refreshed(s, at.readable), T.UdpLoop, h, DirectUdp, at);
    var s8 := Run(c, s, first + r);
    RunOne(c, s8, UdpAnswerPending);
    PendingIsAnswered(c, s8);
  }

  /** Reading the same file again changes nothing. */
  lemma ReadAgain(file: Option<TrustData>, d: TrustData, readable: bool)
    ensures var read := ReadFrom(file, readable); Reloaded(read, Reloaded(read, d)) == Reloaded(read, d)
  {
  }

  lemma OtherDatagram(c: Codec<Message>, s: State, src: Addr, m: Message, at: S.Surroundings)
    requires Undisturbed(s) && at.now == s.now && !m.Hello?
    ensures var s' := Next(c, s, Datagram(src, m));
            && Undisturbed(s') && TablesOf(s') == S.Handled(TablesOf(s), src, Some(m), at)
            && s'.conns == s.conns && s'.trust == s.trust
  {
    hide OnFrame, OnUdpDecide, OnUdpOpen, OnHandlerDecide, OnHandlerOpen;
  }

  /** Every datagram: the steps of the machine, with nothing in between, do to the tables, the
      trust data and the file what the object does. */
  lemma MachineAgrees(c: Codec<Message>, s: State, src: Addr, m: Message, at: S.Surroundings)
    requires Undisturbed(s) && at.now == s.now
    ensures var s' := Run(c, s, StepsFor(s, src, m, at));
            Undisturbed(s') && TablesOf(s') == S.Handled(TablesOf(s), src, Some(m), at)
  {
    hide Next, S.Handled, T.NobodySaves;
    if !m.Hello? {
      RunOne(c, s, Datagram(src, m));
      OtherDatagram(c, s, src, m, at);
    } else if m.handshake.clientId in Known(s, at.readable).approved {
      WelcomeAgrees(c, s, src, m.handshake, at);
    } else {
      RegistrationAgrees(c, s, src, m.handshake, at);
    }
  }

  // ---- Any number of datagrams -------------------------------------------------------

  function Elapsed(steps: seq<Step>): nat {
    if |steps| == 0 then 0
    else Elapsed(steps[..|steps| - 1]) + if steps[|steps| - 1].Tick? then steps[|steps| - 1].elapsed else 0
  }

  lemma NextTime(c: Codec<Message>, s: State, a: Step)
    ensures Next(c, s, a).now == s.now + if a.Tick? then a.elapsed else 0
  {
    hide T.Next, C.Next, OpenSession, KeyOf, CanDecide, IsApprovedNow, Touch, NewDevice, Reap, C.Received, Admits;
    hide BeginCheck, Decided, Serve, WithSession;
  }

  lemma {:induction false} RunTime(c: Codec<Message>, s: State, steps: seq<Step>)
    ensures Run(c, s, steps).now == s.now + Elapsed(steps)
  {
    hide Next;
    if |steps| > 0 {
      RunTime(c, s, steps[..|steps| - 1]);
      NextTime(c, Run(c, s, steps[..|steps| - 1]), steps[|steps| - 1]);
    }
  }

  /** A datagram, the time since the one before, and the surroundings it is handled in, but for the
      time. */
  datatype Arrival = Arrival(elapsed: nat, src: Addr, m: Message, at: S.Surroundings)

  function TimeAfter(arrivals: seq<Arrival>): nat {
    if |arrivals| == 0 then 0 else TimeAfter(arrivals[..|arrivals| - 1]) + arrivals[|arrivals| - 1].elapsed
  }

  /** What the object makes of all of them, one after the other. */
  function AllHandled(t: S.Tables, arrivals: seq<Arrival>): S.Tables {
    if |arrivals| == 0 then t
    else
      var a := arrivals[|arrivals| - 1];
      S.Handled(AllHandled(t, arrivals[..|arrivals| - 1]), a.src, Some(a.m), a.at.(now := TimeAfter(arrivals)))
  }

  lemma NoTicks(c: Codec<Message>, s: State, src: Addr, m: Message, at: S.Surroundings)
    requires SERVER in s.trust.memory
    ensures Elapsed(StepsFor(s, src, m, at)) == 0
  {
    var steps := StepsFor(s, src, m, at);
    NothingElapses(steps);
  }

  lemma {:induction false} NothingElapses(steps: seq<Step>)
    requires forall a | a in steps :: !a.Tick?
    ensures Elapsed(steps) == 0
  {
    if |steps| > 0 {
      assert steps[|steps| - 1] in steps && forall a | a in steps[..|steps| - 1] :: a in steps;
      NothingElapses(steps[..|steps| - 1]);
    }
  }

  /** The datagrams that a run takes, in order. */
  function Datagrams(steps: seq<Step>): seq<(Addr, Message)> {
    if |steps| == 0 then []
    else
      var a := steps[|steps| - 1];
      Datagrams(steps[..|steps| - 1]) + if a.Datagram? then [(a.addr, a.message)] else []
  }

  function Sent(arrivals: seq<Arrival>): seq<(Addr, Message)> {
    if |arrivals| == 0 then []
    else Sent(arrivals[..|arrivals| - 1]) + [(arrivals[|arrivals| - 1].src, arrivals[|arrivals| - 1].m)]
  }

  lemma {:induction false} DatagramsOfConcat(a: seq<Step>, b: seq<Step>)
    ensures Datagrams(a + b) == Datagrams(a) + Datagrams(b)
    decreases |b|
  {
    if |b| == 0 {
      assert a + b == a;
    } else {
      assert (a + b)[..|a + b| - 1] == a + b[..|b| - 1];
      DatagramsOfConcat(a, b[..|b| - 1]);
    }
  }

  lemma {:induction false} NoDatagrams(steps: seq<Step>)
    requires forall a | a in steps :: !a.Datagram?
    ensures Datagrams(steps) == []
  {
    if |steps| > 0 {
      assert steps[|steps| - 1] in steps && forall a | a in steps[..|steps| - 1] :: a in steps;
      NoDatagrams(steps[..|steps| - 1]);
    }
  }

  lemma OneDatagram(s: State, src: Addr, m: Message, at: S.Surroundings)
    requires SERVER in s.trust.memory
    ensures Datagrams(StepsFor(s, src, m, at)) == [(src, m)]
  {
    var steps := StepsFor(s, src, m, at);
    var rest := steps[1..];
    assert steps == [Datagram(src, m)] + rest;
    DatagramsOfConcat([Datagram(src, m)], rest);
    NoDatagrams(rest);
    assert [Datagram(src, m)][..0] == [] && Datagrams([]) == [];
  }

  lemma TickAlone(c: Codec<Message>, s: State, elapsed: nat)
    requires Undisturbed(s)
    ensures var s' := Next(c, s, Tick(elapsed)); Undisturbed(s') && TablesOf(s') == TablesOf(s) && s'.now == s.now + elapsed
  {
    hide T.NobodySaves;
  }

  lemma StartIs(disk: Option<TrustData>, readable: bool)
    ensures var s := Init(disk, readable);
            && Undisturbed(s) && s.now == 0
            && TablesOf(s) == S.Tables(map[], map[], 0, [], if readable && disk.Some? then disk.value else TrustData(map[], map[]), disk)
  {
  }

  /** From a server that has just started, on what it could read of the file: a run of the machine
      that takes just this series of datagrams, at these times, comes to the tables, the trust data
      and the file that the object comes to. */
  lemma {:induction false} DatagramsAgree(c: Codec<Message>, disk: Option<TrustData>, readable: bool, arrivals: seq<Arrival>)
    returns (steps: seq<Step>)
    ensures var s := Run(c, Init(disk, readable), steps);
            var known := if readable && disk.Some? then disk.value else TrustData(map[], map[]);
            && Undisturbed(s) && s.now == TimeAfter(arrivals)
            && TablesOf(s) == AllHandled(S.Tables(map[], map[], 0, [], known, disk), arrivals)
    ensures Datagrams(steps) == Sent(arrivals) && forall a | a in steps :: OfUdpLoop(a)
  {
    hide Init, Next, Run, Undisturbed, TablesOf, S.Handled, StepsFor, OfUdpLoop;
    if |arrivals| == 0 {
      steps := [];
      RunNone(c, Init(disk, readable));
      StartIs(disk, readable);
    } else {
      var n := |arrivals| - 1;
      var a := arrivals[n];
      var before := DatagramsAgree(c, disk, readable, arrivals[..n]);
      var s := Run(c, Init(disk, readable), before);
      TickAlone(c, s, a.elapsed);
      RunOne(c, s, Tick(a.elapsed));
      RunOfConcat(c, Init(disk, readable), before, [Tick(a.elapsed)]);
      var t := Next(c, s, Tick(a.elapsed));
      UndisturbedRuns(t);
      var last := StepsFor(t, a.src, a.m, a.at.(now := t.now));
      MachineAgrees(c, t, a.src, a.m, a.at.(now := t.now));
      NoTicks(c, t, a.src, a.m, a.at.(now := t.now));
      RunTime(c, t, last);
      RunOfConcat(c, Init(disk, readable), before + [Tick(a.elapsed)], last);
      DatagramsOfConcat(before, [Tick(a.elapsed)]);
      NoDatagrams([Tick(a.elapsed)]);
      DatagramsOfConcat(before + [Tick(a.elapsed)], last);
      OneDatagram(t, a.src, a.m, a.at.(now := t.now));
      OnlyUdpLoop(t, a.src, a.m, a.at.(now := t.now), a.elapsed);
      steps := before + [Tick(a.elapsed)] + last;
    }
  }

  /** A step of the UDP loop, of its operation in the trust store, or of the clock. */
  predicate OfUdpLoop(a: Step) {
    if a.Store? then (a.step.ReadFile? || a.step.Install? || a.step.Execute? || a.step.Save?) && a.step.who == T.UdpLoop
    else a.Tick? || a.Datagram? || a.UdpDecide? || a.UdpAnswerPending? || a.UdpOpen?
  }

  lemma OnlyUdpLoop(s: State, src: Addr, m: Message, at: S.Surroundings, elapsed: nat)
    requires SERVER in s.trust.memory
    ensures OfUdpLoop(Tick(elapsed)) && forall a | a in StepsFor(s, src, m, at) :: OfUdpLoop(a)
  {
  }

  lemma UndisturbedRuns(s: State)
    requires Undisturbed(s)
    ensures SERVER in s.trust.memory
  {
  }

  lemma RunNone(c: Codec<Message>, s: State)
    ensures Run(c, s, []) == s
  {
  }
}
