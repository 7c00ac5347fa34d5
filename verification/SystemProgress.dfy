/** What the server can do next, from any state of any run: threads that use the trust store get
    on, whoever else is in the middle of what. */
module SystemProgress {
  import opened Wire
  import opened Postcard
  import opened Framing
  import opened Trust
  import opened Sessions
  import opened System
  import opened SystemSafety
  import opened SystemTheorems
  import T = TrustSystem
  import C = Connection
  import D = Durability

  // ---- Where the UDP loop stands with the trust store --------------------------------

  ghost predicate UdpThreadOk(phase: UdpPhase, ops: map<T.Who, T.Op>) {
    match phase
    case Idle => T.UdpLoop !in ops
    case Opening(_, _) => T.UdpLoop !in ops
    case Checking(_, h) =>
      && T.UdpLoop in ops && ops[T.UdpLoop].pid == SERVER
      && ops[T.UdpLoop].request == IsApproved(h.clientId) && !ops[T.UdpLoop].stage.Saving?
    case Registering(_, _) =>
      T.UdpLoop in ops ==> ops[T.UdpLoop].pid == SERVER && ops[T.UdpLoop].request.Register?
  }

  ghost predicate ThreadsOk(s: State) {
    SERVER in s.trust.memory && D.ProcessesRun(s.trust) && UdpThreadOk(s.udp, s.trust.ops)
  }

  function ActorOf(a: T.Step): Option<T.Who> {
    match a
    case Start(_, _) => None
    case Begin(who, _, _) => Some(who)
    case ReadFile(who, _) => Some(who)
    case Install(who) => Some(who)
    case Execute(who, _) => Some(who)
    case Save(who, _) => Some(who)
    case Kill(who) => Some(who)
  }

  lemma StoreStepKeeps(t: T.State, a: T.Step)
    requires D.ProcessesRun(t)
    ensures D.ProcessesRun(T.Next(t, a)) && t.memory.Keys <= T.Next(t, a).memory.Keys
    ensures forall who | ActorOf(a) != Some(who) ::
              (who in T.Next(t, a).ops <==> who in t.ops) && (who in t.ops ==> T.Next(t, a).ops[who] == t.ops[who])
  {
    hide ValidUtf8, Changes, Apply, T.Settled, T.DeedOf, T.Locked;
  }

  lemma StoreStepOfUdpKeeps(t: T.State, a: T.Step, phase: UdpPhase)
    requires UdpThreadOk(phase, t.ops) && T.StoreOnly(t, a) && ActorOf(a) == Some(T.UdpLoop)
    ensures UdpThreadOk(phase, T.Next(t, a).ops)
  {
    hide ValidUtf8, Changes, Apply, T.Settled, T.DeedOf, T.Locked;
  }

  /** The answer of `is_approved`. */
  predicate Asks(t: T.State, a: T.Step) {
    a.Execute? && a.who in t.ops && t.ops[a.who].request.IsApproved?
  }

  /** The trust store moves by its own steps, of the thread that acts. */
  lemma TrustMoves(c: Codec<Message>, s: State, a: Step) returns (steps: seq<T.Step>)
    ensures |steps| <= 2 && Next(c, s, a).trust == T.Run(s.trust, steps)
    ensures forall x | x in steps ::
              || a == Store(x)
              || (ActorOf(x) == Some(T.UdpLoop) && (a.Datagram? || a.UdpDecide?))
              || (ActorOf(x).Some? && ActorOf(x).value.Handler? && (a.Frame? || a.HandlerDecide?))
    ensures a.Store? ==> steps == if T.StoreOnly(s.trust, a.step) then [a.step] else []
    ensures !a.Store? ==> forall i | 0 <= i < |steps| :: steps[i].Begin? || (i == 0 && Asks(s.trust, steps[i]))
  {
    hide T.Next, T.Enabled, C.Next, OpenSession, KeyOf, Serve, WithSession, T.Run;
    match a
    case Store(step) =>
      steps := if T.StoreOnly(s.trust, step) then [step] else [];
      RunFew(s.trust, step, step);
    case Datagram(addr, m) => steps := DatagramMoves(c, s, addr, m);
    case UdpDecide(stamp) =>
      steps := if s.udp.Checking? && CanDecide(s, T.UdpLoop, s.udp.handshake)
        then DecisionSteps(s, T.UdpLoop, s.udp.handshake, PendingRecord(s.udp.handshake, DirectUdp, stamp)) else [];
      RunNone(s.trust);
      if s.udp.Checking? {
        DecidedMoves(s, T.UdpLoop, Udp(s.udp.addr), s.udp.handshake, PendingRecord(s.udp.handshake, DirectUdp, stamp));
      }
    case HandlerDecide(i, stamp) =>
      RunNone(s.trust);
      steps := [];
      if i in s.conns && s.conns[i].core.handler.Checking? && CanDecide(s, T.Handler(i), s.conns[i].core.handler.handshake) {
        var h := s.conns[i].core.handler.handshake;
        steps := DecisionSteps(s, T.Handler(i), h, PendingRecord(h, IrohP2P, stamp));
        DecidedMoves(s, T.Handler(i), Iroh(i), h, PendingRecord(h, IrohP2P, stamp));
      }
    case Frame(i) => steps := FrameMoves(c, s, i);
    case _ =>
      steps := [];
      RunNone(s.trust);
  }

  function DecisionSteps(s: State, who: T.Who, h: Handshake, info: PendingInfo): seq<T.Step>
  {
    [T.Execute(who, h.clientId)] +
    if SERVER in s.trust.memory && h.clientId in s.trust.memory[SERVER].approved then [] else [T.Begin(who, SERVER, Register(info))]
  }

  lemma RunNone(t: T.State)
    ensures T.Run(t, []) == t
  {
  }

  lemma RunFew(t: T.State, a: T.Step, b: T.Step)
    ensures T.Run(t, []) == t && T.Run(t, [a]) == T.Next(t, a) && T.Run(t, [a] + [b]) == T.Next(T.Next(t, a), b)
  {
    hide T.Next;
    D.RunOne(t, a);
    T.RunTwo(t, a, b);
    assert [a] + [b] == [a, b];
  }

  lemma DecidedMoves(s: State, who: T.Who, source: Source, h: Handshake, info: PendingInfo)
    ensures Decided(s, who, source, h, info).trust == T.Run(s.trust, DecisionSteps(s, who, h, info))
    ensures CanDecide(s, who, h) ==> Asks(s.trust, T.Execute(who, h.clientId))
  {
    hide T.Next, T.Run;
    RunFew(s.trust, T.Execute(who, h.clientId), T.Begin(who, SERVER, Register(info)));
    assert [T.Execute(who, h.clientId)] + [] == [T.Execute(who, h.clientId)];
  }

  lemma DatagramMoves(c: Codec<Message>, s: State, addr: Addr, m: Message) returns (steps: seq<T.Step>)
    ensures |steps| <= 1 && Next(c, s, Datagram(addr, m)).trust == T.Run(s.trust, steps)
    ensures forall x | x in steps :: x.Begin? && ActorOf(x) == Some(T.UdpLoop)
  {
    hide T.Next, OnFrame, OnUdpDecide, OnUdpOpen, OnHandlerDecide, OnHandlerOpen, T.Run, Serve;
    RunNone(s.trust);
    steps := [];
    if s.udp.Idle? && m.Hello? {
      var a := T.Begin(T.UdpLoop, SERVER, IsApproved(m.handshake.clientId));
      steps := [a];
      RunFew(s.trust, a, a);
    }
  }

  lemma FrameMoves(c: Codec<Message>, s: State, i: nat) returns (steps: seq<T.Step>)
    ensures |steps| <= 1 && Next(c, s, Frame(i)).trust == T.Run(s.trust, steps)
    ensures forall x | x in steps :: x.Begin? && ActorOf(x) == Some(T.Handler(i))
  {
    hide T.Next, C.Next, OnDatagram, OnUdpDecide, OnUdpOpen, OnHandlerDecide, OnHandlerOpen, T.Run, Serve, KeyOf;
    RunNone(s.trust);
    steps := [];
    if i in s.conns && s.conns[i].core.handler.Listening? {
      var handler := C.Next(c, s.conns[i], C.HandlerReads(true)).core.handler;
      if handler.Checking? {
        var a := T.Begin(T.Handler(i), SERVER, IsApproved(handler.handshake.clientId));
        steps := [a];
        RunFew(s.trust, a, a);
      }
    }
  }

  lemma {:induction false} RunKeepsProcesses(t: T.State, steps: seq<T.Step>)
    requires D.ProcessesRun(t)
    ensures D.ProcessesRun(T.Run(t, steps)) && t.memory.Keys <= T.Run(t, steps).memory.Keys
  {
    hide T.Next, D.ProcessesRun;
    if |steps| > 0 {
      RunKeepsProcesses(t, steps[..|steps| - 1]);
      StoreStepKeeps(T.Run(t, steps[..|steps| - 1]), steps[|steps| - 1]);
    }
  }

  /** Steps of others leave a thread's operation alone. */
  lemma {:induction false} RunLeaves(t: T.State, steps: seq<T.Step>, who: T.Who)
    requires D.ProcessesRun(t) && forall x | x in steps :: ActorOf(x) != Some(who)
    ensures var t' := T.Run(t, steps);
            (who in t'.ops <==> who in t.ops) && (who in t.ops ==> t'.ops[who] == t.ops[who])
  {
    hide T.Next, D.ProcessesRun, ActorOf;
    if |steps| > 0 {
      var n := |steps| - 1;
      assert forall x | x in steps[..n] :: x in steps;
      RunLeaves(t, steps[..n], who);
      RunKeepsProcesses(t, steps[..n]);
      StoreStepKeeps(T.Run(t, steps[..n]), steps[n]);
      assert steps[n] in steps;
    }
  }

  lemma NextKeepsThreads(c: Codec<Message>, s: State, a: Step)
    requires ThreadsOk(s)
    ensures ThreadsOk(Next(c, s, a))
  {
    var steps := TrustMoves(c, s, a);
    RunKeepsProcesses(s.trust, steps);
    if MovesUdp(a) {
      UdpStepKeepsThread(c, s, a);
    } else {
      hide Next, D.ProcessesRun, UdpThreadOk, T.Run, T.StoreOnly;
      OthersLeaveUdp(c, s, a);
      if a.Store? && ActorOf(a.step) == Some(T.UdpLoop) {
        if T.StoreOnly(s.trust, a.step) {
          RunFew(s.trust, a.step, a.step);
          StoreStepOfUdpKeeps(s.trust, a.step, s.udp);
        } else {
          RunNone(s.trust);
        }
      } else {
        RunLeaves(s.trust, steps, T.UdpLoop);
        SameOpSameThread(s.udp, s.trust.ops, Next(c, s, a).trust.ops);
      }
    }
  }

  lemma SameOpSameThread(phase: UdpPhase, ops: map<T.Who, T.Op>, ops': map<T.Who, T.Op>)
    requires UdpThreadOk(phase, ops)
    requires (T.UdpLoop in ops' <==> T.UdpLoop in ops) && (T.UdpLoop in ops ==> ops'[T.UdpLoop] == ops[T.UdpLoop])
    ensures UdpThreadOk(phase, ops')
  {
  }

  lemma UdpStepKeepsThread(c: Codec<Message>, s: State, a: Step)
    requires ThreadsOk(s) && MovesUdp(a)
    ensures UdpThreadOk(Next(c, s, a).udp, Next(c, s, a).trust.ops)
  {
    hide OnFrame, OnHandlerDecide, OnHandlerOpen, WithSession, Serve, T.Locked, KeyOf, Admits;
  }

  lemma {:induction false} RunKeepsThreads(c: Codec<Message>, disk: Option<TrustData>, readable: bool, steps: seq<Step>)
    ensures ThreadsOk(Run(c, Init(disk, readable), steps))
  {
    hide Next, ThreadsOk;
    if |steps| == 0 {
      InitThreads(disk, readable);
    } else {
      RunKeepsThreads(c, disk, readable, steps[..|steps| - 1]);
      NextKeepsThreads(c, Run(c, Init(disk, readable), steps[..|steps| - 1]), steps[|steps| - 1]);
    }
  }

  lemma InitThreads(disk: Option<TrustData>, readable: bool)
    ensures ThreadsOk(Init(disk, readable))
  {
  }

  // ---- Where a run can lead ----------------------------------------------------------

  ghost predicate Leads(c: Codec<Message>, s: State, t: State) {
    exists steps :: Run(c, s, steps) == t
  }

  lemma LeadsNowhere(c: Codec<Message>, s: State)
    ensures Leads(c, s, s)
  {
    assert Run(c, s, []) == s;
  }

  lemma LeadsOn(c: Codec<Message>, s: State, t: State, a: Step)
    requires Leads(c, s, t)
    ensures Leads(c, s, Next(c, t, a))
  {
    hide Next;
    var steps :| Run(c, s, steps) == t;
    var more := steps + [a];
    assert more[..|more| - 1] == steps;
    assert Run(c, s, more) == Next(c, t, a);
  }

  lemma {:induction false} RunOfConcat(c: Codec<Message>, s: State, a: seq<Step>, b: seq<Step>)
    ensures Run(c, s, a + b) == Run(c, Run(c, s, a), b)
    decreases |b|
  {
    hide Next;
    if |b| == 0 {
      assert a + b == a;
    } else {
      assert (a + b)[..|a + b| - 1] == a + b[..|b| - 1];
      RunOfConcat(c, s, a, b[..|b| - 1]);
    }
  }

  lemma LeadsFar(c: Codec<Message>, s: State, t: State, u: State)
    requires Leads(c, s, t) && Leads(c, t, u)
    ensures Leads(c, s, u)
  {
    hide Next, Run;
    var a :| Run(c, s, a) == t;
    var b :| Run(c, t, b) == u;
    RunOfConcat(c, s, a, b);
  }

  /** A step in which no read of the trust file fails and no administrator's request is executed. */
  predicate Calm(s: State, a: Step) {
    a.Store? ==>
      && (a.step.ReadFile? ==> a.step.readable)
      && (a.step.Execute? && a.step.who in s.trust.ops ==>
            s.trust.ops[a.step.who].request.IsApproved? || s.trust.ops[a.step.who].request.Register?)
  }

  ghost predicate AllCalm(c: Codec<Message>, s: State, steps: seq<Step>) {
    forall i | 0 <= i < |steps| :: Calm(Run(c, s, steps[..i]), steps[i])
  }

  ghost predicate LeadsCalmly(c: Codec<Message>, s: State, t: State) {
    exists steps :: Run(c, s, steps) == t && AllCalm(c, s, steps)
  }

  lemma CalmlyNowhere(c: Codec<Message>, s: State)
    ensures LeadsCalmly(c, s, s)
  {
    assert Run(c, s, []) == s && AllCalm(c, s, []);
  }

  lemma CalmlyOn(c: Codec<Message>, s: State, t: State, a: Step)
    requires LeadsCalmly(c, s, t) && Calm(t, a)
    ensures LeadsCalmly(c, s, Next(c, t, a))
  {
    hide Next, Calm;
    var steps :| Run(c, s, steps) == t && AllCalm(c, s, steps);
    var more := steps + [a];
    assert more[..|more| - 1] == steps;
    forall i | 0 <= i < |more| ensures Calm(Run(c, s, more[..i]), more[i]) {
      if i < |steps| { assert more[..i] == steps[..i]; }
    }
    assert Run(c, s, more) == Next(c, t, a);
  }

  lemma CalmlyLeads(c: Codec<Message>, s: State, t: State)
    requires LeadsCalmly(c, s, t)
    ensures Leads(c, s, t)
  {
    hide Run, AllCalm;
    var steps :| Run(c, s, steps) == t && AllCalm(c, s, steps);
  }

  /** Steps of the trust store that the server's threads and administrators take by themselves. */
  lemma {:induction false} CalmlyThroughStore(c: Codec<Message>, s: State, steps: seq<T.Step>)
    requires forall x | x in steps :: x.Save? || (x.ReadFile? && x.readable) || x.Install?
    ensures LeadsCalmly(c, s, s.(trust := T.Run(s.trust, steps)))
  {
    hide T.Next, LeadsCalmly;
    if |steps| > 0 {
      var n := |steps| - 1;
      assert forall x | x in steps[..n] :: x in steps;
      CalmlyThroughStore(c, s, steps[..n]);
      assert steps[n] in steps;
      var u := s.(trust := T.Run(s.trust, steps[..n]));
      CalmlyOn(c, s, u, Store(steps[n]));
      StoreSteps(c, u, steps[n]);
    } else {
      CalmlyNowhere(c, s);
      assert s.(trust := T.Run(s.trust, [])) == s;
    }
  }

  lemma StoreSteps(c: Codec<Message>, s: State, a: T.Step)
    requires T.StoreOnly(s.trust, a)
    ensures Next(c, s, Store(a)) == s.(trust := T.Next(s.trust, a))
  {
    hide OnFrame, OnDatagram, OnUdpDecide, OnUdpOpen, OnHandlerDecide, OnHandlerOpen, T.StoreOnly, T.Next;
  }

  /** Whoever writes the trust file can fail to, and be done with it. */
  lemma Unlocks(c: Codec<Message>, s: State) returns (t: State)
    ensures LeadsCalmly(c, s, t) && Leads(c, s, t) && T.NobodySaves(t.trust)
    ensures t == s.(trust := s.trust.(ops := t.trust.ops))
    ensures forall who | who in t.trust.ops :: who in s.trust.ops && t.trust.ops[who] == s.trust.ops[who]
    ensures forall who | who in s.trust.ops && !s.trust.ops[who].stage.Saving? :: who in t.trust.ops
  {
    hide Leads, LeadsCalmly, T.Run;
    var steps := D.Unlock(s.trust, [], true);
    CalmlyThroughStore(c, s, steps);
    t := s.(trust := T.Run(s.trust, steps));
    CalmlyLeads(c, s, t);
  }

  // ---- The UDP loop gets to its next datagram ----------------------------------------

  predicate GrantsNothing(deeds: seq<T.Deed>, deeds': seq<T.Deed>) {
    deeds <= deeds' && forall j | |deeds| <= j < |deeds'| :: !deeds'[j].Granted?
  }

  /** What the UDP loop leaves as it is on the way to its next datagram. */
  ghost predicate Kept(s: State, t: State) {
    && t.conns == s.conns && t.emitted == s.emitted && t.now == s.now && t.trust.disk == s.trust.disk
    && (forall k | k in s.sessions :: k in t.sessions)
    && (forall addr: Addr | WelcomedBy(s.answers, addr).Some? :: WelcomedBy(t.answers, addr) == WelcomedBy(s.answers, addr))
    && (s.udp.Opening? ==> t.udp == s.udp || KeyOf(s.udp.handshake) in t.sessions)
    && GrantsNothing(s.trust.deeds, t.trust.deeds)
  }

  lemma KeptTwice(s: State, t: State, u: State)
    requires Kept(s, t) && Kept(t, u)
    ensures Kept(s, u)
  {
    hide KeyOf, WelcomedBy;
    forall j | |s.trust.deeds| <= j < |u.trust.deeds| ensures !u.trust.deeds[j].Granted? {
      if j < |t.trust.deeds| { assert u.trust.deeds[j] == t.trust.deeds[j]; }
    }
    forall addr: Addr | WelcomedBy(s.answers, addr).Some? ensures WelcomedBy(u.answers, addr) == WelcomedBy(s.answers, addr) {
      assert WelcomedBy(t.answers, addr) == WelcomedBy(s.answers, addr);
    }
  }

  ghost predicate NobodyElseSaves(t: T.State) {
    forall who | who in t.ops && who != T.UdpLoop :: !t.ops[who].stage.Saving?
  }

  /** How many steps the loop may still need. */
  function UdpDistance(s: State): nat {
    match s.udp
    case Idle => 0
    case Opening(_, _) => 1
    case Registering(_, _) => if T.UdpLoop in s.trust.ops then StageDistance(s.trust.ops[T.UdpLoop].stage) else 1
    case Checking(_, _) => if T.UdpLoop in s.trust.ops then 4 + StageDistance(s.trust.ops[T.UdpLoop].stage) else 0
  }

  function StageDistance(stage: T.Stage): nat {
    match stage
    case Loading => 5
    case Loaded(_) => 4
    case Ready => 3
    case Saving(_) => 2
  }

  /** The loop's own step on the trust store, when it is its turn there. */
  function TurnAt(stage: T.Stage): T.Step {
    match stage
    case Loading => T.ReadFile(T.UdpLoop, true)
    case Loaded(_) => T.Install(T.UdpLoop)
    case Ready => T.Execute(T.UdpLoop, [])
    case Saving(_) => T.Save(T.UdpLoop, false)
  }

  lemma TurnIsOwn(s: State)
    requires ThreadsOk(s) && T.UdpLoop in s.trust.ops
    requires s.udp.Registering? || (s.udp.Checking? && !s.trust.ops[T.UdpLoop].stage.Ready?)
    ensures T.StoreOnly(s.trust, TurnAt(s.trust.ops[T.UdpLoop].stage)) && Calm(s, Store(TurnAt(s.trust.ops[T.UdpLoop].stage)))
    ensures s.trust.ops[T.UdpLoop].pid == SERVER && SERVER in s.trust.memory
    ensures s.trust.ops[T.UdpLoop].request.Register? || !s.trust.ops[T.UdpLoop].stage.Ready?
  {
    hide D.ProcessesRun;
  }

  lemma StoreTurn(c: Codec<Message>, s: State) returns (a: Step)
    requires ThreadsOk(s) && NobodyElseSaves(s.trust) && T.UdpLoop in s.trust.ops
    requires s.udp.Registering? || (s.udp.Checking? && !s.trust.ops[T.UdpLoop].stage.Ready?)
    ensures var t := Next(c, s, a);
            && t == s.(trust := t.trust) && NobodyElseSaves(t.trust) && t.trust.disk == s.trust.disk
            && GrantsNothing(s.trust.deeds, t.trust.deeds)
            && UdpDistance(t) < UdpDistance(s) && Calm(s, a)
  {
    var op := s.trust.ops[T.UdpLoop];
    a := Store(TurnAt(op.stage));
    TurnIsOwn(s);
    StoreSteps(c, s, TurnAt(op.stage));
    hide Next, ValidUtf8, Apply, Changes, ThreadsOk, Calm, T.StoreOnly;
    assert !op.stage.Saving? ==> !T.Locked(s.trust, SERVER);
  }

  lemma CheckedTurn(c: Codec<Message>, s: State) returns (a: Step)
    requires ThreadsOk(s) && NobodyElseSaves(s.trust) && s.udp.Checking? && s.trust.ops[T.UdpLoop].stage.Ready?
    ensures var t := Next(c, s, a);
            && t == s.(trust := t.trust, udp := t.udp, passed := t.passed)
            && t.trust.disk == s.trust.disk && t.trust.deeds == s.trust.deeds && NobodyElseSaves(t.trust)
            && UdpDistance(t) < UdpDistance(s) && !a.Store?
  {
    hide OnFrame, OnDatagram, OnUdpOpen, OnHandlerDecide, OnHandlerOpen, ValidUtf8, D.ProcessesRun;
    assert !T.Locked(s.trust, SERVER);
    var stamp: Str := s.udp.handshake.clientId;
    a := UdpDecide(stamp);
    assert CanDecide(s, T.UdpLoop, s.udp.handshake);
  }

  lemma OpenTurn(c: Codec<Message>, s: State)
    requires s.udp.Opening? && PeersFollowAnswers(s)
    ensures Kept(s, Next(c, s, UdpOpen(true))) && Next(c, s, UdpOpen(true)).udp.Idle?
    ensures Next(c, s, UdpOpen(true)).trust == s.trust
  {
    hide OnFrame, OnDatagram, OnUdpDecide, OnHandlerDecide, OnHandlerOpen, KeyOf, NewDevice, LastAnswer;
    var t := Next(c, s, UdpOpen(true));
    forall addr: Addr | WelcomedBy(s.answers, addr).Some? ensures WelcomedBy(t.answers, addr) == WelcomedBy(s.answers, addr) {
      AnswerAdded(s.answers, Welcomed(s.udp.addr, s.udp.handshake), addr);
    }
  }

  lemma PendingTurn(c: Codec<Message>, s: State)
    requires s.udp.Registering? && T.UdpLoop !in s.trust.ops && PeersFollowAnswers(s)
    ensures Kept(s, Next(c, s, UdpAnswerPending)) && Next(c, s, UdpAnswerPending).udp.Idle?
    ensures Next(c, s, UdpAnswerPending).trust == s.trust
  {
    hide OnFrame, OnDatagram, OnUdpDecide, OnUdpOpen, OnHandlerDecide, OnHandlerOpen, KeyOf, LastAnswer;
    var t := Next(c, s, UdpAnswerPending);
    forall addr: Addr | WelcomedBy(s.answers, addr).Some? ensures WelcomedBy(t.answers, addr) == WelcomedBy(s.answers, addr) {
      AnswerAdded(s.answers, Deferred(s.udp.addr), addr);
    }
  }

  lemma UdpAdvances(c: Codec<Message>, s: State) returns (a: Step)
    requires ThreadsOk(s) && NobodyElseSaves(s.trust) && PeersFollowAnswers(s) && !s.udp.Idle?
    ensures var t := Next(c, s, a);
            Kept(s, t) && NobodyElseSaves(t.trust) && UdpDistance(t) < UdpDistance(s) && Calm(s, a)
  {
    hide Next, LastAnswer, D.ProcessesRun;
    if s.udp.Opening? {
      a := UdpOpen(true);
      OpenTurn(c, s);
    } else if s.udp.Registering? && T.UdpLoop !in s.trust.ops {
      a := UdpAnswerPending;
      PendingTurn(c, s);
    } else if s.udp.Checking? && s.trust.ops[T.UdpLoop].stage.Ready? {
      a := CheckedTurn(c, s);
    } else {
      a := StoreTurn(c, s);
    }
  }

  /** The invariants that progress rests on. */
  ghost predicate Sound(s: State) {
    ThreadsOk(s) && PeersFollowAnswers(s) && ConnsOk(s)
  }

  lemma NextKeepsSound(c: Codec<Message>, s: State, a: Step)
    requires Sound(s)
    ensures Sound(Next(c, s, a))
  {
    hide Next, ThreadsOk, PeersFollowAnswers, ConnsOk;
    NextKeepsThreads(c, s, a);
    NextKeepsPeers(c, s, a);
    NextKeepsConnsOk(c, s, a);
  }

  lemma {:induction false} RunKeepsSound(c: Codec<Message>, s: State, steps: seq<Step>)
    requires Sound(s)
    ensures Sound(Run(c, s, steps))
  {
    hide Next, Sound;
    if |steps| > 0 {
      RunKeepsSound(c, s, steps[..|steps| - 1]);
      NextKeepsSound(c, Run(c, s, steps[..|steps| - 1]), steps[|steps| - 1]);
    }
  }

  lemma InitIsSound(c: Codec<Message>, disk: Option<TrustData>, readable: bool)
    ensures Sound(Init(disk, readable))
  {
    InitThreads(disk, readable);
    PeersAreTheLastWelcomes(c, disk, readable, []);
  }

  lemma LeadsKeepsSound(c: Codec<Message>, s: State, t: State)
    requires Sound(s) && Leads(c, s, t)
    ensures Sound(t)
  {
    hide Run, Sound;
    var steps :| Run(c, s, steps) == t;
    RunKeepsSound(c, s, steps);
  }

  lemma {:induction false} UdpGetsOn(c: Codec<Message>, s: State, u: State) returns (t: State)
    requires Sound(u) && NobodyElseSaves(u.trust) && LeadsCalmly(c, s, u) && Kept(s, u)
    ensures Sound(t) && NobodyElseSaves(t.trust) && t.udp.Idle? && LeadsCalmly(c, s, t) && Kept(s, t)
    decreases UdpDistance(u)
  {
    hide Next, LeadsCalmly, Kept, Calm, ConnsOk, D.ProcessesRun, LastAnswer;
    if u.udp.Idle? {
      t := u;
    } else {
      var a := UdpAdvances(c, u);
      NextKeepsSound(c, u, a);
      CalmlyOn(c, s, u, a);
      KeptTwice(s, u, Next(c, u, a));
      t := UdpGetsOn(c, s, Next(c, u, a));
    }
  }

  /** From every state of every run the UDP loop can get to its next datagram, with nobody about to
      write the trust file, and no administrator's request is executed on the way. */
  lemma UdpGetsIdle(c: Codec<Message>, s: State) returns (t: State)
    requires Sound(s)
    ensures Sound(t) && t.udp.Idle? && T.UdpLoop !in t.trust.ops && T.NobodySaves(t.trust)
    ensures LeadsCalmly(c, s, t) && Leads(c, s, t) && Kept(s, t)
  {
    hide Next, Leads, LeadsCalmly, Sound, Kept;
    var u := Unlocks(c, s);
    LeadsKeepsSound(c, s, u);
    UnlockedIsKept(s, u);
    t := UdpGetsOn(c, s, u);
    CalmlyLeads(c, s, t);
    IdleThreadIsOut(t);
  }

  lemma UnlockedIsKept(s: State, t: State)
    requires t == s.(trust := s.trust.(ops := t.trust.ops))
    ensures Kept(s, t)
  {
    hide KeyOf, WelcomedBy;
  }

  lemma IdleThreadIsOut(s: State)
    requires Sound(s) && s.udp.Idle? && NobodyElseSaves(s.trust)
    ensures T.UdpLoop !in s.trust.ops && T.NobodySaves(s.trust)
  {
    hide PeersFollowAnswers, ConnsOk, D.ProcessesRun;
  }
}
