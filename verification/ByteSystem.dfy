/** The whole server over bytes: every connection is a pair of byte streams of which some part
    has arrived, frames are taken when all of them has arrived, and either end of any
    connection may stop in the middle of a frame. Every run of it is a run of the server over
    whole messages, so that what holds in every run of that one holds in every run of it. The
    other direction is in ByteRuns.dfy. */
module ByteSystem {
  import opened Wire
  import opened Postcard
  import opened Framing
  import opened Protocol
  import opened Trust
  import opened Sessions
  import opened System
  import opened SystemSafety
  import opened SystemTheorems
  import T = TrustSystem
  import C = Connection
  import B = ByteConnection

  /** The server with byte streams; `rest` is all but the connections. */
  datatype ByteState = ByteState(rest: State, conns: map<nat, B.ByteConn>)

  /** A step of the server or of a client, with the place where the connection breaks under what
      it writes, if it does; or the arrival of bytes. */
  datatype ByteStep =
    | Does(step: Step, cut: Option<nat>)
    | ArrivesUp(conn: nat, n: nat)
    | ArrivesDown(conn: nat, n: nat)

  function Shown(r: FrameRead<Message>): seq<Message> {
    if r.Read? then [r.message] else []
  }

  /** What the ends of a connection see: what they are doing, and the frame that has arrived. */
  function Seen(c: Codec<Message>, b: B.ByteConn): C.Conn {
    C.Conn(b.core, Shown(NextFrame(c, b.up.arrived)), Shown(NextFrame(c, b.down.arrived)))
  }

  function View(c: Codec<Message>, b: ByteState): (s: State)
    ensures s.conns.Keys == b.conns.Keys
  {
    b.rest.(conns := map i | i in b.conns :: Seen(c, b.conns[i]))
  }

  /** Whether the thread of a connection is where the step begins. */
  ghost predicate Possible(s: State, a: Step, i: nat)
    requires i in s.conns
  {
    var handler := s.conns[i].core.handler;
    match a
    case HandlerDecide(_, _) => handler.Checking? && CanDecide(s, T.Handler(i), handler.handshake)
    case HandlerAnswerPending(_, _, _) => T.Handler(i) !in s.trust.ops
    case HandlerOpen(_, _, _, _) => handler.Opening?
    case _ => true
  }

  /** The server does with what its threads see what it does with whole messages; the connection
      it acts on moves on bytes. */
  ghost function ByteNext(c: Codec<Message>, b: ByteState, a: ByteStep): ByteState {
    match a
    case ArrivesUp(i, n) =>
      if i in b.conns then b.(conns := b.conns[i := B.ByteNext(c, b.conns[i], B.ByteAction(C.ArriveUp(n), None))]) else b
    case ArrivesDown(i, n) =>
      if i in b.conns then b.(conns := b.conns[i := B.ByteNext(c, b.conns[i], B.ByteAction(C.ArriveDown(n), None))]) else b
    case Does(step, cut) =>
      var view := View(c, b);
      var rest := Next(c, view, step).(conns := map[]);
      match ConnOf(step)
      case None =>
        ByteState(rest, if step.Connect? && step.conn !in b.conns then b.conns[step.conn := B.BYTE_START] else b.conns)
      case Some(i) =>
        if i !in b.conns || !Possible(view, step, i) then b
        else ByteState(rest, b.conns[i := B.ByteNext(c, b.conns[i], B.ByteAction(ActionOf(view, step), cut))])
  }

  ghost function ByteRun(c: Codec<Message>, b: ByteState, steps: seq<ByteStep>): ByteState {
    if |steps| == 0 then b else ByteNext(c, ByteRun(c, b, steps[..|steps| - 1]), steps[|steps| - 1])
  }

  function ByteInit(disk: Option<TrustData>, readable: bool): ByteState {
    ByteState(Init(disk, readable), map[])
  }

  // ---- Steps and the connections they move -------------------------------------------

  lemma ImpossibleDoesNothing(c: Codec<Message>, s: State, a: Step, i: nat)
    requires ConnOf(a) == Some(i) && (i !in s.conns || !Possible(s, a, i))
    ensures Next(c, s, a) == s
  {
    hide OnDatagram, OnUdpDecide, OnUdpOpen, OnFrame, CanDecide, C.Next, T.Next, Decided, WithSession;
  }

  lemma PossibleMoves(c: Codec<Message>, s: State, a: Step, i: nat)
    requires ConnOf(a) == Some(i) && i in s.conns && Possible(s, a, i)
    ensures Next(c, s, a).conns == s.conns[i := C.Next(c, s.conns[i], ActionOf(s, a))]
  {
    hide OnDatagram, OnUdpDecide, OnUdpOpen, CanDecide, C.Next, T.Next, Decided, WithSession, Serve, BeginCheck, KeyOf;
    hide IsApprovedNow, Admits;
  }

  /** The rest of the server depends on a connection only through what its threads see. */
  ghost predicate SameButStreams(c: Codec<Message>, s: State, t: State, a: Step, i: nat) {
    && s.(conns := map[]) == t.(conns := map[])
    && i in s.conns && i in t.conns && s.conns[i].core == t.conns[i].core
    && (a.Frame? ==> Head(c, s.conns[i]) == Head(c, t.conns[i]))
  }

  lemma SameAction(c: Codec<Message>, s: State, t: State, a: Step, i: nat)
    requires SameButStreams(c, s, t, a, i) && ConnOf(a) == Some(i)
    ensures ActionOf(s, a) == ActionOf(t, a) && Possible(s, a, i) == Possible(t, a, i)
  {
    hide Head, T.Enabled, KeyOf, Admits;
  }

  lemma SameRest(c: Codec<Message>, s: State, t: State, a: Step, i: nat)
    requires SameButStreams(c, s, t, a, i) && ConnOf(a) == Some(i)
    ensures Next(c, s, a).(conns := map[]) == Next(c, t, a).(conns := map[])
  {
    assert t == s.(conns := t.conns);
    if a.Frame? {
      hide Next, Head;
      FrameSameRest(c, s, t, i);
    } else if a.HandlerOpen? {
      hide OnFrame, OnDatagram, OnUdpDecide, OnUdpOpen, OnHandlerDecide, C.Next, WithSession, Admits, Head;
      if s.conns[i].core.handler.Opening? { WithSessionSame(s, t, s.conns[i].core.handler.handshake, a.created); }
    } else if a.HandlerDecide? {
      hide OnFrame, OnDatagram, OnUdpDecide, OnUdpOpen, OnHandlerOpen, T.Next, T.Enabled, C.Next, Head;
    } else {
      hide OnFrame, OnDatagram, OnUdpDecide, OnUdpOpen, OnHandlerDecide, OnHandlerOpen, C.Next, Head;
    }
  }

  /** What a frame does to the rest of the server. */
  ghost function FrameEffect(rest: State, i: nat, handler: C.Handler, m: Option<Message>): State {
    match handler
    case Serving(h) => if KeyOf(h) in rest.sessions && m.Some? then Serve(rest, Iroh(i), KeyOf(h), m.value) else rest
    case Listening => if m.Some? && m.value.Hello? then BeginCheck(rest, T.Handler(i), m.value.handshake) else rest
    case _ => rest
  }

  lemma FrameRest(c: Codec<Message>, s: State, i: nat)
    requires i in s.conns
    ensures Next(c, s, Frame(i)).(conns := map[])
            == FrameEffect(s.(conns := map[]), i, s.conns[i].core.handler, Head(c, s.conns[i]))
  {
    assert Next(c, s, Frame(i)) == OnFrame(c, s, i) by { hide OnFrame; }
    hide Next;
    if s.conns[i].core.handler.Serving? { ServingRest(c, s, i); } else { ListeningRest(c, s, i); }
  }

  lemma ServingRest(c: Codec<Message>, s: State, i: nat)
    requires i in s.conns && s.conns[i].core.handler.Serving?
    ensures OnFrame(c, s, i).(conns := map[])
            == FrameEffect(s.(conns := map[]), i, s.conns[i].core.handler, Head(c, s.conns[i]))
  {
    hide C.Next, KeyOf, Touch, Head, BeginCheck;
  }

  lemma ListeningRest(c: Codec<Message>, s: State, i: nat)
    requires i in s.conns && !s.conns[i].core.handler.Serving?
    ensures OnFrame(c, s, i).(conns := map[])
            == FrameEffect(s.(conns := map[]), i, s.conns[i].core.handler, Head(c, s.conns[i]))
  {
    hide KeyOf, Serve, T.Next, Fits;
    var conn := s.conns[i];
    var handler := C.Next(c, conn, C.HandlerReads(true)).core.handler;
    if conn.core.handler.Listening? && handler.Checking? {
      assert Head(c, conn) == Some(Hello(handler.handshake));
    }
  }

  lemma FrameSameRest(c: Codec<Message>, s: State, t: State, i: nat)
    requires SameButStreams(c, s, t, Frame(i), i)
    ensures Next(c, s, Frame(i)).(conns := map[]) == Next(c, t, Frame(i)).(conns := map[])
  {
    hide Next, FrameEffect, Head;
    FrameRest(c, s, i);
    FrameRest(c, t, i);
  }

  /** A frame that cannot be read, or has not arrived, does nothing to the rest of the server. */
  lemma NoFrameNoRest(c: Codec<Message>, s: State, i: nat)
    requires i in s.conns && s.conns[i].up == []
    ensures Next(c, s, Frame(i)).(conns := map[]) == s.(conns := map[])
  {
    hide OnDatagram, OnUdpDecide, OnUdpOpen, OnHandlerDecide, OnHandlerOpen, T.Next, KeyOf, Touch;
  }

  lemma ClientStepNoRest(c: Codec<Message>, s: State, i: nat, action: C.Action)
    ensures Next(c, s, ClientStep(i, action)).(conns := map[]) == s.(conns := map[])
    ensures Next(c, s, LoseHandler(i)).(conns := map[]) == s.(conns := map[])
  {
    hide C.Next;
  }

  /** A step of nobody's connection does not look at the connections. */
  lemma ElsewhereSame(c: Codec<Message>, s: State, t: State, a: Step)
    requires ConnOf(a) == None && !a.Connect? && s.(conns := map[]) == t.(conns := map[])
    ensures Next(c, s, a).conns == s.conns && Next(c, s, a).(conns := map[]) == Next(c, t, a).(conns := map[])
  {
    assert t == s.(conns := t.conns);
    if a.UdpOpen? {
      hide OnFrame, OnHandlerDecide, OnHandlerOpen, OnDatagram, OnUdpDecide, WithSession, OnUdpOpen;
      UdpOpenSame(s, t, a.created);
    } else if a.UdpDecide? {
      hide OnFrame, OnHandlerDecide, OnHandlerOpen, OnDatagram, OnUdpOpen, OnUdpDecide;
      UdpDecideSame(s, t, a.stamp);
    } else if a.Datagram? {
      hide OnFrame, OnHandlerDecide, OnHandlerOpen, OnUdpDecide, OnUdpOpen, OnDatagram;
      DatagramSame(s, t, a.addr, a.message);
    } else {
      hide OnFrame, OnHandlerDecide, OnHandlerOpen, OnDatagram, OnUdpDecide, OnUdpOpen, T.Next, Reap;
    }
  }

  lemma UdpOpenSame(s: State, t: State, created: bool)
    requires t == s.(conns := t.conns)
    ensures OnUdpOpen(t, created) == OnUdpOpen(s, created).(conns := t.conns)
  {
    hide WithSession, KeyOf, Admits;
    if s.udp.Opening? { WithSessionSame(s, t, s.udp.handshake, created); }
  }

  lemma WithSessionSame(s: State, t: State, h: Handshake, created: bool)
    requires t == s.(conns := t.conns)
    ensures WithSession(t, h, created) == WithSession(s, h, created).(conns := t.conns)
  {
    hide OpenSession, KeyOf, NewDevice;
  }

  lemma UdpDecideSame(s: State, t: State, stamp: Str)
    requires t == s.(conns := t.conns)
    ensures OnUdpDecide(t, stamp) == OnUdpDecide(s, stamp).(conns := t.conns)
  {
    hide T.Next, T.Enabled;
  }

  lemma DatagramSame(s: State, t: State, addr: Addr, m: Message)
    requires t == s.(conns := t.conns)
    ensures OnDatagram(t, addr, m) == OnDatagram(s, addr, m).(conns := t.conns)
  {
    hide T.Next, Touch;
  }

  // ---- The refinement ----------------------------------------------------------------

  ghost predicate Agree(c: Codec<Message>, b: ByteState, s: State) {
    && b.rest == s.(conns := map[])
    && b.conns.Keys == s.conns.Keys
    && forall i | i in b.conns :: B.Agree(c, b.conns[i], s.conns[i])
  }

  /** The step that an action of a connection is. */
  function StepOf(i: nat, action: C.Action): Step {
    if action.LoseHandler? then LoseHandler(i) else ClientStep(i, action)
  }

  /** The steps on whole messages behind one on bytes. */
  ghost function Image(c: Codec<Message>, b: ByteState, a: ByteStep): seq<Step> {
    match a
    case ArrivesUp(_, _) => []
    case ArrivesDown(_, _) => []
    case Does(step, cut) =>
      match ConnOf(step)
      case None => [step]
      case Some(i) =>
        var view := View(c, b);
        if i !in b.conns || !Possible(view, step, i) then []
        else
          var action := ActionOf(view, step);
          var acts := B.Image(c, b.conns[i], B.ByteAction(action, cut));
          if |acts| == 0 then []
          else if acts[0] == action then [step] + if |acts| > 1 then [LoseHandler(i)] else []
          else [StepOf(i, acts[0])]
  }

  ghost function NextAll(c: Codec<Message>, s: State, steps: seq<Step>): State
    decreases |steps|
  {
    if |steps| == 0 then s else NextAll(c, Next(c, s, steps[0]), steps[1..])
  }

  lemma NextFew(c: Codec<Message>, s: State, a: Step, b: Step)
    ensures NextAll(c, s, []) == s && NextAll(c, s, [a]) == Next(c, s, a)
    ensures NextAll(c, s, [a] + [b]) == Next(c, Next(c, s, a), b)
  {
    hide Next;
    assert [a][1..] == [] && [b][1..] == [];
    assert NextAll(c, Next(c, s, a), [b]) == Next(c, Next(c, s, a), b);
    assert ([a] + [b])[1..] == [b];
  }

  /** The actions behind one on bytes are none, the action itself and perhaps the loss of the
      handler after it, or a loss. */
  lemma ImageShape(c: Codec<Message>, b: B.ByteConn, a: B.ByteAction)
    ensures var acts := B.Image(c, b, a);
            || acts == []
            || acts == [a.action]
            || acts == [a.action] + [C.LoseHandler]
            || (acts == [C.LoseClient] && (a.action.ClientReads? || C.ClientActs(a.action)))
            || (acts == [C.LoseHandler] && a.action.HandlerReads? && !NextFrame(c, b.up.arrived).Read?)
    ensures B.Image(c, b, a) == [] && a.action.HandlerReads? ==> !NextFrame(c, b.up.arrived).Read? || !C.HandlerIsReading(b.core)
    ensures B.Image(c, b, a) == [] ==> C.Reads(a.action) || a.action.ArriveUp? || a.action.ArriveDown?
  {
    hide NextFrame, Frames;
    NoFrames(c);
    assert forall x: C.Action :: [x] + [] == [x];
  }

  /** The connection that moved agrees again, and so do all. */
  lemma OneConnAgrees(c: Codec<Message>, b: ByteState, s: State, rest: State, s': State, i: nat, conn: B.ByteConn)
    requires Agree(c, b, s) && i in b.conns && rest == s'.(conns := map[])
    requires s'.conns.Keys == s.conns.Keys && forall j | j in s.conns && j != i :: s'.conns[j] == s.conns[j]
    requires B.Agree(c, conn, s'.conns[i])
    ensures Agree(c, ByteState(rest, b.conns[i := conn]), s')
  {
    hide B.Agree;
  }

  lemma ViewAgrees(c: Codec<Message>, b: ByteState, s: State, a: Step, i: nat)
    requires Good(c) && Agree(c, b, s) && i in b.conns && ConnOf(a) == Some(i)
    requires a.Frame? ==> NextFrame(c, b.conns[i].up.arrived).Read? && C.HandlerIsReading(b.conns[i].core)
    ensures SameButStreams(c, s, View(c, b), a, i)
  {
    hide NextFrame, Good, B.UpAgrees, B.DownAgrees, Fits;
    var conn := b.conns[i];
    assert B.Agree(c, conn, s.conns[i]);
    if a.Frame? {
      B.UpIsRead(c, conn.core, conn.up, s.conns[i].up);
    }
  }

  /** The steps of a connection behind one on bytes are those that its actions are. */
  lemma ActingImage(c: Codec<Message>, b: ByteState, step: Step, cut: Option<nat>, i: nat)
    requires ConnOf(step) == Some(i) && i in b.conns && Possible(View(c, b), step, i)
    ensures var action := ActionOf(View(c, b), step);
            var acts := B.Image(c, b.conns[i], B.ByteAction(action, cut));
            Image(c, b, Does(step, cut)) ==
            if acts == [] then [] else if acts[0] == action then [step] + (if |acts| > 1 then [LoseHandler(i)] else [])
            else [StepOf(i, acts[0])]
  {
    hide ActionOf, B.Image, Possible, View;
  }

  /** Which actions of a connection are whose. */
  lemma ActionKinds(s: State, step: Step, i: nat)
    requires ConnOf(step) == Some(i)
    ensures var action := ActionOf(s, step);
            && (action.HandlerReads? <==> step.Frame?)
            && ((action.ClientReads? || C.ClientActs(action)) ==> step.ClientStep?)
            && (C.Reads(action) ==> step.Frame? || step.ClientStep?)
            && !action.ArriveUp? && !action.ArriveDown?
  {
    hide KeyOf, IsApprovedNow, Admits;
  }

  /** The step itself, on the connection as it is. */
  lemma StepAgrees(c: Codec<Message>, b: ByteState, s: State, step: Step, i: nat)
    requires Good(c) && Agree(c, b, s) && i in b.conns && ConnOf(step) == Some(i) && Possible(View(c, b), step, i)
    requires step.Frame? ==> NextFrame(c, b.conns[i].up.arrived).Read? && C.HandlerIsReading(b.conns[i].core)
    ensures i in s.conns
    ensures Next(c, s, step).(conns := map[]) == Next(c, View(c, b), step).(conns := map[])
    ensures Next(c, s, step).conns == s.conns[i := C.Next(c, s.conns[i], ActionOf(View(c, b), step))]
  {
    hide Next, Good, B.Agree, C.Next, ActionOf, Possible, View, NextFrame;
    ViewAgrees(c, b, s, step, i);
    SameAction(c, s, View(c, b), step, i);
    SameRest(c, s, View(c, b), step, i);
    PossibleMoves(c, s, step, i);
  }

  /** What a connection loses changes nothing else. */
  lemma LossAgrees(c: Codec<Message>, s: State, i: nat, action: C.Action)
    requires i in s.conns && (action.LoseHandler? || action.LoseClient?)
    ensures Next(c, s, StepOf(i, action)) == s.(conns := s.conns[i := C.Next(c, s.conns[i], action)])
  {
    hide C.Next;
  }

  /** On bytes, what can come of a step that the connection does not see through is nothing for
      the rest. */
  lemma UnseenRest(c: Codec<Message>, b: ByteState, step: Step, i: nat)
    requires ConnOf(step) == Some(i) && i in b.conns
    requires step.ClientStep? || (step.Frame? && (!NextFrame(c, b.conns[i].up.arrived).Read? || !C.HandlerIsReading(b.conns[i].core)))
    ensures Next(c, View(c, b), step).(conns := map[]) == b.rest.(conns := map[])
  {
    hide Next, NextFrame;
    var view := View(c, b);
    if step.ClientStep? {
      ClientStepNoRest(c, view, i, step.action);
    } else if !NextFrame(c, b.conns[i].up.arrived).Read? {
      NoFrameNoRest(c, view, i);
    } else {
      hide Head;
      FrameRest(c, view, i);
    }
  }

  predicate Unseen(c: Codec<Message>, conn: B.ByteConn, step: Step) {
    step.ClientStep? || (step.Frame? && (!NextFrame(c, conn.up.arrived).Read? || !C.HandlerIsReading(conn.core)))
  }

  /** Nothing came of the step. */
  lemma SilentAgrees(c: Codec<Message>, b: ByteState, s: State, step: Step, i: nat, conn: B.ByteConn)
    requires Agree(c, b, s) && ConnOf(step) == Some(i) && i in b.conns && Unseen(c, b.conns[i], step)
    requires B.Agree(c, conn, s.conns[i])
    ensures Agree(c, ByteState(Next(c, View(c, b), step).(conns := map[]), b.conns[i := conn]), s)
  {
    hide Next, NextFrame, B.Agree, View;
    UnseenRest(c, b, step, i);
    OneConnAgrees(c, b, s, Next(c, View(c, b), step).(conns := map[]), s, i, conn);
  }

  /** An end was lost instead. */
  lemma LossInsteadAgrees(c: Codec<Message>, b: ByteState, s: State, step: Step, i: nat, conn: B.ByteConn, loss: C.Action)
    requires Agree(c, b, s) && ConnOf(step) == Some(i) && i in b.conns && Unseen(c, b.conns[i], step)
    requires (loss.LoseHandler? || loss.LoseClient?) && B.Agree(c, conn, C.Next(c, s.conns[i], loss))
    ensures Agree(c, ByteState(Next(c, View(c, b), step).(conns := map[]), b.conns[i := conn]), Next(c, s, StepOf(i, loss)))
  {
    hide Next, C.Next, NextFrame, B.Agree, View, StepOf;
    UnseenRest(c, b, step, i);
    LossAgrees(c, s, i, loss);
    OneConnAgrees(c, b, s, Next(c, View(c, b), step).(conns := map[]), Next(c, s, StepOf(i, loss)), i, conn);
  }

  /** The step was taken. */
  lemma TakenAgrees(c: Codec<Message>, b: ByteState, s: State, step: Step, i: nat, conn: B.ByteConn)
    requires Good(c) && Agree(c, b, s) && i in b.conns && ConnOf(step) == Some(i) && Possible(View(c, b), step, i)
    requires step.Frame? ==> NextFrame(c, b.conns[i].up.arrived).Read? && C.HandlerIsReading(b.conns[i].core)
    requires B.Agree(c, conn, C.Next(c, s.conns[i], ActionOf(View(c, b), step)))
    ensures Agree(c, ByteState(Next(c, View(c, b), step).(conns := map[]), b.conns[i := conn]), Next(c, s, step))
  {
    hide Next, C.Next, NextFrame, B.Agree, View, ActionOf, Possible, Good;
    StepAgrees(c, b, s, step, i);
    OneConnAgrees(c, b, s, Next(c, View(c, b), step).(conns := map[]), Next(c, s, step), i, conn);
  }

  /** The step was taken, and the handler lost after it. */
  lemma TakenThenLostAgrees(c: Codec<Message>, b: ByteState, s: State, step: Step, i: nat, conn: B.ByteConn)
    requires Good(c) && Agree(c, b, s) && i in b.conns && ConnOf(step) == Some(i) && Possible(View(c, b), step, i)
    requires step.Frame? ==> NextFrame(c, b.conns[i].up.arrived).Read? && C.HandlerIsReading(b.conns[i].core)
    requires B.Agree(c, conn, C.Next(c, C.Next(c, s.conns[i], ActionOf(View(c, b), step)), C.LoseHandler))
    ensures Agree(c, ByteState(Next(c, View(c, b), step).(conns := map[]), b.conns[i := conn]),
                  Next(c, Next(c, s, step), LoseHandler(i)))
  {
    hide Next, C.Next, NextFrame, B.Agree, View, ActionOf, Possible, Good, StepOf;
    StepAgrees(c, b, s, step, i);
    var s1 := Next(c, s, step);
    LossAgrees(c, s1, i, C.LoseHandler);
    StepOfLoss(i);
    OneConnAgrees(c, b, s, Next(c, View(c, b), step).(conns := map[]), Next(c, s1, LoseHandler(i)), i, conn);
  }

  lemma ByteNextActs(c: Codec<Message>, b: ByteState, step: Step, cut: Option<nat>, i: nat)
    requires ConnOf(step) == Some(i) && i in b.conns && Possible(View(c, b), step, i)
    ensures ByteNext(c, b, Does(step, cut)) ==
            ByteState(Next(c, View(c, b), step).(conns := map[]),
                      b.conns[i := B.ByteNext(c, b.conns[i], B.ByteAction(ActionOf(View(c, b), step), cut))])
  {
    hide Next, ActionOf, Possible, B.ByteNext, View;
  }

  lemma ActingSimulates(c: Codec<Message>, b: ByteState, s: State, step: Step, cut: Option<nat>, i: nat)
    requires Good(c) && Agree(c, b, s) && ConnOf(step) == Some(i)
    requires i in b.conns && Possible(View(c, b), step, i)
    ensures Agree(c, ByteNext(c, b, Does(step, cut)), NextAll(c, s, Image(c, b, Does(step, cut))))
  {
    var view, conn := View(c, b), b.conns[i];
    var action := ActionOf(view, step);
    var a := B.ByteAction(action, cut);
    var acts, conn', sc := B.Image(c, conn, a), B.ByteNext(c, conn, a), s.conns[i];
    ByteNextActs(c, b, step, cut, i);
    B.NextSimulates(c, conn, sc, a);
    ImageShape(c, conn, a);
    ActingImage(c, b, step, cut, i);
    ActionKinds(view, step, i);
    hide Next, NextFrame, Good, B.Agree, B.ByteNext, B.Image, C.Next, ActionOf, Possible, StepOf, Image, View, B.NextAll, ByteNext, NextAll;
    hide Agree, ConnOf;
    NextFew(c, s, step, LoseHandler(i));
    if acts == [] {
      B.NextOne(c, sc, action);
      SilentAgrees(c, b, s, step, i, conn');
    } else if acts[0] != action {
      B.NextOne(c, sc, acts[0]);
      NextFew(c, s, StepOf(i, acts[0]), LoseHandler(i));
      LossInsteadAgrees(c, b, s, step, i, conn', acts[0]);
    } else if |acts| == 1 {
      B.NextOne(c, sc, action);
      TakenAgrees(c, b, s, step, i, conn');
    } else {
      B.NextTwo(c, sc, action, C.LoseHandler);
      TakenThenLostAgrees(c, b, s, step, i, conn');
    }
  }

  lemma StepOfLoss(i: nat)
    ensures StepOf(i, C.LoseHandler) == LoseHandler(i)
  {
  }

  lemma ArrivalSimulates(c: Codec<Message>, b: ByteState, s: State, i: nat, action: C.Action)
    requires Good(c) && Agree(c, b, s) && i in b.conns && (action.ArriveUp? || action.ArriveDown?)
    ensures Agree(c, b.(conns := b.conns[i := B.ByteNext(c, b.conns[i], B.ByteAction(action, None))]), s)
  {
    hide Good, B.Agree, B.ByteNext, NextFrame;
    B.NextSimulates(c, b.conns[i], s.conns[i], B.ByteAction(action, None));
  }

  lemma ElsewhereSimulates(c: Codec<Message>, b: ByteState, s: State, step: Step)
    requires Agree(c, b, s) && ConnOf(step) == None
    ensures Agree(c, ByteNext(c, b, Does(step, None)), Next(c, s, step))
  {
    hide B.Agree, NextFrame;
    var view := View(c, b);
    if step.Connect? {
      assert B.Agree(c, B.BYTE_START, C.START) by { StartAgrees(c); }
    } else {
      hide Next;
      ElsewhereSame(c, s, view, step);
    }
  }

  lemma StartAgrees(c: Codec<Message>)
    ensures B.Agree(c, B.BYTE_START, C.START)
  {
    hide NextFrame;
    assert B.Holds(c, B.BYTE_START.up, C.START.up, []) && B.Torn(c, []);
  }

  lemma CutElsewhere(c: Codec<Message>, b: ByteState, step: Step, cut: Option<nat>)
    requires ConnOf(step) == None
    ensures ByteNext(c, b, Does(step, cut)) == ByteNext(c, b, Does(step, None))
  {
    hide Next, View;
  }

  /** One step on bytes is a few steps on whole messages, or none. */
  lemma NextSimulates(c: Codec<Message>, b: ByteState, s: State, a: ByteStep)
    requires Good(c) && Agree(c, b, s)
    ensures Agree(c, ByteNext(c, b, a), NextAll(c, s, Image(c, b, a)))
  {
    hide Good, Agree, Next, B.ByteNext, Possible, ActionOf, B.Image, View, StepOf;
    match a
    case ArrivesUp(i, n) => if i in b.conns { ArrivalSimulates(c, b, s, i, C.ArriveUp(n)); }
    case ArrivesDown(i, n) => if i in b.conns { ArrivalSimulates(c, b, s, i, C.ArriveDown(n)); }
    case Does(step, cut) =>
      match ConnOf(step)
      case None =>
        NextFew(c, s, step, step);
        CutElsewhere(c, b, step, cut);
        hide ByteNext;
        ElsewhereSimulates(c, b, s, step);
      case Some(i) => if i in b.conns && Possible(View(c, b), step, i) { ActingSimulates(c, b, s, step, cut, i); }
  }

  lemma {:induction false} RunThenAll(c: Codec<Message>, s: State, before: seq<Step>, steps: seq<Step>)
    ensures Run(c, s, before + steps) == NextAll(c, Run(c, s, before), steps)
    decreases |steps|
  {
    hide Next;
    if |steps| == 0 {
      assert before + steps == before;
    } else {
      var first := before + [steps[0]];
      assert first[..|before|] == before;
      assert before + steps == first + steps[1..];
      RunThenAll(c, s, first, steps[1..]);
    }
  }

  /** Every run of the server on bytes, which arrive in any pieces and of which writers may leave
      parts of frames, is a run of the server on whole messages: the same sessions, devices,
      emissions, trust store and answers. */
  lemma {:induction false} RunSimulates(c: Codec<Message>, disk: Option<TrustData>, readable: bool, steps: seq<ByteStep>)
    returns (whole: seq<Step>)
    requires Good(c)
    ensures Agree(c, ByteRun(c, ByteInit(disk, readable), steps), Run(c, Init(disk, readable), whole))
  {
    hide Good, ByteNext, Next, NextAll, Image, B.Agree;
    if |steps| == 0 {
      whole := [];
    } else {
      hide Agree;
      var n := |steps| - 1;
      var b := ByteRun(c, ByteInit(disk, readable), steps[..n]);
      var before := RunSimulates(c, disk, readable, steps[..n]);
      NextSimulates(c, b, Run(c, Init(disk, readable), before), steps[n]);
      RunThenAll(c, Init(disk, readable), before, Image(c, b, steps[n]));
      whole := before + Image(c, b, steps[n]);
    }
  }

  // ---- Delivery ----------------------------------------------------------------------

  /** In every run of the server on bytes, for each connection: the batches in the log of all
      devices are, in order and whole, the first events its client sent; while its handler
      serves, they are followed, to the last event sent, by those that can be read from the
      bytes still in flight; and neither end meets a message it did not expect. */
  lemma DeliveredInOrder(disk: Option<TrustData>, readable: bool, steps: seq<ByteStep>, i: nat)
    requires WellFormed(Reloaded(disk, EMPTY))
    requires i in ByteRun(MessageCodec(), ByteInit(disk, readable), steps).conns
    ensures var b := ByteRun(MessageCodec(), ByteInit(disk, readable), steps);
            var conn, log := b.conns[i], C.Flatten(BatchesOf(b.rest.emitted, Iroh(i)));
            && log <= conn.core.sent
            && (conn.core.handler.Serving? ==>
                  log + C.EventsIn(Drain(MessageCodec(), B.Unread(conn.up))) == conn.core.sent)
            && conn.core.client != C.Stopped(C.ExpectedPong) && conn.core.client != C.Stopped(C.ExpectedAck)
            && conn.core.handler != C.Closed(C.ExpectedHandshake) && conn.core.warnings == 0
  {
    hide MessageCodec, Good, ByteRun, Run, WellFormed, C.Flatten, C.EventsIn, Drain, BatchesOf, Frames, B.Torn, B.Unread;
    var c := MessageCodec();
    MessageIsGood();
    var whole := RunSimulates(c, disk, readable, steps);
    var b, s := ByteRun(c, ByteInit(disk, readable), steps), Run(c, Init(disk, readable), whole);
    SystemTheorems.DeliveredInOrder(c, disk, readable, whole, i);
    var conn, sc := b.conns[i], s.conns[i];
    assert B.Agree(c, conn, sc);
    if conn.core.handler.Serving? {
      ServingConn(c, disk, readable, whole, i);
      var tail :| B.Holds(c, conn.up, sc.up, tail) && B.Torn(c, tail);
      forall m | m in sc.up ensures Fits(c, m) { B.StreamedFits(m); }
      B.DrainTorn(c, sc.up, tail);
    }
  }

  lemma ServingConn(c: Codec<Message>, disk: Option<TrustData>, readable: bool, steps: seq<Step>, i: nat)
    requires WellFormed(Reloaded(disk, EMPTY))
    requires i in Run(c, Init(disk, readable), steps).conns && Run(c, Init(disk, readable), steps).conns[i].core.handler.Serving?
    ensures C.AllStreamed(Run(c, Init(disk, readable), steps).conns[i].up)
  {
    hide Run, WellFormed, T.Inv, DevicesOk, Evidence, PassedOk, LogIsInterleaving, C.Conserved, C.ClientShape;
    Reachable(c, disk, readable, steps);
    assert C.Inv(Run(c, Init(disk, readable), steps).conns[i]);
  }
}
