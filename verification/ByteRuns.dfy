/** The other direction of the refinement: when bytes arrive whole and no writing breaks off, the
    server over bytes can follow every run of the server over whole messages. */
module ByteRuns {
  import opened Wire
  import opened Postcard
  import opened Framing
  import opened Trust
  import opened Sessions
  import opened System
  import opened SystemSafety
  import opened ByteSystem
  import T = TrustSystem
  import C = Connection
  import B = ByteConnection

  /** Nothing that a client still reads was cut short. */
  predicate DownWhole(c: Codec<Message>, conn: B.ByteConn, s: C.Conn) {
    !conn.core.client.Stopped? ==> B.Unread(conn.down) == Frames(c, s.down)
  }

  ghost predicate ConnWhole(c: Codec<Message>, conn: B.ByteConn, s: C.Conn) {
    B.Agree(c, conn, s) && DownWhole(c, conn, s)
  }

  // ---- One connection ----------------------------------------------------------------

  lemma ActsWhole(c: Codec<Message>, conn: B.ByteConn, s: C.Conn, action: C.Action)
    requires ConnWhole(c, conn, s) && !C.Reads(action) && !action.ArriveUp? && !action.ArriveDown?
    ensures ConnWhole(c, B.ByteNext(c, conn, B.ByteAction(action, None)), C.Next(c, s, action))
  {
    hide Frames, C.Act, B.Agree;
    var a, e := B.ByteAction(action, None), C.Act(conn.core, action);
    B.ActSimulates(c, conn, s, a);
    B.NextOne(c, s, action);
    assert [action] + [] == [action];
    B.ActWrites(conn.core, action);
    assert conn.core == s.core by { AgreeSameCore(c, conn, s); }
    if !e.core.client.Stopped? { B.WriteIsUnread(c, conn.down, s.down, e.down); }
  }

  lemma AgreeSameCore(c: Codec<Message>, conn: B.ByteConn, s: C.Conn)
    requires B.Agree(c, conn, s)
    ensures conn.core == s.core
  {
  }

  /** A whole frame is read, or is too large and fails; it is not waited for. */
  lemma WholeFrame(c: Codec<Message>, bytes: Bytes, m: Message, rest: Bytes)
    requires Good(c) && bytes == Framing.Frame(c, m) + rest
    ensures !NextFrame(c, bytes).Incomplete? && (NextFrame(c, bytes).Read? <==> Fits(c, m))
    ensures Fits(c, m) ==> NextFrame(c, bytes) == Read(m, rest)
  {
    hide NextFrame, Fits, Good, Framing.Frame;
    if Fits(c, m) { FittingFrameIsRead(c, m, rest); } else { OversizeFrameFails(c, m, rest); }
  }

  lemma ClientReadsWhole(c: Codec<Message>, conn: B.ByteConn, s: C.Conn)
    requires Good(c) && ConnWhole(c, conn, s) && C.ClientIsReading(conn.core) && |s.down| > 0 && conn.down.flight == []
    ensures ConnWhole(c, B.ByteNext(c, conn, B.ByteAction(C.ClientReads, None)), C.Next(c, s, C.ClientReads))
  {
    hide NextFrame, Fits, Good, B.UpAgrees, B.DownAgrees, Framing.Frame;
    var a, r := B.ByteAction(C.ClientReads, None), NextFrame(c, conn.down.arrived);
    assert conn.down.arrived == Framing.Frame(c, s.down[0]) + Frames(c, s.down[1..]);
    WholeFrame(c, conn.down.arrived, s.down[0], Frames(c, s.down[1..]));
    B.ClientReadSimulates(c, conn, s, a);
    B.NextOne(c, s, C.ClientReads);
    B.NextOne(c, s, C.LoseClient);
    assert s.up + [] == s.up;
  }

  lemma HandlerReadsWhole(c: Codec<Message>, conn: B.ByteConn, s: C.Conn, live: bool)
    requires Good(c) && ConnWhole(c, conn, s) && C.HandlerIsReading(conn.core) && |s.up| > 0 && conn.up.flight == []
    ensures ConnWhole(c, B.ByteNext(c, conn, B.ByteAction(C.HandlerReads(live), None)), C.Next(c, s, C.HandlerReads(live)))
    ensures NextFrame(c, conn.up.arrived).Read? <==> Fits(c, s.up[0])
  {
    hide NextFrame, Fits, Good, B.DownAgrees, Framing.Frame, B.Torn;
    var a, r := B.ByteAction(C.HandlerReads(live), None), NextFrame(c, conn.up.arrived);
    var tail :| B.Holds(c, conn.up, s.up, tail) && B.Torn(c, tail) && (!conn.core.client.Stopped? ==> tail == []);
    var first, rest := Framing.Frame(c, s.up[0]), Frames(c, s.up[1..]);
    assert conn.up.arrived == B.Unread(conn.up) == (first + rest) + tail == first + (rest + tail);
    WholeFrame(c, conn.up.arrived, s.up[0], Frames(c, s.up[1..]) + tail);
    B.HandlerReadSimulates(c, conn, s, a);
    hide Frames, B.UpAgrees, C.HandlerGets;
    B.NextOne(c, s, C.HandlerReads(live));
    B.NextOne(c, s, C.LoseHandler);
    assert [C.HandlerReads(live)] + [] == [C.HandlerReads(live)];
    var e := C.HandlerGets(conn.core, B.Taken(r), live);
    B.HandlerGetsWrites(conn.core, B.Taken(r), live);
    if !conn.core.client.Stopped? { B.WriteIsUnread(c, conn.down, s.down, e.down); }
    assert s.down + [] == s.down;
  }

  // ---- The server --------------------------------------------------------------------

  /** The two views agree, and nothing was cut short. */
  ghost predicate Whole(c: Codec<Message>, b: ByteState, s: State) {
    Agree(c, b, s) && forall i | i in b.conns :: DownWhole(c, b.conns[i], s.conns[i])
  }

  lemma OneConnWhole(c: Codec<Message>, b: ByteState, s: State, s': State, i: nat, conn: B.ByteConn)
    requires Whole(c, b, s) && i in b.conns
    requires s'.conns.Keys == s.conns.Keys && forall j | j in s.conns && j != i :: s'.conns[j] == s.conns[j]
    requires ConnWhole(c, conn, s'.conns[i])
    ensures Whole(c, ByteState(s'.(conns := map[]), b.conns[i := conn]), s')
  {
    hide B.Agree, DownWhole;
    OneConnAgrees(c, b, s, s'.(conns := map[]), s', i, conn);
  }

  lemma ConnIsWhole(c: Codec<Message>, b: ByteState, s: State, i: nat)
    requires Whole(c, b, s) && i in b.conns
    ensures i in s.conns && ConnWhole(c, b.conns[i], s.conns[i]) && b.conns[i].core == s.conns[i].core
  {
    hide DownWhole, B.UpAgrees, B.DownAgrees;
  }

  /** All that is on its way to an end of a connection arrives. */
  lemma AllArrives(c: Codec<Message>, b: ByteState, s: State, i: nat)
    requires Good(c) && Whole(c, b, s) && i in b.conns
    ensures var up, down := ByteNext(c, b, ArrivesUp(i, |b.conns[i].up.flight|)), ByteNext(c, b, ArrivesDown(i, |b.conns[i].down.flight|));
            && Whole(c, up, s) && i in up.conns && up.conns[i].up.flight == []
            && Whole(c, down, s) && i in down.conns && down.conns[i].down.flight == []
  {
    hide Good, Agree, B.Unread, Next;
    var conn := b.conns[i];
    ArrivalSimulates(c, b, s, i, C.ArriveUp(|conn.up.flight|));
    ArrivalSimulates(c, b, s, i, C.ArriveDown(|conn.down.flight|));
    B.ArriveIsUnread(conn.down, |conn.down.flight|);
  }

  /** When everything has arrived, the handler sees the message it is about to read, if it can be
      read. */
  lemma SeesHead(c: Codec<Message>, b: ByteState, s: State, i: nat)
    requires Good(c) && Whole(c, b, s) && i in b.conns && C.HandlerIsReading(b.conns[i].core)
    requires |s.conns[i].up| > 0 && b.conns[i].up.flight == []
    ensures SameButStreams(c, s, View(c, b), Step.Frame(i), i)
  {
    ConnIsWhole(c, b, s, i);
    hide NextFrame, Good, B.DownAgrees, Fits, Framing.Frame, DownWhole;
    var conn := b.conns[i];
    HandlerReadsWhole(c, conn, s.conns[i], true);
    if NextFrame(c, conn.up.arrived).Read? { B.UpIsRead(c, conn.core, conn.up, s.conns[i].up); }
  }

  /** A step of a connection, seen alike by both. */
  lemma SeenAlikeFollows(c: Codec<Message>, b: ByteState, s: State, a: Step, i: nat)
    requires Whole(c, b, s) && i in b.conns && ConnOf(a) == Some(i) && Possible(s, a, i)
    requires SameButStreams(c, s, View(c, b), a, i)
    requires ConnWhole(c, B.ByteNext(c, b.conns[i], B.ByteAction(ActionOf(s, a), None)), C.Next(c, s.conns[i], ActionOf(s, a)))
    ensures Whole(c, ByteNext(c, b, Does(a, None)), Next(c, s, a))
  {
    hide Next, ByteNext, B.ByteNext, C.Next, ActionOf, Possible, View, B.Agree, DownWhole, ConnWhole;
    SameAction(c, s, View(c, b), a, i);
    SameRest(c, s, View(c, b), a, i);
    PossibleMoves(c, s, a, i);
    ByteNextActs(c, b, a, None, i);
    OneConnWhole(c, b, s, Next(c, s, a), i, B.ByteNext(c, b.conns[i], B.ByteAction(ActionOf(s, a), None)));
  }

  lemma OthersSeeAlike(c: Codec<Message>, b: ByteState, s: State, a: Step, i: nat)
    requires Whole(c, b, s) && i in b.conns && !a.Frame?
    ensures SameButStreams(c, s, View(c, b), a, i)
  {
    ConnIsWhole(c, b, s, i);
    hide NextFrame, B.Agree, DownWhole;
  }

  /** A handler without anything to read, or that is not reading, does nothing. */
  lemma NothingIsRead(c: Codec<Message>, s: State, i: nat)
    requires i in s.conns && (s.conns[i].up == [] || !C.HandlerIsReading(s.conns[i].core))
    ensures Next(c, s, Step.Frame(i)) == s
  {
    var t := Next(c, s, Step.Frame(i));
    PossibleMoves(c, s, Step.Frame(i), i);
    assert t.conns == s.conns;
    hide Next;
    FrameRest(c, s, i);
  }

  lemma ClientReadsNothing(c: Codec<Message>, s: State, i: nat)
    requires i in s.conns && (s.conns[i].down == [] || !C.ClientIsReading(s.conns[i].core))
    ensures Next(c, s, ClientStep(i, C.ClientReads)) == s
  {
    hide OnFrame, OnDatagram, OnUdpDecide, OnUdpOpen, OnHandlerDecide, OnHandlerOpen;
    assert s.conns[i := s.conns[i]] == s.conns;
  }

  lemma FrameFollows(c: Codec<Message>, b: ByteState, s: State, i: nat)
    requires Good(c) && Whole(c, b, s) && i in b.conns && C.HandlerIsReading(b.conns[i].core)
    requires i in s.conns && |s.conns[i].up| > 0 && b.conns[i].up.flight == []
    ensures Whole(c, ByteNext(c, b, Does(Step.Frame(i), None)), Next(c, s, Step.Frame(i)))
  {
    hide Good, Next, ByteNext, B.ByteNext, C.Next, Whole, ConnWhole, FrameIsLive, View;
    ConnIsWhole(c, b, s, i);
    SeesHead(c, b, s, i);
    var action := ActionOf(s, Step.Frame(i));
    HandlerReadsWhole(c, b.conns[i], s.conns[i], action.live);
    assert action == C.HandlerReads(action.live);
    SeenAlikeFollows(c, b, s, Step.Frame(i), i);
  }

  lemma ClientReadFollows(c: Codec<Message>, b: ByteState, s: State, i: nat)
    requires Good(c) && Whole(c, b, s) && i in b.conns && C.ClientIsReading(b.conns[i].core)
    requires i in s.conns && |s.conns[i].down| > 0 && b.conns[i].down.flight == []
    ensures Whole(c, ByteNext(c, b, Does(ClientStep(i, C.ClientReads), None)), Next(c, s, ClientStep(i, C.ClientReads)))
  {
    hide Good, Next, ByteNext, B.ByteNext, C.Next, Whole, ConnWhole, View;
    ConnIsWhole(c, b, s, i);
    OthersSeeAlike(c, b, s, ClientStep(i, C.ClientReads), i);
    ClientReadsWhole(c, b.conns[i], s.conns[i]);
    SeenAlikeFollows(c, b, s, ClientStep(i, C.ClientReads), i);
  }

  lemma ActFollows(c: Codec<Message>, b: ByteState, s: State, a: Step, i: nat)
    requires Whole(c, b, s) && i in b.conns && ConnOf(a) == Some(i) && i in s.conns && Possible(s, a, i)
    requires !C.Reads(ActionOf(s, a))
    ensures Whole(c, ByteNext(c, b, Does(a, None)), Next(c, s, a))
  {
    hide Next, ByteNext, B.ByteNext, C.Next, Whole, ConnWhole, Possible, View;
    ActionKinds(s, a, i);
    hide ActionOf;
    ConnIsWhole(c, b, s, i);
    OthersSeeAlike(c, b, s, a, i);
    ActsWhole(c, b.conns[i], s.conns[i], ActionOf(s, a));
    SeenAlikeFollows(c, b, s, a, i);
  }

  lemma ElsewhereFollows(c: Codec<Message>, b: ByteState, s: State, a: Step)
    requires Whole(c, b, s) && ConnOf(a) == None
    ensures Whole(c, ByteNext(c, b, Does(a, None)), Next(c, s, a))
  {
    hide B.Agree, View;
    ElsewhereSimulates(c, b, s, a);
    NextMovesConns(c, s, a);
    hide Next;
    var b', s' := ByteNext(c, b, Does(a, None)), Next(c, s, a);
    assert B.Unread(B.BYTE_START.down) == Frames(c, C.START.down) by { NoFrames(c); }
  }

  lemma RunOfMore(c: Codec<Message>, b: ByteState, steps: seq<ByteStep>, a: ByteStep)
    ensures ByteRun(c, b, []) == b && ByteRun(c, b, steps + [a]) == ByteNext(c, ByteRun(c, b, steps), a)
  {
    hide ByteNext;
    assert (steps + [a])[..|steps|] == steps;
  }

  /** One step on whole messages is a few steps on bytes, or none. */
  lemma NextFollows(c: Codec<Message>, b: ByteState, s: State, a: Step, before: seq<ByteStep>, b0: ByteState)
    returns (steps: seq<ByteStep>)
    requires Good(c) && b == ByteRun(c, b0, before) && Whole(c, b, s)
    ensures Whole(c, ByteRun(c, b0, steps), Next(c, s, a))
  {
    hide Good, Next, ByteNext, ByteRun, Possible, B.Agree, DownWhole;
    match ConnOf(a)
    case None =>
      RunOfMore(c, b0, before, Does(a, None));
      ElsewhereFollows(c, b, s, a);
      steps := before + [Does(a, None)];
    case Some(i) =>
      if i !in s.conns || !Possible(s, a, i) {
        ImpossibleDoesNothing(c, s, a, i);
        steps := before;
      } else {
        ConnIsWhole(c, b, s, i);
        ActionKinds(s, a, i);
        AllArrives(c, b, s, i);
        if a.Frame? {
          NothingOrFrame(c, b, s, i);
          var arrival := ArrivesUp(i, |b.conns[i].up.flight|);
          RunOfMore(c, b0, before, arrival);
          RunOfMore(c, b0, before + [arrival], Does(a, None));
          steps := if |s.conns[i].up| > 0 && C.HandlerIsReading(s.conns[i].core) then before + [arrival] + [Does(a, None)] else before;
        } else if a.ClientStep? && a.action.ClientReads? {
          NothingOrClientRead(c, b, s, i);
          var arrival := ArrivesDown(i, |b.conns[i].down.flight|);
          RunOfMore(c, b0, before, arrival);
          RunOfMore(c, b0, before + [arrival], Does(a, None));
          steps := if |s.conns[i].down| > 0 && C.ClientIsReading(s.conns[i].core) then before + [arrival] + [Does(a, None)] else before;
        } else {
          NotAReading(s, a, i);
          ActFollows(c, b, s, a, i);
          RunOfMore(c, b0, before, Does(a, None));
          steps := before + [Does(a, None)];
        }
      }
  }

  lemma NotAReading(s: State, a: Step, i: nat)
    requires ConnOf(a) == Some(i) && !a.Frame? && !(a.ClientStep? && a.action.ClientReads?)
    ensures !C.Reads(ActionOf(s, a))
  {
    hide IsApprovedNow, Admits, KeyOf;
  }

  lemma NothingOrFrame(c: Codec<Message>, b: ByteState, s: State, i: nat)
    requires Good(c) && Whole(c, b, s) && i in b.conns && i in s.conns
    ensures var there := ByteNext(c, b, ArrivesUp(i, |b.conns[i].up.flight|));
            if |s.conns[i].up| > 0 && C.HandlerIsReading(s.conns[i].core)
            then Whole(c, ByteNext(c, there, Does(Step.Frame(i), None)), Next(c, s, Step.Frame(i)))
            else Next(c, s, Step.Frame(i)) == s
  {
    hide Good, Next, ByteNext, Whole, ConnWhole;
    if |s.conns[i].up| > 0 && C.HandlerIsReading(s.conns[i].core) {
      AllArrives(c, b, s, i);
      var there := ByteNext(c, b, ArrivesUp(i, |b.conns[i].up.flight|));
      ConnIsWhole(c, there, s, i);
      FrameFollows(c, there, s, i);
    } else {
      NothingIsRead(c, s, i);
    }
  }

  lemma NothingOrClientRead(c: Codec<Message>, b: ByteState, s: State, i: nat)
    requires Good(c) && Whole(c, b, s) && i in b.conns && i in s.conns
    ensures var there, a := ByteNext(c, b, ArrivesDown(i, |b.conns[i].down.flight|)), ClientStep(i, C.ClientReads);
            if |s.conns[i].down| > 0 && C.ClientIsReading(s.conns[i].core)
            then Whole(c, ByteNext(c, there, Does(a, None)), Next(c, s, a))
            else Next(c, s, a) == s
  {
    hide Good, Next, ByteNext, Whole, ConnWhole;
    if |s.conns[i].down| > 0 && C.ClientIsReading(s.conns[i].core) {
      AllArrives(c, b, s, i);
      var there := ByteNext(c, b, ArrivesDown(i, |b.conns[i].down.flight|));
      ConnIsWhole(c, there, s, i);
      ClientReadFollows(c, there, s, i);
    } else {
      ClientReadsNothing(c, s, i);
    }
  }

  // ---- Every run ---------------------------------------------------------------------

  /** Every run of the server on whole messages is followed by a run on bytes: the same sessions,
      devices, emissions, trust store and answers, and the same ends of all connections. */
  lemma {:induction false} RunFollows(c: Codec<Message>, disk: Option<TrustData>, readable: bool, steps: seq<Step>)
    returns (bytes: seq<ByteStep>)
    requires Good(c)
    ensures Whole(c, ByteRun(c, ByteInit(disk, readable), bytes), Run(c, Init(disk, readable), steps))
  {
    hide Good, Next, ByteNext, Whole;
    if |steps| == 0 {
      bytes := [];
      NothingIsWhole(c, disk, readable);
    } else {
      var n := |steps| - 1;
      var before := RunFollows(c, disk, readable, steps[..n]);
      var b0 := ByteInit(disk, readable);
      bytes := NextFollows(c, ByteRun(c, b0, before), Run(c, Init(disk, readable), steps[..n]), steps[n], before, b0);
    }
  }

  lemma NothingIsWhole(c: Codec<Message>, disk: Option<TrustData>, readable: bool)
    ensures Whole(c, ByteInit(disk, readable), Init(disk, readable))
  {
  }

  /** What the server over bytes can come to, and what the server over whole messages can come to,
      is the same: all but the connections, and what the ends of these are doing. */
  ghost predicate ByBytes(c: Codec<Message>, disk: Option<TrustData>, readable: bool, rest: State, cores: map<nat, C.Core>) {
    exists steps :: var b := ByteRun(c, ByteInit(disk, readable), steps);
      b.rest == rest && (map i | i in b.conns :: b.conns[i].core) == cores
  }

  ghost predicate ByMessages(c: Codec<Message>, disk: Option<TrustData>, readable: bool, rest: State, cores: map<nat, C.Core>) {
    exists steps :: var s := Run(c, Init(disk, readable), steps);
      s.(conns := map[]) == rest && (map i | i in s.conns :: s.conns[i].core) == cores
  }

  lemma SameCores(c: Codec<Message>, b: ByteState, s: State)
    requires Agree(c, b, s)
    ensures b.rest == s.(conns := map[])
    ensures (map i | i in b.conns :: b.conns[i].core) == (map i | i in s.conns :: s.conns[i].core)
  {
    hide B.UpAgrees, B.DownAgrees;
    forall i | i in b.conns ensures i in s.conns && b.conns[i].core == s.conns[i].core {
      assert B.Agree(c, b.conns[i], s.conns[i]);
    }
  }

  lemma SameReach(c: Codec<Message>, disk: Option<TrustData>, readable: bool, rest: State, cores: map<nat, C.Core>)
    requires Good(c)
    ensures ByBytes(c, disk, readable, rest, cores) <==> ByMessages(c, disk, readable, rest, cores)
  {
    hide Good, ByteRun, Run, B.Agree, DownWhole;
    if ByBytes(c, disk, readable, rest, cores) {
      var steps :| var b := ByteRun(c, ByteInit(disk, readable), steps);
        b.rest == rest && (map i | i in b.conns :: b.conns[i].core) == cores;
      var whole := RunSimulates(c, disk, readable, steps);
      SameCores(c, ByteRun(c, ByteInit(disk, readable), steps), Run(c, Init(disk, readable), whole));
    }
    if ByMessages(c, disk, readable, rest, cores) {
      var steps :| var s := Run(c, Init(disk, readable), steps);
        s.(conns := map[]) == rest && (map i | i in s.conns :: s.conns[i].core) == cores;
      var bytes := RunFollows(c, disk, readable, steps);
      SameCores(c, ByteRun(c, ByteInit(disk, readable), bytes), Run(c, Init(disk, readable), steps));
    }
  }
}
