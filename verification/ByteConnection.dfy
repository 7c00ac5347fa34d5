/** The same connection with its streams as they are: bytes that were written, of which some
    first part has arrived. Readers take a frame when all of it has arrived and wait
    otherwise; a writer can stop in the middle of a frame. Every run of this machine is a run of
    the machine of whole messages. */
module ByteConnection {
  import opened Wire
  import opened Postcard
  import opened Framing
  import opened Protocol
  import opened Connection

  /** One direction: bytes on their way, and bytes that arrived and were not yet read. */
  datatype Pipe = Pipe(flight: Bytes, arrived: Bytes)

  datatype ByteConn = ByteConn(core: Core, up: Pipe, down: Pipe)

  const BYTE_START: ByteConn := ByteConn(FRESH, Pipe([], []), Pipe([], []))

  /** An action, and after how many bytes the connection breaks under what it writes, if it does. */
  datatype ByteAction = ByteAction(action: Action, cut: Option<nat>)

  function Append(p: Pipe, bytes: Bytes): Pipe {
    p.(flight := p.flight + bytes)
  }

  function Write(c: Codec<Message>, p: Pipe, ms: seq<Message>): Pipe {
    Append(p, Frames(c, ms))
  }

  function Arrive(p: Pipe, n: nat): Pipe {
    if n <= |p.flight| then Pipe(p.flight[n..], p.arrived + p.flight[..n]) else p
  }

  function Unread(p: Pipe): Bytes {
    p.arrived + p.flight
  }

  function Taken(r: FrameRead<Message>): Option<Message> {
    if r.Read? then Some(r.message) else None
  }

  predicate IsCut(c: Codec<Message>, ms: seq<Message>, cut: Option<nat>) {
    cut.Some? && cut.value < |Frames(c, ms)|
  }

  /** An action takes effect and writes its messages. An end whose writing breaks off has put the
      first bytes on the stream and stops; an event that was cut short was not sent. */
  function Settle(c: Codec<Message>, b: ByteConn, e: Effect, cut: Option<nat>): ByteConn {
    if IsCut(c, e.up, cut) then
      ByteConn(Act(b.core, LoseClient).core, Append(b.up, Frames(c, e.up)[..cut.value]), b.down)
    else if IsCut(c, e.down, cut) then
      ByteConn(Act(e.core, LoseHandler).core, b.up, Append(b.down, Frames(c, e.down)[..cut.value]))
    else ByteConn(e.core, Write(c, b.up, e.up), Write(c, b.down, e.down))
  }

  function ByteNext(c: Codec<Message>, b: ByteConn, a: ByteAction): ByteConn {
    match a.action
    case ArriveUp(n) => b.(up := Arrive(b.up, n))
    case ArriveDown(n) => b.(down := Arrive(b.down, n))
    case ClientReads =>
      var r := NextFrame(c, b.down.arrived);
      if !ClientIsReading(b.core) || r.Incomplete? then b
      else b.(core := ClientGets(b.core, Taken(r)), down := b.down.(arrived := r.rest))
    case HandlerReads(live) =>
      var r := NextFrame(c, b.up.arrived);
      if !HandlerIsReading(b.core) || r.Incomplete? then b
      else Settle(c, b.(up := b.up.(arrived := r.rest)), HandlerGets(b.core, Taken(r), live), a.cut)
    case _ => Settle(c, b, Act(b.core, a.action), a.cut)
  }

  function ByteRun(c: Codec<Message>, acts: seq<ByteAction>): ByteConn {
    if |acts| == 0 then BYTE_START else ByteNext(c, ByteRun(c, acts[..|acts| - 1]), acts[|acts| - 1])
  }

  // ---- The refinement ----------------------------------------------------------------

  /** What a writer that stopped can have left: nothing, or a proper prefix of a frame. */
  ghost predicate Torn(c: Codec<Message>, tail: Bytes) {
    tail == [] || exists m :: IsPartOf(c, tail, m)
  }

  predicate IsPartOf(c: Codec<Message>, tail: Bytes, m: Message) {
    |tail| < |Frame(c, m)| && tail == Frame(c, m)[..|tail|]
  }

  predicate Holds(c: Codec<Message>, p: Pipe, ms: seq<Message>, tail: Bytes) {
    Unread(p) == Frames(c, ms) + tail
  }

  /** The unread bytes for the handler are the frames of these messages, so that it stands at the
      start of a frame; a client that stopped may have left part of another one. */
  ghost predicate UpAgrees(c: Codec<Message>, core: Core, p: Pipe, ms: seq<Message>) {
    exists tail :: Holds(c, p, ms, tail) && Torn(c, tail) && (!core.client.Stopped? ==> tail == [])
  }

  /** The unread bytes for the client are the frames of these messages; a handler that closed may
      have left the last of them unfinished. */
  predicate DownAgrees(c: Codec<Message>, core: Core, p: Pipe, ms: seq<Message>) {
    Unread(p) <= Frames(c, ms) && (!core.handler.Closed? ==> Unread(p) == Frames(c, ms))
  }

  /** The two views agree, except on what a reader that has stopped left unread. */
  ghost predicate Agree(c: Codec<Message>, b: ByteConn, s: Conn) {
    && b.core == s.core
    && (!b.core.handler.Closed? ==> UpAgrees(c, b.core, b.up, s.up))
    && (!b.core.client.Stopped? ==> DownAgrees(c, b.core, b.down, s.down))
  }

  /** The actions on whole messages behind one on bytes: none while a reader waits; a reader that
      cannot read loses the connection; an end cut off while it writes stops, the client before
      its message counts as sent, the handler after. */
  function Image(c: Codec<Message>, b: ByteConn, a: ByteAction): seq<Action> {
    match a.action
    case ArriveUp(_) => []
    case ArriveDown(_) => []
    case ClientReads =>
      var r := NextFrame(c, b.down.arrived);
      if !ClientIsReading(b.core) || r.Incomplete? then [] else if r.Read? then [ClientReads] else [LoseClient]
    case HandlerReads(live) =>
      var r := NextFrame(c, b.up.arrived);
      if !HandlerIsReading(b.core) || r.Incomplete? then []
      else if !r.Read? then [LoseHandler]
      else [HandlerReads(live)] + if IsCut(c, HandlerGets(b.core, Taken(r), live).down, a.cut) then [LoseHandler] else []
    case _ =>
      var e := Act(b.core, a.action);
      if IsCut(c, e.up, a.cut) then [LoseClient]
      else [a.action] + if IsCut(c, e.down, a.cut) then [LoseHandler] else []
  }

  /** Some actions one after the other. */
  function NextAll(c: Codec<Message>, s: Conn, acts: seq<Action>): Conn
    decreases |acts|
  {
    if |acts| == 0 then s else NextAll(c, Next(c, s, acts[0]), acts[1..])
  }

  lemma NextOne(c: Codec<Message>, s: Conn, a: Action)
    ensures NextAll(c, s, []) == s && NextAll(c, s, [a]) == Next(c, s, a)
  {
    hide Next;
    assert [a][1..] == [];
  }

  lemma NextTwo(c: Codec<Message>, s: Conn, a: Action, b: Action)
    ensures NextAll(c, s, [a] + [b]) == Next(c, Next(c, s, a), b)
  {
    hide Next;
    NextOne(c, Next(c, s, a), b);
    assert ([a] + [b])[1..] == [b];
  }

  lemma AppendIsUnread(p: Pipe, bytes: Bytes)
    ensures Unread(Append(p, bytes)) == Unread(p) + bytes
  {
    assert p.arrived + (p.flight + bytes) == (p.arrived + p.flight) + bytes;
  }

  lemma WriteIsUnread(c: Codec<Message>, p: Pipe, ms: seq<Message>, more: seq<Message>)
    requires Unread(p) == Frames(c, ms)
    ensures Unread(Write(c, p, more)) == Frames(c, ms + more)
  {
    AppendIsUnread(p, Frames(c, more));
    FramesOfConcat(c, ms, more);
  }

  lemma ArriveIsUnread(p: Pipe, n: nat)
    ensures Unread(Arrive(p, n)) == Unread(p)
  {
    if n <= |p.flight| {
      assert p.flight[..n] + p.flight[n..] == p.flight;
      assert (p.arrived + p.flight[..n]) + p.flight[n..] == p.arrived + p.flight;
    }
  }

  /** Bytes arrive in pieces of any sizes, in order, and none is lost on the way. */
  lemma ArrivesInPieces(p: Pipe, a: nat, b: nat)
    requires a + b <= |p.flight|
    ensures Arrive(Arrive(p, a), b) == Arrive(p, a + b)
    ensures |Arrive(p, a).arrived| == |p.arrived| + a && Unread(Arrive(p, a)) == Unread(p)
  {
    ArriveIsUnread(p, a);
    assert p.flight[..a] + p.flight[a..][..b] == p.flight[..a + b];
    assert p.arrived + p.flight[..a] + p.flight[a..][..b] == p.arrived + p.flight[..a + b];
  }

  /** A client can be cut off after any number of the bytes of an event, and has not sent it then. */
  lemma EventIsTorn(c: Codec<Message>, b: ByteConn, e: Event, n: nat)
    requires b.core.client == Streaming(true) && n < |Frame(c, Events([e]))|
    ensures var b' := ByteNext(c, b, ByteAction(Forward(e), Some(n)));
            && b'.core.client == Stopped(ClientLost) && b'.core.sent == b.core.sent && b'.core.handler == b.core.handler
            && Unread(b'.up) == Unread(b.up) + Frame(c, Events([e]))[..n]
  {
    hide Frame;
    OneFrame(c, Events([e]));
    AppendIsUnread(b.up, Frame(c, Events([e]))[..n]);
  }

  /** A reader of part of some frames: it waits, it takes the first message and leaves the same
      part of the others, or the first message does not fit and it fails. */
  lemma ReadsFirst(c: Codec<Message>, p: Pipe, ms: seq<Message>)
    requires Good(c) && Unread(p) <= Frames(c, ms)
    ensures var r := NextFrame(c, p.arrived);
            r.Read? ==>
              && |ms| > 0 && Fits(c, ms[0]) && r.message == ms[0] && |Frame(c, ms[0])| <= |p.arrived|
              && Unread(p) == Frame(c, ms[0]) + Unread(p.(arrived := r.rest))
              && Unread(p.(arrived := r.rest)) <= Frames(c, ms[1..])
  {
    hide NextFrame, Good, Fits;
    var n, u, all := |p.arrived|, Unread(p), Frames(c, ms);
    assert all[..n] == u[..n] == p.arrived;
    PartialArrival(c, ms, n);
    var r := NextFrame(c, p.arrived);
    if r.Read? {
      var f, rest := Frame(c, ms[0]), Frames(c, ms[1..]);
      assert all == f + rest;
      var k := |f|;
      assert r.rest == rest[..n - k];
      assert p.flight == u[n..] == all[n..|u|] == rest[n - k..|u| - k];
      assert r.rest + p.flight == rest[..|u| - k];
      assert u == all[..|u|] == f + rest[..|u| - k];
    }
  }

  lemma TornIsPartOfSome(c: Codec<Message>, tail: Bytes) returns (m: Message)
    requires Torn(c, tail)
    ensures IsPartOf(c, tail, m)
  {
    if tail == [] {
      m := Ping;
    } else {
      m :| IsPartOf(c, tail, m);
    }
  }

  /** A handler that reads takes the first whole message, and the rest agrees again. */
  lemma UpIsRead(c: Codec<Message>, core: Core, p: Pipe, ms: seq<Message>)
    requires Good(c) && UpAgrees(c, core, p, ms) && NextFrame(c, p.arrived).Read?
    ensures var r := NextFrame(c, p.arrived);
            && |ms| > 0 && Some(r.message) == Received(c, ms[0])
            && UpAgrees(c, core, p.(arrived := r.rest), ms[1..])
  {
    hide NextFrame, Good, Fits, Frame, Torn;
    var tail :| Holds(c, p, ms, tail) && Torn(c, tail) && (!core.client.Stopped? ==> tail == []);
    var m := TornIsPartOfSome(c, tail);
    var all := ms + [m];
    FramesOfConcat(c, ms, [m]);
    OneFrame(c, m);
    assert Unread(p) <= Frames(c, all) && |p.arrived| <= |Unread(p)|;
    ReadsFirst(c, p, all);
    var r := NextFrame(c, p.arrived);
    if |ms| == 0 {
      assert false;
    }
    var f := Frame(c, ms[0]);
    assert all[0] == ms[0] && Frames(c, ms) == f + Frames(c, ms[1..]);
    Cancel(f, Unread(p.(arrived := r.rest)), Frames(c, ms[1..]), tail);
    assert Holds(c, p.(arrived := r.rest), ms[1..], tail);
  }

  lemma Cancel(f: Bytes, x: Bytes, y: Bytes, tail: Bytes)
    requires f + x == (f + y) + tail
    ensures x == y + tail
  {
    assert x == (f + x)[|f|..] == ((f + y) + tail)[|f|..] == y + tail;
  }

  lemma OneFrame(c: Codec<Message>, m: Message)
    ensures Frames(c, [m]) == Frame(c, m)
  {
    hide Frame;
    assert [m][1..] == [];
  }

  /** A client that reads does so too. */
  lemma DownIsRead(c: Codec<Message>, core: Core, p: Pipe, ms: seq<Message>)
    requires Good(c) && DownAgrees(c, core, p, ms) && NextFrame(c, p.arrived).Read?
    ensures var r := NextFrame(c, p.arrived);
            && |ms| > 0 && Some(r.message) == Received(c, ms[0])
            && DownAgrees(c, core, p.(arrived := r.rest), ms[1..])
  {
    hide NextFrame, Good, Fits, Frame;
    ReadsFirst(c, p, ms);
    var r := NextFrame(c, p.arrived);
    var f := Frame(c, ms[0]);
    if !core.handler.Closed? {
      assert f + Unread(p.(arrived := r.rest)) == f + Frames(c, ms[1..]);
      assert (f + Frames(c, ms[1..]))[|f|..] == Frames(c, ms[1..]);
    }
  }

  /** What an action writes, whole or cut short, keeps the views together. */
  lemma UpIsWritten(c: Codec<Message>, core: Core, core': Core, p: Pipe, ms: seq<Message>, more: seq<Message>)
    requires UpAgrees(c, core, p, ms) && (core.client.Stopped? ==> core'.client.Stopped? && more == [])
    ensures UpAgrees(c, core', Write(c, p, more), ms + more)
  {
    hide Frame, Torn;
    var tail :| Holds(c, p, ms, tail) && Torn(c, tail) && (!core.client.Stopped? ==> tail == []);
    AppendIsUnread(p, Frames(c, more));
    if core.client.Stopped? {
      assert ms + more == ms && Frames(c, more) == [];
      assert Holds(c, Write(c, p, more), ms + more, tail);
    } else {
      FramesOfConcat(c, ms, more);
      assert Holds(c, Write(c, p, more), ms + more, []);
      assert Torn(c, []) by { NothingIsTorn(c); }
    }
  }

  lemma NothingIsTorn(c: Codec<Message>)
    ensures Torn(c, [])
  {
  }

  lemma UpIsCut(c: Codec<Message>, core: Core, core': Core, p: Pipe, ms: seq<Message>, m: Message, n: nat)
    requires UpAgrees(c, core, p, ms) && !core.client.Stopped? && core'.client.Stopped? && n < |Frame(c, m)|
    ensures UpAgrees(c, core', Append(p, Frame(c, m)[..n]), ms)
  {
    hide Frame, Frames;
    var tail := Frame(c, m)[..n];
    AppendIsUnread(p, tail);
    assert Unread(p) == Frames(c, ms) + [] == Frames(c, ms);
    assert IsPartOf(c, tail, m);
    assert Holds(c, Append(p, tail), ms, tail);
  }

  lemma DownIsWritten(c: Codec<Message>, core: Core, core': Core, p: Pipe, ms: seq<Message>, more: seq<Message>)
    requires DownAgrees(c, core, p, ms) && (core.handler.Closed? ==> core'.handler.Closed? && more == [])
    ensures DownAgrees(c, core', Write(c, p, more), ms + more)
  {
    hide Frame;
    if core.handler.Closed? {
      AppendIsUnread(p, Frames(c, more));
      assert ms + more == ms;
    } else {
      WriteIsUnread(c, p, ms, more);
    }
  }

  lemma DownIsCut(c: Codec<Message>, core: Core, core': Core, p: Pipe, ms: seq<Message>, more: seq<Message>, n: nat)
    requires DownAgrees(c, core, p, ms) && !core.handler.Closed? && core'.handler.Closed? && n <= |Frames(c, more)|
    ensures DownAgrees(c, core', Append(p, Frames(c, more)[..n]), ms + more)
  {
    hide Frames;
    AppendIsUnread(p, Frames(c, more)[..n]);
    FramesOfConcat(c, ms, more);
    assert Frames(c, more) == Frames(c, more)[..n] + Frames(c, more)[n..];
  }

  // ---- Every action on bytes ---------------------------------------------------------

  /** Who acts, writes; and no action writes more than one message. */
  lemma ActWrites(core: Core, a: Action)
    ensures var e := Act(core, a);
            && |e.up| <= 1 && (e.up == [] || (e.down == [] && !core.client.Stopped?))
            && (core.client.Stopped? ==> e.core.client.Stopped?)
            && (core.handler.Closed? ==> e.core.handler.Closed? && e.down == [])
  {
  }

  lemma HandlerGetsWrites(core: Core, m: Option<Message>, live: bool)
    requires HandlerIsReading(core)
    ensures var e := HandlerGets(core, m, live); e.up == [] && e.core.client == core.client
    ensures m.None? ==> HandlerGets(core, m, live) == Act(core, LoseHandler)
  {
  }

  /** An effect settles on bytes as it does on whole messages. */
  lemma SettleAgrees(c: Codec<Message>, b: ByteConn, s: Conn, e: Effect, cut: Option<nat>)
    requires Agree(c, b, s) && |e.up| <= 1 && (e.up == [] || (e.down == [] && !b.core.client.Stopped?))
    requires b.core.client.Stopped? ==> e.core.client.Stopped?
    requires b.core.handler.Closed? ==> e.core.handler.Closed? && e.down == []
    ensures Agree(c, Settle(c, b, e, cut),
                  if IsCut(c, e.up, cut) then Next(c, s, LoseClient)
                  else if IsCut(c, e.down, cut) then Next(c, Conn(e.core, s.up + e.up, s.down + e.down), LoseHandler)
                  else Conn(e.core, s.up + e.up, s.down + e.down))
  {
    hide Frames, UpAgrees, DownAgrees;
    NoFrames(c);
    var b' := Settle(c, b, e, cut);
    var s1 := Conn(e.core, s.up + e.up, s.down + e.down);
    if IsCut(c, e.up, cut) {
      assert s.up + [] == s.up && s.down + [] == s.down;
      if !b.core.handler.Closed? {
        assert e.up == [e.up[0]];
        OneFrame(c, e.up[0]);
        UpIsCut(c, b.core, b'.core, b.up, s.up, e.up[0], cut.value);
      }
    } else if IsCut(c, e.down, cut) {
      assert s1.up + [] == s1.up && s1.down + [] == s1.down;
      if !b.core.client.Stopped? {
        DownIsCut(c, b.core, b'.core, b.down, s.down, e.down, cut.value);
      }
    } else {
      if !b.core.handler.Closed? { UpIsWritten(c, b.core, e.core, b.up, s.up, e.up); }
      if !b.core.client.Stopped? { DownIsWritten(c, b.core, e.core, b.down, s.down, e.down); }
    }
  }

  lemma ClientReadSimulates(c: Codec<Message>, b: ByteConn, s: Conn, a: ByteAction)
    requires Good(c) && Agree(c, b, s) && a.action.ClientReads?
    ensures Agree(c, ByteNext(c, b, a), NextAll(c, s, Image(c, b, a)))
  {
    hide NextFrame, Good, Fits, Frames, UpAgrees, DownAgrees;
    var r := NextFrame(c, b.down.arrived);
    NextOne(c, s, ClientReads);
    NextOne(c, s, LoseClient);
    if ClientIsReading(b.core) && !r.Incomplete? {
      var b' := ByteNext(c, b, a);
      if r.Read? {
        DownIsRead(c, b.core, b.down, s.down);
        assert DownAgrees(c, b'.core, b'.down, s.down[1..]) by { DownKnowsHandler(c, b.core, b'.core, b'.down, s.down[1..]); }
      } else {
        assert s.up + [] == s.up && s.down + [] == s.down;
      }
      if !b.core.handler.Closed? { UpKnowsClient(c, b.core, b'.core, b.up, s.up); }
    }
  }

  lemma DownKnowsHandler(c: Codec<Message>, core: Core, core': Core, p: Pipe, ms: seq<Message>)
    requires DownAgrees(c, core, p, ms) && core'.handler == core.handler
    ensures DownAgrees(c, core', p, ms)
  {
    hide Frames;
  }

  lemma UpKnowsClient(c: Codec<Message>, core: Core, core': Core, p: Pipe, ms: seq<Message>)
    requires UpAgrees(c, core, p, ms) && (core.client.Stopped? ==> core'.client.Stopped?)
    ensures UpAgrees(c, core', p, ms)
  {
    hide Holds, Torn;
    var tail :| Holds(c, p, ms, tail) && Torn(c, tail) && (!core.client.Stopped? ==> tail == []);
  }

  lemma HandlerReadSimulates(c: Codec<Message>, b: ByteConn, s: Conn, a: ByteAction)
    requires Good(c) && Agree(c, b, s) && a.action.HandlerReads?
    ensures Agree(c, ByteNext(c, b, a), NextAll(c, s, Image(c, b, a)))
  {
    hide NextFrame, Good, Fits, Frames, UpAgrees, DownAgrees, Settle;
    var r, live := NextFrame(c, b.up.arrived), a.action.live;
    NextOne(c, s, LoseHandler);
    NextOne(c, s, HandlerReads(live));
    NextTwo(c, s, HandlerReads(live), LoseHandler);
    if HandlerIsReading(b.core) && !r.Incomplete? {
      var e := HandlerGets(b.core, Taken(r), live);
      HandlerGetsWrites(b.core, Taken(r), live);
      if r.Read? {
        UpIsRead(c, b.core, b.up, s.up);
        var b1, s1 := b.(up := b.up.(arrived := r.rest)), Conn(s.core, s.up[1..], s.down);
        assert !IsCut(c, e.up, a.cut) by { NoFrames(c); }
        SettleAgrees(c, b1, s1, e, a.cut);
        assert Next(c, s, HandlerReads(live)) == Conn(e.core, s1.up + e.up, s1.down + e.down);
        assert [HandlerReads(live)] + [] == [HandlerReads(live)];
      } else {
        FailedReadAgrees(c, b, s, a);
      }
    }
  }

  lemma FailedReadAgrees(c: Codec<Message>, b: ByteConn, s: Conn, a: ByteAction)
    requires Agree(c, b, s) && a.action.HandlerReads? && HandlerIsReading(b.core)
    requires !NextFrame(c, b.up.arrived).Incomplete? && !NextFrame(c, b.up.arrived).Read?
    ensures Agree(c, ByteNext(c, b, a), Next(c, s, LoseHandler))
  {
    hide NextFrame, UpAgrees, DownAgrees, Frames;
    NoFrames(c);
    var r := NextFrame(c, b.up.arrived);
    HandlerGetsWrites(b.core, None, a.action.live);
    var b' := ByteNext(c, b, a);
    assert b'.core == Act(b.core, LoseHandler).core;
    assert s.down + [] == s.down;
    if !b.core.client.Stopped? { DownIsWritten(c, b.core, b'.core, b.down, s.down, []); }
  }

  lemma ActSimulates(c: Codec<Message>, b: ByteConn, s: Conn, a: ByteAction)
    requires Agree(c, b, s) && !Reads(a.action) && !a.action.ArriveUp? && !a.action.ArriveDown?
    ensures Agree(c, ByteNext(c, b, a), NextAll(c, s, Image(c, b, a)))
  {
    hide NextFrame, Frames, UpAgrees, DownAgrees, Settle, Act;
    var e := Act(b.core, a.action);
    ActWrites(b.core, a.action);
    SettleAgrees(c, b, s, e, a.cut);
    NextOne(c, s, LoseClient);
    NextOne(c, s, a.action);
    NextTwo(c, s, a.action, LoseHandler);
    assert [a.action] + [] == [a.action];
    assert Next(c, s, a.action) == Conn(e.core, s.up + e.up, s.down + e.down);
  }

  /** One action on bytes is a few actions on whole messages, or none. */
  lemma NextSimulates(c: Codec<Message>, b: ByteConn, s: Conn, a: ByteAction)
    requires Good(c) && Agree(c, b, s)
    ensures Agree(c, ByteNext(c, b, a), NextAll(c, s, Image(c, b, a)))
  {
    if a.action.ClientReads? {
      hide Agree, ByteNext, Image;
      ClientReadSimulates(c, b, s, a);
    } else if a.action.HandlerReads? {
      hide Agree, ByteNext, Image;
      HandlerReadSimulates(c, b, s, a);
    } else if a.action.ArriveUp? || a.action.ArriveDown? {
      hide Frames, Torn, Arrive, Unread;
      if a.action.ArriveUp? { ArriveIsUnread(b.up, a.action.n); } else { ArriveIsUnread(b.down, a.action.n); }
    } else {
      hide Agree, ByteNext, Image;
      ActSimulates(c, b, s, a);
    }
  }

  /** The run of whole messages behind a run on bytes. */
  function Abstract(c: Codec<Message>, acts: seq<ByteAction>): seq<Action> {
    if |acts| == 0 then []
    else
      var n := |acts| - 1;
      Abstract(c, acts[..n]) + Image(c, ByteRun(c, acts[..n]), acts[n])
  }

  lemma {:induction false} RunThenAll(c: Codec<Message>, before: seq<Action>, acts: seq<Action>)
    ensures Run(c, before + acts) == NextAll(c, Run(c, before), acts)
    decreases |acts|
  {
    hide Next;
    if |acts| == 0 {
      assert before + acts == before;
    } else {
      var first := before + [acts[0]];
      assert first[..|before|] == before;
      assert before + acts == first + acts[1..];
      RunThenAll(c, first, acts[1..]);
    }
  }

  lemma {:induction false} RunSimulates(c: Codec<Message>, acts: seq<ByteAction>)
    requires Good(c)
    ensures Agree(c, ByteRun(c, acts), Run(c, Abstract(c, acts)))
  {
    hide Good, ByteNext, Next, Image, NextAll;
    if |acts| == 0 {
      assert Holds(c, BYTE_START.up, START.up, []) && Torn(c, []);
    } else {
      hide Agree;
      var n := |acts| - 1;
      RunSimulates(c, acts[..n]);
      NextSimulates(c, ByteRun(c, acts[..n]), Run(c, Abstract(c, acts[..n])), acts[n]);
      RunThenAll(c, Abstract(c, acts[..n]), Image(c, ByteRun(c, acts[..n]), acts[n]));
    }
  }

  /** In every run over bytes that arrive in any pieces and of which either end may write only
      part: neither end meets a message it did not expect; a reader that has not stopped stands
      at the start of a frame; and what a handler that has not closed has emitted, followed by
      the events in the frames it has not read, is exactly what the client sent. What follows
      those frames is nothing while the client runs, and at most part of one frame after. */
  lemma EveryByteRun(c: Codec<Message>, acts: seq<ByteAction>)
    returns (up: seq<Message>, tail: Bytes, down: seq<Message>)
    requires Good(c)
    ensures var b := ByteRun(c, acts);
            && b.core.client != Stopped(ExpectedPong) && b.core.client != Stopped(ExpectedAck)
            && b.core.handler != Closed(ExpectedHandshake) && b.core.warnings == 0
            && (!b.core.client.Stopped? ==> DownAgrees(c, b.core, b.down, down))
            && (!b.core.handler.Closed? ==>
                  && Unread(b.up) == Frames(c, up) + tail && Torn(c, tail)
                  && (!b.core.client.Stopped? ==> tail == [])
                  && Flatten(b.core.emitted) + EventsIn(up) == b.core.sent)
            && (b.core.handler.Closed? ==> Flatten(b.core.emitted) <= b.core.sent)
            && (b.core.handler.Serving? ==> AllStreamed(up))
  {
    hide Good, ByteRun, Run, Flatten, EventsIn, Torn, DownAgrees, Frames;
    RunSimulates(c, acts);
    RunKeepsInv(c, Abstract(c, acts));
    var b := ByteRun(c, acts);
    up, tail, down := Run(c, Abstract(c, acts)).up, [], Run(c, Abstract(c, acts)).down;
    if !b.core.handler.Closed? {
      tail :| Holds(c, b.up, up, tail) && Torn(c, tail) && (!b.core.client.Stopped? ==> tail == []);
    }
  }

  lemma StreamedFits(m: Message)
    requires Streamed(m)
    ensures Fits(MessageCodec(), m)
  {
    if m.Events? {
      assert m == EventMessage(m.events[0]);
      EventMessageIsSmall(m.events[0]);
    } else {
      EventMessageIsSmall(WIDEST);
    }
  }

  /** Repeated reading of frames that fit, with part of another one after them, yields their
      messages and no more. */
  lemma {:induction false} DrainTorn(c: Codec<Message>, ms: seq<Message>, tail: Bytes)
    requires Good(c) && Torn(c, tail) && forall m | m in ms :: Fits(c, m)
    ensures Drain(c, Frames(c, ms) + tail) == ms
  {
    hide NextFrame, Frame, Fits, Good;
    if |ms| == 0 {
      var m := TornIsPartOfSome(c, tail);
      OneFrame(c, m);
      PartialArrival(c, [m], |tail|);
      assert Frames(c, ms) + tail == tail;
      assert !NextFrame(c, tail).Read?;
    } else {
      assert Frames(c, ms) + tail == Frame(c, ms[0]) + (Frames(c, ms[1..]) + tail);
      FittingFrameIsRead(c, ms[0], Frames(c, ms[1..]) + tail);
      DrainTorn(c, ms[1..], tail);
    }
  }

  /** With the format of the repository: while a handler serves, the events it has emitted,
      followed by those that can be read from the bytes still in flight, are exactly the events
      the client sent. */
  lemma NothingLostInFlight(acts: seq<ByteAction>)
    ensures var b := ByteRun(MessageCodec(), acts);
            b.core.handler.Serving? ==>
              Flatten(b.core.emitted) + EventsIn(Drain(MessageCodec(), Unread(b.up))) == b.core.sent
  {
    hide MessageCodec, Good, Drain, ByteRun, Flatten, EventsIn, Frames, Streamed, Torn, Unread;
    MessageIsGood();
    var c := MessageCodec();
    var up, tail, down := EveryByteRun(c, acts);
    if ByteRun(c, acts).core.handler.Serving? {
      forall m | m in up ensures Fits(c, m) { StreamedFits(m); }
      DrainTorn(c, up, tail);
    }
  }
}
