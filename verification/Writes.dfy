/** What the two ends of a connection write, said action by action, and that nothing else is ever on
    the streams; and what a client's end and its handler's end say about each other. */
module Writes {
  import opened Wire
  import opened Postcard
  import opened Framing
  import opened Connection

  // ---- From the client ---------------------------------------------------------------

  /** A keepalive while the client waits for its controller or streams, a handshake when the device
      is opened, and each event, as a batch of its own, while the controller is there. */
  function ClientWrites(client: Client, a: Action): seq<Message> {
    match a
    case Keepalive => if client.Waiting? || client.Streaming? then [Ping] else []
    case OpenDevice(h) => if client.Waiting? then [Hello(h)] else []
    case Forward(e) => if client == Streaming(true) then [Events([e])] else []
    case _ => []
  }

  /** All that a client has written, from the beginning. */
  function Written(c: Codec<Message>, acts: seq<Action>): seq<Message> {
    if |acts| == 0 then []
    else
      var n := |acts| - 1;
      Written(c, acts[..n]) + ClientWrites(Run(c, acts[..n]).core.client, acts[n])
  }

  function TakenNow(s: Conn, a: Action): seq<Message> {
    if a.HandlerReads? && HandlerIsReading(s.core) && |s.up| > 0 then [s.up[0]] else []
  }

  /** What the handler has taken off the stream. */
  function Taken(c: Codec<Message>, acts: seq<Action>): seq<Message> {
    if |acts| == 0 then []
    else
      var n := |acts| - 1;
      Taken(c, acts[..n]) + TakenNow(Run(c, acts[..n]), acts[n])
  }

  lemma NextUp(c: Codec<Message>, s: Conn, a: Action)
    ensures TakenNow(s, a) + Next(c, s, a).up == s.up + ClientWrites(s.core.client, a)
  {
    hide Fits;
    assert s.up + [] == s.up && [] + Next(c, s, a).up == Next(c, s, a).up;
    if a.HandlerReads? && |s.up| > 0 { assert s.up[1..] + [] == s.up[1..] && [s.up[0]] + s.up[1..] == s.up; }
  }

  lemma Regroup4(a: seq<Message>, b: seq<Message>, x: seq<Message>, up: seq<Message>, w: seq<Message>)
    requires b + x == up + w
    ensures (a + b) + x == (a + up) + w
  {
    assert (a + b) + x == a + (b + x) == a + (up + w) == (a + up) + w;
  }

  /** In every run, what the handler has taken and what is still on the stream is, in order, exactly
      what the client wrote. */
  lemma {:induction false} UpIsWritten(c: Codec<Message>, acts: seq<Action>)
    ensures Taken(c, acts) + Run(c, acts).up == Written(c, acts)
  {
    hide Next, ClientWrites, TakenNow;
    if |acts| > 0 {
      var n := |acts| - 1;
      var s := Run(c, acts[..n]);
      UpIsWritten(c, acts[..n]);
      NextUp(c, s, acts[n]);
      Regroup4(Taken(c, acts[..n]), TakenNow(s, acts[n]), Run(c, acts).up, s.up, ClientWrites(s.core.client, acts[n]));
    }
  }

  function Pings(ms: seq<Message>): nat {
    if |ms| == 0 then 0 else Pings(ms[..|ms| - 1]) + if ms[|ms| - 1].Ping? then 1 else 0
  }

  lemma {:induction false} PingsOfConcat(a: seq<Message>, b: seq<Message>)
    ensures Pings(a + b) == Pings(a) + Pings(b)
    decreases |b|
  {
    if |b| == 0 {
      assert a + b == a;
    } else {
      assert (a + b)[..|a + b| - 1] == a + b[..|b| - 1];
      PingsOfConcat(a, b[..|b| - 1]);
    }
  }

  /** How often the keepalive timer went off while the client was waiting for its controller, or
      streaming. */
  function Keepalives(c: Codec<Message>, acts: seq<Action>): nat {
    if |acts| == 0 then 0
    else
      var n := |acts| - 1;
      var client := Run(c, acts[..n]).core.client;
      Keepalives(c, acts[..n]) + if acts[n].Keepalive? && (client.Waiting? || client.Streaming?) then 1 else 0
  }

  lemma OnePing(client: Client, a: Action)
    ensures Pings(ClientWrites(client, a)) == if a.Keepalive? && (client.Waiting? || client.Streaming?) then 1 else 0
  {
    assert forall m: Message :: [m][..0] == [];
  }

  /** In every run, the pings that were read and those on the stream are as many as there were
      keepalives. */
  lemma {:induction false} PingsAreKeepalives(c: Codec<Message>, acts: seq<Action>)
    ensures Pings(Taken(c, acts)) + Pings(Run(c, acts).up) == Keepalives(c, acts)
  {
    hide Next, Run, Taken;
    UpIsWritten(c, acts);
    PingsOfConcat(Taken(c, acts), Run(c, acts).up);
    PingsWritten(c, acts);
  }

  lemma {:induction false} PingsWritten(c: Codec<Message>, acts: seq<Action>)
    ensures Pings(Written(c, acts)) == Keepalives(c, acts)
  {
    hide Run, ClientWrites, Pings;
    if |acts| == 0 {
      NoPings();
    } else {
      var n := |acts| - 1;
      PingsWritten(c, acts[..n]);
      PingsOfConcat(Written(c, acts[..n]), ClientWrites(Run(c, acts[..n]).core.client, acts[n]));
      OnePing(Run(c, acts[..n]).core.client, acts[n]);
    }
  }

  lemma NoPings()
    ensures Pings([]) == 0
  {
  }

  // ---- From the handler --------------------------------------------------------------

  /** A pong for each ping that is read before the handshake or for a live session, and one answer
      to the handshake. */
  function HandlerWrites(c: Codec<Message>, s: Conn, a: Action): seq<Message> {
    match a
    case HandlerReads(live) =>
      if |s.up| > 0 && s.up[0].Ping? && Fits(c, Ping) && (s.core.handler.Listening? || (s.core.handler.Serving? && live))
      then [Pong] else []
    case AnswerPending(hostname, text) => if s.core.handler.Registering? then [Ack(PendingApproval, hostname, text)] else []
    case Open(created, hostname, text) =>
      if s.core.handler.Opening? then [Ack(if created then Approved else Rejected, hostname, text)] else []
    case _ => []
  }

  function Answered(c: Codec<Message>, acts: seq<Action>): seq<Message> {
    if |acts| == 0 then []
    else
      var n := |acts| - 1;
      Answered(c, acts[..n]) + HandlerWrites(c, Run(c, acts[..n]), acts[n])
  }

  function HeardNow(s: Conn, a: Action): seq<Message> {
    if a.ClientReads? && ClientIsReading(s.core) && |s.down| > 0 then [s.down[0]] else []
  }

  /** What the client has taken off the stream. */
  function Heard(c: Codec<Message>, acts: seq<Action>): seq<Message> {
    if |acts| == 0 then []
    else
      var n := |acts| - 1;
      Heard(c, acts[..n]) + HeardNow(Run(c, acts[..n]), acts[n])
  }

  lemma WithNothing(ms: seq<Message>)
    ensures ms + [] == ms && [] + ms == ms
  {
  }

  lemma GetsDown(c: Codec<Message>, s: Conn, live: bool)
    requires HandlerIsReading(s.core) && |s.up| > 0
    ensures HandlerGets(s.core, Received(c, s.up[0]), live).down == HandlerWrites(c, s, HandlerReads(live))
  {
    hide Fits;
  }

  lemma ActDown(c: Codec<Message>, s: Conn, a: Action)
    requires !Reads(a)
    ensures Act(s.core, a).down == HandlerWrites(c, s, a)
  {
  }

  lemma NextDown(c: Codec<Message>, s: Conn, a: Action)
    ensures HeardNow(s, a) + Next(c, s, a).down == s.down + HandlerWrites(c, s, a)
  {
    hide Fits, HandlerGets, Act, ClientGets;
    WithNothing(s.down);
    WithNothing(Next(c, s, a).down);
    if a.ClientReads? {
      ReadDown(c, s, a);
    } else if a.HandlerReads? {
      if HandlerIsReading(s.core) && |s.up| > 0 { GetsDown(c, s, a.live); }
    } else {
      ActDown(c, s, a);
    }
  }

  lemma ReadDown(c: Codec<Message>, s: Conn, a: Action)
    requires a.ClientReads?
    ensures HeardNow(s, a) + Next(c, s, a).down == s.down + HandlerWrites(c, s, a)
  {
    hide Fits, ClientGets;
    assert s.down + [] == s.down && [] + s.down == s.down;
    if |s.down| > 0 { assert [s.down[0]] + s.down[1..] == s.down; }
  }

  /** In every run, what the client has read and what is still on the stream is, in order, exactly
      what the handler wrote. */
  lemma {:induction false} DownIsAnswered(c: Codec<Message>, acts: seq<Action>)
    ensures Heard(c, acts) + Run(c, acts).down == Answered(c, acts)
  {
    hide Next, HandlerWrites, HeardNow;
    if |acts| > 0 {
      var n := |acts| - 1;
      var s := Run(c, acts[..n]);
      DownIsAnswered(c, acts[..n]);
      NextDown(c, s, acts[n]);
      Regroup4(Heard(c, acts[..n]), HeardNow(s, acts[n]), Run(c, acts).down, s.down, HandlerWrites(c, s, acts[n]));
    }
  }

  // ---- How a handler goes on ---------------------------------------------------------

  /** A handler goes on serving exactly while frames can be read and its session is there when it is
      needed. */
  lemma ServesOnIff(c: Codec<Message>, s: Conn, live: bool)
    requires s.core.handler.Serving? && |s.up| > 0
    ensures var handler := Next(c, s, HandlerReads(live)).core.handler;
            && (handler == s.core.handler <==> Fits(c, s.up[0]) && (live || !(s.up[0].Events? || s.up[0].Ping?)))
            && (handler == Closed(SessionGone) <==> Fits(c, s.up[0]) && !live && (s.up[0].Events? || s.up[0].Ping?))
            && (handler == Closed(HandlerLost) <==> !Fits(c, s.up[0]))
  {
    hide Fits;
  }

  /** One that waits for a handshake goes on waiting after a ping, and checks a handshake. */
  lemma ListensOnIff(c: Codec<Message>, s: Conn, live: bool)
    requires s.core.handler.Listening? && |s.up| > 0
    ensures var handler := Next(c, s, HandlerReads(live)).core.handler;
            && (handler.Listening? <==> Fits(c, s.up[0]) && s.up[0].Ping?)
            && (handler.Checking? <==> Fits(c, s.up[0]) && s.up[0].Hello?)
            && (handler.Checking? ==> handler.handshake == s.up[0].handshake)
            && (handler == Closed(ExpectedHandshake) <==> Fits(c, s.up[0]) && !s.up[0].Ping? && !s.up[0].Hello?)
            && (handler == Closed(HandlerLost) <==> !Fits(c, s.up[0]))
  {
    hide Fits;
  }

  /** What a client makes of a frame: while it streams it goes on, whatever it reads, and warns of
      anything but a pong; before, it goes on exactly when the frame is the one it waits for. */
  lemma ClientGoesOnIff(c: Codec<Message>, s: Conn)
    requires ClientIsReading(s.core) && |s.down| > 0
    ensures var m, before, after := s.down[0], s.core, Next(c, s, ClientReads).core;
            && (after.client == Stopped(ClientLost) <==> !Fits(c, m))
            && (Fits(c, m) && before.client.Streaming? ==>
                  after == before.(warnings := before.warnings + if m.Pong? then 0 else 1))
            && (Fits(c, m) && before.client.AwaitPong? ==>
                  after == before.(client := if m.Pong? then Waiting else Stopped(ExpectedPong)))
            && (before.client.AwaitAck? ==>
                  && (after.client == Streaming(true) <==> Fits(c, m) && m.Ack? && m.status.Approved?)
                  && (after.client == Stopped(Unauthorised) <==> Fits(c, m) && m.Ack? && m.status.PendingApproval?)
                  && (after.client == Stopped(Refused) <==> Fits(c, m) && m.Ack? && m.status.Rejected?)
                  && (after.client == Stopped(ExpectedAck) <==> Fits(c, m) && !m.Ack?))
  {
    hide Fits;
  }

  // ---- What the ends know of each other ----------------------------------------------

  /** The handler has opened the session, whatever became of it since. */
  predicate Admitted(h: Handler) {
    h.Serving? || h == Closed(SessionGone) || h == Closed(HandlerLost)
  }

  predicate AnswerFits(m: Message, h: Handler) {
    m.Ack? ==>
      match m.status
      case Approved => Admitted(h)
      case PendingApproval => h == Closed(Unapproved)
      case Rejected => h == Closed(DeviceFailed)
  }

  /** What the client takes the server's answer to be, it was. */
  predicate EndsAgree(s: Conn) {
    && (forall m | m in s.down :: AnswerFits(m, s.core.handler))
    && (s.core.client.Streaming? ==> Admitted(s.core.handler))
    && (s.core.client == Stopped(Unauthorised) ==> s.core.handler == Closed(Unapproved))
    && (s.core.client == Stopped(Refused) ==> s.core.handler == Closed(DeviceFailed))
  }

  lemma WritesFit(c: Codec<Message>, s: Conn, a: Action)
    ensures forall m | m in HandlerWrites(c, s, a) :: AnswerFits(m, Next(c, s, a).core.handler)
  {
    hide Fits;
  }

  /** An answer that fits goes on to fit. */
  lemma FitsOn(c: Codec<Message>, s: Conn, a: Action, m: Message)
    requires AnswerFits(m, s.core.handler)
    ensures AnswerFits(m, Next(c, s, a).core.handler)
  {
    hide Fits;
  }

  lemma ClientLearns(c: Codec<Message>, s: Conn, a: Action)
    requires EndsAgree(s)
    ensures var client, handler := Next(c, s, a).core.client, Next(c, s, a).core.handler;
            && (client.Streaming? ==> Admitted(handler))
            && (client == Stopped(Unauthorised) ==> handler == Closed(Unapproved))
            && (client == Stopped(Refused) ==> handler == Closed(DeviceFailed))
  {
    hide Fits;
    if a.ClientReads? && |s.down| > 0 {
      assert AnswerFits(s.down[0], s.core.handler);
    }
  }

  lemma NextKeepsAgreement(c: Codec<Message>, s: Conn, a: Action)
    requires EndsAgree(s)
    ensures EndsAgree(Next(c, s, a))
  {
    hide Next, AnswerFits, Admitted, HandlerWrites, HeardNow;
    NextDown(c, s, a);
    WritesFit(c, s, a);
    ClientLearns(c, s, a);
    forall m | m in Next(c, s, a).down ensures AnswerFits(m, Next(c, s, a).core.handler) {
      assert m in HeardNow(s, a) + Next(c, s, a).down;
      if m in s.down { FitsOn(c, s, a, m); }
    }
  }

  lemma {:induction false} RunKeepsAgreement(c: Codec<Message>, acts: seq<Action>)
    ensures EndsAgree(Run(c, acts))
  {
    hide Next, EndsAgree;
    if |acts| == 0 {
      StartAgrees();
    } else {
      var n := |acts| - 1;
      RunKeepsAgreement(c, acts[..n]);
      NextKeepsAgreement(c, Run(c, acts[..n]), acts[n]);
    }
  }

  lemma StartAgrees()
    ensures EndsAgree(START)
  {
  }

  /** Whether the controller is there, by what was last heard of it since streaming began. */
  function ControllerIsThere(c: Codec<Message>, acts: seq<Action>): bool {
    if |acts| == 0 then true
    else
      var n := |acts| - 1;
      if Run(c, acts[..n]).core.client.Streaming? && (acts[n].ControllerLost? || acts[n].ControllerBack?)
      then acts[n].ControllerBack?
      else ControllerIsThere(c, acts[..n])
  }

  predicate Follows(client: Client, there: bool) {
    match client
    case Streaming(controller) => controller == there
    case Stopped(_) => true
    case _ => there
  }

  lemma NextFollows(c: Codec<Message>, s: Conn, a: Action, there: bool)
    requires Follows(s.core.client, there)
    ensures Follows(Next(c, s, a).core.client,
                    if s.core.client.Streaming? && (a.ControllerLost? || a.ControllerBack?) then a.ControllerBack? else there)
  {
    hide Fits;
  }

  /** A streaming client forwards exactly while its controller is there. */
  lemma {:induction false} ForwardsWhileThere(c: Codec<Message>, acts: seq<Action>)
    ensures Follows(Run(c, acts).core.client, ControllerIsThere(c, acts))
  {
    hide Next;
    if |acts| > 0 {
      var n := |acts| - 1;
      ForwardsWhileThere(c, acts[..n]);
      NextFollows(c, Run(c, acts[..n]), acts[n], ControllerIsThere(c, acts[..n]));
    }
  }
}
