/** The handler of one Iroh connection (src/server.rs, `handle_iroh_client`) on a connection of
    which everything has arrived, with nothing else at work on the server meanwhile: its loops
    over frames, and what they make of the messages of the stream. */
module Handler {
  import opened Wire
  import opened Postcard
  import opened Framing
  import opened Trust
  import opened Sessions
  import opened System
  import opened Server
  import C = Connection

  // ---- What a stream of messages means -----------------------------------------------

  function AfterPings(ms: seq<Message>): (rest: seq<Message>)
    ensures |rest| <= |ms|
  {
    if |ms| > 0 && ms[0].Ping? then AfterPings(ms[1..]) else ms
  }

  /** The client this stream introduces, if it does: pings, then a handshake. */
  function Greeted(ms: seq<Message>): Option<Handshake> {
    var rest := AfterPings(ms);
    if |rest| > 0 && rest[0].Hello? then Some(rest[0].handshake) else None
  }

  function Pongs(n: nat): seq<Message> {
    if n == 0 then [] else [Pong] + Pongs(n - 1)
  }

  function PingCount(ms: seq<Message>): nat {
    if |ms| == 0 then 0 else (if ms[0].Ping? then 1 else 0) + PingCount(ms[1..])
  }

  function Batches(ms: seq<Message>): seq<Vec<Event>> {
    if |ms| == 0 then [] else (if ms[0].Events? then [ms[0].events] else []) + Batches(ms[1..])
  }

  function Emissions(source: Source, key: Key, serial: nat, batches: seq<Vec<Event>>): seq<Emission> {
    if |batches| == 0 then [] else [Emission(source, key, serial, batches[0])] + Emissions(source, key, serial, batches[1..])
  }

  /** When a session was last active, given the time of each message. */
  function LastActive(start: nat, ms: seq<Message>, times: nat -> nat, i: nat): nat
    decreases |ms|
  {
    if |ms| == 0 then start
    else LastActive(if ms[0].Events? || ms[0].Ping? then times(i) else start, ms[1..], times, i + 1)
  }

  function WithActivity(t: Table, key: Key, at: nat): Table
    requires key in t
  {
    t[key := t[key].(lastActive := at)]
  }

  lemma DrainStep<T>(c: Codec<T>, s: Bytes)
    ensures match NextFrame(c, s)
            case Read(m, rest) => Drain(c, s) == [m] + Drain(c, rest) && Drain(c, s)[1..] == Drain(c, rest)
            case _ => Drain(c, s) == []
  {
    hide NextFrame;
  }

  lemma PongsAppend(c: Codec<Message>, n: nat)
    ensures Frames(c, Pongs(n + 1)) == Frames(c, Pongs(n)) + Framing.Frame(c, Pong)
  {
    hide Framing.Frame;
    if n > 0 {
      PongsAppend(c, n - 1);
      assert Pongs(n + 1)[1..] == Pongs(n) && Pongs(n)[1..] == Pongs(n - 1);
    } else {
      assert Pongs(1) == [Pong] && [Pong][1..] == [];
    }
  }

  // ---- The loops ---------------------------------------------------------------------

  /** Answers pings until the handshake comes; anything else, or the end, is an error. */
  method AwaitHandshake(recv: ByteStream<Message>, send: ByteStream<Message>) returns (h: Option<Handshake>)
    requires recv != send && recv.codec == send.codec
    modifies recv, send
    ensures var ms := Drain(recv.codec, old(recv.buf));
            && h == Greeted(ms)
            && send.buf == old(send.buf) + Frames(send.codec, Pongs(|ms| - |AfterPings(ms)|))
            && (h.Some? ==> Drain(recv.codec, recv.buf) == AfterPings(ms)[1..])
  {
    hide NextFrame, Framing.Frame, Frames, Drain, Pongs;
    ghost var c := recv.codec;
    ghost var ms := Drain(c, recv.buf);
    ghost var n: nat := 0;
    NoPongs(c);
    while true
      invariant AfterPings(ms) == AfterPings(Drain(c, recv.buf)) && |ms| == n + |Drain(c, recv.buf)|
      invariant send.buf == old(send.buf) + Frames(c, Pongs(n))
      decreases |recv.buf|
    {
      DrainStep(c, recv.buf);
      var r := recv.ReadFrame();
      match r {
        case Err(_) => return None;
        case Ok(m) =>
          match m {
            case Hello(handshake) => return Some(handshake);
            case Ping =>
              PongsAppend(c, n);
              send.WriteFrame(Pong);
              n := n + 1;
            case _ => return None;
          }
      }
    }
  }

  lemma NoPongs(c: Codec<Message>)
    ensures Frames(c, Pongs(0)) == []
  {
  }

  /** The main loop: serves the session until the stream ends, or its session is found gone. */
  method ServeStream(server: JoycastServer, conn: nat, key: Key, recv: ByteStream<Message>, send: ByteStream<Message>,
                     times: nat -> nat)
    requires recv != send && recv.codec == send.codec && key in server.sessions
    modifies server`sessions, server`emitted, recv, send
    ensures var ms, serial := Drain(recv.codec, old(recv.buf)), old(server.sessions)[key].device.serial;
            && server.emitted == old(server.emitted) + Emissions(Iroh(conn), key, serial, Batches(ms))
            && server.sessions == WithActivity(old(server.sessions), key,
                                               LastActive(old(server.sessions)[key].lastActive, ms, times, 0))
            && send.buf == old(send.buf) + Frames(send.codec, Pongs(PingCount(ms)))
  {
    hide NextFrame, Framing.Frame, Frames, Drain, Pongs, Batches, Emissions, PingCount, LastActive, Touch;
    ghost var c, serial := recv.codec, server.sessions[key].device.serial;
    ghost var before, start := server.sessions, server.sessions[key].lastActive;
    ghost var ms := Drain(c, recv.buf);
    ghost var out, n: nat := [], 0;
    var i := 0;
    NoPongs(c);
    NoEmissions(Iroh(conn), key, serial);
    assert server.sessions == WithActivity(before, key, start);
    while true
      invariant key in server.sessions
      invariant server.sessions == WithActivity(before, key, server.sessions[key].lastActive)
      invariant LastActive(start, ms, times, 0)
                == LastActive(server.sessions[key].lastActive, Drain(c, recv.buf), times, i)
      invariant Batches(ms) == out + Batches(Drain(c, recv.buf))
      invariant server.emitted == old(server.emitted) + Emissions(Iroh(conn), key, serial, out)
      invariant PingCount(ms) == n + PingCount(Drain(c, recv.buf))
      invariant send.buf == old(send.buf) + Frames(c, Pongs(n))
      decreases |recv.buf|
    {
      DrainStep(c, recv.buf);
      StreamStep(Drain(c, recv.buf), server.sessions[key].lastActive, times, i);
      var r := recv.ReadFrame();
      if r.Err? {
        assert out + [] == out;
        break;
      }
      var m := r.message;
      TouchIsActivity(server.sessions, key, times(i));
      if m.Events? {
        var live := server.ServeMessage(Iroh(conn), key, m, times(i));
        if !live {
          break;
        }
        EmissionsAppendOne(Iroh(conn), key, serial, out, m.events);
        assert out + ([m.events] + Batches(Drain(c, recv.buf))) == (out + [m.events]) + Batches(Drain(c, recv.buf));
        out := out + [m.events];
      } else if m.Ping? {
        var live := server.ServeMessage(Iroh(conn), key, m, times(i));
        if !live {
          break;
        }
        PongsAppend(c, n);
        send.WriteFrame(Pong);
        n := n + 1;
      }
      i := i + 1;
    }
  }

  lemma TouchIsActivity(t: Table, key: Key, now: nat)
    requires key in t
    ensures Touch(t, key, now) == WithActivity(t, key, now)
  {
  }

  lemma StreamStep(ms: seq<Message>, start: nat, times: nat -> nat, i: nat)
    ensures |ms| == 0 ==> Batches(ms) == [] && PingCount(ms) == 0 && LastActive(start, ms, times, i) == start
    ensures |ms| > 0 ==>
              && Batches(ms) == (if ms[0].Events? then [ms[0].events] else []) + Batches(ms[1..])
              && PingCount(ms) == (if ms[0].Ping? then 1 else 0) + PingCount(ms[1..])
              && LastActive(start, ms, times, i)
                 == LastActive(if ms[0].Events? || ms[0].Ping? then times(i) else start, ms[1..], times, i + 1)
  {
  }

  lemma NoEmissions(source: Source, key: Key, serial: nat)
    ensures Emissions(source, key, serial, []) == []
  {
  }

  lemma {:induction false} EmissionsAppendOne(source: Source, key: Key, serial: nat, batches: seq<Vec<Event>>, b: Vec<Event>)
    ensures Emissions(source, key, serial, batches + [b])
            == Emissions(source, key, serial, batches) + [Emission(source, key, serial, b)]
  {
    if |batches| == 0 {
      assert batches + [b] == [b] && [b][1..] == [];
    } else {
      EmissionsAppendOne(source, key, serial, batches[1..], b);
      assert (batches + [b])[1..] == batches[1..] + [b];
    }
  }

  /** The answer to a handshake. */
  function AnswerTo(t: Table, d: TrustData, h: Handshake, creatable: bool): AckStatus {
    if h.clientId !in d.approved then PendingApproval
    else if Admits(t, h, creatable) then Approved
    else Rejected
  }

  /** The tables after a stream was served: its batches emitted, the session last active at its
      last event or ping. */
  function ServedTables(t: Tables, conn: nat, key: Key, ms: seq<Message>, times: nat -> nat): Tables
    requires key in t.sessions
  {
    t.(sessions := WithActivity(t.sessions, key, LastActive(t.sessions[key].lastActive, ms, times, 0)),
       emitted := t.emitted + Emissions(Iroh(conn), key, t.sessions[key].device.serial, Batches(ms)))
  }

  /** What a handler leaves, and the messages it writes. */
  datatype Attended = Attended(tables: Tables, answers: seq<Message>)

  /** A handler answers the pings before a handshake and nothing else; then it gives one answer to
      the handshake; and if that is an approval, every batch of events in the rest of the stream
      goes, in order and whole, to the device of the session, and every ping is answered. */
  function Attend(t: Tables, conn: nat, ms: seq<Message>, at: Surroundings, times: nat -> nat): Attended {
    var rest := AfterPings(ms);
    var early := Pongs(|ms| - |rest|);
    match Greeted(ms)
    case None => Attended(t, early)
    case Some(h) =>
      var d := Reloaded(ReadFrom(t.file, at.readable), t.known);
      var status := AnswerTo(t.sessions, d, h, at.creatable);
      var answers := early + [Ack(status, at.hostname, at.text)];
      match status
      case PendingApproval =>
        var d' := WithPending(d, PendingRecord(h, IrohP2P, at.stamp));
        Attended(t.(known := d', file := if at.writable then Some(d') else t.file), answers)
      case Rejected => Attended(t.(known := d), answers)
      case Approved =>
        Attended(ServedTables(WithSessionFor(t, h, at).(known := d), conn, KeyOf(h), rest[1..], times),
                 answers + Pongs(PingCount(rest[1..])))
  }

  /** The whole handler. */
  method HandleIrohClient(server: JoycastServer, conn: nat, recv: ByteStream<Message>, send: ByteStream<Message>,
                          at: Surroundings, times: nat -> nat)
    requires recv != send && recv.codec == send.codec
    modifies server, server.trust`data, server.trust.file, recv, send
    ensures var r := Attend(old(server.Contents()), conn, Drain(recv.codec, old(recv.buf)), at, times);
            server.Contents() == r.tables && send.buf == old(send.buf) + Frames(recv.codec, r.answers)
  {
    hide Drain, Frames, Framing.Frame, Pongs, Batches, Emissions, PingCount, LastActive, KeyOf, Reloaded, AfterPings,
         Sessions.NewDevice, WithActivity, WithPending;
    ghost var c, ms := recv.codec, Drain(recv.codec, recv.buf);
    ghost var early := Pongs(|ms| - |AfterPings(ms)|);
    var h := AwaitHandshake(recv, send);
    if h.None? {
      return;
    }
    var status := server.Greet(h.value, IrohP2P, at);
    var ack := Ack(status, at.hostname, at.text);
    send.WriteFrame(ack);
    OneMore(c, early, ack);
    if status.Approved? {
      ServeStream(server, conn, KeyOf(h.value), recv, send, times);
      FramesOfConcat(c, early + [ack], Pongs(PingCount(AfterPings(ms)[1..])));
    }
  }

  lemma OneMore(c: Codec<Message>, ms: seq<Message>, m: Message)
    ensures Frames(c, ms + [m]) == Frames(c, ms) + Framing.Frame(c, m)
  {
    hide Framing.Frame;
    FramesOfConcat(c, ms, [m]);
    assert [m][1..] == [];
    assert Frames(c, [m]) == Framing.Frame(c, m) + [];
  }

  // ---- From one end to the other -----------------------------------------------------

  lemma {:induction false} FlattenAppends(a: seq<Vec<Event>>, b: seq<Vec<Event>>)
    ensures C.Flatten(a + b) == C.Flatten(a) + C.Flatten(b)
    decreases |b|
  {
    if |b| == 0 {
      assert a + b == a;
    } else {
      var n := |b| - 1;
      assert (a + b)[..|a + b| - 1] == a + b[..n];
      FlattenAppends(a, b[..n]);
    }
  }

  lemma FlattenOne(es: Vec<Event>)
    ensures C.Flatten([es]) == es && C.Flatten([]) == []
  {
    assert [es][..0] == [];
  }

  /** Emitting the batches of a stream emits its events. */
  lemma {:induction false} BatchesCarryEvents(ms: seq<Message>)
    ensures C.Flatten(Batches(ms)) == C.EventsIn(ms)
  {
    hide Batches, C.Flatten, LastActive, PingCount, C.EventsIn;
    StreamStep(ms, 0, _ => 0, 0);
    if |ms| == 0 {
      FlattenOne([]);
      assert ms == [];
      C.NoEvents();
    } else {
      var m, rest := ms[0], ms[1..];
      assert ms == [m] + rest;
      C.EventsInCons(m, rest);
      BatchesCarryEvents(rest);
      if m.Events? {
        FlattenAppends([m.events], Batches(rest));
        FlattenOne(m.events);
      } else {
        assert Batches(ms) == Batches(rest);
      }
    }
  }

  lemma {:induction false} PingsGoFirst(pings: seq<Message>, h: Handshake, ms: seq<Message>)
    requires forall m | m in pings :: m.Ping?
    ensures AfterPings(pings + [Hello(h)] + ms) == [Hello(h)] + ms
  {
    if |pings| == 0 {
      assert pings + [Hello(h)] + ms == [Hello(h)] + ms;
    } else {
      PingsGoFirst(pings[1..], h, ms);
      assert (pings + [Hello(h)] + ms)[0] == pings[0];
      assert (pings + [Hello(h)] + ms)[1..] == pings[1..] + [Hello(h)] + ms;
    }
  }

  /** What a client writes - pings, its handshake, then single events and pings - is what the
      handler reads, and the batches it then emits are the client's events. */
  lemma WrittenIsServed(c: Codec<Message>, pings: seq<Message>, h: Handshake, ms: seq<Message>)
    requires Good(c) && forall m | m in pings + [Hello(h)] + ms :: Fits(c, m)
    requires forall m | m in pings :: m.Ping?
    ensures var read := Drain(c, Frames(c, pings + [Hello(h)] + ms));
            && Greeted(read) == Some(h) && |read| - |AfterPings(read)| == |pings|
            && AfterPings(read)[1..] == ms
            && C.Flatten(Batches(AfterPings(read)[1..])) == C.EventsIn(ms)
  {
    hide Good, Drain, Frames, AfterPings, C.Flatten, C.EventsIn, Batches;
    var all := pings + [Hello(h)] + ms;
    DrainFrames(c, all);
    ReadableIsAllIff(c, all);
    PingsGoFirst(pings, h, ms);
    assert ([Hello(h)] + ms)[1..] == ms;
    BatchesCarryEvents(ms);
  }
}
