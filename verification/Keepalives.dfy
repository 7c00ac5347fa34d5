/** A client's keepalives keep its session, from the timer at its end to the table of the server,
    whatever all others do meanwhile. */
module Keepalives {
  import opened Wire
  import opened Postcard
  import opened Framing
  import opened Trust
  import opened Protocol
  import opened Sessions
  import opened Lifetimes
  import opened System
  import opened SystemSafety
  import opened SystemTheorems
  import opened SystemProgress
  import opened SystemService
  import opened ServerSteps
  import T = TrustSystem
  import C = Connection

  /** A connection that is being served, with nothing on its streams and its session live, whether or
      not the client's controller is there. */
  predicate IsConnected(s: State, i: nat, h: Handshake, there: bool, sent: seq<Event>, emitted: seq<Vec<Event>>) {
    i in s.conns && KeyOf(h) in s.sessions && s.conns[i] == Still(C.Streaming(there), C.Serving(h), sent, emitted)
  }

  // ---- One keepalive -----------------------------------------------------------------

  /** The client writes a ping, the handler reads it, and the client reads the pong: the session was
      last active now, and nothing else has changed. */
  lemma KeepaliveRefreshes(c: Codec<Message>, s: State, i: nat, h: Handshake, there: bool, sent: seq<Event>, emitted: seq<Vec<Event>>)
    requires IsConnected(s, i, h, there, sent, emitted) && Fits(c, Ping) && Fits(c, Pong)
    ensures var pinged := Next(c, s, ClientStep(i, C.Keepalive));
            var read := Next(c, pinged, Frame(i));
            && pinged.conns[i].up == [Ping] && pinged.sessions == s.sessions
            && read.conns[i].up == [] && read.conns[i].down == [Pong]
            && read.sessions == s.sessions[KeyOf(h) := s.sessions[KeyOf(h)].(lastActive := s.now)]
            && Next(c, read, ClientStep(i, C.ClientReads)) == s.(sessions := read.sessions)
  {
    hide Fits, KeyOf, OnDatagram, OnUdpDecide, OnUdpOpen, OnHandlerDecide, OnHandlerOpen;
    ClientActs(c, s, i, C.Keepalive);
    var pinged := Next(c, s, ClientStep(i, C.Keepalive));
    assert pinged.conns[i] == C.Conn(C.Core(C.Streaming(there), C.Serving(h), sent, emitted, 0), [Ping], []);
    assert Head(c, pinged.conns[i]) == Some(Ping);
    var read := Next(c, pinged, Frame(i));
    assert read.conns[i] == C.Conn(C.Core(C.Streaming(there), C.Serving(h), sent, emitted, 0), [], [Pong]);
    ClientActs(c, read, i, C.ClientReads);
    assert [Pong][1..] == [];
    assert Next(c, read, ClientStep(i, C.ClientReads)).conns == s.conns;
  }

  // ---- Meanwhile ---------------------------------------------------------------------

  /** A step of anything but this connection: time, other connections, datagrams, the reaper, the
      trust store. */
  predicate Elsewhere(a: Step, i: nat) {
    ConnOf(a) != Some(i)
  }

  /** The session of the key, when it was last active, and its device. */
  predicate Lives(s: State, key: Key, idle: int, device: Device) {
    key in s.sessions && s.now - s.sessions[key].lastActive <= idle && s.sessions[key].device == device
  }

  lemma NextLives(c: Codec<Message>, s: State, a: Step, key: Key, idle: int, device: Device)
    requires Lives(s, key, idle, device) && 0 <= idle < IDLE_LIMIT
    ensures Lives(Next(c, s, a), key, idle + if a.Tick? then a.elapsed else 0, device)
  {
    hide Next, KeyOf, BeatOf;
    NextTime(c, s, a);
    NextKeepsDevice(c, s, a, key);
    NextBeat(c, s, a, key);
    BeatIsNow(c, s, a, key);
    var b := BeatOf(c, s, a, key);
    assert |b| > 0 ==> b[0] in b;
  }

  lemma BeatIsNow(c: Codec<Message>, s: State, a: Step, key: Key)
    ensures forall b | b in BeatOf(c, s, a, key) :: b == Active(s.now) || b == Opened(s.now) || b == Pass(s.now)
    ensures |BeatOf(c, s, a, key)| > 0 ==> !a.Tick?
  {
    hide KeyOf, Head;
  }

  lemma ConnStays(c: Codec<Message>, s: State, a: Step, i: nat)
    requires i in s.conns && Elsewhere(a, i)
    ensures i in Next(c, s, a).conns && Next(c, s, a).conns[i] == s.conns[i]
  {
    hide Next, ActionOf;
    NextMovesConns(c, s, a);
  }

  lemma {:induction false} OthersLeave(c: Codec<Message>, s: State, others: seq<Step>, i: nat, key: Key, idle: nat, device: Device)
    requires i in s.conns && Lives(s, key, idle, device) && idle + Elapsed(others) < IDLE_LIMIT
    requires forall a | a in others :: Elsewhere(a, i)
    ensures var t := Run(c, s, others);
            i in t.conns && t.conns[i] == s.conns[i] && Lives(t, key, idle + Elapsed(others), device)
  {
    hide Next, Lives, ConnOf;
    if |others| > 0 {
      var n := |others| - 1;
      assert others[n] in others && forall a | a in others[..n] :: a in others;
      OthersLeave(c, s, others[..n], i, key, idle, device);
      var t := Run(c, s, others[..n]);
      ConnStays(c, t, others[n], i);
      NextLives(c, t, others[n], key, idle + Elapsed(others[..n]), device);
    }
  }

  // ---- Any number of keepalives ------------------------------------------------------

  /** What all others do until the next keepalive, and the keepalive. */
  function Round(i: nat, others: seq<Step>): seq<Step> {
    others + [ClientStep(i, C.Keepalive), Frame(i), ClientStep(i, C.ClientReads)]
  }

  function Rounds(i: nat, all: seq<seq<Step>>): seq<Step> {
    if |all| == 0 then [] else Rounds(i, all[..|all| - 1]) + Round(i, all[|all| - 1])
  }

  lemma RunThree(c: Codec<Message>, s: State, a: Step, b: Step, d: Step)
    ensures Run(c, s, [a, b, d]) == Next(c, Next(c, Next(c, s, a), b), d)
  {
    hide Next;
    RunTwo(c, s, a, b);
    assert [a, b, d][..2] == [a, b];
  }

  lemma OneRound(c: Codec<Message>, s: State, others: seq<Step>, i: nat, h: Handshake, there: bool, sent: seq<Event>, emitted: seq<Vec<Event>>,
                 idle: nat, device: Device)
    requires IsConnected(s, i, h, there, sent, emitted) && Fits(c, Ping) && Fits(c, Pong)
    requires Lives(s, KeyOf(h), idle, device) && idle + Elapsed(others) < IDLE_LIMIT
    requires forall a | a in others :: Elsewhere(a, i)
    ensures var t := Run(c, s, Round(i, others)); IsConnected(t, i, h, there, sent, emitted) && Lives(t, KeyOf(h), 0, device)
  {
    hide Next, Run, KeyOf, Fits, ConnOf;
    OthersLeave(c, s, others, i, KeyOf(h), idle, device);
    var t := Run(c, s, others);
    RunOfConcat(c, s, others, [ClientStep(i, C.Keepalive), Frame(i), ClientStep(i, C.ClientReads)]);
    RunThree(c, t, ClientStep(i, C.Keepalive), Frame(i), ClientStep(i, C.ClientReads));
    KeepaliveRefreshes(c, t, i, h, there, sent, emitted);
  }

  /** From a served connection: as long as the client's keepalives come less than 900 seconds apart
      and are read, its session stays live and keeps its device, whatever the reaper, other clients,
      administrators and the clock do in between. */
  lemma {:induction false} KeepalivesKeepIt(c: Codec<Message>, s: State, all: seq<seq<Step>>, i: nat, h: Handshake, there: bool,
                                            sent: seq<Event>, emitted: seq<Vec<Event>>, idle: nat)
    requires IsConnected(s, i, h, there, sent, emitted) && Fits(c, Ping) && Fits(c, Pong)
    requires s.now - s.sessions[KeyOf(h)].lastActive <= idle
    requires forall k | 0 <= k < |all| :: (forall a | a in all[k] :: Elsewhere(a, i)) && idle + Elapsed(all[k]) < IDLE_LIMIT
    ensures var t := Run(c, s, Rounds(i, all));
            && IsConnected(t, i, h, there, sent, emitted)
            && t.sessions[KeyOf(h)].device == s.sessions[KeyOf(h)].device
            && t.now - t.sessions[KeyOf(h)].lastActive <= if |all| == 0 then idle else 0
  {
    hide Next, KeyOf, Fits, ConnOf, Round;
    if |all| > 0 {
      var n := |all| - 1;
      KeepalivesKeepIt(c, s, all[..n], i, h, there, sent, emitted, idle);
      var t := Run(c, s, Rounds(i, all[..n]));
      RunOfConcat(c, s, Rounds(i, all[..n]), Round(i, all[n]));
      OneRound(c, t, all[n], i, h, there, sent, emitted, idle, s.sessions[KeyOf(h)].device);
    }
  }

  /** With the timer of the client: every 10 seconds, from a session that was active at most 10 seconds
      ago. */
  lemma TimerKeepsIt(s: State, all: seq<seq<Step>>, i: nat, h: Handshake, there: bool, sent: seq<Event>, emitted: seq<Vec<Event>>)
    requires IsConnected(s, i, h, there, sent, emitted) && s.now - s.sessions[KeyOf(h)].lastActive <= 10 * SECOND
    requires forall k | 0 <= k < |all| :: (forall a | a in all[k] :: Elsewhere(a, i)) && Elapsed(all[k]) == 10 * SECOND
    ensures var t := Run(MessageCodec(), s, Rounds(i, all));
            && IsConnected(t, i, h, there, sent, emitted) && KeyOf(h) in t.sessions
            && t.sessions[KeyOf(h)].device == s.sessions[KeyOf(h)].device
  {
    hide Run, KeyOf, Elapsed, ConnOf, Encode;
    EventMessageIsSmall(WIDEST);
    KeepalivesKeepIt(MessageCodec(), s, all, i, h, there, sent, emitted, 10 * SECOND);
  }
}
