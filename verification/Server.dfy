/** The server's tables as the object they are (src/server.rs): its methods are the stretches of
    code that run under the session lock, and the handling of one datagram. What they compute
    is what the steps of the whole system are made of. */
module Server {
  import opened Wire
  import opened Protocol
  import opened Trust
  import opened Sessions
  import opened System

  /** What one handshake needs from outside: the time, whether a device can be created, whether
      the trust file can be read and written, and the wording of answers. */
  datatype Surroundings = Surroundings(now: nat, creatable: bool, readable: bool, writable: bool,
                                       stamp: Str, hostname: Str, text: Str)

  /** The server's tables and what it shares: sessions, UDP peers, the number of devices made, the
      log of batches, the trust data in memory, and the trust file. */
  datatype Tables = Tables(sessions: Table, peers: map<Addr, Key>, made: nat, emitted: seq<Emission>,
                           known: TrustData, file: Option<TrustData>)

  function WithSessionFor(t: Tables, h: Handshake, at: Surroundings): Tables {
    t.(sessions := Sessions.OpenSession(t.sessions, h, at.now, at.creatable, t.made),
       made := t.made + if KeyOf(h) !in t.sessions && at.creatable then 1 else 0)
  }

  /** What the tables are after a message that came from an address by datagram. */
  function Handled(t: Tables, src: Addr, m: Option<Message>, at: Surroundings): Tables {
    match m
    case Some(Hello(h)) =>
      var d := Reloaded(ReadFrom(t.file, at.readable), t.known);
      var gone := t.(peers := t.peers - {src});
      if h.clientId in d.approved then
        WithSessionFor(gone, h, at).(known := d,
                                     peers := if Admits(t.sessions, h, at.creatable) then t.peers[src := KeyOf(h)] else gone.peers)
      else
        var d' := WithPending(d, PendingRecord(h, DirectUdp, at.stamp));
        gone.(known := d', file := if at.writable then Some(d') else t.file)
    case Some(Events(es)) =>
      if src in t.peers && t.peers[src] in t.sessions then
        t.(sessions := Touch(t.sessions, t.peers[src], at.now),
           emitted := t.emitted + [Emission(Udp(src), t.peers[src], t.sessions[t.peers[src]].device.serial, es)])
      else t
    case Some(Ping) => t.(sessions := if src in t.peers then Touch(t.sessions, t.peers[src], at.now) else t.sessions)
    case _ => t
  }

  class JoycastServer {
    const trust: TrustManager
    var sessions: Table
    var clientSessions: map<Addr, Key>
    var made: nat                      // devices created so far
    ghost var emitted: seq<Emission>

    constructor (trust: TrustManager)
      ensures this.trust == trust && sessions == map[] && clientSessions == map[] && made == 0 && emitted == []
    {
      this.trust := trust;
      sessions, clientSessions, made := map[], map[], 0;
      emitted := [];
    }

    ghost function Contents(): Tables
      reads this, trust, trust.file
    {
      Tables(sessions, clientSessions, made, emitted, trust.data, trust.file.contents)
    }

    method CountHost(host: Str) returns (n: nat)
      ensures n == |KeysOfHost(sessions, host)|
    {
      n := 0;
      var rest := sessions.Keys;
      ghost var counted: set<Key> := {};
      while rest != {}
        invariant rest <= sessions.Keys
        invariant counted == set k | k in sessions && k !in rest && sessions[k].hostname == host
        invariant n == |counted|
        decreases rest
      {
        var k :| k in rest;
        if sessions[k].hostname == host {
          n := n + 1;
          counted := counted + {k};
        }
        rest := rest - {k};
      }
      assert counted == KeysOfHost(sessions, host);
    }

    /** Check, count, create and insert, under one lock. */
    method OpenSession(h: Handshake, now: nat, creatable: bool) returns (status: AckStatus)
      modifies this`sessions, this`made
      ensures sessions == Sessions.OpenSession(old(sessions), h, now, creatable, old(made))
      ensures status == if Admits(old(sessions), h, creatable) then Approved else Rejected
      ensures status.Approved? <==> KeyOf(h) in sessions
      ensures made == old(made) + if KeyOf(h) !in old(sessions) && creatable then 1 else 0
      ensures var key := h.clientId + [':' as int] + if h.deviceId.Some? then h.deviceId.value else h.metadata.name;
              && (status.Approved? <==> key in old(sessions) || creatable)
              && (status.Rejected? <==> key !in old(sessions) && !creatable)
              && (key in old(sessions) ==> sessions == old(sessions)[key := old(sessions)[key].(lastActive := now)])
              && (key !in old(sessions) && creatable ==>
                    sessions == old(sessions)[key := Session(
                      Device(old(made), h.metadata,
                             Label(h.clientHostname, |KeysOfHost(old(sessions), h.clientHostname)| + 1, h.metadata.name)),
                      now, h.clientHostname)])
              && (key !in old(sessions) && !creatable ==> sessions == old(sessions))
    {
      var key := KeyOf(h);
      if key !in sessions {
        var count := CountHost(h.clientHostname);
        if !creatable {
          return Rejected;
        }
        var device := Device(made, h.metadata, Label(h.clientHostname, count + 1, h.metadata.name));
        made := made + 1;
        sessions := sessions[key := Session(device, now, h.clientHostname)];
      } else {
        sessions := sessions[key := sessions[key].(lastActive := now)];
      }
      status := Approved;
    }

    /** One message for a session: what the handler's loop and the UDP loop do with it. The
        session may be gone. */
    method ServeMessage(source: Source, key: Key, m: Message, now: nat) returns (live: bool)
      modifies this`sessions, this`emitted
      ensures live <==> key in old(sessions)
      ensures sessions == if m.Events? || m.Ping? then Touch(old(sessions), key, now) else old(sessions)
      ensures emitted == if live && m.Events?
                         then old(emitted) + [Emission(source, key, old(sessions)[key].device.serial, m.events)]
                         else old(emitted)
    {
      live := key in sessions;
      if live && (m.Events? || m.Ping?) {
        var session := sessions[key];
        sessions := sessions[key := session.(lastActive := now)];
        if m.Events? {
          emitted := emitted + [Emission(source, key, session.device.serial, m.events)];
        }
      }
    }

    /** One pass of the reaper over the table. */
    method ReapPass(now: nat)
      modifies this`sessions
      ensures sessions == Reap(old(sessions), now)
    {
      var rest := sessions.Keys;
      while rest != {}
        invariant rest <= sessions.Keys <= old(sessions).Keys
        invariant forall k | k in sessions :: sessions[k] == old(sessions)[k]
        invariant forall k | k in old(sessions) && k !in rest :: k in sessions <==> Fresh(old(sessions)[k], now)
        decreases rest
      {
        var k :| k in rest;
        if !Fresh(sessions[k], now) {
          sessions := sessions - {k};
        }
        rest := rest - {k};
      }
    }

    /** A handshake that has been received, on either transport: the approval check, and then
        either the session or a place among the pending clients. */
    method Greet(h: Handshake, transport: Transport, at: Surroundings) returns (status: AckStatus)
      modifies this`sessions, this`made, trust`data, trust.file
      ensures var d := Reloaded(ReadFrom(old(trust.file.contents), at.readable), old(trust.data));
              if h.clientId in d.approved then
                && trust.data == d && trust.file.contents == old(trust.file.contents)
                && sessions == Sessions.OpenSession(old(sessions), h, at.now, at.creatable, old(made))
                && status == (if Admits(old(sessions), h, at.creatable) then Approved else Rejected)
                && (status.Approved? <==> KeyOf(h) in sessions)
                && made == old(made) + (if KeyOf(h) !in old(sessions) && at.creatable then 1 else 0)
              else
                && status == PendingApproval
                && sessions == old(sessions) && made == old(made)
                && h.clientId in trust.data.pending && h.clientId !in trust.data.approved
                && trust.data.pending[h.clientId] == PendingInfo(h.clientId, h.clientHostname, h.metadata.name, transport, at.stamp)
                && trust.data == WithPending(d, PendingRecord(h, transport, at.stamp))
                && trust.file.contents == (if at.writable then Some(trust.data) else old(trust.file.contents))
    {
      hide WithPending, KeyOf, ValidUtf8;
      var approved := trust.IsApproved(h.clientId, at.readable);
      if approved {
        status := OpenSession(h, at.now, at.creatable);
      } else {
        ghost var d := trust.data;
        var info := PendingRecord(h, transport, at.stamp);
        trust.RegisterPending(info, at.readable, at.writable);
        RegisteredIs(d, trust.data, info);
        status := PendingApproval;
      }
    }

    /** One datagram. Bytes that do not decode, and messages a client would not send, change
        nothing; whatever follows a message in the datagram is ignored. */
    method HandleDatagram(src: Addr, payload: Bytes, at: Surroundings) returns (reply: Option<Message>)
      modifies this, trust`data, trust.file
      ensures Contents() == Handled(old(Contents()), src, Decode(payload), at)
      ensures match Decode(payload)
              case Some(Hello(h)) =>
                var approved := h.clientId in Reloaded(ReadFrom(old(trust.file.contents), at.readable), old(trust.data)).approved;
                && reply.Some? && reply.value.Ack?
                && reply.value.serverHostname == at.hostname && reply.value.text == at.text
                && (reply.value.status.PendingApproval? <==> !approved)
                && (reply.value.status.Approved? <==> approved && Admits(old(sessions), h, at.creatable))
                && (reply.value.status.Approved? ==> src in clientSessions && clientSessions[src] in sessions)
              case Some(Ping) => reply == Some(Pong)
              case _ => reply == None
    {
      hide Decode, KeyOf, Reloaded;
      reply := None;
      var decoded := Decode(payload);
      match decoded {
        case None =>
        case Some(m) =>
          match m {
            case Hello(h) =>
              clientSessions := clientSessions - {src};
              var status := Greet(h, DirectUdp, at);
              if status.Approved? {
                clientSessions := clientSessions[src := KeyOf(h)];
              }
              reply := Some(Ack(status, at.hostname, at.text));
              assert old(clientSessions)[src := KeyOf(h)] == (old(clientSessions) - {src})[src := KeyOf(h)];
            case Events(_) =>
              if src in clientSessions {
                var _ := ServeMessage(Udp(src), clientSessions[src], m, at.now);
              }
            case Ping =>
              if src in clientSessions {
                var _ := ServeMessage(Udp(src), clientSessions[src], m, at.now);
              }
              reply := Some(Pong);
            case _ =>
          }
      }
    }
  }
}
