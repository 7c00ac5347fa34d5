/** What a revocation does and does not end. Approval is checked at the handshake only: a client
    that is approved nowhere any more cannot start a conversation, but one it has already
    started goes on. */
module Revocation {
  import opened Wire
  import opened Postcard
  import opened Framing
  import opened Protocol
  import opened Trust
  import opened Sessions
  import opened System
  import opened SystemSafety
  import opened SystemTheorems
  import opened SystemProgress
  import T = TrustSystem
  import C = Connection
  import D = Durability

  /** No copy of the trust data, in the file or anywhere in memory, has the client approved. */
  ghost predicate ApprovedNowhere(t: T.State, id: Str) {
    forall d | T.IsCopy(t, d) :: id !in d.approved
  }

  /** Between two states of the store nobody approved the client. */
  predicate Ungranted(t: T.State, t': T.State, id: Str) {
    t.deeds <= t'.deeds && T.Granted(id) !in t'.deeds[|t.deeds|..]
  }

  // ---- The trust store ---------------------------------------------------------------

  lemma {:induction false} StoreGrowsDeeds(t: T.State, steps: seq<T.Step>)
    ensures t.deeds <= T.Run(t, steps).deeds
  {
    hide T.Next;
    if |steps| > 0 {
      StoreGrowsDeeds(t, steps[..|steps| - 1]);
      T.NextGrowsDeeds(T.Run(t, steps[..|steps| - 1]), steps[|steps| - 1]);
    }
  }

  lemma StoreStepKeepsNowhere(t: T.State, a: T.Step, id: Str)
    requires ApprovedNowhere(t, id) && Ungranted(t, T.Next(t, a), id)
    ensures ApprovedNowhere(T.Next(t, a), id)
  {
    hide T.Next, T.IsCopy, ValidUtf8;
    forall d | T.IsCopy(T.Next(t, a), d) ensures id !in d.approved {
      T.NewCopies(t, a, d);
      if !T.IsCopy(t, d) && d != EMPTY {
        var op := t.ops[a.who];
        var deed := T.DeedOf(op.request, a.choice);
        assert T.Next(t, a).deeds[|t.deeds|..] == [deed];
        assert deed in [deed];
      }
    }
  }

  lemma UngrantedParts(a: T.State, b: T.State, c: T.State, id: Str)
    requires a.deeds <= b.deeds <= c.deeds && Ungranted(a, c, id)
    ensures Ungranted(a, b, id) && Ungranted(b, c, id)
  {
    var k, m := |a.deeds|, |b.deeds|;
    assert c.deeds[k..][..m - k] == b.deeds[k..];
    assert c.deeds[k..][m - k..] == c.deeds[m..];
  }

  lemma UngrantedJoins(a: T.State, b: T.State, c: T.State, id: Str)
    requires Ungranted(a, b, id) && Ungranted(b, c, id)
    ensures Ungranted(a, c, id)
  {
    assert c.deeds[|a.deeds|..] == b.deeds[|a.deeds|..] + c.deeds[|b.deeds|..];
  }

  lemma {:induction false} StoreRunKeepsNowhere(t: T.State, steps: seq<T.Step>, id: Str)
    requires ApprovedNowhere(t, id) && Ungranted(t, T.Run(t, steps), id)
    ensures ApprovedNowhere(T.Run(t, steps), id)
  {
    hide T.Next, ApprovedNowhere, Ungranted;
    if |steps| > 0 {
      var n := |steps| - 1;
      var u := T.Run(t, steps[..n]);
      StoreGrowsDeeds(t, steps[..n]);
      T.NextGrowsDeeds(u, steps[n]);
      UngrantedParts(t, u, T.Run(t, steps), id);
      StoreRunKeepsNowhere(t, steps[..n], id);
      StoreStepKeepsNowhere(u, steps[n], id);
    }
  }

  // ---- Nobody newly passes -----------------------------------------------------------

  lemma NextGrowsDeeds(c: Codec<Message>, s: State, a: Step)
    ensures s.trust.deeds <= Next(c, s, a).trust.deeds
  {
    hide Next, T.Run;
    var steps := TrustMoves(c, s, a);
    StoreGrowsDeeds(s.trust, steps);
  }

  lemma {:induction false} RunGrowsDeeds(c: Codec<Message>, s: State, steps: seq<Step>)
    ensures s.trust.deeds <= Run(c, s, steps).trust.deeds
  {
    hide Next;
    if |steps| > 0 {
      RunGrowsDeeds(c, s, steps[..|steps| - 1]);
      NextGrowsDeeds(c, Run(c, s, steps[..|steps| - 1]), steps[|steps| - 1]);
    }
  }

  lemma NextKeepsNowhere(c: Codec<Message>, s: State, a: Step, id: Str)
    requires ApprovedNowhere(s.trust, id) && Ungranted(s.trust, Next(c, s, a).trust, id)
    ensures ApprovedNowhere(Next(c, s, a).trust, id)
  {
    hide Next, T.Run, ApprovedNowhere, Ungranted;
    var steps := TrustMoves(c, s, a);
    StoreRunKeepsNowhere(s.trust, steps, id);
  }

  lemma NotApprovedNow(s: State, h: Handshake)
    requires ApprovedNowhere(s.trust, h.clientId)
    ensures !IsApprovedNow(s, h)
  {
    if IsApprovedNow(s, h) {
      assert T.IsCopy(s.trust, s.trust.memory[SERVER]);
    }
  }

  /** Once a client is approved nowhere, then over every continuation in which nobody approves it
      it stays so, and no handshake of its passes the check. */
  lemma {:induction false} RevokedNeverPasses(c: Codec<Message>, s: State, steps: seq<Step>, id: Str)
    requires ApprovedNowhere(s.trust, id) && Ungranted(s.trust, Run(c, s, steps).trust, id)
    ensures ApprovedNowhere(Run(c, s, steps).trust, id)
    ensures forall p | p in Run(c, s, steps).passed && p.handshake.clientId == id :: p in s.passed
  {
    hide Next, ApprovedNowhere, Ungranted;
    if |steps| > 0 {
      var n := |steps| - 1;
      var u := Run(c, s, steps[..n]);
      RunGrowsDeeds(c, s, steps[..n]);
      NextGrowsDeeds(c, u, steps[n]);
      UngrantedParts(s.trust, u.trust, Run(c, s, steps).trust, id);
      RevokedNeverPasses(c, s, steps[..n], id);
      NextKeepsNowhere(c, u, steps[n], id);
      forall p | p in Run(c, s, steps).passed && p.handshake.clientId == id ensures p in s.passed {
        if p !in u.passed {
          NewlyPassed(c, u, steps[n], p);
          NotApprovedNow(u, p.handshake);
        }
      }
    }
  }

  // ---- Conversations that are already there ------------------------------------------

  /** The client on whose behalf a source speaks. */
  function SpeaksFor(s: State, source: Source): Option<Str> {
    match source
    case Iroh(i) =>
      if i in s.conns && s.conns[i].core.handler.Serving? then Some(s.conns[i].core.handler.handshake.clientId) else None
    case Udp(addr) =>
      match WelcomedBy(s.answers, addr)
      case None => None
      case Some(h) => Some(h.clientId)
  }

  /** The step passes a batch to a device on behalf of the client. */
  ghost predicate EmitsFor(c: Codec<Message>, s: State, a: Step, id: Str) {
    var log, log' := s.emitted, Next(c, s, a).emitted;
    |log'| == |log| + 1 && SpeaksFor(s, log'[|log|].source) == Some(id)
  }

  /** Another client could have a session under this key, which takes a colon in one of the ids. */
  ghost predicate OtherClient(key: Key, id: Str) {
    exists h: Handshake :: IsOther(h, key, id)
  }

  predicate IsOther(h: Handshake, key: Key, id: Str) {
    h.clientId != id && KeyOf(h) == key
  }

  lemma OtherClientNeedsColon(h: Handshake)
    requires OtherClient(KeyOf(h), h.clientId)
    ensures COLON in h.clientId || COLON in DeviceId(h)
  {
    var o: Handshake :| IsOther(o, KeyOf(h), h.clientId);
    KeysCollideIff(h.clientId, DeviceId(h), o.clientId, DeviceId(o));
    SplitNeedsColon(o.clientId, DeviceId(o), h.clientId, DeviceId(h));
    if x: Bytes :| o.clientId == h.clientId + [COLON] + x && DeviceId(h) == x + [COLON] + DeviceId(o) {
      assert DeviceId(h)[|x|] == COLON;
    }
  }

  /** A handshake that passed the check and is about to open this session. */
  ghost predicate IsOpening(s: State, key: Key) {
    || (s.udp.Opening? && KeyOf(s.udp.handshake) == key)
    || exists i | i in s.conns :: ConnOpens(s.conns[i], key)
  }

  predicate ConnOpens(conn: C.Conn, key: Key) {
    conn.core.handler.Opening? && KeyOf(conn.core.handler.handshake) == key
  }

  /** The session is live, or can become so without the client being checked again. */
  ghost predicate CanLive(s: State, key: Key, id: Str) {
    key in s.sessions || IsOpening(s, key) || OtherClient(key, id)
  }

  /** Events of the client are on the stream, or it can still write some. */
  predicate HasWords(c: Codec<Message>, conn: C.Conn) {
    match conn.core.handler
    case Opening(_) => conn.core.client.AwaitAck?
    case Serving(_) =>
      || (exists m | m in conn.up :: m.Events?)
      || conn.core.client.Streaming?
      || (conn.core.client.AwaitAck? && |conn.down| > 0 && Fits(c, conn.down[0]))
    case _ => false
  }

  ghost predicate ConnCanEmit(c: Codec<Message>, s: State, conn: C.Conn, id: Str) {
    && HasWords(c, conn) && conn.core.handler.handshake.clientId == id
    && (conn.core.handler.Serving? ==> CanLive(s, KeyOf(conn.core.handler.handshake), id))
  }

  ghost predicate PeerCanEmit(s: State, addr: Addr, id: Str) {
    match WelcomedBy(s.answers, addr)
    case None => false
    case Some(h) => h.clientId == id && CanLive(s, KeyOf(h), id)
  }

  /** An admitted conversation of the client: the UDP loop is about to open its session; or a UDP
      peer was welcomed for it and has a session, or can have; or a handler has admitted it, its
      end has events to send, and there is a session or can be. */
  ghost predicate HasConversation(c: Codec<Message>, s: State, id: Str) {
    || (s.udp.Opening? && s.udp.handshake.clientId == id)
    || (exists addr: Addr :: PeerCanEmit(s, addr, id))
    || (exists i | i in s.conns :: ConnCanEmit(c, s, s.conns[i], id))
  }

  // ---- Without one, nothing is emitted -----------------------------------------------

  lemma EmissionNeedsConversation(c: Codec<Message>, s: State, a: Step, id: Str)
    requires PeersFollowAnswers(s) && EmitsFor(c, s, a, id)
    ensures HasConversation(c, s, id)
  {
    hide Next, KeyOf, Touch, Reap, WithSession, LastAnswer, Fits;
    NextChanges(c, s, a);
    if a.Frame? {
      var conn := s.conns[a.conn];
      assert conn.up[0] in conn.up && conn.up[0].Events?;
      assert ConnCanEmit(c, s, conn, id);
    } else {
      assert PeerKey(s, a.addr) == WelcomeOf(s.answers, a.addr);
      assert PeerCanEmit(s, a.addr, id);
    }
  }

  /** What a step's action can leave of a conversation was there before. */
  lemma WordsWereThere(c: Codec<Message>, conn: C.Conn, action: C.Action)
    requires C.Shape(conn) && HasWords(c, C.Next(c, conn, action))
    requires !(action == C.Decide(true) && conn.core.handler.Checking?)
    ensures HasWords(c, conn)
    ensures conn.core.handler.handshake == C.Next(c, conn, action).core.handler.handshake
    ensures C.Next(c, conn, action).core.handler.Opening? ==> conn.core.handler.Opening?
  {
  }

  lemma OpeningCameFrom(c: Codec<Message>, conn: C.Conn, action: C.Action)
    requires C.Next(c, conn, action).core.handler.Opening?
    ensures var h := C.Next(c, conn, action).core.handler.handshake;
            || conn.core.handler == C.Opening(h)
            || (conn.core.handler == C.Checking(h) && action == C.Decide(true))
  {
    hide Fits;
  }

  lemma DecidedYes(s: State, a: Step, i: nat)
    requires i in s.conns && ConnOf(a) == Some(i) && ActionOf(s, a) == C.Decide(true) && s.conns[i].core.handler.Checking?
    ensures IsApprovedNow(s, s.conns[i].core.handler.handshake)
  {
    hide KeyOf, Admits;
  }

  /** A handler that is opening was, or its client is approved now. */
  lemma ConnOpeningWasThere(c: Codec<Message>, s: State, a: Step, i: nat)
    requires i in Next(c, s, a).conns && Next(c, s, a).conns[i].core.handler.Opening?
    ensures var h := Next(c, s, a).conns[i].core.handler.handshake;
            i in s.conns && (s.conns[i].core.handler == C.Opening(h) || IsApprovedNow(s, h))
  {
    hide Next, C.Next, ActionOf, IsApprovedNow;
    NextMovesConn(c, s, a, i);
    if i in s.conns && Next(c, s, a).conns[i] != s.conns[i] {
      OpeningCameFrom(c, s.conns[i], ActionOf(s, a));
      if s.conns[i].core.handler.Checking? { DecidedYes(s, a, i); }
    }
  }

  lemma UdpOpeningWasThere(c: Codec<Message>, s: State, a: Step)
    requires Next(c, s, a).udp.Opening?
    ensures Next(c, s, a).udp == s.udp || IsApprovedNow(s, Next(c, s, a).udp.handshake)
  {
    hide T.Next, C.Next, OpenSession, KeyOf, Touch, NewDevice, Reap, C.Received, CanDecide, IsApprovedNow;
    hide OnFrame, OnHandlerDecide, OnHandlerOpen;
    if !MovesUdp(a) { OthersLeaveUdp(c, s, a); }
  }

  lemma OpeningWasThere(c: Codec<Message>, s: State, a: Step, key: Key, id: Str)
    requires ApprovedNowhere(s.trust, id) && IsOpening(Next(c, s, a), key)
    ensures IsOpening(s, key) || OtherClient(key, id)
  {
    hide Next, KeyOf, ApprovedNowhere, IsApprovedNow;
    var s' := Next(c, s, a);
    if s'.udp.Opening? && KeyOf(s'.udp.handshake) == key {
      UdpOpeningWasThere(c, s, a);
      if s'.udp != s.udp { ApprovedIsOther(s, s'.udp.handshake, key, id); }
    } else {
      var i :| i in s'.conns && ConnOpens(s'.conns[i], key);
      ConnOpeningWasThere(c, s, a, i);
      var h := s'.conns[i].core.handler.handshake;
      if IsApprovedNow(s, h) { ApprovedIsOther(s, h, key, id); } else { assert ConnOpens(s.conns[i], key); }
    }
  }

  lemma ApprovedIsOther(s: State, h: Handshake, key: Key, id: Str)
    requires ApprovedNowhere(s.trust, id) && IsApprovedNow(s, h) && KeyOf(h) == key
    ensures OtherClient(key, id)
  {
    hide ApprovedNowhere, IsApprovedNow, KeyOf;
    if h.clientId == id { NotApprovedNow(s, h); }
    assert IsOther(h, key, id);
  }

  lemma CanLiveWasThere(c: Codec<Message>, s: State, a: Step, key: Key, id: Str)
    requires ApprovedNowhere(s.trust, id) && CanLive(Next(c, s, a), key, id)
    ensures CanLive(s, key, id)
  {
    hide Next, ApprovedNowhere, IsOpening;
    var s' := Next(c, s, a);
    if IsOpening(s', key) {
      OpeningWasThere(c, s, a, key, id);
    } else if key in s'.sessions && key !in s.sessions {
      SessionWasOpening(c, s, a, key);
    }
  }

  lemma SessionWasOpening(c: Codec<Message>, s: State, a: Step, key: Key)
    requires key in Next(c, s, a).sessions && key !in s.sessions
    ensures IsOpening(s, key)
  {
    hide Next, KeyOf, NewDevice, Head;
    NextChanges(c, s, a);
    match ChangeOf(c, s, a)
    case Opens(_, h, created) =>
      assert KeyOf(h) == key;
      if a.HandlerOpen? {
        assert ConnOpens(s.conns[a.conn], key);
      }
    case _ =>
  }

  lemma PeerWasThere(c: Codec<Message>, s: State, a: Step, addr: Addr, id: Str)
    requires ApprovedNowhere(s.trust, id) && PeerCanEmit(Next(c, s, a), addr, id)
    ensures PeerCanEmit(s, addr, id) || (s.udp.Opening? && s.udp.handshake.clientId == id)
  {
    hide Next, KeyOf, LastAnswer, ApprovedNowhere, CanLive;
    var s' := Next(c, s, a);
    NextAnswers(c, s, a);
    if |s'.answers| > |s.answers| {
      AnswerAdded(s.answers, s'.answers[|s.answers|], addr);
    }
    var h := WelcomedBy(s'.answers, addr).value;
    if WelcomedBy(s.answers, addr) == Some(h) {
      CanLiveWasThere(c, s, a, KeyOf(h), id);
    }
  }

  lemma WordsAreAdmitted(c: Codec<Message>, conn: C.Conn)
    requires HasWords(c, conn)
    ensures conn.core.handler.Opening? || conn.core.handler.Serving?
  {
  }

  lemma StartHasNoWords(c: Codec<Message>)
    ensures !HasWords(c, C.START)
  {
  }

  lemma ConnWasThere(c: Codec<Message>, s: State, a: Step, i: nat, id: Str)
    requires ConnsOk(s) && ApprovedNowhere(s.trust, id)
    requires i in Next(c, s, a).conns && ConnCanEmit(c, Next(c, s, a), Next(c, s, a).conns[i], id)
    ensures i in s.conns && ConnCanEmit(c, s, s.conns[i], id)
  {
    hide Next, C.Next, KeyOf, ActionOf, ApprovedNowhere, CanLive, HasWords, C.Shape, C.Conserved, IsApprovedNow;
    var conn' := Next(c, s, a).conns[i];
    NextMovesConn(c, s, a, i);
    WordsAreAdmitted(c, conn');
    if i !in s.conns {
      StartHasNoWords(c);
    } else {
      var conn := s.conns[i];
      assert C.Inv(conn);
      if conn' != conn {
        if ActionOf(s, a) == C.Decide(true) && conn.core.handler.Checking? {
          DecidedYes(s, a, i);
          ConnAdmits(c, conn, ActionOf(s, a));
          NotApprovedNow(s, conn.core.handler.handshake);
          assert false;
        }
        WordsWereThere(c, conn, ActionOf(s, a));
      }
      WordsAreAdmitted(c, conn);
      if conn.core.handler.Serving? { CanLiveWasThere(c, s, a, KeyOf(conn.core.handler.handshake), id); }
    }
  }

  /** Nobody gets a conversation for a client that is approved nowhere. */
  lemma ConversationWasThere(c: Codec<Message>, s: State, a: Step, id: Str)
    requires ConnsOk(s) && ApprovedNowhere(s.trust, id) && HasConversation(c, Next(c, s, a), id)
    ensures HasConversation(c, s, id)
  {
    hide Next, ConnsOk, ApprovedNowhere, PeerCanEmit, ConnCanEmit, IsApprovedNow;
    var s' := Next(c, s, a);
    if s'.udp.Opening? && s'.udp.handshake.clientId == id {
      UdpOpeningWasThere(c, s, a);
      NotApprovedNow(s, s'.udp.handshake);
    } else if addr: Addr :| PeerCanEmit(s', addr, id) {
      PeerWasThere(c, s, a, addr, id);
    } else {
      var i :| i in s'.conns && ConnCanEmit(c, s', s'.conns[i], id);
      ConnWasThere(c, s, a, i, id);
    }
  }

  lemma {:induction false} ConversationWasThereBefore(c: Codec<Message>, s: State, steps: seq<Step>, id: Str)
    requires Sound(s) && ApprovedNowhere(s.trust, id) && Ungranted(s.trust, Run(c, s, steps).trust, id)
    requires HasConversation(c, Run(c, s, steps), id)
    ensures HasConversation(c, s, id)
  {
    hide Next, Sound, ApprovedNowhere, Ungranted, HasConversation;
    if |steps| > 0 {
      var n := |steps| - 1;
      var u := Run(c, s, steps[..n]);
      RunGrowsDeeds(c, s, steps[..n]);
      NextGrowsDeeds(c, u, steps[n]);
      UngrantedParts(s.trust, u.trust, Run(c, s, steps).trust, id);
      RevokedNeverPasses(c, s, steps[..n], id);
      RunKeepsSound(c, s, steps[..n]);
      assert ConnsOk(u) by { SoundConns(u); }
      ConversationWasThere(c, u, steps[n], id);
      ConversationWasThereBefore(c, s, steps[..n], id);
    }
  }

  lemma SoundConns(s: State)
    requires Sound(s)
    ensures ConnsOk(s) && PeersFollowAnswers(s)
  {
    hide ConnsOk, PeersFollowAnswers, ThreadsOk;
  }

  /** The client can still be heard: some continuation in which nobody approves it ends with a
      batch emitted on its behalf. */
  ghost predicate StillHeard(c: Codec<Message>, s: State, id: Str) {
    exists steps, a :: IsHeard(c, s, steps, a, id)
  }

  ghost predicate IsHeard(c: Codec<Message>, s: State, steps: seq<Step>, a: Step, id: Str) {
    && Ungranted(s.trust, Next(c, Run(c, s, steps), a).trust, id)
    && EmitsFor(c, Run(c, s, steps), a, id)
  }

  lemma HeardNeedsConversation(c: Codec<Message>, s: State, id: Str)
    requires Sound(s) && ApprovedNowhere(s.trust, id) && StillHeard(c, s, id)
    ensures HasConversation(c, s, id)
  {
    hide Next, Run, Sound, ApprovedNowhere, Ungranted, HasConversation, EmitsFor;
    var steps, a :| IsHeard(c, s, steps, a, id);
    var u := Run(c, s, steps);
    RunGrowsDeeds(c, s, steps);
    NextGrowsDeeds(c, u, a);
    UngrantedParts(s.trust, u.trust, Next(c, u, a).trust, id);
    RunKeepsSound(c, s, steps);
    SoundConns(u);
    EmissionNeedsConversation(c, u, a, id);
    ConversationWasThereBefore(c, s, steps, id);
  }
}
