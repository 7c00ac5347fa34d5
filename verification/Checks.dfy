/** What the approval check answers while others work on the trust store: exactly when the verdict
    in the file is what every check that begins from now on will find. */
module Checks {
  import opened Wire
  import opened Postcard
  import opened Framing
  import opened Trust
  import opened Sessions
  import opened System
  import opened SystemProgress
  import opened SystemTheorems
  import opened ServerSteps
  import S = Server
  import T = TrustSystem
  import D = Durability
  import R = RevocationRuns

  /** No read of the trust file fails, and no request of an administrator overrules the verdict. */
  ghost predicate Spares(c: Codec<Message>, s: State, steps: seq<Step>, id: Str, verdict: bool) {
    forall i | 0 <= i < |steps| && steps[i].Store? ::
      D.Harmless(Run(c, s, steps[..i]).trust, steps[i].step, id, verdict)
  }

  /** A thread that has begun to check a handshake during these steps has reloaded the file and asks
      under the lock. What it is answered is `IsApprovedNow`. */
  ghost predicate Decides(c: Codec<Message>, s: State, steps: seq<Step>, who: T.Who, h: Handshake) {
    && CanDecide(Run(c, s, steps), who, h)
    && exists i | 0 <= i <= |steps| :: who !in Run(c, s, steps[..i]).trust.ops
  }

  /** The verdict is in the file, and nothing in flight is stale. */
  ghost predicate Holds(s: State, id: Str, verdict: bool) {
    D.OnDisk(s.trust, id, verdict) && D.NothingStale(s.trust, id, verdict) && D.ProcessesRun(s.trust)
  }

  // ---- Nothing stale: every check is right -------------------------------------------

  /** Every step of the machine is made of harmless steps of the store, if it is one itself. */
  lemma MovesAreHarmless(c: Codec<Message>, s: State, a: Step, id: Str, verdict: bool) returns (steps: seq<T.Step>)
    requires a.Store? ==> D.Harmless(s.trust, a.step, id, verdict)
    ensures Next(c, s, a).trust == T.Run(s.trust, steps) && D.AllHarmless(s.trust, steps, id, verdict)
  {
    hide Next, T.Next, T.Enabled, T.StoreOnly, D.Opposes;
    steps := TrustMoves(c, s, a);
    forall i | 0 <= i < |steps| ensures D.Harmless(T.Run(s.trust, steps[..i]), steps[i], id, verdict) {
      if !a.Store? && !steps[i].Begin? {
        AsksIsHarmless(s.trust, steps[i], id, verdict);
      }
    }
  }

  lemma AsksIsHarmless(t: T.State, a: T.Step, id: Str, verdict: bool)
    requires Asks(t, a)
    ensures D.Harmless(t, a, id, verdict) && T.Run(t, []) == t
  {
  }

  lemma NextHolds(c: Codec<Message>, s: State, a: Step, id: Str, verdict: bool)
    requires Holds(s, id, verdict) && (a.Store? ==> D.Harmless(s.trust, a.step, id, verdict))
    ensures Holds(Next(c, s, a), id, verdict)
    ensures forall who | D.Informed(s.trust, who, id, verdict) :: D.Informed(Next(c, s, a).trust, who, id, verdict)
  {
    hide Next, T.Run, D.OnDisk, D.NothingStale, D.ProcessesRun, D.AllHarmless, D.Informed;
    var steps := MovesAreHarmless(c, s, a, id, verdict);
    D.RunKeepsVerdict(s.trust, steps, id, verdict);
    forall who | D.Informed(s.trust, who, id, verdict) ensures D.Informed(Next(c, s, a).trust, who, id, verdict) {
      D.RunKeepsInformed(s.trust, steps, who, id, verdict);
    }
  }

  lemma SparesPrefix(c: Codec<Message>, s: State, steps: seq<Step>, id: Str, verdict: bool)
    requires |steps| > 0 && Spares(c, s, steps, id, verdict)
    ensures Spares(c, s, steps[..|steps| - 1], id, verdict)
  {
    hide Run, D.Harmless;
    var before := steps[..|steps| - 1];
    forall i | 0 <= i < |before| && before[i].Store?
      ensures D.Harmless(Run(c, s, before[..i]).trust, before[i].step, id, verdict)
    {
      assert before[..i] == steps[..i];
    }
  }

  /** A thread that was out of the store at some time is informed ever after. */
  lemma {:induction false} RunHolds(c: Codec<Message>, s: State, steps: seq<Step>, id: Str, verdict: bool)
    requires Holds(s, id, verdict) && Spares(c, s, steps, id, verdict)
    ensures Holds(Run(c, s, steps), id, verdict)
    ensures forall who, i | 0 <= i <= |steps| && who !in Run(c, s, steps[..i]).trust.ops ::
              D.Informed(Run(c, s, steps).trust, who, id, verdict)
  {
    hide Next, Holds, D.Harmless, D.Informed;
    if |steps| > 0 {
      var n := |steps| - 1;
      SparesPrefix(c, s, steps, id, verdict);
      RunHolds(c, s, steps[..n], id, verdict);
      NextHolds(c, Run(c, s, steps[..n]), steps[n], id, verdict);
    }
    forall who, i | 0 <= i <= |steps| && who !in Run(c, s, steps[..i]).trust.ops
      ensures D.Informed(Run(c, s, steps).trust, who, id, verdict)
    {
      if i == |steps| {
        assert steps[..i] == steps;
        OutIsInformed(Run(c, s, steps).trust, who, id, verdict);
      } else {
        assert steps[..|steps| - 1][..i] == steps[..i];
      }
    }
  }

  lemma OutIsInformed(t: T.State, who: T.Who, id: Str, verdict: bool)
    requires who !in t.ops
    ensures D.Informed(t, who, id, verdict)
  {
  }

  lemma InformedAnswer(s: State, who: T.Who, h: Handshake, verdict: bool)
    requires CanDecide(s, who, h) && D.Informed(s.trust, who, h.clientId, verdict)
    ensures IsApprovedNow(s, h) == verdict
  {
  }

  // ---- Something stale: a check can be wrong -----------------------------------------

  function StoreAll(steps: seq<T.Step>): seq<Step> {
    if |steps| == 0 then [] else StoreAll(steps[..|steps| - 1]) + [Store(steps[|steps| - 1])]
  }

  lemma SparesNothing(c: Codec<Message>, s: State, id: Str, verdict: bool)
    ensures Spares(c, s, [], id, verdict) && Run(c, s, []) == s
  {
  }

  lemma SparesMore(c: Codec<Message>, s: State, steps: seq<Step>, a: Step, id: Str, verdict: bool)
    requires Spares(c, s, steps, id, verdict)
    requires a.Store? ==> D.Harmless(Run(c, s, steps).trust, a.step, id, verdict)
    ensures Spares(c, s, steps + [a], id, verdict) && Run(c, s, steps + [a]) == Next(c, Run(c, s, steps), a)
  {
    hide Next, D.Harmless;
    var more := steps + [a];
    assert more[..|more| - 1] == steps;
    forall i | 0 <= i < |more| && more[i].Store?
      ensures D.Harmless(Run(c, s, more[..i]).trust, more[i].step, id, verdict)
    {
      assert more[..i] == steps[..i];
    }
  }

  lemma {:induction false} SparesBoth(c: Codec<Message>, s: State, a: seq<Step>, b: seq<Step>, id: Str, verdict: bool)
    requires Spares(c, s, a, id, verdict) && Spares(c, Run(c, s, a), b, id, verdict)
    ensures Spares(c, s, a + b, id, verdict) && Run(c, s, a + b) == Run(c, Run(c, s, a), b)
    decreases |b|
  {
    hide Next, D.Harmless;
    if |b| == 0 {
      assert a + b == a;
    } else {
      var n := |b| - 1;
      SparesPrefix(c, Run(c, s, a), b, id, verdict);
      SparesBoth(c, s, a, b[..n], id, verdict);
      assert b[n].Store? ==> D.Harmless(Run(c, Run(c, s, a), b[..n]).trust, b[n].step, id, verdict);
      SparesMore(c, s, a + b[..n], b[n], id, verdict);
      assert a + b[..n] + [b[n]] == a + b;
    }
  }

  /** The store's own steps are steps of the machine. */
  lemma {:induction false} StoreRuns(c: Codec<Message>, s: State, steps: seq<T.Step>, id: Str, verdict: bool)
    requires D.AllBystanders(s.trust, steps, id, verdict)
    ensures Run(c, s, StoreAll(steps)) == s.(trust := T.Run(s.trust, steps))
    ensures Spares(c, s, StoreAll(steps), id, verdict)
  {
    hide Next, T.Next, D.Harmless, T.StoreOnly, Spares;
    if |steps| == 0 {
      SparesNothing(c, s, id, verdict);
    } else {
      var n := |steps| - 1;
      forall i | 0 <= i < n ensures D.Bystander(T.Run(s.trust, steps[..n][..i]), steps[..n][i], id, verdict) {
        assert steps[..n][..i] == steps[..i];
      }
      StoreRuns(c, s, steps[..n], id, verdict);
      assert D.Bystander(T.Run(s.trust, steps[..n]), steps[n], id, verdict);
      SparesMore(c, s, StoreAll(steps[..n]), Store(steps[n]), id, verdict);
      StoreSteps(c, s.(trust := T.Run(s.trust, steps[..n])), steps[n]);
    }
  }

  lemma CalmSpares(c: Codec<Message>, s: State, steps: seq<Step>, id: Str, verdict: bool)
    requires AllCalm(c, s, steps)
    ensures Spares(c, s, steps, id, verdict)
  {
    hide Run, Calm, D.Harmless;
    forall i | 0 <= i < |steps| && steps[i].Store?
      ensures D.Harmless(Run(c, s, steps[..i]).trust, steps[i].step, id, verdict)
    {
      CalmIsHarmless(Run(c, s, steps[..i]), steps[i], id, verdict);
    }
  }

  lemma CalmIsHarmless(s: State, a: Step, id: Str, verdict: bool)
    requires Calm(s, a) && a.Store?
    ensures D.Harmless(s.trust, a.step, id, verdict)
  {
  }

  /** The client's handshake comes by datagram and is checked against the file. */
  lemma ChecksTheFile(c: Codec<Message>, s: State, src: Addr, h: Handshake, verdict: bool) returns (steps: seq<Step>)
    requires Sound(s) && s.udp.Idle? && T.UdpLoop !in s.trust.ops && T.NobodySaves(s.trust)
    requires D.OnDisk(s.trust, h.clientId, verdict)
    ensures Spares(c, s, steps, h.clientId, !verdict) && Decides(c, s, steps, T.UdpLoop, h)
    ensures IsApprovedNow(Run(c, s, steps), h) == verdict && Run(c, s, steps).udp == Checking(src, h)
  {
    hide Next, T.NobodySaves, PeersFollowAnswers, D.ProcessesRun, Spares;
    var at := R.Surroundings(s, h.clientId);
    HandshakeIsChecked(c, s, src, h, at);
    CheckedCanDecide(s, src, h, true);
    SparesNothing(c, s, h.clientId, !verdict);
    SparesMore(c, s, [], Datagram(src, Hello(h)), h.clientId, !verdict);
    var s1 := Next(c, s, Datagram(src, Hello(h)));
    var first, loading := [Datagram(src, Hello(h))], Loading(T.UdpLoop, at);
    assert [] + first == first;
    SparesNothing(c, s1, h.clientId, !verdict);
    SparesMore(c, s1, [], loading[0], h.clientId, !verdict);
    assert [] + [loading[0]] == [loading[0]];
    SparesMore(c, s1, [loading[0]], loading[1], h.clientId, !verdict);
    assert [loading[0]] + [loading[1]] == loading;
    SparesBoth(c, s, first, loading, h.clientId, !verdict);
    steps := first + loading;
    assert steps[..0] == [];
  }

  /** Any stale operation can bring it about that a client whose handshake comes after that is
      answered against the verdict. */
  lemma StaleMisleads(c: Codec<Message>, s: State, stale: T.Who, src: Addr, h: Handshake, verdict: bool)
    returns (steps: seq<Step>)
    requires Sound(s) && stale in s.trust.ops && D.Stale(s.trust, s.trust.ops[stale], h.clientId, verdict)
    ensures Spares(c, s, steps, h.clientId, verdict) && Decides(c, s, steps, T.UdpLoop, h)
    ensures IsApprovedNow(Run(c, s, steps), h) == !verdict && Run(c, s, steps).udp == Checking(src, h)
  {
    hide Next, Run, T.Run, Sound, Kept, Spares, Decides, AllCalm, T.NobodySaves, D.Stale, D.AllBystanders, CanDecide, IsApprovedNow;
    var id := h.clientId;
    assert D.ProcessesRun(s.trust) by { SoundHasProcesses(s); }
    var undone := D.StaleUndoes(s.trust, stale, id, verdict);
    StoreRuns(c, s, undone, id, verdict);
    var s1 := Run(c, s, StoreAll(undone));
    RunKeepsSound(c, s, StoreAll(undone));
    var s2 := UdpGetsIdle(c, s1);
    assert Kept(s1, s2) && s2.trust.disk == s1.trust.disk by { KeptDisk(s1, s2); }
    var calm :| Run(c, s1, calm) == s2 && AllCalm(c, s1, calm);
    CalmSpares(c, s1, calm, id, verdict);
    SparesBoth(c, s, StoreAll(undone), calm, id, verdict);
    var last := ChecksTheFile(c, s2, src, h, !verdict);
    var before := StoreAll(undone) + calm;
    SparesBoth(c, s, before, last, id, verdict);
    steps := before + last;
    DecidesLater(c, s, before, last, T.UdpLoop, h);
  }

  lemma SoundHasProcesses(s: State)
    requires Sound(s)
    ensures D.ProcessesRun(s.trust)
  {
  }

  lemma KeptDisk(s: State, t: State)
    requires Kept(s, t)
    ensures t.trust.disk == s.trust.disk
  {
  }

  lemma DecidesLater(c: Codec<Message>, s: State, before: seq<Step>, steps: seq<Step>, who: T.Who, h: Handshake)
    requires Decides(c, Run(c, s, before), steps, who, h)
    ensures Decides(c, s, before + steps, who, h) && Run(c, s, before + steps) == Run(c, Run(c, s, before), steps)
  {
    hide Run, CanDecide;
    var i :| 0 <= i <= |steps| && who !in Run(c, Run(c, s, before), steps[..i]).trust.ops;
    RunOfConcat(c, s, before, steps);
    RunOfConcat(c, s, before, steps[..i]);
    assert (before + steps)[..|before| + i] == before + steps[..i];
  }

  // ---- Exactly when ------------------------------------------------------------------

  /** In every state of every run: all checks of a client's handshakes that begin from now on, by
      whichever transport, find the verdict that is in the file now, unless reading fails or an
      administrator overrules it, exactly when no operation in flight is stale. */
  lemma ChecksAgreeIff(c: Codec<Message>, s: State, id: Str, verdict: bool)
    requires Sound(s) && D.OnDisk(s.trust, id, verdict)
    ensures (forall steps, who, h: Handshake | h.clientId == id && Spares(c, s, steps, id, verdict) && Decides(c, s, steps, who, h) ::
               IsApprovedNow(Run(c, s, steps), h) == verdict)
            <==> D.NothingStale(s.trust, id, verdict)
  {
    hide Next, Run, Sound, Spares, CanDecide, IsApprovedNow, D.OnDisk, D.Stale, D.ProcessesRun, D.Informed;
    SoundHasProcesses(s);
    if D.NothingStale(s.trust, id, verdict) {
      forall steps, who, h: Handshake | h.clientId == id && Spares(c, s, steps, id, verdict) && Decides(c, s, steps, who, h)
        ensures IsApprovedNow(Run(c, s, steps), h) == verdict
      {
        RunHolds(c, s, steps, id, verdict);
        InformedAnswer(Run(c, s, steps), who, h, verdict);
      }
    } else {
      var stale :| stale in s.trust.ops && D.Stale(s.trust, s.trust.ops[stale], id, verdict);
      var h := AnyHandshake(id);
      var steps := StaleMisleads(c, s, stale, 0, h, verdict);
    }
  }

  function AnyHandshake(id: Str): (h: Handshake)
    ensures h.clientId == id
  {
    Handshake(id, id, DeviceMetadata(id, 0, 0, 0, 0, [], [], []), None)
  }

  /** So an approved client gets through whenever it asks, exactly when nothing is stale. */
  lemma ApprovedPassesIff(c: Codec<Message>, s: State, id: Str)
    requires Sound(s) && s.trust.disk.Some? && id in s.trust.disk.value.approved
    ensures (forall steps, who, h: Handshake | h.clientId == id && Spares(c, s, steps, id, true) && Decides(c, s, steps, who, h) ::
               IsApprovedNow(Run(c, s, steps), h))
            <==> D.NothingStale(s.trust, id, true)
  {
    hide Run, Sound, Spares, Decides, IsApprovedNow, D.NothingStale;
    ChecksAgreeIff(c, s, id, true);
  }

  /** And a client that has been revoked in the file is refused whenever it asks, exactly when
      nothing is stale, whatever copies with its approval are still about. */
  lemma RevokedIsRefusedIff(c: Codec<Message>, s: State, id: Str)
    requires Sound(s) && s.trust.disk.Some? && id !in s.trust.disk.value.approved
    ensures (forall steps, who, h: Handshake | h.clientId == id && Spares(c, s, steps, id, false) && Decides(c, s, steps, who, h) ::
               !IsApprovedNow(Run(c, s, steps), h))
            <==> D.NothingStale(s.trust, id, false)
  {
    hide Run, Sound, Spares, Decides, IsApprovedNow, D.NothingStale;
    ChecksAgreeIff(c, s, id, false);
  }

  /** A server has read the trust file to check the handshake of one client when an administrator
      approves another, and reports success. The approval is in the file, but the copy that was
      read is yet to be installed, and a handshake of the approved client that comes after that
      is refused. */
  lemma ApprovedCanBeRefused(c: Codec<Message>, alice: PendingInfo, bob: Handshake, h: Handshake, stamp: Str)
    returns (s: State, steps: seq<Step>)
    requires h.clientId == alice.clientId
    ensures Leads(c, Init(Some(TrustData(map[], map[alice.clientId := alice])), true), s)
    ensures D.OnDisk(s.trust, alice.clientId, true) && s.trust.deeds == [T.Granted(alice.clientId)]
    ensures Spares(c, s, steps, alice.clientId, true) && Decides(c, s, steps, T.UdpLoop, h)
    ensures Next(c, Run(c, s, steps), UdpDecide(stamp)).udp.Registering?
  {
    hide Next, Run, Leads, Spares, Sound, CanDecide, IsApprovedNow;
    var id, d := alice.clientId, TrustData(map[], map[alice.clientId := alice]);
    var s2 := HasRead(c, d, bob);
    assert Resolves(d.pending.Keys, id, id);
    var call;
    s, call := R.AdminActs(c, s2, Approve(id, id), id);
    LeadsFar(c, Init(Some(d), true), s2, s);
    InitIsSound(c, Some(d), true);
    LeadsKeepsSound(c, Init(Some(d), true), s);
    assert s.trust.ops[T.UdpLoop].stage == T.Loaded(Some(d));
    steps := StaleMisleads(c, s, T.UdpLoop, 0, h, true);
    RefusedNext(c, Run(c, s, steps), 0, h, stamp);
  }

  lemma HasRead(c: Codec<Message>, d: TrustData, bob: Handshake) returns (s: State)
    ensures Leads(c, Init(Some(d), true), s) && T.NobodySaves(s.trust) && SERVER in s.trust.memory
    ensures s.trust.disk == Some(d) && s.trust.deeds == []
    ensures T.UdpLoop in s.trust.ops && s.trust.ops[T.UdpLoop].stage == T.Loaded(Some(d))
  {
    hide Next, Leads;
    var s0 := Init(Some(d), true);
    LeadsNowhere(c, s0);
    LeadsOn(c, s0, s0, Datagram(0, Hello(bob)));
    HandshakeArrives(c, s0, 0, bob);
    var s1 := Next(c, s0, Datagram(0, Hello(bob)));
    LeadsOn(c, s0, s1, Store(T.ReadFile(T.UdpLoop, true)));
    StoreSteps(c, s1, T.ReadFile(T.UdpLoop, true));
    s := Next(c, s1, Store(T.ReadFile(T.UdpLoop, true)));
  }

  lemma RefusedNext(c: Codec<Message>, s: State, src: Addr, h: Handshake, stamp: Str)
    requires s.udp == Checking(src, h) && CanDecide(s, T.UdpLoop, h) && !IsApprovedNow(s, h)
    ensures Next(c, s, UdpDecide(stamp)).udp.Registering?
  {
    hide OnFrame, OnDatagram, OnUdpOpen, OnHandlerDecide, OnHandlerOpen, CanDecide, IsApprovedNow, T.Next;
  }
}
