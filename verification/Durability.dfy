/** When a verdict on a client that is in the trust file, that it is approved or that it is not,
    stays there, whatever other operations do at the same time. */
module Durability {
  import opened Wire
  import opened Trust
  import opened TrustSystem

  /** The data approve the client, or do not, as the verdict has it. */
  predicate Says(d: TrustData, id: Str, verdict: bool) {
    (id in d.approved) == verdict
  }

  ghost predicate OnDisk(s: State, id: Str, verdict: bool) {
    s.disk.Some? && Says(s.disk.value, id, verdict)
  }

  /** The request, settling on this client, is meant to change the verdict: a revoke of one that
      is approved, an approve of one that is not. */
  predicate Opposes(d: TrustData, request: Request, choice: Str, id: Str, verdict: bool) {
    choice == id && (if verdict then request.Revoke? else request.Approve?) && Changes(d, request, id)
  }

  ghost predicate Overrules(s: State, a: Step, id: Str, verdict: bool) {
    Enabled(s, a) && a.Execute? && Opposes(s.memory[s.ops[a.who].pid], s.ops[a.who].request, a.choice, id, verdict)
  }

  /** A step that neither fails to read the file nor overrules the verdict. */
  ghost predicate Harmless(s: State, a: Step, id: Str, verdict: bool) {
    (a.ReadFile? ==> a.readable) && !Overrules(s, a, id, verdict)
  }

  ghost predicate AllHarmless(s: State, steps: seq<Step>, id: Str, verdict: bool) {
    forall i | 0 <= i < |steps| :: Harmless(Run(s, steps[..i]), steps[i], id, verdict)
  }

  /** The request would change data without the verdict into data that are still without it. */
  ghost predicate WouldUndo(d: TrustData, request: Request, id: Str, verdict: bool) {
    !Says(d, id, verdict)
    && exists choice: Str :: Settled(d, request, choice) && Changes(d, request, choice)
                             && !Opposes(d, request, choice, id, verdict)
                             && !Says(Apply(d, request, choice), id, verdict)
  }

  /** An operation in flight that works, or makes others work, on data without the verdict: it is
      about to write them, it has read them and will install them, or it will execute its
      request on those in memory. */
  ghost predicate Stale(s: State, op: Op, id: Str, verdict: bool) {
    match op.stage
    case Loading => false
    case Saving(d) => !Says(d, id, verdict)
    case Loaded(Some(d)) => !Says(d, id, verdict)
    case _ => op.pid in s.memory && WouldUndo(s.memory[op.pid], op.request, id, verdict)
  }

  ghost predicate NothingStale(s: State, id: Str, verdict: bool) {
    forall who | who in s.ops :: !Stale(s, s.ops[who], id, verdict)
  }

  /** Every operation runs in a process that has started; so it is in every run. */
  ghost predicate ProcessesRun(s: State) {
    forall who | who in s.ops :: s.ops[who].pid in s.memory
  }

  lemma NextKeepsProcesses(s: State, a: Step)
    requires ProcessesRun(s)
    ensures ProcessesRun(Next(s, a))
  {
    hide ValidUtf8, Changes, Apply, Settled, DeedOf, Locked;
  }

  lemma {:induction false} EveryRunHasProcesses(disk: Option<TrustData>, steps: seq<Step>)
    ensures ProcessesRun(TrustSystem.Run(Init(disk), steps))
  {
    hide ValidUtf8, Next, ProcessesRun;
    if |steps| > 0 {
      EveryRunHasProcesses(disk, steps[..|steps| - 1]);
      NextKeepsProcesses(Run(Init(disk), steps[..|steps| - 1]), steps[|steps| - 1]);
    } else {
      NoProcesses(disk);
    }
  }

  lemma NoProcesses(disk: Option<TrustData>)
    ensures ProcessesRun(Init(disk))
  {
  }

  // ---- Nothing stale: it stays -------------------------------------------------------

  lemma NextKeepsVerdict(s: State, a: Step, id: Str, verdict: bool)
    requires OnDisk(s, id, verdict) && NothingStale(s, id, verdict) && ProcessesRun(s) && Harmless(s, a, id, verdict)
    ensures OnDisk(Next(s, a), id, verdict) && NothingStale(Next(s, a), id, verdict) && ProcessesRun(Next(s, a))
  {
    NextKeepsProcesses(s, a);
    hide ValidUtf8, ProcessesRun;
  }

  lemma {:induction false} RunKeepsVerdict(s: State, steps: seq<Step>, id: Str, verdict: bool)
    requires OnDisk(s, id, verdict) && NothingStale(s, id, verdict) && ProcessesRun(s) && AllHarmless(s, steps, id, verdict)
    ensures var t := Run(s, steps); OnDisk(t, id, verdict) && NothingStale(t, id, verdict) && ProcessesRun(t)
  {
    hide Next, OnDisk, NothingStale, Harmless, ProcessesRun;
    if |steps| > 0 {
      var n := |steps| - 1;
      forall i | 0 <= i < n ensures Harmless(Run(s, steps[..n][..i]), steps[..n][i], id, verdict) {
        assert steps[..n][..i] == steps[..i];
      }
      RunKeepsVerdict(s, steps[..n], id, verdict);
      assert Harmless(Run(s, steps[..n]), steps[n], id, verdict);
      NextKeepsVerdict(Run(s, steps[..n]), steps[n], id, verdict);
    }
  }

  // ---- Operations that begin later ---------------------------------------------------

  /** Whatever this thread has read so far, and will act on, has the verdict. */
  ghost predicate Informed(s: State, who: Who, id: Str, verdict: bool) {
    who in s.ops ==>
      match s.ops[who].stage
      case Loading => true
      case Loaded(file) => file.Some? && Says(file.value, id, verdict)
      case Ready => s.ops[who].pid in s.memory && Says(s.memory[s.ops[who].pid], id, verdict)
      case Saving(_) => true
  }

  lemma NextKeepsInformed(s: State, a: Step, who: Who, id: Str, verdict: bool)
    requires OnDisk(s, id, verdict) && NothingStale(s, id, verdict) && ProcessesRun(s) && Harmless(s, a, id, verdict)
    requires Informed(s, who, id, verdict)
    ensures Informed(Next(s, a), who, id, verdict)
  {
    hide ValidUtf8, Settled, WouldUndo, DeedOf, Locked;
  }

  lemma {:induction false} RunKeepsInformed(s: State, steps: seq<Step>, who: Who, id: Str, verdict: bool)
    requires OnDisk(s, id, verdict) && NothingStale(s, id, verdict) && ProcessesRun(s) && AllHarmless(s, steps, id, verdict)
    requires Informed(s, who, id, verdict)
    ensures Informed(Run(s, steps), who, id, verdict)
  {
    hide Next, OnDisk, NothingStale, Harmless, ProcessesRun, Informed;
    if |steps| > 0 {
      var n := |steps| - 1;
      forall i | 0 <= i < n ensures Harmless(Run(s, steps[..n][..i]), steps[..n][i], id, verdict) {
        assert steps[..n][..i] == steps[..i];
      }
      RunKeepsVerdict(s, steps[..n], id, verdict);
      RunKeepsInformed(s, steps[..n], who, id, verdict);
      assert Harmless(Run(s, steps[..n]), steps[n], id, verdict);
      NextKeepsInformed(Run(s, steps[..n]), steps[n], who, id, verdict);
    }
  }

  // ---- Something stale: it can be undone ---------------------------------------------

  /** Harmless, and nothing that only the server's own threads do. */
  ghost predicate Bystander(s: State, a: Step, id: Str, verdict: bool) {
    Harmless(s, a, id, verdict) && StoreOnly(s, a)
  }

  ghost predicate AllBystanders(s: State, steps: seq<Step>, id: Str, verdict: bool) {
    forall i | 0 <= i < |steps| :: Bystander(Run(s, steps[..i]), steps[i], id, verdict)
  }

  lemma NothingIsHarmless(s: State, id: Str, verdict: bool)
    ensures AllBystanders(s, [], id, verdict) && Run(s, []) == s
  {
  }

  lemma OneMore(s: State, steps: seq<Step>, a: Step, id: Str, verdict: bool)
    requires AllBystanders(s, steps, id, verdict) && Bystander(Run(s, steps), a, id, verdict)
    ensures Run(s, steps + [a]) == Next(Run(s, steps), a) && AllBystanders(s, steps + [a], id, verdict)
  {
    hide Next, Bystander;
    var more := steps + [a];
    assert more[..|steps|] == steps;
    forall i | 0 <= i < |more| ensures Bystander(Run(s, more[..i]), more[i], id, verdict) {
      if i < |steps| {
        assert more[..i] == steps[..i];
      }
    }
  }

  lemma FirstThen(s: State, a: Step, rest: seq<Step>, id: Str, verdict: bool)
    requires Bystander(s, a, id, verdict) && AllBystanders(Next(s, a), rest, id, verdict)
    ensures Run(s, [a] + rest) == Run(Next(s, a), rest) && AllBystanders(s, [a] + rest, id, verdict)
  {
    hide Next, Bystander;
    RunOne(s, a);
    RunOfConcat(s, [a], rest);
    var all := [a] + rest;
    forall i | 0 <= i < |all| ensures Bystander(Run(s, all[..i]), all[i], id, verdict) {
      if i > 0 {
        assert all[..i] == [a] + rest[..i - 1];
        RunOfConcat(s, [a], rest[..i - 1]);
      }
    }
  }

  lemma RunOne(s: State, a: Step)
    ensures Run(s, [a]) == Next(s, a)
  {
    hide Next;
    assert [a][..0] == [];
  }

  /** Whoever is writing the file can fail to, and thereby leave the mutex. */
  lemma {:induction false} Unlock(s: State, id: Str, verdict: bool) returns (steps: seq<Step>)
    ensures AllBystanders(s, steps, id, verdict) && forall a | a in steps :: a.Save?
    ensures var s' := Run(s, steps);
            && s' == s.(ops := s'.ops) && NobodySaves(s')
            && (forall who | who in s'.ops :: who in s.ops && s'.ops[who] == s.ops[who])
            && (forall who | who in s.ops && !s.ops[who].stage.Saving? :: who in s'.ops)
    decreases |s.ops|
  {
    steps := [];
    if who :| who in s.ops && s.ops[who].stage.Saving? {
      var s1 := Next(s, Save(who, false));
      assert s1 == s.(ops := s.ops - {who});
      assert s.ops.Keys == s1.ops.Keys + {who};
      assert |s.ops.Keys| == |s1.ops.Keys| + 1;
      var rest := Unlock(s1, id, verdict);
      steps := [Save(who, false)] + rest;
      FirstThen(s, Save(who, false), rest, id, verdict);
    }
  }

  lemma {:induction false} SomeAdminIsFree(busy: set<Who>) returns (n: nat)
    ensures forall m: nat | Admin(m) in busy :: m < n
    decreases |busy|
  {
    n := 0;
    if who :| who in busy {
      n := SomeAdminIsFree(busy - {who});
      if who.Admin? && who.n >= n {
        n := who.n + 1;
      }
    }
  }

  /** Executing a request on data without the verdict, and writing the result. */
  lemma ExecutesAndWrites(s: State, steps: seq<Step>, who: Who, id: Str, verdict: bool) returns (all: seq<Step>)
    requires AllBystanders(s, steps, id, verdict)
    requires var t := Run(s, steps);
             && NobodySaves(t) && who in t.ops && t.ops[who].stage.Ready? && t.ops[who].pid in t.memory
             && WouldUndo(t.memory[t.ops[who].pid], t.ops[who].request, id, verdict)
    ensures AllBystanders(s, all, id, verdict) && OnDisk(Run(s, all), id, !verdict)
  {
    hide Run, AllBystanders, ValidUtf8;
    var t := Run(s, steps);
    var op := t.ops[who];
    var d := t.memory[op.pid];
    var choice: Str :| Settled(d, op.request, choice) && Changes(d, op.request, choice)
                       && !Opposes(d, op.request, choice, id, verdict)
                       && !Says(Apply(d, op.request, choice), id, verdict);
    assert !Locked(t, op.pid);
    OneMore(s, steps, Execute(who, choice), id, verdict);
    var t1 := Next(t, Execute(who, choice));
    assert t1.ops[who].stage == Saving(Apply(d, op.request, choice));
    OneMore(s, steps + [Execute(who, choice)], Save(who, true), id, verdict);
    all := steps + [Execute(who, choice)] + [Save(who, true)];
  }

  /** A request about somebody else that changes the data. */
  function Unrelated(d: TrustData, id: Str): (other: (Request, Str))
    ensures Settled(d, other.0, other.1) && Changes(d, other.0, other.1) && other.1 != id && !other.0.IsApproved?
    ensures (id in Apply(d, other.0, other.1).approved) == (id in d.approved)
  {
    var who: Str := if id == [] then [0] else [];
    if who in d.approved then (Revoke(who), who) else (Register(PendingInfo(who, who, who, DirectUdp, who)), who)
  }

  /** A copy that was read before the verdict was written is installed under the feet of another
      thread, which then works on it. */
  lemma StaleCopyIsInstalled(s: State, steps: seq<Step>, who: Who, id: Str, verdict: bool) returns (all: seq<Step>)
    requires AllBystanders(s, steps, id, verdict)
    requires var t := Run(s, steps);
             && NobodySaves(t) && who in t.ops && t.ops[who].stage.Loaded? && t.ops[who].stage.file.Some?
             && t.ops[who].pid in t.memory && !Says(t.ops[who].stage.file.value, id, verdict)
    ensures AllBystanders(s, all, id, verdict) && OnDisk(Run(s, all), id, !verdict)
  {
    hide AllBystanders, ValidUtf8, Unrelated, Changes, Settled, Apply;
    var t := Run(s, steps);
    hide Run;
    var n := SomeAdminIsFree(t.ops.Keys);
    var admin, pid, d := Admin(n), t.ops[who].pid, t.ops[who].stage.file.value;
    var (request, choice) := Unrelated(d, id);
    UndisturbedReload(t, Call(admin, pid, request, choice), true);
    OneMore(s, steps, Begin(admin, pid, request), id, verdict);
    var more := steps + [Begin(admin, pid, request)];
    OneMore(s, more, ReadFile(admin, true), id, verdict);
    more := more + [ReadFile(admin, true)];
    OneMore(s, more, Install(admin), id, verdict);
    more := more + [Install(admin)];
    var t3 := Run(s, more);
    assert t3.ops == t.ops[admin := Op(pid, request, Ready)];
    assert !Locked(t3, pid);
    OneMore(s, more, Install(who), id, verdict);
    more := more + [Install(who)];
    var t4 := Next(t3, Install(who));
    assert t4.memory[pid] == d && t4.ops[admin] == Op(pid, request, Ready) && NobodySaves(t4);
    assert WouldUndo(d, request, id, verdict) by { assert Settled(d, request, choice); }
    all := ExecutesAndWrites(s, more, admin, id, verdict);
  }

  lemma StaleUndoes(s: State, who: Who, id: Str, verdict: bool) returns (all: seq<Step>)
    requires ProcessesRun(s) && who in s.ops && Stale(s, s.ops[who], id, verdict)
    ensures AllBystanders(s, all, id, verdict) && OnDisk(Run(s, all), id, !verdict)
  {
    hide AllBystanders, ValidUtf8, WouldUndo;
    var op := s.ops[who];
    NothingIsHarmless(s, id, verdict);
    if op.stage.Saving? {
      OneMore(s, [], Save(who, true), id, verdict);
      all := [] + [Save(who, true)];
    } else {
      var steps := Unlock(s, id, verdict);
      if op.stage.Ready? {
        all := ExecutesAndWrites(s, steps, who, id, verdict);
      } else if op.stage.file.Some? {
        all := StaleCopyIsInstalled(s, steps, who, id, verdict);
      } else {
        var t := Run(s, steps);
        assert !Locked(t, op.pid);
        OneMore(s, steps, Install(who), id, verdict);
        all := ExecutesAndWrites(s, steps + [Install(who)], who, id, verdict);
      }
    }
  }

  /** A verdict that is in the file stays there over every continuation whose reads succeed and
      in which it is not overruled, exactly when no operation in flight is stale. */
  lemma VerdictSurvivesIff(s: State, id: Str, verdict: bool)
    requires OnDisk(s, id, verdict) && ProcessesRun(s)
    ensures (forall steps | AllHarmless(s, steps, id, verdict) :: OnDisk(Run(s, steps), id, verdict))
            <==> NothingStale(s, id, verdict)
  {
    hide Run, Stale, Harmless, StoreOnly, ProcessesRun;
    if NothingStale(s, id, verdict) {
      forall steps | AllHarmless(s, steps, id, verdict) ensures OnDisk(Run(s, steps), id, verdict) {
        RunKeepsVerdict(s, steps, id, verdict);
      }
    } else {
      var who :| who in s.ops && Stale(s, s.ops[who], id, verdict);
      var steps := StaleUndoes(s, who, id, verdict);
      assert AllHarmless(s, steps, id, verdict) && !OnDisk(Run(s, steps), id, verdict);
    }
  }

  /** An approval in the file stays there, whatever others do but revoke it, exactly when no
      operation in flight works on data in which the client is not approved. */
  lemma ApprovalSurvivesIff(s: State, id: Str)
    requires s.disk.Some? && id in s.disk.value.approved && ProcessesRun(s)
    ensures (forall steps | AllHarmless(s, steps, id, true) ::
               Run(s, steps).disk.Some? && id in Run(s, steps).disk.value.approved)
            <==> NothingStale(s, id, true)
  {
    hide Run, NothingStale, AllHarmless, ProcessesRun;
    VerdictSurvivesIff(s, id, true);
    assert forall steps :: OnDisk(Run(s, steps), id, true) <==>
      Run(s, steps).disk.Some? && id in Run(s, steps).disk.value.approved;
  }

  /** A revoke that has been saved is not undone, whatever others do but approve the client again,
      exactly when no operation in flight works on data in which the client is approved. */
  lemma RevocationSurvivesIff(s: State, id: Str)
    requires s.disk.Some? && id !in s.disk.value.approved && ProcessesRun(s)
    ensures (forall steps | AllHarmless(s, steps, id, false) ::
               Run(s, steps).disk.Some? && id !in Run(s, steps).disk.value.approved)
            <==> NothingStale(s, id, false)
  {
    hide Run, NothingStale, AllHarmless, ProcessesRun;
    VerdictSurvivesIff(s, id, false);
    assert forall steps :: OnDisk(Run(s, steps), id, false) <==>
      Run(s, steps).disk.Some? && id !in Run(s, steps).disk.value.approved;
  }
}
