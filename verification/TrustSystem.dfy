/** Several processes and threads sharing one trust file. Every operation of the store is cut
    where other threads or processes can come between: the file is read outside the mutex, the
    copy is installed under it, the request is executed under it, and the file is written
    while it is still held. Nothing makes the whole of it atomic, so an operation may work on
    a stale copy and may overwrite what another one saved. */
module TrustSystem {
  import opened Wire
  import opened Trust

  /** The threads that use the store: the server's, and those of administrators' commands. */
  datatype Who = UdpLoop | Handler(conn: nat) | Admin(n: nat)

  datatype Stage =
    | Loading
    | Loaded(file: Option<TrustData>)
    | Ready
    | Saving(data: TrustData)

  datatype Op = Op(pid: nat, request: Request, stage: Stage)

  /** Ghost record of what was done to any copy of the data. */
  datatype Deed = Requested(id: Str) | Granted(id: Str) | Withdrawn(id: Str)

  datatype State = State(disk: Option<TrustData>, memory: map<nat, TrustData>,
                         ops: map<Who, Op>, deeds: seq<Deed>)

  datatype Step =
    | Start(pid: nat, readable: bool)                   // a process loads the file, if it can be read
    | Begin(who: Who, pid: nat, request: Request)
    | ReadFile(who: Who, readable: bool)
    | Install(who: Who)
    | Execute(who: Who, choice: Str)
    | Save(who: Who, writable: bool)
    | Kill(who: Who)

  ghost predicate Locked(s: State, pid: nat) {
    exists who | who in s.ops :: s.ops[who].pid == pid && s.ops[who].stage.Saving?
  }

  ghost predicate Enabled(s: State, a: Step) {
    match a
    case Start(pid, _) => pid !in s.memory
    case Begin(who, pid, _) => who !in s.ops && pid in s.memory
    case ReadFile(who, _) => who in s.ops && s.ops[who].stage.Loading?
    case Install(who) => who in s.ops && s.ops[who].stage.Loaded? && !Locked(s, s.ops[who].pid)
    case Execute(who, choice) =>
      && who in s.ops && s.ops[who].stage.Ready? && s.ops[who].pid in s.memory
      && !Locked(s, s.ops[who].pid)
      && Settled(s.memory[s.ops[who].pid], s.ops[who].request, choice)
    case Save(who, _) => who in s.ops && s.ops[who].stage.Saving?
    case Kill(who) => who in s.ops
  }

  /** The server's own threads begin an operation, and get the answer of `is_approved`, together
      with something else they do; all other steps are the store's alone. */
  predicate StoreOnly(s: State, a: Step) {
    && (a.Begin? || a.Kill? ==> a.who.Admin?)
    && (a.Execute? && a.who in s.ops ==> !s.ops[a.who].request.IsApproved?)
  }

  /** The lookup finds an id when there is one. */
  predicate Settled(d: TrustData, request: Request, choice: Str) {
    match request
    case Approve(target, _) => Matches(d.pending.Keys, target) ==> Resolves(d.pending.Keys, target, choice)
    case Revoke(target) => Matches(d.approved.Keys, target) ==> Resolves(d.approved.Keys, target, choice)
    case _ => true
  }

  function DeedOf(request: Request, choice: Str): Deed
    requires !request.IsApproved?
  {
    match request
    case Register(info) => Requested(info.clientId)
    case Approve(_, _) => Granted(choice)
    case Revoke(_) => Withdrawn(choice)
  }

  function Advance(s: State, who: Who, stage: Stage): State
    requires who in s.ops
  {
    s.(ops := s.ops[who := s.ops[who].(stage := stage)])
  }

  function Finish(s: State, who: Who): State {
    s.(ops := s.ops - {who})
  }

  function ExecuteUnderLock(s: State, who: Who, choice: Str): State
    requires who in s.ops && s.ops[who].pid in s.memory
  {
    var op := s.ops[who];
    var d := s.memory[op.pid];
    if !Changes(d, op.request, choice) then Finish(s, who)
    else
      var d' := Apply(d, op.request, choice);
      Advance(s, who, Saving(d')).(memory := s.memory[op.pid := d'],
                                   deeds := s.deeds + [DeedOf(op.request, choice)])
  }

  /** One step; a step that is not possible changes nothing. */
  ghost function Next(s: State, a: Step): State {
    if !Enabled(s, a) then s
    else
      match a
      case Start(pid, readable) => s.(memory := s.memory[pid := Reloaded(ReadFrom(s.disk, readable), EMPTY)])
      case Begin(who, pid, request) => s.(ops := s.ops[who := Op(pid, request, Loading)])
      case ReadFile(who, readable) => Advance(s, who, Loaded(if readable then s.disk else None))
      case Install(who) =>
        var op := s.ops[who];
        if op.stage.file.None? then Advance(s, who, Ready)
        else Advance(s, who, Ready).(memory := s.memory[op.pid := op.stage.file.value])
      case Execute(who, choice) => ExecuteUnderLock(s, who, choice)
      case Save(who, writable) =>
        Finish(if writable then s.(disk := Some(s.ops[who].stage.data)) else s, who)
      case Kill(who) => Finish(s, who)
  }

  ghost function Run(s: State, steps: seq<Step>): State {
    if |steps| == 0 then s
    else Next(Run(s, steps[..|steps| - 1]), steps[|steps| - 1])
  }

  function Init(disk: Option<TrustData>): State {
    State(disk, map[], map[], [])
  }

  // ---- Every copy of the data --------------------------------------------------------

  /** On disk, in a process's memory, read but not yet installed, or about to be written. */
  ghost predicate IsCopy(s: State, d: TrustData) {
    || s.disk == Some(d)
    || (exists pid | pid in s.memory :: s.memory[pid] == d)
    || (exists who | who in s.ops :: s.ops[who].stage == Loaded(Some(d)) || s.ops[who].stage == Saving(d))
  }

  /** The only new copy a step can make is the empty one of a process that read no file, or
      the result of one request on a copy that was there. */
  lemma NewCopies(s: State, a: Step, d: TrustData)
    requires IsCopy(Next(s, a), d)
    ensures || IsCopy(s, d)
            || d == EMPTY
            || (&& Enabled(s, a) && a.Execute?
                && var op := s.ops[a.who];
                   && IsCopy(s, s.memory[op.pid])
                   && Changes(s.memory[op.pid], op.request, a.choice)
                   && d == Apply(s.memory[op.pid], op.request, a.choice)
                   && Next(s, a).deeds == s.deeds + [DeedOf(op.request, a.choice)])
  {
    hide Next, IsCopy, Changes, Apply, DeedOf;
    if Enabled(s, a) && a.Execute? { ExecuteCopies(s, a.who, a.choice, d); } else { OtherCopies(s, a, d); }
  }

  lemma OtherCopies(s: State, a: Step, d: TrustData)
    requires IsCopy(Next(s, a), d) && !(Enabled(s, a) && a.Execute?)
    ensures IsCopy(s, d) || d == EMPTY
  {
    hide Settled, Locked, Changes, Apply, DeedOf;
    var s' := Next(s, a);
    if pid :| pid in s'.memory && s'.memory[pid] == d {
      assert (pid in s.memory && s.memory[pid] == d) || s.disk == Some(d) || d == EMPTY
             || (a.Install? && s.ops[a.who].stage == Loaded(Some(d)));
    } else if who :| who in s'.ops && (s'.ops[who].stage == Loaded(Some(d)) || s'.ops[who].stage == Saving(d)) {
      assert s'.ops[who] == s.ops[who] || s.disk == Some(d);
    } else {
      assert s'.disk == Some(d);
    }
  }

  lemma ExecuteCopies(s: State, who: Who, choice: Str, d: TrustData)
    requires Enabled(s, Execute(who, choice)) && IsCopy(Next(s, Execute(who, choice)), d)
    ensures var op := s.ops[who];
            && IsCopy(s, s.memory[op.pid])
            && (IsCopy(s, d)
                || (&& Changes(s.memory[op.pid], op.request, choice)
                    && d == Apply(s.memory[op.pid], op.request, choice)
                    && Next(s, Execute(who, choice)).deeds == s.deeds + [DeedOf(op.request, choice)]))
  {
    hide Settled, Locked, Changes, Apply, DeedOf;
    var s' := Next(s, Execute(who, choice));
    var op := s.ops[who];
    if pid :| pid in s'.memory && s'.memory[pid] == d {
      assert pid != op.pid ==> s.memory[pid] == d;
    } else if w :| w in s'.ops && (s'.ops[w].stage == Loaded(Some(d)) || s'.ops[w].stage == Saving(d)) {
      assert w != who ==> s.ops[w] == s'.ops[w];
    }
  }

  // ---- The mutex ---------------------------------------------------------------------

  /** Whoever writes the file writes what is in the memory of its process, and nobody else of that
      process writes at the same time. */
  ghost predicate SavesAlone(s: State) {
    && (forall who | who in s.ops && s.ops[who].stage.Saving? ::
          s.ops[who].pid in s.memory && s.memory[s.ops[who].pid] == s.ops[who].stage.data)
    && (forall a, b | a in s.ops && b in s.ops && s.ops[a].stage.Saving? && s.ops[b].stage.Saving? && s.ops[a].pid == s.ops[b].pid ::
          a == b)
  }

  lemma NextSavesAlone(s: State, a: Step)
    requires SavesAlone(s)
    ensures SavesAlone(Next(s, a))
  {
    hide Settled, Changes, Apply, DeedOf;
    var s' := Next(s, a);
    forall who | who in s'.ops && s'.ops[who].stage.Saving?
      ensures s'.ops[who].pid in s'.memory && s'.memory[s'.ops[who].pid] == s'.ops[who].stage.data
    {
      assert who in s.ops && s.ops[who].stage.Saving? ==> Locked(s, s.ops[who].pid);
    }
    forall x, y | x in s'.ops && y in s'.ops && s'.ops[x].stage.Saving? && s'.ops[y].stage.Saving? && s'.ops[x].pid == s'.ops[y].pid
      ensures x == y
    {
      assert x in s.ops && s.ops[x].stage.Saving? ==> Locked(s, s.ops[x].pid);
      assert y in s.ops && s.ops[y].stage.Saving? ==> Locked(s, s.ops[y].pid);
    }
  }

  /** So it is in every run. */
  lemma {:induction false} RunSavesAlone(disk: Option<TrustData>, steps: seq<Step>)
    ensures SavesAlone(Run(Init(disk), steps))
  {
    hide Next, SavesAlone;
    if |steps| == 0 {
      NobodySavesAtFirst(disk);
    } else {
      RunSavesAlone(disk, steps[..|steps| - 1]);
      NextSavesAlone(Run(Init(disk), steps[..|steps| - 1]), steps[|steps| - 1]);
    }
  }

  lemma NobodySavesAtFirst(disk: Option<TrustData>)
    ensures SavesAlone(Init(disk))
  {
  }

  /** An operation that is broken off leaves the file, every memory and every other operation as
      they were - also when it has changed the data of its process and not written them - and frees
      the lock of its process if it held it. */
  lemma KilledIsGone(s: State, who: Who)
    requires who in s.ops && SavesAlone(s)
    ensures var s' := Next(s, Kill(who));
            && s'.disk == s.disk && s'.memory == s.memory && s'.deeds == s.deeds
            && s'.ops.Keys == s.ops.Keys - {who} && (forall other | other in s'.ops :: s'.ops[other] == s.ops[other])
            && (s.ops[who].stage.Saving? ==> forall other | other in s'.ops && s'.ops[other].pid == s.ops[who].pid :: !s'.ops[other].stage.Saving?)
  {
    hide Locked, Settled, Changes, Apply, ValidUtf8;
  }

  /** An approve, or a revoke, that comes to be executed on data in which some client matches its
      target is done to one that does, and goes on to be saved. */
  lemma ExecuteActs(s: State, who: Who, choice: Str)
    requires Enabled(s, Execute(who, choice))
    ensures var op, d, s' := s.ops[who], s.memory[s.ops[who].pid], Next(s, Execute(who, choice));
            && (op.request.Approve? && (exists id | id in d.pending :: op.request.target <= id) ==>
                  && choice in d.pending && op.request.target <= choice
                  && s'.deeds == s.deeds + [Granted(choice)] && s'.ops[who].stage.Saving?
                  && choice in s'.memory[op.pid].approved && choice !in s'.memory[op.pid].pending)
            && (op.request.Revoke? && (exists id | id in d.approved :: op.request.target <= id) ==>
                  && choice in d.approved && op.request.target <= choice
                  && s'.deeds == s.deeds + [Withdrawn(choice)] && s'.ops[who].stage.Saving?
                  && choice !in s'.memory[op.pid].approved)
  {
    hide Locked, ValidUtf8;
  }

  // ---- Provenance --------------------------------------------------------------------

  ghost predicate Traced(init: TrustData, deeds: seq<Deed>, d: TrustData) {
    && (forall id | id in d.approved :: id in init.approved || Granted(id) in deeds)
    && (forall id | id in d.pending :: id in init.pending || Requested(id) in deeds)
  }

  /** Nobody was ever granted access without having asked for it before. */
  ghost predicate GrantsWereRequested(init: TrustData, deeds: seq<Deed>) {
    forall i, id | 0 <= i < |deeds| && deeds[i] == Granted(id) :: id in init.pending || Requested(id) in deeds[..i]
  }

  ghost predicate Inv(init: TrustData, s: State) {
    && (forall d | IsCopy(s, d) :: WellFormed(d) && Traced(init, s.deeds, d))
    && GrantsWereRequested(init, s.deeds)
  }

  lemma NextGrowsDeeds(s: State, a: Step)
    ensures s.deeds <= Next(s, a).deeds && |Next(s, a).deeds| <= |s.deeds| + 1
    ensures |Next(s, a).deeds| > |s.deeds| ==>
              && Enabled(s, a) && a.Execute?
              && var op := s.ops[a.who];
                 && IsCopy(s, s.memory[op.pid]) && Changes(s.memory[op.pid], op.request, a.choice)
                 && Next(s, a).deeds == s.deeds + [DeedOf(op.request, a.choice)]
  {
    hide Settled, Locked, Changes, Apply, DeedOf;
  }

  lemma NextKeepsCopies(init: TrustData, s: State, a: Step, d: TrustData)
    requires Inv(init, s) && IsCopy(Next(s, a), d)
    ensures WellFormed(d) && Traced(init, Next(s, a).deeds, d)
  {
    hide Next, IsCopy, ValidUtf8;
    NewCopies(s, a, d);
    NextGrowsDeeds(s, a);
    var s' := Next(s, a);
    if !IsCopy(s, d) && d != EMPTY {
      var op := s.ops[a.who];
      ApplyKeepsWellFormed(s.memory[op.pid], op.request, a.choice);
      assert DeedOf(op.request, a.choice) in s'.deeds;
      assert Traced(init, s.deeds, s.memory[op.pid]);
    }
  }

  lemma NextKeepsRequests(init: TrustData, s: State, a: Step)
    requires Inv(init, s)
    ensures GrantsWereRequested(init, Next(s, a).deeds)
  {
    hide Next, IsCopy, WellFormed, ValidUtf8;
    NextGrowsDeeds(s, a);
    var s' := Next(s, a);
    forall i, id | 0 <= i < |s'.deeds| && s'.deeds[i] == Granted(id)
      ensures id in init.pending || Requested(id) in s'.deeds[..i]
    {
      if i < |s.deeds| {
        assert s'.deeds[..i] == s.deeds[..i];
      } else {
        var op := s.ops[a.who];
        assert Traced(init, s.deeds, s.memory[op.pid]);
        assert s'.deeds[..i] == s.deeds;
      }
    }
  }

  lemma NextKeepsInv(init: TrustData, s: State, a: Step)
    requires Inv(init, s)
    ensures Inv(init, Next(s, a))
    ensures s.deeds <= Next(s, a).deeds
  {
    hide Next, IsCopy, WellFormed, Traced, GrantsWereRequested;
    NextGrowsDeeds(s, a);
    forall d | IsCopy(Next(s, a), d) ensures WellFormed(d) && Traced(init, Next(s, a).deeds, d) {
      NextKeepsCopies(init, s, a, d);
    }
    NextKeepsRequests(init, s, a);
  }

  lemma InitInv(disk: Option<TrustData>)
    requires WellFormed(Reloaded(disk, EMPTY))
    ensures Inv(Reloaded(disk, EMPTY), Init(disk))
  {
  }

  lemma {:induction false} RunKeepsInv(init: TrustData, s: State, steps: seq<Step>)
    requires Inv(init, s)
    ensures Inv(init, Run(s, steps))
  {
    if |steps| > 0 {
      RunKeepsInv(init, s, steps[..|steps| - 1]);
      NextKeepsInv(init, Run(s, steps[..|steps| - 1]), steps[|steps| - 1]);
    }
  }

  /** In every interleaving of any number of processes, started from a well-formed file: in
      every copy of the store the approved and pending clients stay apart and every record is
      filed under its own id; whoever is approved in any copy was approved in the file at the
      start or was granted access by an earlier approve; and whoever was granted access had
      been pending in the file at the start or had asked before. */
  lemma ApprovalsComeFromApprovals(disk: Option<TrustData>, steps: seq<Step>, d: TrustData, id: Str)
    requires WellFormed(Reloaded(disk, EMPTY))
    requires IsCopy(Run(Init(disk), steps), d)
    ensures WellFormed(d)
    ensures var init, deeds := Reloaded(disk, EMPTY), Run(Init(disk), steps).deeds;
            id in d.approved ==>
              || id in init.approved
              || exists i | 0 <= i < |deeds| :: deeds[i] == Granted(id) && (id in init.pending || Requested(id) in deeds[..i])
  {
    hide Run;
    var init, s := Reloaded(disk, EMPTY), Run(Init(disk), steps);
    InitInv(disk);
    RunKeepsInv(init, Init(disk), steps);
    if id in d.approved && id !in init.approved {
      assert Granted(id) in s.deeds;
      var i :| 0 <= i < |s.deeds| && s.deeds[i] == Granted(id);
      assert id in init.pending || Requested(id) in s.deeds[..i];
    }
  }

  // ---- One operation at a time -------------------------------------------------------

  /** Nobody is in the middle of anything; without a file, nobody knows any client. */
  ghost predicate Quiet(s: State) {
    && s.ops == map[]
    && (s.disk.None? ==> forall pid | pid in s.memory :: s.memory[pid] == EMPTY)
  }

  /** What the next operation of any process will work on. */
  function Effective(s: State): TrustData {
    Reloaded(s.disk, EMPTY)
  }

  datatype Call = Call(who: Who, pid: nat, request: Request, choice: Str)

  /** The steps of one undisturbed operation whose file accesses succeed. */
  function StepsOf(c: Call): seq<Step> {
    [Begin(c.who, c.pid, c.request), ReadFile(c.who, true), Install(c.who),
     Execute(c.who, c.choice), Save(c.who, true)]
  }

  lemma RunFive(s: State, a: Step, b: Step, c: Step, d: Step, e: Step)
    ensures Run(s, [a, b, c, d, e]) == Next(Next(Next(Next(Next(s, a), b), c), d), e)
  {
    assert [a, b, c, d, e][..4] == [a, b, c, d];
    assert [a, b, c, d][..3] == [a, b, c];
    assert [a, b, c][..2] == [a, b];
    assert [a, b][..1] == [a] && [a][..0] == [];
    assert Run(s, [a]) == Next(s, a);
    assert Run(s, [a, b]) == Next(Next(s, a), b);
    assert Run(s, [a, b, c]) == Next(Run(s, [a, b]), c);
    assert Run(s, [a, b, c, d]) == Next(Run(s, [a, b, c]), d);
  }

  ghost predicate NobodySaves(s: State) {
    forall who | who in s.ops :: !s.ops[who].stage.Saving?
  }

  /** The state after one undisturbed operation on these data, with others waiting around it. */
  function Executed(s: State, c: Call, d: TrustData, writable: bool): State {
    if !Changes(d, c.request, c.choice) then s.(memory := s.memory[c.pid := d])
    else
      var d' := Apply(d, c.request, c.choice);
      State(if writable then Some(d') else s.disk, s.memory[c.pid := d'], s.ops, s.deeds + [DeedOf(c.request, c.choice)])
  }

  function AfterCall(s: State, c: Call): State
    requires c.pid in s.memory
  {
    Executed(s, c, Reloaded(s.disk, s.memory[c.pid]), true)
  }

  /** The first three steps bring what can be read of the file into the memory of the process. */
  lemma UndisturbedReload(s: State, c: Call, readable: bool)
    requires c.who !in s.ops && c.pid in s.memory && NobodySaves(s)
    ensures Next(Next(Next(s, Begin(c.who, c.pid, c.request)), ReadFile(c.who, readable)), Install(c.who))
            == s.(memory := s.memory[c.pid := Reloaded(ReadFrom(s.disk, readable), s.memory[c.pid])],
                  ops := s.ops[c.who := Op(c.pid, c.request, Ready)])
  {
    var s1 := Next(s, Begin(c.who, c.pid, c.request));
    var s2 := Next(s1, ReadFile(c.who, readable));
    assert s2 == s.(ops := s.ops[c.who := Op(c.pid, c.request, Loaded(ReadFrom(s.disk, readable)))]);
    assert !Locked(s2, c.pid);
  }

  /** The last two execute the request and write the result. */
  lemma UndisturbedExecution(s: State, c: Call, d: TrustData, writable: bool)
    requires c.who !in s.ops && c.pid in s.memory && NobodySaves(s)
    requires Settled(d, c.request, c.choice)
    ensures var s3 := s.(memory := s.memory[c.pid := d], ops := s.ops[c.who := Op(c.pid, c.request, Ready)]);
            Next(Next(s3, Execute(c.who, c.choice)), Save(c.who, writable)) == Executed(s, c, d, writable)
  {
    var s3 := s.(memory := s.memory[c.pid := d], ops := s.ops[c.who := Op(c.pid, c.request, Ready)]);
    assert !Locked(s3, c.pid);
    var s4 := Next(s3, Execute(c.who, c.choice));
    assert s3.ops - {c.who} == s.ops;
    if Changes(d, c.request, c.choice) {
      var d' := Apply(d, c.request, c.choice);
      assert s4.ops == s.ops[c.who := Op(c.pid, c.request, Saving(d'))];
      assert s4.ops - {c.who} == s.ops;
      assert s4.memory == s.memory[c.pid := d'];
    } else {
      assert s4.ops == s.ops;
    }
  }

  lemma UndisturbedSteps(s: State, c: Call)
    requires c.who !in s.ops && c.pid in s.memory && NobodySaves(s)
    requires Settled(Reloaded(s.disk, s.memory[c.pid]), c.request, c.choice)
    ensures Run(s, StepsOf(c)) == AfterCall(s, c)
  {
    hide Next;
    RunFive(s, Begin(c.who, c.pid, c.request), ReadFile(c.who, true), Install(c.who),
            Execute(c.who, c.choice), Save(c.who, true));
    UndisturbedReload(s, c, true);
    UndisturbedExecution(s, c, Reloaded(s.disk, s.memory[c.pid]), true);
  }

  /** Undisturbed, an operation does to the file exactly what its request does to the data,
      whatever stale copy its process held before. */
  lemma UndisturbedCall(s: State, c: Call)
    requires Quiet(s) && c.pid in s.memory && Settled(Effective(s), c.request, c.choice)
    ensures var s' := Run(s, StepsOf(c));
            && Quiet(s') && s'.memory.Keys == s.memory.Keys
            && Effective(s') == Apply(Effective(s), c.request, c.choice)
  {
    UndisturbedSteps(s, c);
  }

  // ---- The meaning of a serial run ---------------------------------------------------

  datatype Ask = Ask(request: Request, choice: Str)

  function Serially(d: TrustData, asks: seq<Ask>): TrustData {
    if |asks| == 0 then d
    else
      var n := |asks| - 1;
      Apply(Serially(d, asks[..n]), asks[n].request, asks[n].choice)
  }

  /** The last successful approve (true) or revoke (false) that resolved to `id`, if any. */
  function LastVerdict(d: TrustData, asks: seq<Ask>, id: Str): Option<bool> {
    if |asks| == 0 then None
    else
      var n := |asks| - 1;
      var a := asks[n];
      if a.choice == id && (a.request.Approve? || a.request.Revoke?) && Changes(Serially(d, asks[..n]), a.request, id)
      then Some(a.request.Approve?)
      else LastVerdict(d, asks[..n], id)
  }

  /** After any serial run a client is approved exactly when the last successful approve or
      revoke that resolved to it was an approve, or none did and it was approved at the start. */
  lemma {:induction false} ApprovedIffLastVerdict(d: TrustData, asks: seq<Ask>, id: Str)
    ensures id in Serially(d, asks).approved <==>
            (match LastVerdict(d, asks, id) case Some(approved) => approved case None => id in d.approved)
  {
    if |asks| > 0 {
      ApprovedIffLastVerdict(d, asks[..|asks| - 1], id);
    }
  }

  /** The request settles on this client: by its id, or, when no id is the target, by a prefix. */
  predicate SettlesOn(ids: set<Str>, target: Str, choice: Str, id: Str) {
    choice == id && id in ids && if target in ids then id == target else target <= id
  }

  /** What the last request that touched the client's place among the pending ones left there: the
      record of a registration, or nothing, after an approve. */
  function LastAsking(d: TrustData, asks: seq<Ask>, id: Str): Option<Option<PendingInfo>> {
    if |asks| == 0 then None
    else
      var n := |asks| - 1;
      var before := Serially(d, asks[..n]);
      match asks[n].request
      case Register(info) =>
        if info.clientId == id && id !in before.approved then Some(Some(info)) else LastAsking(d, asks[..n], id)
      case Approve(target, _) =>
        if SettlesOn(before.pending.Keys, target, asks[n].choice, id) then Some(None) else LastAsking(d, asks[..n], id)
      case _ => LastAsking(d, asks[..n], id)
  }

  /** After any serial run a client is pending, with exactly this record, when a registration was
      the last request to touch its place; it is not after an approve of it; and when none touched
      its place it is as it was at the start. Nobody else's request makes a difference. */
  lemma {:induction false} PendingIsLastAsking(d: TrustData, asks: seq<Ask>, id: Str)
    ensures var e := Serially(d, asks);
            match LastAsking(d, asks, id)
            case None => (id in e.pending <==> id in d.pending) && (id in d.pending ==> e.pending[id] == d.pending[id])
            case Some(None) => id !in e.pending
            case Some(Some(info)) => id in e.pending && e.pending[id] == info
  {
    hide ValidUtf8;
    if |asks| > 0 {
      PendingIsLastAsking(d, asks[..|asks| - 1], id);
    }
  }

  /** What the last successful approve or revoke of the client left among the approved ones: a
      record made of the pending one, or nothing. */
  function LastGrant(d: TrustData, asks: seq<Ask>, id: Str): Option<Option<ApprovedInfo>> {
    if |asks| == 0 then None
    else
      var n := |asks| - 1;
      var before := Serially(d, asks[..n]);
      match asks[n].request
      case Approve(target, at) =>
        if SettlesOn(before.pending.Keys, target, asks[n].choice, id) then
          var p := before.pending[id];
          Some(Some(ApprovedInfo(p.clientId, p.hostname, p.deviceName, at)))
        else LastGrant(d, asks[..n], id)
      case Revoke(target) =>
        if SettlesOn(before.approved.Keys, target, asks[n].choice, id) then Some(None) else LastGrant(d, asks[..n], id)
      case _ => LastGrant(d, asks[..n], id)
  }

  lemma {:induction false} ApprovedIsLastGrant(d: TrustData, asks: seq<Ask>, id: Str)
    ensures var e := Serially(d, asks);
            match LastGrant(d, asks, id)
            case None => (id in e.approved <==> id in d.approved) && (id in d.approved ==> e.approved[id] == d.approved[id])
            case Some(None) => id !in e.approved
            case Some(Some(info)) => id in e.approved && e.approved[id] == info
  {
    hide ValidUtf8;
    if |asks| > 0 {
      ApprovedIsLastGrant(d, asks[..|asks| - 1], id);
    }
  }

  function AllSteps(calls: seq<Call>): seq<Step> {
    if |calls| == 0 then [] else AllSteps(calls[..|calls| - 1]) + StepsOf(calls[|calls| - 1])
  }

  function AsksOf(calls: seq<Call>): seq<Ask> {
    if |calls| == 0 then []
    else AsksOf(calls[..|calls| - 1]) + [Ask(calls[|calls| - 1].request, calls[|calls| - 1].choice)]
  }

  ghost predicate AllSettled(s: State, calls: seq<Call>) {
    forall i | 0 <= i < |calls| ::
      && calls[i].pid in s.memory
      && Settled(Serially(Effective(s), AsksOf(calls[..i])), calls[i].request, calls[i].choice)
  }

  lemma {:induction false} RunOfConcat(s: State, a: seq<Step>, b: seq<Step>)
    ensures Run(s, a + b) == Run(Run(s, a), b)
  {
    if |b| == 0 {
      assert a + b == a;
    } else {
      assert (a + b)[..|a + b| - 1] == a + b[..|b| - 1];
      RunOfConcat(s, a, b[..|b| - 1]);
    }
  }

  /** Calls made one after another by any processes leave in the file what the requests do to
      the data one after another: with undisturbed calls and working file accesses nothing is
      lost, although every process keeps its own copy. */
  lemma {:induction false} SerialCallsAreSerial(s: State, calls: seq<Call>)
    requires Quiet(s) && AllSettled(s, calls)
    ensures var s' := Run(s, AllSteps(calls));
            && Quiet(s') && s'.memory.Keys == s.memory.Keys
            && Effective(s') == Serially(Effective(s), AsksOf(calls))
  {
    if |calls| > 0 {
      var n := |calls| - 1;
      var before := calls[..n];
      assert AllSettled(s, before) by {
        forall i | 0 <= i < n ensures before[..i] == calls[..i] {}
      }
      SerialCallsAreSerial(s, before);
      RunOfConcat(s, AllSteps(before), StepsOf(calls[n]));
      UndisturbedCall(Run(s, AllSteps(before)), calls[n]);
      var asks := AsksOf(calls);
      assert asks[..|asks| - 1] == AsksOf(before);
    }
  }

  /** A server and a command process have loaded a file where only Alice is pending; the
      server's UDP loop is about to register Bob. */
  function Racing(d: TrustData, bob: PendingInfo): State {
    State(Some(d), map[0 := d, 1 := d], map[UdpLoop := Op(0, Register(bob), Ready)], [])
  }

  function RaceStart(bob: PendingInfo): seq<Step> {
    [Start(0, true), Start(1, true)] + [Begin(UdpLoop, 0, Register(bob)), ReadFile(UdpLoop, true), Install(UdpLoop)]
  }

  lemma RaceStarts(d: TrustData, bob: PendingInfo)
    ensures Run(Init(Some(d)), RaceStart(bob)) == Racing(d, bob)
  {
    var s := Init(Some(d));
    RunOfConcat(s, [Start(0, true), Start(1, true)], RaceStart(bob)[2..]);
    RunTwo(s, Start(0, true), Start(1, true));
    var s1 := Run(s, [Start(0, true), Start(1, true)]);
    assert s1 == State(Some(d), map[0 := d, 1 := d], map[], []);
    RunThree(s1, Begin(UdpLoop, 0, Register(bob)), ReadFile(UdpLoop, true), Install(UdpLoop));
    UndisturbedReload(s1, Call(UdpLoop, 0, Register(bob), bob.clientId), true);
  }

  /** Two saves can race: an approve that succeeded is undone by a registration that was
      working on an older copy. This is why the meaning above is claimed for serial runs. */
  lemma ApproveCanBeLost(alice: PendingInfo, bob: PendingInfo, at: Str)
    ensures var d := TrustData(map[], map[alice.clientId := alice]);
            var steps := RaceStart(bob)
                         + StepsOf(Call(Admin(0), 1, Approve(alice.clientId, at), alice.clientId))
                         + [Execute(UdpLoop, bob.clientId), Save(UdpLoop, true)];
            var s' := Run(Init(Some(d)), steps);
            && Granted(alice.clientId) in s'.deeds
            && s'.disk.Some? && alice.clientId !in s'.disk.value.approved
  {
    hide Next;
    var d := TrustData(map[], map[alice.clientId := alice]);
    var call := Call(Admin(0), 1, Approve(alice.clientId, at), alice.clientId);
    var last := [Execute(UdpLoop, bob.clientId), Save(UdpLoop, true)];
    RunOfConcat(Init(Some(d)), RaceStart(bob) + StepsOf(call), last);
    RunOfConcat(Init(Some(d)), RaceStart(bob), StepsOf(call));
    RaceStarts(d, bob);
    UndisturbedSteps(Racing(d, bob), call);
    var s := AfterCall(Racing(d, bob), call);
    RunTwo(s, last[0], last[1]);
    StaleRegistration(s, bob);
    assert Granted(alice.clientId) in s.deeds;
  }

  /** A registration about to execute on a copy without approvals wipes them from the file. */
  lemma StaleRegistration(s: State, bob: PendingInfo)
    requires UdpLoop in s.ops && s.ops == map[UdpLoop := Op(0, Register(bob), Ready)]
    requires 0 in s.memory && s.memory[0].approved == map[]
    ensures var s' := Next(Next(s, Execute(UdpLoop, bob.clientId)), Save(UdpLoop, true));
            s'.disk.Some? && s'.disk.value.approved == map[] && s.deeds <= s'.deeds
  {
    var s3 := Next(s, Execute(UdpLoop, bob.clientId));
    assert s3.ops[UdpLoop] == Op(0, Register(bob), Saving(WithPending(s.memory[0], bob)));
  }

  lemma RunTwo(s: State, a: Step, b: Step)
    ensures Run(s, [a, b]) == Next(Next(s, a), b)
  {
    assert [a, b][..1] == [a] && [a][..0] == [];
    assert Run(s, [a]) == Next(s, a);
  }

  lemma RunThree(s: State, a: Step, b: Step, c: Step)
    ensures Run(s, [a, b, c]) == Next(Next(Next(s, a), b), c)
  {
    assert [a, b, c][..2] == [a, b];
    RunTwo(s, a, b);
  }
}
