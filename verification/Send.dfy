/** The send loop of Linux (patches/noq-udp/src/unix.rs, `send`), over the results that the
    system call gives; one sender at a time. */
module Send {
  import opened Wire
  import opened Layout
  import opened Cmsg
  import opened Transmits

  /** What one `sendmsg` gives. */
  datatype SysResult = Sent | Interrupted | WouldBlock | Eio | Einval | MsgSize | OtherError

  /** What a send gives; `Pending` stands for a loop that still waits for results. */
  datatype Outcome = Ok | Err(error: SysResult) | Pending

  /** One `sendmsg`: the datagram, whether its message was prepared without `IP_TOS`, the
      control buffer passed, and the result. */
  datatype Attempt = Attempt(transmit: Transmit, fallback: bool, control: Bytes, controlLen: nat, result: SysResult)

  /** The control buffer holds what the datagram asks for in the mode it was prepared in. */
  ghost predicate Carries(w: Word, a: Attempt) {
    Prepared(w, a.transmit, a.fallback, a.control, a.controlLen)
  }

  ghost predicate Prepared(w: Word, t: Transmit, fallback: bool, control: Bytes, controlLen: nat) {
    controlLen == Total(w, LinuxRecords(t, fallback)) && Holds(w, control, LinuxRecords(t, fallback))
  }

  /** The kernel has refused an argument. */
  predicate Refused(log: seq<Attempt>) {
    exists k | 0 <= k < |log| :: log[k].result == Einval
  }

  /** The kernel has failed in a way that segmentation offload can cause. */
  predicate Halted(log: seq<Attempt>) {
    exists k | 0 <= k < |log| :: log[k].result == Einval || log[k].result == Eio
  }

  /** What may follow at once: an interrupted call, and the first refusal. */
  predicate Retries(a: Attempt) {
    a.result == Interrupted || (a.result == Einval && !a.fallback)
  }

  /** Every message of the socket's life was prepared in the fallback mode exactly when the
      kernel had refused an argument before, and carries the records of that mode. */
  ghost predicate WellPrepared(w: Word, log: seq<Attempt>) {
    forall k | 0 <= k < |log| :: (log[k].fallback <==> Refused(log[..k])) && Carries(w, log[k])
  }

  /** What a send did: it appended attempts for its datagram, taking the results in order, each
      but the last going on to the next, and it ended as the last one did. */
  ghost predicate Tried(before: seq<Attempt>, log: seq<Attempt>, t: Transmit, results: seq<SysResult>, outcome: Outcome) {
    && |before| <= |log| <= |before| + |results| && before <= log
    && (forall k | |before| <= k < |log| :: log[k].transmit == t && log[k].result == results[k - |before|])
    && (forall k | |before| <= k < |log| - 1 :: Retries(log[k]))
    && match outcome
       case Pending => |log| == |before| + |results| && (|results| > 0 ==> Retries(log[|log| - 1]))
       case Ok => |log| > |before| && log[|log| - 1].result == Sent
       case Err(e) => |log| > |before| && log[|log| - 1].result == e != Sent && !Retries(log[|log| - 1])
  }

  /** The public `send` reports no error but `WouldBlock`. */
  function Reported(outcome: Outcome): Outcome {
    if outcome.Err? && outcome.error != WouldBlock then Ok else outcome
  }

  /** The flag and the segmentation maximum after the attempts so far. */
  predicate EinvalAfter(log: seq<Attempt>) {
    Refused(log)
  }

  function MaxGsoAfter(initial: nat, log: seq<Attempt>): nat {
    if Halted(log) then 1 else initial
  }

  class UdpSocketState {
    const word: Word
    const initialGso: nat
    var maxGso: nat
    var sendmsgEinval: bool
    ghost var log: seq<Attempt>

    ghost predicate Valid()
      reads this
    {
      && maxGso >= 1 && initialGso >= 1
      && sendmsgEinval == EinvalAfter(log)
      && maxGso == MaxGsoAfter(initialGso, log)
      && WellPrepared(word, log)
    }

    constructor (word: Word, maxGso: nat)
      requires maxGso >= 1
      ensures Valid() && this.word == word && initialGso == maxGso && log == []
    {
      this.word := word;
      initialGso := maxGso;
      this.maxGso := maxGso;
      sendmsgEinval := false;
      log := [];
    }

    /** Calls `sendmsg` until it neither was interrupted nor refused an argument for the first
        time in the life of the socket; a first refusal prepares the message again. */
    method TrySend(t: Transmit, results: seq<SysResult>) returns (outcome: Outcome)
      requires Valid()
      modifies this
      ensures Valid() && Tried(old(log), log, t, results, outcome)
      ensures outcome == Pending ==> Uninterrupted(results) <= if old(sendmsgEinval) then 0 else 1
    {
      hide Holds, Total, LinuxRecords, Refused, Halted, WellPrepared;
      var control := new byte[LINUX_BUFFER];
      var hdr := new MsgHdr(word, control);
      PrepareMsg(t, hdr, sendmsgEinval);
      ghost var fallback := sendmsgEinval;
      var i := 0;
      while i < |results|
        invariant 0 <= i <= |results| && Valid() && fallback == sendmsgEinval
        invariant hdr.control == control
        invariant Prepared(word, t, fallback, control[..], hdr.controlLen)
        invariant |log| == |old(log)| + i && old(log) <= log
        invariant forall k | |old(log)| <= k < |log| ::
                    log[k].transmit == t && log[k].result == results[k - |old(log)|] && Retries(log[k])
        modifies this, hdr, control
      {
        var result := results[i];
        ghost var a := Attempt(t, fallback, control[..], hdr.controlLen, result);
        Appended(word, log, a);
        log := log + [a];
        i := i + 1;
        if result == Sent {
          return Ok;
        }
        if result == WouldBlock {
          return Err(result);
        }
        if result != Interrupted {
          if result == Eio || result == Einval {
            if maxGso > 1 {
              maxGso := 1;
            }
          }
          if result == Einval && !sendmsgEinval {
            sendmsgEinval := true;
            PrepareMsg(t, hdr, true);
            fallback := true;
          } else {
            return Err(result);
          }
        }
      }
      Went(word, old(log), log, t, results);
      return Pending;
    }

    /** The public `send`. An interrupted attempt, and the first refused argument of the socket's
        life, are followed by another attempt; any other result ends the send. Of the errors only
        `WouldBlock` is reported. A refused argument raises the flag, and that or an input-output
        error ends segmentation. */
    method Send(t: Transmit, results: seq<SysResult>) returns (outcome: Outcome)
      requires Valid()
      modifies this
      ensures Valid() && exists inner :: Tried(old(log), log, t, results, inner) && outcome == Reported(inner)
      ensures forall k | |old(log)| <= k < |log| - 1 :: log[k].result == Interrupted || (log[k].result == Einval && !log[k].fallback)
      ensures outcome == Ok ==>
                |log| > |old(log)| && var last := log[|log| - 1];
                last.result != Interrupted && last.result != WouldBlock && (last.result == Einval ==> last.fallback)
      ensures outcome.Err? ==> outcome.error == WouldBlock && |log| > |old(log)| && log[|log| - 1].result == WouldBlock
      ensures outcome == Pending ==>
                |log| == |old(log)| + |results| && forall k | |old(log)| <= k < |log| ::
                  log[k].result == Interrupted || (log[k].result == Einval && !log[k].fallback)
      ensures sendmsgEinval <==> old(sendmsgEinval) || exists k | |old(log)| <= k < |log| :: log[k].result == Einval
      ensures maxGso == if exists k | |old(log)| <= k < |log| :: log[k].result == Einval || log[k].result == Eio
                        then 1 else old(maxGso)
    {
      hide WellPrepared, Refused, Halted;
      outcome := TrySend(t, results);
      ghost var inner := outcome;
      FlagsSince(old(log), log);
      if outcome.Err? && outcome.error != WouldBlock {
        outcome := Ok;
      }
      assert Tried(old(log), log, t, results, inner) && outcome == Reported(inner);
    }
  }

  /** The kernel has refused, or failed in a way that halts segmentation, before or since. */
  lemma FlagsSince(before: seq<Attempt>, log: seq<Attempt>)
    requires before <= log
    ensures Refused(log) <==> Refused(before) || exists k | |before| <= k < |log| :: log[k].result == Einval
    ensures Halted(log) <==> Halted(before) || exists k | |before| <= k < |log| :: log[k].result == Einval || log[k].result == Eio
  {
    forall k | 0 <= k < |before| ensures log[k] == before[k] {
    }
  }

  lemma Appended(w: Word, log: seq<Attempt>, a: Attempt)
    ensures Refused(log + [a]) <==> Refused(log) || a.result == Einval
    ensures Halted(log + [a]) <==> Halted(log) || a.result == Einval || a.result == Eio
    ensures WellPrepared(w, log) && (a.fallback <==> Refused(log)) && Carries(w, a) ==> WellPrepared(w, log + [a])
  {
    hide Prepared;
    var log' := log + [a];
    assert log'[|log|] == a;
    forall k | 0 <= k < |log| ensures log'[k] == log[k] && log'[..k] == log[..k] {
    }
    assert log'[..|log|] == log;
  }

  // ---- The whole life of a socket ----------------------------------------------------

  /** How often a message was prepared again: after each refusal outside the fallback. */
  function Repreparations(log: seq<Attempt>): nat {
    if |log| == 0 then 0
    else Repreparations(log[..|log| - 1]) + (if log[|log| - 1].result == Einval && !log[|log| - 1].fallback then 1 else 0)
  }

  lemma PrefixIsWellPrepared(w: Word, log: seq<Attempt>, n: nat)
    requires WellPrepared(w, log) && n <= |log|
    ensures WellPrepared(w, log[..n])
  {
    hide Carries, Refused;
    forall k | 0 <= k < n ensures log[..n][k] == log[k] && log[..n][..k] == log[..k] {
    }
  }

  /** In the life of a socket a message is prepared again once if the kernel ever refuses an
      argument, and never otherwise. */
  lemma {:induction false} OneRepreparation(w: Word, log: seq<Attempt>)
    requires WellPrepared(w, log)
    ensures Repreparations(log) == if Refused(log) then 1 else 0
    decreases |log|
  {
    hide Prepared;
    if |log| > 0 {
      var n := |log| - 1;
      PrefixIsWellPrepared(w, log, n);
      OneRepreparation(w, log[..n]);
      assert log == log[..n] + [log[n]];
      Appended(w, log[..n], log[n]);
    }
  }

  /** An IPv4 message carries `IP_TOS` until the first refusal and never after it; others never
      do. A refusal that comes back to the caller is of a message without it. */
  lemma TosUntilRefused(w: Word, log: seq<Attempt>, k: nat)
    requires WellPrepared(w, log) && k < |log|
    ensures Carries(w, log[k])
    ensures (exists r | r in LinuxRecords(log[k].transmit, log[k].fallback) :: IsTos(r))
      <==> IsV4(log[k].transmit.destination) && !Refused(log[..k])
    ensures log[k].result == Einval && !Retries(log[k])
      ==> forall r | r in LinuxRecords(log[k].transmit, log[k].fallback) :: !IsTos(r)
  {
    hide LinuxRecords, Prepared, IsTos;
    TosIff(log[k].transmit, log[k].fallback);
  }

  function Uninterrupted(results: seq<SysResult>): nat {
    if |results| == 0 then 0
    else Uninterrupted(results[..|results| - 1]) + (if results[|results| - 1] == Interrupted then 0 else 1)
  }

  function Results(log: seq<Attempt>): (rs: seq<SysResult>)
    ensures |rs| == |log|
  {
    seq(|log|, k requires 0 <= k < |log| => log[k].result)
  }

  /** Attempts that all led on to another include at most one that was not interrupted, namely
      the first refusal of the socket's life: with two results that are not interruptions a
      send ends, and with one if the kernel refused an argument before. */
  lemma {:induction false} AtMostOneGoesOn(w: Word, log: seq<Attempt>, from: nat)
    requires WellPrepared(w, log) && from <= |log| && forall k | from <= k < |log| :: Retries(log[k])
    ensures Uninterrupted(Results(log[from..])) == if Refused(log) && !Refused(log[..from]) then 1 else 0
    decreases |log| - from
  {
    hide Carries;
    if from < |log| {
      var n := |log| - 1;
      PrefixIsWellPrepared(w, log, n);
      AtMostOneGoesOn(w, log[..n], from);
      assert log[..n][from..] == log[from..][..n - from];
      assert Results(log[..n][from..]) == Results(log[from..])[..n - from];
      assert log[..n][..from] == log[..from];
      assert log == log[..n] + [log[n]];
      Appended(w, log[..n], log[n]);
      if Refused(log[..from]) {
        RefusedStays(log, from, n);
      }
    } else {
      assert log[..from] == log && log[from..] == [];
    }
  }

  lemma Went(w: Word, before: seq<Attempt>, log: seq<Attempt>, t: Transmit, results: seq<SysResult>)
    requires WellPrepared(w, log) && Tried(before, log, t, results, Pending)
    ensures Uninterrupted(results) <= if Refused(before) then 0 else 1
  {
    hide WellPrepared, Refused, Uninterrupted;
    assert log[..|before|] == before;
    forall k | |before| <= k < |log| ensures Retries(log[k]) {
    }
    AtMostOneGoesOn(w, log, |before|);
    assert Results(log[|before|..]) == results;
  }

  lemma RefusedStays(log: seq<Attempt>, i: nat, j: nat)
    requires i <= j <= |log| && Refused(log[..i])
    ensures Refused(log[..j])
  {
    var k :| 0 <= k < i && log[..i][k].result == Einval;
    assert log[..j][k].result == Einval;
  }

  // ---- A series of sends -------------------------------------------------------------

  datatype Sending = Sending(transmit: Transmit, results: seq<SysResult>, outcome: Outcome)

  /** The attempts before each send of a series, and after the last. */
  ghost predicate Series(w: Word, logs: seq<seq<Attempt>>, sends: seq<Sending>) {
    && |logs| == |sends| + 1 && WellPrepared(w, logs[|sends|])
    && forall k | 0 <= k < |sends| ::
         Tried(logs[k], logs[k + 1], sends[k].transmit, sends[k].results, sends[k].outcome)
  }

  lemma {:induction false} SeriesGrows(w: Word, logs: seq<seq<Attempt>>, sends: seq<Sending>, i: nat, j: nat)
    requires Series(w, logs, sends) && i <= j <= |sends|
    ensures logs[i] <= logs[j]
    decreases j - i
  {
    hide WellPrepared, Retries;
    if i < j {
      SeriesGrows(w, logs, sends, i, j - 1);
      assert Tried(logs[j - 1], logs[j], sends[j - 1].transmit, sends[j - 1].results, sends[j - 1].outcome);
    }
  }

  lemma PrefixFlags(before: seq<Attempt>, log: seq<Attempt>)
    requires before <= log
    ensures Refused(before) ==> Refused(log)
    ensures Halted(before) ==> Halted(log)
  {
    forall k | 0 <= k < |before| ensures before[k] == log[k] {
    }
  }

  lemma SeriesIsWellPrepared(w: Word, logs: seq<seq<Attempt>>, sends: seq<Sending>, i: nat)
    requires Series(w, logs, sends) && i <= |sends|
    ensures WellPrepared(w, logs[i])
  {
    hide WellPrepared, Tried;
    SeriesGrows(w, logs, sends, i, |sends|);
    PrefixIsWellPrepared(w, logs[|sends|], |logs[i]|);
    assert logs[|sends|][..|logs[i]|] == logs[i];
  }

  /** Over any series of sends: the flag only rises, the maximum only drops and is never zero, and
      between two points a message was prepared again once if the flag rose between them, and
      never otherwise. */
  lemma FlagsOverASeries(w: Word, initial: nat, logs: seq<seq<Attempt>>, sends: seq<Sending>, i: nat, j: nat)
    requires Series(w, logs, sends) && i <= j <= |sends| && initial >= 1
    ensures EinvalAfter(logs[i]) ==> EinvalAfter(logs[j])
    ensures 1 <= MaxGsoAfter(initial, logs[j]) <= MaxGsoAfter(initial, logs[i]) <= initial
    ensures Repreparations(logs[j])
            == Repreparations(logs[i]) + if EinvalAfter(logs[j]) && !EinvalAfter(logs[i]) then 1 else 0
  {
    hide WellPrepared, Tried, Refused, Halted, Repreparations;
    SeriesGrows(w, logs, sends, i, j);
    PrefixFlags(logs[i], logs[j]);
    SeriesIsWellPrepared(w, logs, sends, i);
    SeriesIsWellPrepared(w, logs, sends, j);
    OneRepreparation(w, logs[i]);
    OneRepreparation(w, logs[j]);
  }

  lemma UninterruptedOfMore(results: seq<SysResult>, r: SysResult)
    ensures Uninterrupted(results + [r]) == Uninterrupted(results) + if r == Interrupted then 0 else 1
  {
    assert (results + [r])[..|results|] == results;
  }

  /** A send makes one attempt that is not interrupted, and a second one only if it is the send in
      which the flag rises. */
  lemma AttemptsOfASend(w: Word, before: seq<Attempt>, log: seq<Attempt>, s: Sending)
    requires WellPrepared(w, log) && Tried(before, log, s.transmit, s.results, s.outcome)
    ensures Uninterrupted(Results(log[|before|..])) <= 1 + if EinvalAfter(log) && !EinvalAfter(before) then 1 else 0
  {
    hide WellPrepared, Refused, Uninterrupted;
    assert log[..|before|] == before;
    if |log| == |before| {
      assert Results(log[|before|..]) == [];
      assert Uninterrupted([]) == 0 by { NoResults(); }
    } else {
      var n := |log| - 1;
      var first := log[..n];
      assert first[..|before|] == before;
      PrefixIsWellPrepared(w, log, n);
      PrefixFlags(first, log);
      forall k | |before| <= k < |first| ensures Retries(first[k]) {
        assert first[k] == log[k];
      }
      AtMostOneGoesOn(w, first, |before|);
      assert Results(log[|before|..]) == Results(first[|before|..]) + [log[n].result];
      UninterruptedOfMore(Results(first[|before|..]), log[n].result);
    }
  }

  lemma NoResults()
    ensures Uninterrupted([]) == 0
  {
  }

  /** A datagram that is to be sent, and what the system calls for it will give. */
  datatype Request = Request(transmit: Transmit, results: seq<SysResult>)

  function SendingsOf(requests: seq<Request>, outcomes: seq<Outcome>): (sends: seq<Sending>)
    requires |requests| == |outcomes|
    ensures |sends| == |requests|
  {
    seq(|requests|, k requires 0 <= k < |requests| => Sending(requests[k].transmit, requests[k].results, outcomes[k]))
  }

  lemma SeriesGoesOn(w: Word, logs: seq<seq<Attempt>>, sends: seq<Sending>, log: seq<Attempt>, s: Sending)
    requires Series(w, logs, sends) && WellPrepared(w, log)
    requires Tried(logs[|sends|], log, s.transmit, s.results, s.outcome)
    ensures Series(w, logs + [log], sends + [s])
  {
    hide WellPrepared, Tried;
    var logs', sends' := logs + [log], sends + [s];
    forall k | 0 <= k < |sends'|
      ensures Tried(logs'[k], logs'[k + 1], sends'[k].transmit, sends'[k].results, sends'[k].outcome)
    {
      if k < |sends| {
        assert logs'[k] == logs[k] && logs'[k + 1] == logs[k + 1] && sends'[k] == sends[k];
      }
    }
  }

  /** Datagrams sent one after the other are such a series, from any state of the socket on; so the
      flag and the maximum of the socket move as said. */
  method SendSeries(socket: UdpSocketState, requests: seq<Request>) returns (outcomes: seq<Outcome>)
    requires socket.Valid()
    modifies socket
    ensures socket.Valid() && |outcomes| == |requests|
    ensures exists logs :: Series(socket.word, logs, SendingsOf(requests, outcomes))
                           && logs[0] == old(socket.log) && logs[|requests|] == socket.log
    ensures old(socket.sendmsgEinval) ==> socket.sendmsgEinval
    ensures 1 <= socket.maxGso <= old(socket.maxGso)
    ensures Repreparations(socket.log)
            == Repreparations(old(socket.log)) + if socket.sendmsgEinval && !old(socket.sendmsgEinval) then 1 else 0
  {
    hide Tried, WellPrepared, Refused, Halted, Repreparations;
    outcomes := [];
    ghost var logs := [socket.log];
    var i := 0;
    while i < |requests|
      invariant 0 <= i <= |requests| && |outcomes| == i && socket.Valid()
      invariant |logs| == i + 1 && logs[0] == old(socket.log) && logs[i] == socket.log
      invariant Series(socket.word, logs, SendingsOf(requests[..i], outcomes))
    {
      ghost var before := SendingsOf(requests[..i], outcomes);
      var outcome := socket.TrySend(requests[i].transmit, requests[i].results);
      SeriesGoesOn(socket.word, logs, before, socket.log, Sending(requests[i].transmit, requests[i].results, outcome));
      outcomes := outcomes + [outcome];
      assert SendingsOf(requests[..i + 1], outcomes)
             == before + [Sending(requests[i].transmit, requests[i].results, outcome)];
      logs := logs + [socket.log];
      i := i + 1;
    }
    assert requests[..i] == requests;
    FlagsOverASeries(socket.word, socket.initialGso, logs, SendingsOf(requests, outcomes), 0, i);
  }

  // ---- Windows -----------------------------------------------------------------------

  /** One `WSASendMsg` and its result, `Einval` standing for an invalid input. */
  datatype WsaAttempt = WsaAttempt(transmit: Transmit, result: SysResult)

  predicate WsaHalted(log: seq<WsaAttempt>) {
    exists k | 0 <= k < |log| :: log[k].result == Einval && log[k].transmit.segmentSize.Some?
  }

  class WsaSocketState {
    const initialGso: nat
    var maxGso: nat
    ghost var log: seq<WsaAttempt>

    /** Segmentation is off once a datagram with a segment size was refused. */
    ghost predicate Valid()
      reads this
    {
      maxGso >= 1 && maxGso == if WsaHalted(log) then 1 else initialGso
    }

    constructor (maxGso: nat)
      requires maxGso >= 1
      ensures Valid() && initialGso == maxGso && log == []
    {
      initialGso := maxGso;
      this.maxGso := maxGso;
      log := [];
    }

    /** One attempt; a failure is not tried again. */
    method Send(t: Transmit, result: SysResult) returns (outcome: Outcome)
      requires Valid()
      modifies this
      ensures Valid() && log == old(log) + [WsaAttempt(t, result)]
      ensures outcome == if result == Sent then Ok else Err(result)
      ensures maxGso == if result == Einval && t.segmentSize.Some? then 1 else old(maxGso)
    {
      ghost var before := log;
      log := log + [WsaAttempt(t, result)];
      assert log[|before|] == WsaAttempt(t, result);
      assert forall k | 0 <= k < |before| :: log[k] == before[k];
      if result == Sent {
        return Ok;
      }
      if result == Einval && t.segmentSize.Some? {
        if maxGso > 1 {
          maxGso := 1;
        }
      }
      return Err(result);
    }
  }
}
