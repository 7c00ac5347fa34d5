/** How long a session lives. What matters to one session is when it was opened, when it was
    active, when a keepalive got lost, and when the reaper passed. */
module Lifetimes {
  import opened Wire
  import opened Sessions

  datatype Beat =
    | Opened(at: nat)       // an approved handshake for the session's key
    | Active(at: nat)       // an event or a keepalive that arrived
    | Lost(at: nat)         // a keepalive that did not
    | Pass(at: nat)         // of the reaper

  /** The session's last activity after a beat; None when there is no session. */
  function After(last: Option<nat>, b: Beat): Option<nat> {
    match b
    case Opened(at) => Some(at)
    case Active(at) => if last.Some? then Some(at) else None
    case Lost(_) => last
    case Pass(at) => if last.Some? && at - last.value < IDLE_LIMIT then last else None
  }

  function Life(last: Option<nat>, beats: seq<Beat>): Option<nat> {
    if |beats| == 0 then last
    else After(Life(last, beats[..|beats| - 1]), beats[|beats| - 1])
  }

  // ---- Exactly when a session survives -----------------------------------------------

  /** The last time anything of the session arrived, whatever the reaper did. */
  function LastHeard(start: nat, beats: seq<Beat>): nat {
    if |beats| == 0 then start
    else
      var b := beats[|beats| - 1];
      if b.Opened? || b.Active? then b.at else LastHeard(start, beats[..|beats| - 1])
  }

  /** At each pass something was heard less than 900 seconds before. */
  ghost predicate HeardBeforeEachPass(start: nat, beats: seq<Beat>) {
    forall i | 0 <= i < |beats| && beats[i].Pass? :: beats[i].at - LastHeard(start, beats[..i]) < IDLE_LIMIT
  }

  /** A session that is not opened again lives on exactly when each reaper pass found it less
      than 900 seconds after it was last heard from, and then it remembers when that was. */
  lemma {:induction false} SurvivesIff(start: nat, beats: seq<Beat>)
    requires forall b | b in beats :: !b.Opened?
    ensures Life(Some(start), beats).Some? <==> HeardBeforeEachPass(start, beats)
    ensures Life(Some(start), beats).Some? ==> Life(Some(start), beats).value == LastHeard(start, beats)
  {
    if |beats| > 0 {
      var n := |beats| - 1;
      var before := beats[..n];
      SurvivesIff(start, before);
      assert forall i | 0 <= i <= n :: before[..i] == beats[..i];
      assert beats[n] in beats;
      if HeardBeforeEachPass(start, before) && (beats[n].Pass? ==> beats[n].at - LastHeard(start, before) < IDLE_LIMIT) {
        forall i | 0 <= i < |beats| && beats[i].Pass?
          ensures beats[i].at - LastHeard(start, beats[..i]) < IDLE_LIMIT
        {
          assert i < n ==> before[i] == beats[i];
        }
      }
      if HeardBeforeEachPass(start, beats) {
        assert forall i | 0 <= i < n && before[i].Pass? :: beats[i].Pass? && before[i] == beats[i];
      }
    }
  }

  // ---- An idle session goes within 960 seconds ---------------------------------------

  const PASS_INTERVAL: nat := 60 * SECOND

  /** `n` reaper passes, 60 seconds apart. */
  function Passes(first: nat, n: nat): seq<Beat> {
    if n == 0 then [] else Passes(first, n - 1) + [Pass(first + (n - 1) * PASS_INTERVAL)]
  }

  /** A session last heard from at `start`, and after that only reaper passes, the first of them
      within 60 seconds: it is there exactly as long as no pass came 900 seconds later or more,
      and the pass that takes it comes less than 960 seconds later. */
  lemma {:induction false} IdleSessionGoesWithin960(start: nat, first: nat, n: nat)
    requires start <= first <= start + PASS_INTERVAL
    ensures Life(Some(start), Passes(first, n)) ==
            if n == 0 || first + (n - 1) * PASS_INTERVAL < start + IDLE_LIMIT then Some(start) else None
    ensures n > 0 && Life(Some(start), Passes(first, n - 1)).Some? && Life(Some(start), Passes(first, n)).None? ==>
              start + 900 * SECOND <= Passes(first, n)[|Passes(first, n)| - 1].at < start + 960 * SECOND
  {
    if n > 0 {
      IdleSessionGoesWithin960(start, first, n - 1);
      var ps := Passes(first, n);
      assert ps[..|ps| - 1] == Passes(first, n - 1);
      assert n > 1 ==> (n - 1) * PASS_INTERVAL == (n - 2) * PASS_INTERVAL + PASS_INTERVAL;
    }
  }

  // ---- Keepalives --------------------------------------------------------------------

  const KEEPALIVE_INTERVAL: nat := 10 * SECOND

  function Pings(beats: seq<Beat>): nat {
    if |beats| == 0 then 0
    else
      var b := beats[|beats| - 1];
      Pings(beats[..|beats| - 1]) + if b.Active? || b.Lost? then 1 else 0
  }

  /** When the ping after `n` others is sent. */
  function PingTime(start: nat, n: nat): nat {
    start + (n + 1) * KEEPALIVE_INTERVAL
  }

  /** Nothing but keepalives, sent every 10 seconds and delivered at once or lost, and reaper
      passes at any time between them. */
  ghost predicate OnlyKeepalives(start: nat, beats: seq<Beat>) {
    |beats| > 0 ==>
      var before, b := beats[..|beats| - 1], beats[|beats| - 1];
      && OnlyKeepalives(start, before)
      && !b.Opened?
      && (if b.Pass? then b.at <= PingTime(start, Pings(before)) else b.at == PingTime(start, Pings(before)))
  }

  /** How many pings were lost since the last one that arrived. */
  function Missed(beats: seq<Beat>): nat {
    if |beats| == 0 then 0
    else
      var b := beats[|beats| - 1];
      if b.Active? then 0 else Missed(beats[..|beats| - 1]) + if b.Lost? then 1 else 0
  }

  /** At most `m` pings in a row are lost. */
  ghost predicate LosesAtMost(beats: seq<Beat>, m: nat) {
    |beats| > 0 ==> Missed(beats) <= m && LosesAtMost(beats[..|beats| - 1], m)
  }

  lemma {:induction false} KeptAlive(start: nat, beats: seq<Beat>)
    requires OnlyKeepalives(start, beats) && LosesAtMost(beats, 88)
    ensures Missed(beats) <= Pings(beats)
    ensures Life(Some(start), beats) == Some(start + (Pings(beats) - Missed(beats)) * KEEPALIVE_INTERVAL)
  {
    if |beats| > 0 {
      KeptAlive(start, beats[..|beats| - 1]);
    }
  }

  function Losses(start: nat, n: nat): seq<Beat> {
    if n == 0 then [] else Losses(start, n - 1) + [Lost(PingTime(start, n - 1))]
  }

  lemma LossesBefore(start: nat, n: nat)
    requires n > 0
    ensures |Losses(start, n)| > 0 && Losses(start, n)[..|Losses(start, n)| - 1] == Losses(start, n - 1)
    ensures Losses(start, n)[|Losses(start, n)| - 1] == Lost(PingTime(start, n - 1))
  {
  }

  lemma {:induction false} LossesCount(start: nat, n: nat)
    ensures Pings(Losses(start, n)) == n && Missed(Losses(start, n)) == n
  {
    hide Losses, PingTime;
    if n > 0 {
      LossesCount(start, n - 1);
      LossesBefore(start, n);
    } else {
      assert Losses(start, 0) == [] by { NoLosses(start); }
    }
  }

  lemma NoLosses(start: nat)
    ensures Losses(start, 0) == []
  {
  }

  lemma {:induction false} LossesAreKeepalives(start: nat, n: nat)
    ensures OnlyKeepalives(start, Losses(start, n))
  {
    hide Losses, PingTime, Pings;
    if n > 0 {
      LossesAreKeepalives(start, n - 1);
      LossesBefore(start, n);
      LossesCount(start, n - 1);
    } else {
      NoLosses(start);
    }
  }

  lemma {:induction false} LossesAreAtMost(start: nat, n: nat)
    ensures LosesAtMost(Losses(start, n), n)
  {
    hide Losses, Missed;
    if n > 0 {
      LossesAreAtMost(start, n - 1);
      LossesBefore(start, n);
      LossesCount(start, n);
      LoosensLimit(Losses(start, n - 1), n - 1, n);
    } else {
      NoLosses(start);
    }
  }

  lemma {:induction false} LossesKeepLife(start: nat, n: nat)
    ensures Life(Some(start), Losses(start, n)) == Some(start)
  {
    hide Losses, PingTime;
    if n > 0 {
      LossesKeepLife(start, n - 1);
      LossesBefore(start, n);
    } else {
      NoLosses(start);
    }
  }

  lemma {:induction false} LoosensLimit(beats: seq<Beat>, m: nat, m': nat)
    requires LosesAtMost(beats, m) && m <= m'
    ensures LosesAtMost(beats, m')
  {
    if |beats| > 0 { LoosensLimit(beats[..|beats| - 1], m, m'); }
  }

  /** 89 lost pings and a pass just before the next one: the session is gone. */
  lemma EightyNineLossesCanKill(start: nat)
    ensures var beats := Losses(start, 89) + [Pass(start + IDLE_LIMIT)];
            OnlyKeepalives(start, beats) && LosesAtMost(beats, 89) && Life(Some(start), beats).None?
  {
    var beats := Losses(start, 89) + [Pass(start + IDLE_LIMIT)];
    assert beats[..|beats| - 1] == Losses(start, 89);
    hide Losses;
    LossesCount(start, 89);
    LossesAreKeepalives(start, 89);
    LossesAreAtMost(start, 89);
    LossesKeepLife(start, 89);
  }

  /** Keepalives of which at most `m` in a row are lost keep a session alive over every run,
      whenever the reaper passes, exactly when `m` is at most 88. */
  lemma KeepalivesKeepAliveIff(start: nat, m: nat)
    ensures (forall beats | OnlyKeepalives(start, beats) && LosesAtMost(beats, m) :: Life(Some(start), beats).Some?)
            <==> m <= 88
  {
    if m <= 88 {
      forall beats | OnlyKeepalives(start, beats) && LosesAtMost(beats, m)
        ensures Life(Some(start), beats).Some?
      {
        LoosensLimit(beats, m, 88);
        KeptAlive(start, beats);
      }
    } else {
      EightyNineLossesCanKill(start);
      LoosensLimit(Losses(start, 89) + [Pass(start + IDLE_LIMIT)], 89, m);
    }
  }
}
