/** The client's list of servers it has connected to (src/history.rs). */
module History {
  import opened Wire

  datatype KnownServer = KnownServer(hostname: Str, target: Str, transport: Str, lastConnected: Str)

  /** Records of the same target, or of the same hostname. */
  predicate Conflicts(a: KnownServer, b: KnownServer) {
    a.target == b.target || a.hostname == b.hostname
  }

  predicate ConflictsWithAny(a: KnownServer, later: seq<KnownServer>) {
    exists b | b in later :: Conflicts(a, b)
  }

  /** The entries that conflict with none of the later ones, in order. */
  function Survivors(list: seq<KnownServer>, later: seq<KnownServer>): seq<KnownServer> {
    if |list| == 0 then []
    else (if ConflictsWithAny(list[0], later) then [] else [list[0]]) + Survivors(list[1..], later)
  }

  /** The records no later record conflicts with, newest first. */
  function Newest(log: seq<KnownServer>): seq<KnownServer> {
    if |log| == 0 then []
    else Newest(log[1..]) + (if ConflictsWithAny(log[0], log[1..]) then [] else [log[0]])
  }

  /** What the list is after a log of records. */
  function Listed(initial: seq<KnownServer>, log: seq<KnownServer>): seq<KnownServer> {
    Newest(log) + Survivors(initial, log)
  }

  predicate Distinct(list: seq<KnownServer>) {
    forall i, j | 0 <= i < j < |list| :: list[i].target != list[j].target && list[i].hostname != list[j].hostname
  }

  // ---- One record --------------------------------------------------------------------

  lemma {:induction false} SurvivorsOfConcat(a: seq<KnownServer>, b: seq<KnownServer>, later: seq<KnownServer>)
    ensures Survivors(a + b, later) == Survivors(a, later) + Survivors(b, later)
  {
    if |a| == 0 {
      assert a + b == b;
    } else {
      assert (a + b)[1..] == a[1..] + b;
      SurvivorsOfConcat(a[1..], b, later);
    }
  }

  lemma {:induction false} SurvivorsOfSurvivors(list: seq<KnownServer>, later: seq<KnownServer>, e: KnownServer)
    ensures Survivors(Survivors(list, later), [e]) == Survivors(list, later + [e])
  {
    if |list| > 0 {
      SurvivorsOfSurvivors(list[1..], later, e);
      AnyOfAppended(list[0], later, e);
      var first := if ConflictsWithAny(list[0], later) then [] else [list[0]];
      SurvivorsOfConcat(first, Survivors(list[1..], later), [e]);
      SurvivorsOfOne(list[0], [e]);
    }
  }

  lemma SurvivorsOfOne(a: KnownServer, later: seq<KnownServer>)
    ensures Survivors([a], later) == if ConflictsWithAny(a, later) then [] else [a]
  {
    assert [a][1..] == [];
  }

  lemma AnyOfAppended(a: KnownServer, later: seq<KnownServer>, e: KnownServer)
    ensures ConflictsWithAny(a, later + [e]) <==> ConflictsWithAny(a, later) || Conflicts(a, e)
    ensures ConflictsWithAny(a, [e]) <==> Conflicts(a, e)
  {
    assert e in later + [e] && e in [e];
  }

  lemma NothingSurvives(later: seq<KnownServer>)
    ensures Survivors([], later) == [] && !exists a :: ConflictsWithAny(a, [])
  {
  }

  /** One more record comes first, and takes away what it conflicts with. */
  lemma {:induction false} NewestGrows(log: seq<KnownServer>, e: KnownServer)
    ensures Newest(log + [e]) == [e] + Survivors(Newest(log), [e])
  {
    hide Survivors, ConflictsWithAny, Conflicts;
    NothingSurvives([e]);
    if |log| == 0 {
      assert log + [e] == [e] && [e][1..] == [];
      assert Newest([]) == [] && Newest([e]) == [e];
    } else {
      var a, rest := log[0], log[1..];
      assert (log + [e])[0] == a && (log + [e])[1..] == rest + [e];
      NewestGrows(rest, e);
      AnyOfAppended(a, rest, e);
      SurvivorsOfConcat(Newest(rest), if ConflictsWithAny(a, rest) then [] else [a], [e]);
      SurvivorsOfOne(a, [e]);
    }
  }

  /** Recording on top of a list that a log has made makes the list of the longer log. */
  lemma ListedGrows(initial: seq<KnownServer>, log: seq<KnownServer>, e: KnownServer)
    ensures Listed(initial, log + [e]) == [e] + Survivors(Listed(initial, log), [e])
  {
    NewestGrows(log, e);
    SurvivorsOfConcat(Newest(log), Survivors(initial, log), [e]);
    SurvivorsOfSurvivors(initial, log, e);
  }

  // ---- What is in the list -----------------------------------------------------------

  lemma {:induction false} SurvivorsAre(list: seq<KnownServer>, later: seq<KnownServer>, x: KnownServer)
    ensures x in Survivors(list, later) <==> x in list && !ConflictsWithAny(x, later)
  {
    if |list| > 0 {
      SurvivorsAre(list[1..], later, x);
    }
  }

  predicate SurvivesAt(log: seq<KnownServer>, i: nat)
    requires i < |log|
  {
    !ConflictsWithAny(log[i], log[i + 1..])
  }

  lemma SurvivesIff(log: seq<KnownServer>, i: nat)
    requires i < |log|
    ensures SurvivesAt(log, i) <==>
            forall j | i < j < |log| :: log[j].target != log[i].target && log[j].hostname != log[i].hostname
  {
    var later := log[i + 1..];
    forall j | i < j < |log| ensures log[j] == later[j - i - 1] && log[j] in later {
    }
    if b :| b in later && Conflicts(log[i], b) {
      var k :| 0 <= k < |later| && later[k] == b;
      assert log[i + 1 + k] == b;
    }
  }

  /** The surviving indices from one on, in decreasing order. */
  function Places(log: seq<KnownServer>, from: nat): seq<nat>
    requires from <= |log|
    decreases |log| - from
  {
    if from == |log| then [] else Places(log, from + 1) + if SurvivesAt(log, from) then [from] else []
  }

  lemma {:induction false} PlacesAre(log: seq<KnownServer>, from: nat)
    requires from <= |log|
    ensures forall k | 0 <= k < |Places(log, from)| :: from <= Places(log, from)[k] < |log|
    ensures forall k, l | 0 <= k < l < |Places(log, from)| :: Places(log, from)[k] > Places(log, from)[l]
    ensures forall i | from <= i < |log| :: i in Places(log, from) <==> SurvivesAt(log, i)
    decreases |log| - from
  {
    hide SurvivesAt;
    if from < |log| {
      PlacesAre(log, from + 1);
    }
  }

  /** The entries made by a log are the records at its surviving indices, newest first. */
  lemma {:induction false} NewestAre(log: seq<KnownServer>, from: nat)
    requires from <= |log|
    ensures |Newest(log[from..])| == |Places(log, from)|
    ensures forall k | 0 <= k < |Places(log, from)| ::
              Places(log, from)[k] < |log| && Newest(log[from..])[k] == log[Places(log, from)[k]]
    decreases |log| - from
  {
    hide ConflictsWithAny;
    if from < |log| {
      NewestAre(log, from + 1);
      assert log[from..][0] == log[from] && log[from..][1..] == log[from + 1..];
    }
  }

  lemma SurvivorsStayDistinct(list: seq<KnownServer>, later: seq<KnownServer>)
    requires Distinct(list)
    ensures Distinct(Survivors(list, later))
    decreases |list|
  {
    if |list| > 0 {
      var rest := Survivors(list[1..], later);
      assert forall i | 0 <= i < |list[1..]| :: list[1..][i] == list[i + 1];
      SurvivorsStayDistinct(list[1..], later);
      forall j | 0 <= j < |rest| ensures !Conflicts(list[0], rest[j]) {
        SurvivorsAre(list[1..], later, rest[j]);
        assert rest[j] in list[1..];
      }
    }
  }

  /** From a list without conflicts, and so from the empty one, no two entries ever share a
      target or a hostname. */
  lemma {:induction false} ListedIsDistinct(initial: seq<KnownServer>, log: seq<KnownServer>)
    requires Distinct(initial)
    ensures Distinct(Listed(initial, log))
    decreases |log|
  {
    if |log| == 0 {
      NothingLater(initial);
    } else {
      var n := |log| - 1;
      var list := Listed(initial, log[..n]);
      ListedIsDistinct(initial, log[..n]);
      assert log == log[..n] + [log[n]];
      ListedGrows(initial, log[..n], log[n]);
      SurvivorsStayDistinct(list, [log[n]]);
      var kept := Survivors(list, [log[n]]);
      forall j | 0 <= j < |kept| ensures !Conflicts(log[n], kept[j]) {
        SurvivorsAre(list, [log[n]], kept[j]);
        AnyOfAppended(kept[j], [], log[n]);
      }
    }
  }

  lemma {:induction false} NothingLater(list: seq<KnownServer>)
    ensures Survivors(list, []) == list
  {
    if |list| > 0 {
      NothingLater(list[1..]);
    }
  }

  lemma RetainStep(list: seq<KnownServer>, i: nat, e: KnownServer)
    requires i < |list|
    ensures Survivors(list[i..], [e]) == (if Conflicts(list[i], e) then [] else [list[i]]) + Survivors(list[i + 1..], [e])
  {
    hide Conflicts;
    AnyOfAppended(list[i], [], e);
    assert list[i..][1..] == list[i + 1..];
  }

  lemma RetainEnd(list: seq<KnownServer>, e: KnownServer)
    ensures Survivors(list[|list|..], [e]) == []
  {
  }

  // ---- The store ---------------------------------------------------------------------

  class HistoryStore {
    var servers: seq<KnownServer>
    var file: seq<KnownServer>
    ghost const initial: seq<KnownServer>
    ghost var log: seq<KnownServer>

    ghost predicate Valid()
      reads this
    {
      servers == Listed(initial, log)
    }

    /** Loads what the file holds; an absent or unreadable file counts as an empty one. */
    constructor (file: seq<KnownServer>)
      ensures Valid() && initial == file == servers && log == []
    {
      servers := file;
      this.file := file;
      initial := file;
      log := [];
      new;
      NothingLater(file);
    }

    /** `retain`, then `insert` at the front, then save; the list is updated even when saving
        fails. */
    method RecordConnection(hostname: Str, target: Str, transport: Str, now: Str, canSave: bool) returns (ok: bool)
      requires Valid()
      modifies this
      ensures Valid() && log == old(log) + [KnownServer(hostname, target, transport, now)]
      ensures |servers| > 0 && servers[0] == KnownServer(hostname, target, transport, now)
      ensures forall s :: s in servers[1..] <==> s in old(servers) && s.target != target && s.hostname != hostname
      ensures ok == canSave && file == if canSave then servers else old(file)
    {
      hide Survivors, Listed;
      var entry := KnownServer(hostname, target, transport, now);
      var kept: seq<KnownServer> := [];
      var i := 0;
      while i < |servers|
        invariant 0 <= i <= |servers| && servers == old(servers) && file == old(file) && log == old(log)
        invariant kept + Survivors(servers[i..], [entry]) == Survivors(servers, [entry])
      {
        var s := servers[i];
        RetainStep(servers, i, entry);
        if s.target != target && s.hostname != hostname {
          kept := kept + [s];
        }
        i := i + 1;
      }
      RetainEnd(servers, entry);
      ListedGrows(initial, log, entry);
      assert kept == Survivors(servers, [entry]);
      forall s ensures s in kept <==> s in servers && s.target != target && s.hostname != hostname {
        SurvivorsAre(servers, [entry], s);
        AnyOfAppended(s, [], entry);
      }
      servers := [entry] + kept;
      log := log + [entry];
      if canSave {
        file := servers;
      }
      ok := canSave;
    }

    /** The first match, in the text folding of the caller. */
    method FindByHostname(hostname: Str, trim: Str -> Str, lower: Str -> Str) returns (found: Option<KnownServer>)
      requires Valid()
      ensures found == Find(servers, lower(trim(hostname)), lower)
    {
      var needle := lower(trim(hostname));
      var i := 0;
      while i < |servers|
        invariant 0 <= i <= |servers|
        invariant Find(servers, needle, lower) == Find(servers[i..], needle, lower)
      {
        if lower(servers[i].hostname) == needle {
          return Some(servers[i]);
        }
        assert servers[i..][1..] == servers[i + 1..];
        i := i + 1;
      }
      return None;
    }
  }

  function Find(list: seq<KnownServer>, needle: Str, lower: Str -> Str): (found: Option<KnownServer>) {
    if |list| == 0 then None
    else if lower(list[0].hostname) == needle then Some(list[0])
    else Find(list[1..], needle, lower)
  }

  lemma {:induction false} FindIsFirst(list: seq<KnownServer>, needle: Str, lower: Str -> Str) returns (k: nat)
    ensures k <= |list| && forall j | 0 <= j < k :: lower(list[j].hostname) != needle
    ensures if k < |list| then Find(list, needle, lower) == Some(list[k]) && lower(list[k].hostname) == needle
      else Find(list, needle, lower) == None
  {
    k := 0;
    if |list| > 0 && lower(list[0].hostname) != needle {
      k := FindIsFirst(list[1..], needle, lower);
      k := k + 1;
    }
  }

  /** A match at an index that survives. */
  predicate IsMatch(log: seq<KnownServer>, i: nat, needle: Str, lower: Str -> Str)
    requires i < |log|
  {
    SurvivesAt(log, i) && lower(log[i].hostname) == needle
  }

  /** Starting empty, a search finds the newest record that survives and matches, and nothing
      when there is none. */
  lemma FindIsNewest(log: seq<KnownServer>, needle: Str, lower: Str -> Str)
    ensures var found := Find(Listed([], log), needle, lower);
      match found
      case None => forall i | 0 <= i < |log| :: !IsMatch(log, i, needle, lower)
      case Some(s) => exists i | 0 <= i < |log| && IsMatch(log, i, needle, lower) ::
        log[i] == s && forall j | i < j < |log| :: !IsMatch(log, j, needle, lower)
  {
    hide ConflictsWithAny, SurvivesAt, Newest, Places;
    assert Listed([], log) == Newest(log);
    var at := Places(log, 0);
    assert log[0..] == log;
    NewestAre(log, 0);
    PlacesAre(log, 0);
    var k := FindIsFirst(Newest(log), needle, lower);
    forall j | 0 <= j < |log| && IsMatch(log, j, needle, lower)
      ensures k < |at| && j <= at[k]
    {
      assert j in at;
      var l :| 0 <= l < |at| && at[l] == j;
      assert l >= k;
    }
    if k < |at| {
      assert at[k] in at;
      assert IsMatch(log, at[k], needle, lower);
    }
  }
}
