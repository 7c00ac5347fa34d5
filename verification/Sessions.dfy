/** The server's session table (src/server.rs): one virtual device per session key. */
module Sessions {
  import opened Wire

  type Key = Bytes

  const COLON: byte := 58

  /** Nanoseconds. */
  const SECOND: nat := 1_000_000_000

  const IDLE_LIMIT: nat := 900 * SECOND

  // ---- Session keys ------------------------------------------------------------------

  function MakeKey(client: Bytes, device: Bytes): Key {
    client + [COLON] + device
  }

  function DeviceId(h: Handshake): Str {
    if h.deviceId.Some? then h.deviceId.value else h.metadata.name
  }

  function KeyOf(h: Handshake): Key {
    MakeKey(h.clientId, DeviceId(h))
  }

  /** The first pair ends where a colon inside the second pair's client id stands. */
  ghost predicate SplitsAt(c1: Bytes, d1: Bytes, c2: Bytes, d2: Bytes) {
    exists x: Bytes :: c2 == c1 + [COLON] + x && d1 == x + [COLON] + d2
  }

  lemma ShorterClientSplits(c1: Bytes, d1: Bytes, c2: Bytes, d2: Bytes)
    requires MakeKey(c1, d1) == MakeKey(c2, d2) && |c1| < |c2|
    ensures SplitsAt(c1, d1, c2, d2)
  {
    var k := MakeKey(c1, d1);
    var x := c2[|c1| + 1..];
    assert c1 == k[..|c1|] && c2 == k[..|c2|];
    assert c2[|c1|] == k[|c1|] == COLON;
    assert c2 == c1 + [COLON] + x;
    assert d1 == k[|c1| + 1..] && d2 == k[|c2| + 1..] && k[|c2|] == COLON;
    assert d1 == x + [COLON] + d2;
  }

  /** Two different pairs of client and device share a key exactly when one client id is the
      other's followed by a colon and the beginning of its device id, up to a colon there. */
  lemma KeysCollideIff(c1: Bytes, d1: Bytes, c2: Bytes, d2: Bytes)
    ensures MakeKey(c1, d1) == MakeKey(c2, d2) <==>
            (c1 == c2 && d1 == d2) || SplitsAt(c1, d1, c2, d2) || SplitsAt(c2, d2, c1, d1)
  {
    var k1, k2 := MakeKey(c1, d1), MakeKey(c2, d2);
    if k1 == k2 {
      if |c1| < |c2| { ShorterClientSplits(c1, d1, c2, d2); }
      else if |c2| < |c1| { ShorterClientSplits(c2, d2, c1, d1); }
      else {
        assert c1 == k1[..|c1|] && c2 == k2[..|c2|];
        assert d1 == k1[|c1| + 1..] && d2 == k2[|c2| + 1..];
      }
    }
    if x: Bytes :| c2 == c1 + [COLON] + x && d1 == x + [COLON] + d2 {
      assert k1 == k2;
    }
    if x: Bytes :| c1 == c2 + [COLON] + x && d2 == x + [COLON] + d1 {
      assert k1 == k2;
    }
  }

  lemma SplitNeedsColon(c1: Bytes, d1: Bytes, c2: Bytes, d2: Bytes)
    ensures SplitsAt(c1, d1, c2, d2) ==> COLON in c2
  {
    if x: Bytes :| c2 == c1 + [COLON] + x && d1 == x + [COLON] + d2 {
      assert c2[|c1|] == COLON;
    }
  }

  /** Without colons in client ids - generated ids are hexadecimal - a key names one client and
      one device. */
  lemma ColonFreeKeysAreUnique(c1: Bytes, d1: Bytes, c2: Bytes, d2: Bytes)
    requires COLON !in c1 && COLON !in c2
    ensures MakeKey(c1, d1) == MakeKey(c2, d2) <==> c1 == c2 && d1 == d2
  {
    KeysCollideIff(c1, d1, c2, d2);
    SplitNeedsColon(c1, d1, c2, d2);
    SplitNeedsColon(c2, d2, c1, d1);
  }

  /** The key of a handshake: the client's id, a colon, and the device's id or, when it has none, its
      name. */
  lemma KeyOfHandshake(h: Handshake)
    ensures h.deviceId.Some? ==> KeyOf(h) == h.clientId + [':' as int] + h.deviceId.value
    ensures h.deviceId.None? ==> KeyOf(h) == h.clientId + [':' as int] + h.metadata.name
  {
  }

  /** Without colons in client ids, handshakes are for one session exactly when they are of one client
      and for one device: by the devices' ids if both have one, by their names if neither has. */
  lemma SameSessionIff(a: Handshake, b: Handshake)
    requires ':' as int !in a.clientId && ':' as int !in b.clientId
    ensures a.deviceId.Some? && b.deviceId.Some? ==>
              (KeyOf(a) == KeyOf(b) <==> a.clientId == b.clientId && a.deviceId == b.deviceId)
    ensures a.deviceId.None? && b.deviceId.None? ==>
              (KeyOf(a) == KeyOf(b) <==> a.clientId == b.clientId && a.metadata.name == b.metadata.name)
    ensures a.deviceId.Some? && b.deviceId.None? ==>
              (KeyOf(a) == KeyOf(b) <==> a.clientId == b.clientId && a.deviceId.value == b.metadata.name)
  {
    ColonFreeKeysAreUnique(a.clientId, DeviceId(a), b.clientId, DeviceId(b));
  }

  // ---- The table ---------------------------------------------------------------------

  /** The name of a virtual device: host, which of the host's devices, and the device's own name. */
  datatype Label = Label(hostname: Str, ordinal: nat, device: Str)

  /** `serial` is a ghost identity: no two devices ever created share it. */
  datatype Device = Device(serial: nat, metadata: DeviceMetadata, name: Label)

  datatype Session = Session(device: Device, lastActive: nat, hostname: Str)

  type Table = map<Key, Session>

  function KeysOfHost(t: Table, host: Str): set<Key> {
    set k | k in t && t[k].hostname == host
  }

  function NewDevice(t: Table, h: Handshake, serial: nat): Device {
    var ordinal := |KeysOfHost(t, h.clientHostname)| + 1;
    Device(serial, h.metadata, Label(h.clientHostname, ordinal, h.metadata.name))
  }

  function Touch(t: Table, k: Key, now: nat): Table {
    if k in t then t[k := t[k].(lastActive := now)] else t
  }

  /** An approved handshake: a session that is there is reused and refreshed; otherwise one is
      made around a new device, unless the device cannot be created. */
  function OpenSession(t: Table, h: Handshake, now: nat, created: bool, serial: nat): Table {
    if KeyOf(h) in t then Touch(t, KeyOf(h), now)
    else if created then t[KeyOf(h) := Session(NewDevice(t, h, serial), now, h.clientHostname)]
    else t
  }

  predicate Admits(t: Table, h: Handshake, created: bool) {
    KeyOf(h) in t || created
  }

  predicate Fresh(s: Session, now: nat) {
    now - s.lastActive < IDLE_LIMIT
  }

  function Reap(t: Table, now: nat): Table {
    map k | k in t && Fresh(t[k], now) :: t[k]
  }

  // ---- Ordinals ----------------------------------------------------------------------

  /** The ordinal in the device name of each live session of a host. */
  function Ranks(t: Table, host: Str): map<Key, nat> {
    map k | k in t && t[k].hostname == host :: t[k].device.name.ordinal
  }

  function UpTo(n: nat): (s: set<nat>)
    ensures forall i :: i in s <==> 1 <= i <= n
  {
    if n == 0 then {} else UpTo(n - 1) + {n}
  }

  ghost predicate Distinct(m: map<Key, nat>) {
    forall j, k | j in m && k in m && j != k :: m[j] != m[k]
  }

  /** The keys hold the ordinals 1, 2, ..., n, each once. */
  ghost predicate Dense(m: map<Key, nat>) {
    Distinct(m) && m.Values == UpTo(|m|)
  }

  lemma {:induction false} UpToSize(n: nat)
    ensures |UpTo(n)| == n
  {
    if n > 0 {
      UpToSize(n - 1);
    }
  }

  lemma InsertKeepsDense(m: map<Key, nat>, k: Key)
    requires Dense(m) && k !in m
    ensures Dense(m[k := |m| + 1])
  {
    hide UpTo, Distinct;
    var n := |m| + 1;
    var m' := m[k := n];
    InsertedValues(m, k, n);
    InsertedSize(m, k, n);
    UpToNext(|m|);
    forall j | j in m ensures m[j] != n {
      assert m[j] in m.Values;
    }
    InsertKeepsDistinct(m, k, n);
    assert m'.Values == UpTo(|m'|);
  }

  lemma UpToNext(n: nat)
    ensures UpTo(n + 1) == UpTo(n) + {n + 1}
    ensures n + 1 !in UpTo(n)
  {
  }

  lemma InsertedSize(m: map<Key, nat>, k: Key, v: nat)
    requires k !in m
    ensures |m[k := v]| == |m| + 1
  {
  }

  lemma InsertedValues(m: map<Key, nat>, k: Key, v: nat)
    requires k !in m
    ensures m[k := v].Values == m.Values + {v}
  {
    var m' := m[k := v];
    assert k in m' && m'[k] == v;
    forall u | u in m.Values ensures u in m'.Values {
      var j :| j in m && m[j] == u;
      assert j in m' && m'[j] == u;
    }
    forall u | u in m'.Values ensures u in m.Values + {v} {
      var j :| j in m' && m'[j] == u;
      assert j != k ==> j in m && m[j] == u;
    }
  }

  lemma InsertKeepsDistinct(m: map<Key, nat>, k: Key, v: nat)
    requires Distinct(m) && k !in m && forall j | j in m :: m[j] != v
    ensures Distinct(m[k := v])
  {
  }

  lemma TouchKeepsRanks(t: Table, k: Key, now: nat, host: Str)
    ensures Ranks(Touch(t, k, now), host) == Ranks(t, host)
  {
  }

  lemma InsertedRanks(t: Table, k: Key, s: Session, host: Str)
    requires k !in t
    ensures Ranks(t[k := s], host) ==
            if s.hostname == host then Ranks(t, host)[k := s.device.name.ordinal] else Ranks(t, host)
  {
  }

  /** Opening a session, for whichever host, keeps the ordinals of every host dense. */
  lemma OpenKeepsDense(t: Table, h: Handshake, now: nat, created: bool, serial: nat, host: Str)
    requires Dense(Ranks(t, host))
    ensures Dense(Ranks(OpenSession(t, h, now, created, serial), host))
  {
    hide KeyOf, Dense;
    var k := KeyOf(h);
    if k in t {
      TouchKeepsRanks(t, k, now, host);
    } else if created {
      InsertedRanks(t, k, Session(NewDevice(t, h, serial), now, h.clientHostname), host);
      assert Ranks(t, host).Keys == KeysOfHost(t, host);
      InsertKeepsDense(Ranks(t, host), k);
    }
  }

  lemma {:induction false} ValuesCount(m: map<Key, nat>, keys: set<Key>)
    requires Distinct(m) && keys <= m.Keys
    ensures |(set k | k in keys :: m[k])| == |keys|
    decreases keys
  {
    if k :| k in keys {
      var rest := keys - {k};
      ValuesCount(m, rest);
      var image, restImage := set j | j in keys :: m[j], set j | j in rest :: m[j];
      assert image == restImage + {m[k]};
    } else {
      assert keys == {};
    }
  }

  lemma {:induction false} DownClosedIsUpTo(d: set<nat>, n: nat)
    requires d <= UpTo(n) && forall i, j | i in UpTo(n) && j in d && i < j :: i in d
    ensures d == UpTo(|d|)
  {
    if n == 0 {
      assert d == {};
    } else if n in d {
      assert d == UpTo(n);
      UpToSize(n);
    } else {
      assert d <= UpTo(n - 1);
      assert forall i | i in UpTo(n - 1) :: i in UpTo(n);
      DownClosedIsUpTo(d, n - 1);
    }
  }

  /** Which of the keys stay when those outside `kept` go. */
  function Keep(m: map<Key, nat>, kept: set<Key>): map<Key, nat> {
    map k | k in m && k in kept :: m[k]
  }

  /** Every ordinal that stays is smaller than every one that goes. */
  ghost predicate HighestGo(m: map<Key, nat>, kept: set<Key>) {
    forall j, k | j in m && k in m && j in kept && k !in kept :: m[j] < m[k]
  }

  lemma KeepDense(m: map<Key, nat>, kept: set<Key>)
    requires Dense(m) && HighestGo(m, kept)
    ensures Dense(Keep(m, kept))
  {
    var m' := Keep(m, kept);
    var d := m'.Values;
    forall i, j | i in UpTo(|m|) && j in d && i < j ensures i in d {
      var a :| a in m && m[a] == i;
      var b :| b in m' && m'[b] == j;
      assert m'[a] == i;
    }
    DownClosedIsUpTo(d, |m|);
    ValuesCount(m', m'.Keys);
    assert d == set k | k in m'.Keys :: m'[k];
  }

  lemma DenseKept(m: map<Key, nat>, kept: set<Key>)
    requires Dense(m) && Dense(Keep(m, kept))
    ensures HighestGo(m, kept)
  {
    var m' := Keep(m, kept);
    forall j, k | j in m && k in m && j in kept && k !in kept ensures m[j] < m[k] {
      assert m'[j] in m'.Values && m[k] in m.Values;
      forall a | a in m' ensures m'[a] != m[k] {
        assert a != k;
      }
      assert m[k] !in m'.Values;
    }
  }

  /** A reaper pass keeps a host's ordinals dense exactly when it takes the host's highest ones.
      The ordinals that stay are different from each other in any case; what comes of gaps among
      them is said by `StaysApartIff`. */
  lemma ReapKeepsDenseIff(t: Table, now: nat, host: Str)
    requires Dense(Ranks(t, host))
    ensures Dense(Ranks(Reap(t, now), host)) <==>
            forall j, k | j in Ranks(t, host) && k in Ranks(t, host) && Fresh(t[j], now) && !Fresh(t[k], now) ::
              Ranks(t, host)[j] < Ranks(t, host)[k]
  {
    hide Dense;
    var m, kept := Ranks(t, host), Reap(t, now).Keys;
    assert Ranks(Reap(t, now), host) == Keep(m, kept);
    if HighestGo(m, kept) { KeepDense(m, kept); }
    if Dense(Keep(m, kept)) { DenseKept(m, kept); }
  }

  // ---- What later devices are called -------------------------------------------------

  /** An approved handshake at some time, and whether its device can be created if it needs one. */
  datatype Admission = Admission(handshake: Handshake, now: nat, created: bool, serial: nat)

  function Admit(t: Table, o: Admission): Table {
    OpenSession(t, o.handshake, o.now, o.created, o.serial)
  }

  function AdmitAll(t: Table, os: seq<Admission>): Table {
    if |os| == 0 then t else Admit(AdmitAll(t, os[..|os| - 1]), os[|os| - 1])
  }

  /** Whatever sessions are opened from here on, no two of the host's live devices share an ordinal. */
  ghost predicate StaysApart(t: Table, host: Str) {
    forall os :: Distinct(Ranks(AdmitAll(t, os), host))
  }

  /** Every key is that of a handshake. */
  ghost predicate Keyed(t: Table) {
    forall k | k in t :: exists h: Handshake :: KeyOf(h) == k
  }

  lemma {:induction false} AdmitAllKeepsDense(t: Table, os: seq<Admission>, host: Str)
    requires Dense(Ranks(t, host))
    ensures Dense(Ranks(AdmitAll(t, os), host))
  {
    hide Dense, Ranks, OpenSession;
    if |os| > 0 {
      var n := |os| - 1;
      AdmitAllKeepsDense(t, os[..n], host);
      OpenKeepsDense(AdmitAll(t, os[..n]), os[n].handshake, os[n].now, os[n].created, os[n].serial, host);
    }
  }

  lemma {:induction false} AdmitAllOfConcat(t: Table, a: seq<Admission>, b: seq<Admission>)
    ensures AdmitAll(t, a + b) == AdmitAll(AdmitAll(t, a), b)
  {
    hide Admit;
    if |b| == 0 {
      assert a + b == a;
    } else {
      assert (a + b)[..|a + b| - 1] == a + b[..|b| - 1];
      AdmitAllOfConcat(t, a, b[..|b| - 1]);
    }
  }

  /** A new session of the host under a key that is not in use. */
  lemma NewRank(t: Table, o: Admission)
    requires KeyOf(o.handshake) !in t && o.created
    ensures var host := o.handshake.clientHostname;
            && Ranks(Admit(t, o), host) == Ranks(t, host)[KeyOf(o.handshake) := |Ranks(t, host)| + 1]
            && KeyOf(o.handshake) !in Ranks(t, host)
            && Admit(t, o).Keys == t.Keys + {KeyOf(o.handshake)}
  {
    hide KeyOf;
    var h := o.handshake;
    InsertedRanks(t, KeyOf(h), Session(NewDevice(t, h, o.serial), o.now, h.clientHostname), h.clientHostname);
    assert Ranks(t, h.clientHostname).Keys == KeysOfHost(t, h.clientHostname);
  }

  /** While one of the host's ordinals is above their number, new sessions come to be given it. */
  lemma {:induction false} OrdinalComesAgain(t: Table, host: Str, j: Key, spare: set<Key>) returns (os: seq<Admission>)
    requires j in Ranks(t, host) && Ranks(t, host)[j] > |Ranks(t, host)|
    requires spare !! t.Keys && Ranks(t, host)[j] <= |Ranks(t, host)| + |spare|
    requires forall k | k in spare :: exists h: Handshake :: KeyOf(h) == k
    ensures !Distinct(Ranks(AdmitAll(t, os), host))
    decreases |spare|
  {
    hide KeyOf, Admit, Ranks;
    var k :| k in spare;
    var h: Handshake :| KeyOf(h) == k;
    var o := Admission(h.(clientHostname := host), 0, true, 0);
    HostIsNotInKey(h, host);
    NewRank(t, o);
    var m, m' := Ranks(t, host), Ranks(Admit(t, o), host);
    InsertedSize(m, k, |m| + 1);
    assert m'[j] == m[j] && m'[k] == |m| + 1;
    var rest := [];
    if m[j] > |m| + 1 {
      rest := OrdinalComesAgain(Admit(t, o), host, j, spare - {k});
    }
    os := [o] + rest;
    AdmitAllOfConcat(t, [o], rest);
    assert AdmitAll(t, [o]) == Admit(t, o) by { assert [o][..0] == []; }
  }

  lemma HostIsNotInKey(h: Handshake, host: Str)
    ensures KeyOf(h.(clientHostname := host)) == KeyOf(h)
  {
  }

  lemma WithinUpTo(d: set<nat>, n: nat)
    requires d <= UpTo(n) && |d| == n
    ensures d == UpTo(n)
  {
    UpToSize(n);
    assert UpTo(n) == d + (UpTo(n) - d);
    assert |UpTo(n)| == |d| + |UpTo(n) - d|;
  }

  /** Ordinals that are apart but not dense have one above their number. */
  lemma GapMeansHigh(m: map<Key, nat>) returns (j: Key)
    requires Distinct(m) && !Dense(m) && forall k | k in m :: m[k] >= 1
    ensures j in m && m[j] > |m|
  {
    ValuesCount(m, m.Keys);
    assert m.Values == set k | k in m.Keys :: m[k];
    if forall k | k in m :: m[k] <= |m| {
      WithinUpTo(m.Values, |m|);
      assert false;
    }
    j :| j in m && m[j] > |m|;
  }

  /** The keys that a pass frees are enough to bring back the highest ordinal that stays. */
  lemma GapIsFilledTwice(t: Table, now: nat, host: Str) returns (os: seq<Admission>)
    requires Dense(Ranks(t, host)) && Keyed(t) && !Dense(Ranks(Reap(t, now), host))
    ensures !Distinct(Ranks(AdmitAll(Reap(t, now), os), host))
  {
    var m, m' := Ranks(t, host), Ranks(Reap(t, now), host);
    var spare := m.Keys - m'.Keys;
    forall k | k in m ensures 1 <= m[k] <= |m| {
      assert m[k] in m.Values;
    }
    assert m'.Keys <= m.Keys && forall k | k in m' :: m'[k] == m[k];
    assert |spare| == |m.Keys| - |m'.Keys|;
    assert |m.Keys| == |m| && |m'.Keys| == |m'|;
    var j := GapMeansHigh(m');
    hide KeyOf, Dense, Distinct, AdmitAll;
    os := OrdinalComesAgain(Reap(t, now), host, j, spare);
  }

  /** Over all the sessions that may be opened after a pass, no two live devices of a host ever
      share an ordinal, exactly when each session of the host that the pass removes had a higher
      ordinal than each one it leaves. */
  lemma StaysApartIff(t: Table, now: nat, host: Str)
    requires Dense(Ranks(t, host)) && Keyed(t)
    ensures StaysApart(Reap(t, now), host) <==>
            forall j, k | j in Ranks(t, host) && k in Ranks(t, host) && Fresh(t[j], now) && !Fresh(t[k], now) ::
              Ranks(t, host)[j] < Ranks(t, host)[k]
  {
    hide Ranks, Reap, AdmitAll, KeyOf, Keyed;
    ReapKeepsDenseIff(t, now, host);
    if Dense(Ranks(Reap(t, now), host)) {
      forall os ensures Distinct(Ranks(AdmitAll(Reap(t, now), os), host)) {
        AdmitAllKeepsDense(Reap(t, now), os, host);
      }
    } else {
      var os := GapIsFilledTwice(t, now, host);
    }
  }

  lemma OneSession(h: Handshake, now: nat, serial: nat)
    ensures OpenSession(map[], h, now, true, serial) == map[KeyOf(h) := Session(NewDevice(map[], h, serial), now, h.clientHostname)]
    ensures NewDevice(map[], h, serial).name.ordinal == 1
  {
    assert KeysOfHost(map[], h.clientHostname) == {};
  }

  /** Two of a host's devices, of which the first is reaped, and a third that comes after: the
      two live devices both have ordinal 2. */
  lemma ReapedOrdinalIsReused(a: Handshake, b: Handshake, c: Handshake)
    requires a.clientHostname == b.clientHostname == c.clientHostname
    requires KeyOf(a) != KeyOf(b) && KeyOf(b) != KeyOf(c)
    ensures var t1 := OpenSession(map[], a, 0, true, 0);
            var t2 := OpenSession(t1, b, IDLE_LIMIT, true, 1);
            var t3 := Reap(t2, IDLE_LIMIT);
            var t4 := OpenSession(t3, c, IDLE_LIMIT, true, 2);
            && KeyOf(b) in t4 && KeyOf(c) in t4
            && t4[KeyOf(b)].device.name.ordinal == t4[KeyOf(c)].device.name.ordinal == 2
  {
    hide KeyOf;
    var host := a.clientHostname;
    var t1 := OpenSession(map[], a, 0, true, 0);
    OneSession(a, 0, 0);
    assert KeysOfHost(t1, host) == {KeyOf(a)};
    var t2 := OpenSession(t1, b, IDLE_LIMIT, true, 1);
    var t3 := Reap(t2, IDLE_LIMIT);
    assert t3 == map[KeyOf(b) := t2[KeyOf(b)]];
    assert KeysOfHost(t3, host) == {KeyOf(b)};
  }
}
