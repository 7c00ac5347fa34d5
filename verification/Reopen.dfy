/** How the client finds its device again after losing it (src/client.rs,
    `ReconnectingDevice`). */
module Reopen {
  import opened Wire

  datatype Identity = Identity(name: Str, bustype: u16, vendor: u16, product: u16, version: u16)

  /** An input device found by enumeration. */
  datatype Found = Found(path: Bytes, metadata: DeviceMetadata)

  function IdentityOf(m: DeviceMetadata): Identity {
    Identity(m.name, m.bustype, m.vendor, m.product, m.version)
  }

  /** Two devices are the same when these five fields are; their keys and axes do not matter. */
  lemma SameIdentityIff(a: DeviceMetadata, b: DeviceMetadata)
    ensures IdentityOf(a) == IdentityOf(b) <==>
            a.name == b.name && a.bustype == b.bustype && a.vendor == b.vendor && a.product == b.product && a.version == b.version
  {
  }

  predicate MatchesAt(identity: Identity, found: seq<Found>, i: nat) {
    i < |found|
    && var m := found[i].metadata;
       && m.name == identity.name && m.bustype == identity.bustype && m.vendor == identity.vendor
       && m.product == identity.product && m.version == identity.version
  }

  predicate AtPath(identity: Identity, path: Bytes, found: seq<Found>, i: nat) {
    MatchesAt(identity, found, i) && found[i].path == path
  }

  /** The device to open: of those with the identity, the first at the preferred path, and
      failing that the first of all. */
  ghost predicate Chosen(identity: Identity, preferred: Bytes, found: seq<Found>, chosen: Option<nat>) {
    match chosen
    case None => forall i: nat :: !MatchesAt(identity, found, i)
    case Some(i) =>
      if exists j: nat :: AtPath(identity, preferred, found, j)
      then AtPath(identity, preferred, found, i) && forall j: nat | j < i :: !AtPath(identity, preferred, found, j)
      else MatchesAt(identity, found, i) && forall j: nat | j < i :: !MatchesAt(identity, found, j)
  }

  class ReconnectingDevice {
    const identity: Identity
    var preferredPath: Bytes

    constructor (preferredPath: Bytes, metadata: DeviceMetadata)
      ensures this.preferredPath == preferredPath
      ensures identity.name == metadata.name && identity.bustype == metadata.bustype && identity.vendor == metadata.vendor
      ensures identity.product == metadata.product && identity.version == metadata.version
    {
      this.preferredPath := preferredPath;
      identity := IdentityOf(metadata);
    }

    method TryReopen(found: seq<Found>) returns (chosen: Option<nat>)
      modifies this
      ensures Chosen(identity, old(preferredPath), found, chosen)
      ensures preferredPath == if chosen.Some? then found[chosen.value].path else old(preferredPath)
    {
      var fallback: Option<nat> := None;
      var i := 0;
      while i < |found|
        invariant 0 <= i <= |found| && preferredPath == old(preferredPath)
        invariant forall j: nat | j < i :: !AtPath(identity, preferredPath, found, j)
        invariant match fallback
          case None => forall j: nat | j < i :: !MatchesAt(identity, found, j)
          case Some(k) => MatchesAt(identity, found, k) && forall j: nat | j < k :: !MatchesAt(identity, found, j)
      {
        if IdentityOf(found[i].metadata) == identity {
          if found[i].path == preferredPath {
            assert AtPath(identity, preferredPath, found, i);
            return Some(i);
          }
          if fallback.None? {
            fallback := Some(i);
          }
        }
        i := i + 1;
      }
      if fallback.Some? {
        preferredPath := found[fallback.value].path;
      }
      chosen := fallback;
    }
  }

  /** Some device is opened exactly when one with the identity is there, and only such a one;
      the choice is determined by what was found. */
  lemma OpensTheSameDevice(identity: Identity, preferred: Bytes, found: seq<Found>, a: Option<nat>, b: Option<nat>)
    requires Chosen(identity, preferred, found, a)
    ensures a.Some? <==> exists i: nat :: MatchesAt(identity, found, i)
    ensures a.Some? ==> MatchesAt(identity, found, a.value)
    ensures Chosen(identity, preferred, found, b) ==> a == b
  {
    if Chosen(identity, preferred, found, b) && a.Some? && b.Some? {
      if exists j: nat :: AtPath(identity, preferred, found, j) {
        assert !(a.value < b.value) && !(b.value < a.value);
      } else {
        assert !(a.value < b.value) && !(b.value < a.value);
      }
    }
  }

  /** A series of reopenings: each starts from the path that the one before left. */
  ghost predicate Series(identity: Identity, paths: seq<Bytes>, founds: seq<seq<Found>>, choices: seq<Option<nat>>) {
    && |paths| == |founds| + 1 && |choices| == |founds|
    && forall k | 0 <= k < |founds| :: Step(identity, paths[k], founds[k], choices[k], paths[k + 1])
  }

  ghost predicate Step(identity: Identity, path: Bytes, found: seq<Found>, choice: Option<nat>, path': Bytes) {
    Chosen(identity, path, found, choice) && path' == if choice.Some? then found[choice.value].path else path
  }

  /** A device of the identity is enumerated at the path. */
  ghost predicate IsAt(identity: Identity, path: Bytes, found: seq<Found>) {
    exists j: nat :: AtPath(identity, path, found, j)
  }

  /** The path moves exactly when the device is not where it was and is somewhere else, and then
      to where it is. */
  lemma PathMovesIff(identity: Identity, path: Bytes, found: seq<Found>, choice: Option<nat>, path': Bytes)
    requires Step(identity, path, found, choice, path')
    ensures path' != path <==> !IsAt(identity, path, found) && exists i: nat :: MatchesAt(identity, found, i)
    ensures choice.Some? ==> IsAt(identity, path', found)
  {
    if choice.Some? {
      assert AtPath(identity, path', found, choice.value);
    }
  }

  /** Over any series of reopenings in which the device is enumerated at a path each time, it is
      opened there each time and the path stays, whatever else comes and goes; so it is from any
      point of a series from which on the device is there. */
  lemma {:induction false} ReopenStays(identity: Identity, paths: seq<Bytes>, founds: seq<seq<Found>>, choices: seq<Option<nat>>,
                                       i: nat, j: nat)
    requires Series(identity, paths, founds, choices) && i <= j <= |founds|
    requires forall k | i <= k < j :: IsAt(identity, paths[i], founds[k])
    ensures paths[j] == paths[i]
    ensures forall k | i <= k < j ::
              choices[k].Some? && AtPath(identity, paths[i], founds[k], choices[k].value)
    decreases j - i
  {
    hide Chosen, MatchesAt;
    if i < j {
      ReopenStays(identity, paths, founds, choices, i, j - 1);
      assert Step(identity, paths[j - 1], founds[j - 1], choices[j - 1], paths[j]);
      OpensWhereItIs(identity, paths[i], founds[j - 1], choices[j - 1]);
    }
  }

  lemma OpensWhereItIs(identity: Identity, path: Bytes, found: seq<Found>, choice: Option<nat>)
    requires Chosen(identity, path, found, choice) && IsAt(identity, path, found)
    ensures choice.Some? && AtPath(identity, path, found, choice.value)
  {
    var j: nat :| AtPath(identity, path, found, j);
    assert MatchesAt(identity, found, j);
  }
}
