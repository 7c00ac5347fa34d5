/** The trust store (src/trust.rs): which clients wait for authorisation and which have it. */
module Trust {
  import opened Wire

  datatype Transport = DirectUdp | IrohP2P

  datatype PendingInfo = PendingInfo(clientId: Str, hostname: Str, deviceName: Str,
                                     transport: Transport, firstSeen: Str)

  datatype ApprovedInfo = ApprovedInfo(clientId: Str, hostname: Str, deviceName: Str, approvedAt: Str)

  datatype TrustData = TrustData(approved: map<Str, ApprovedInfo>, pending: map<Str, PendingInfo>)

  const EMPTY: TrustData := TrustData(map[], map[])

  /** No client is both approved and pending, and every record is filed under its own id. */
  ghost predicate WellFormed(d: TrustData) {
    && d.approved.Keys !! d.pending.Keys
    && (forall id | id in d.approved :: d.approved[id].clientId == id)
    && (forall id | id in d.pending :: d.pending[id].clientId == id)
  }

  // ---- Looking up a client by id or prefix -------------------------------------------

  /** An exact id wins; otherwise any id with the prefix may be picked, since the source takes
      the first one in a hash map's order. */
  predicate Resolves(ids: set<Str>, target: Str, id: Str) {
    id in ids && if target in ids then id == target else target <= id
  }

  predicate Matches(ids: set<Str>, target: Str) {
    exists id | id in ids :: target <= id
  }

  lemma SomeIdResolvesIffMatches(ids: set<Str>, target: Str)
    ensures (exists id :: Resolves(ids, target, id)) <==> Matches(ids, target)
  {
    if Matches(ids, target) {
      var id :| id in ids && target <= id;
      assert Resolves(ids, target, if target in ids then target else id);
    }
    if id :| Resolves(ids, target, id) {
      assert id in ids && target <= id;
    }
  }

  method FindId(ids: set<Str>, target: Str) returns (r: Option<Str>)
    ensures r.Some? ==> r.value in ids && if target in ids then r.value == target else target <= r.value
    ensures r.None? <==> !exists id | id in ids :: target <= id
  {
    if target in ids {
      assert target <= target;
      return Some(target);
    }
    var rest := ids;
    while rest != {}
      invariant rest <= ids
      invariant forall id | id in ids && id !in rest :: !(target <= id)
      decreases rest
    {
      var id :| id in rest;
      if target <= id {
        return Some(id);
      }
      rest := rest - {id};
    }
    return None;
  }

  // ---- What the operations do to the data --------------------------------------------

  datatype Request =
    | IsApproved(id: Str)
    | Register(info: PendingInfo)
    | Approve(target: Str, at: Str)
    | Revoke(target: Str)

  function WithPending(d: TrustData, info: PendingInfo): TrustData {
    d.(pending := d.pending[info.clientId := info])
  }

  function Approval(p: PendingInfo, at: Str): ApprovedInfo {
    ApprovedInfo(p.clientId, p.hostname, p.deviceName, at)
  }

  function WithApproval(d: TrustData, id: Str, at: Str): TrustData
    requires id in d.pending
  {
    TrustData(d.approved[id := Approval(d.pending[id], at)], d.pending - {id})
  }

  function WithoutApproval(d: TrustData, id: Str): TrustData {
    d.(approved := d.approved - {id})
  }

  /** Whether a request, executed under the lock, changes the data. `choice` is the id that the
      lookup settled on. */
  predicate Changes(d: TrustData, request: Request, choice: Str) {
    match request
    case IsApproved(_) => false
    case Register(info) => info.clientId !in d.approved
    case Approve(target, _) => Resolves(d.pending.Keys, target, choice)
    case Revoke(target) => Resolves(d.approved.Keys, target, choice)
  }

  function Apply(d: TrustData, request: Request, choice: Str): TrustData {
    if !Changes(d, request, choice) then d
    else
      match request
      case IsApproved(_) => d
      case Register(info) => WithPending(d, info)
      case Approve(_, at) => WithApproval(d, choice, at)
      case Revoke(_) => WithoutApproval(d, choice)
  }

  lemma ApplyKeepsWellFormed(d: TrustData, request: Request, choice: Str)
    requires WellFormed(d)
    ensures WellFormed(Apply(d, request, choice))
  {
  }

  /** A successful approve moves exactly one client from pending to approved, with its record;
      nobody enters or leaves the store, and every other record stays as it was. */
  lemma ApproveMovesOne(d: TrustData, target: Str, at: Str, id: Str)
    requires WellFormed(d) && Resolves(d.pending.Keys, target, id)
    ensures var e := Apply(d, Approve(target, at), id);
            && target <= id && id in d.pending && id !in d.approved
            && (target in d.pending ==> id == target)
            && e.approved == d.approved[id := ApprovedInfo(id, d.pending[id].hostname, d.pending[id].deviceName, at)]
            && e.pending.Keys == d.pending.Keys - {id}
            && (forall other | other in e.pending :: e.pending[other] == d.pending[other])
            && e.approved.Keys + e.pending.Keys == d.approved.Keys + d.pending.Keys
  {
    hide ValidUtf8;
  }

  /** A registration of a client that is not approved adds it to the pending ones, or renews its
      record there, and touches nobody else. */
  lemma RegisterAddsOne(d: TrustData, info: PendingInfo, choice: Str)
    requires info.clientId !in d.approved
    ensures var e := Apply(d, Register(info), choice);
            && e.approved == d.approved
            && e.pending.Keys == d.pending.Keys + {info.clientId}
            && e.pending[info.clientId] == info
            && (forall other | other in d.pending && other != info.clientId :: e.pending[other] == d.pending[other])
  {
    hide ValidUtf8;
  }

  lemma RegisteredIs(d: TrustData, e: TrustData, info: PendingInfo)
    requires e.approved == d.approved && e.pending.Keys == d.pending.Keys + {info.clientId} && e.pending[info.clientId] == info
    requires forall other | other in d.pending && other != info.clientId :: e.pending[other] == d.pending[other]
    ensures e == WithPending(d, info)
  {
    hide ValidUtf8;
    assert e.pending == d.pending[info.clientId := info];
  }

  /** A registration of an approved client, a question, and a request that settles on nobody
      change nothing. */
  lemma NothingChanges(d: TrustData, request: Request, choice: Str)
    requires match request
      case IsApproved(_) => true
      case Register(info) => info.clientId in d.approved
      case Approve(target, _) => !exists id | id in d.pending :: target <= id
      case Revoke(target) => !exists id | id in d.approved :: target <= id
    ensures Apply(d, request, choice) == d
  {
    match request
    case Approve(target, _) => if choice in d.pending { assert target == choice ==> target <= choice; }
    case Revoke(target) => if choice in d.approved { assert target == choice ==> target <= choice; }
    case _ =>
  }

  /** A successful revoke takes away exactly one client's approval, and nothing else. */
  lemma RevokeRemovesOne(d: TrustData, target: Str, id: Str)
    requires Resolves(d.approved.Keys, target, id)
    ensures var e := Apply(d, Revoke(target), id);
            && target <= id && id in d.approved && (target in d.approved ==> id == target)
            && e.approved.Keys == d.approved.Keys - {id}
            && (forall other | other in e.approved :: e.approved[other] == d.approved[other])
            && e.pending == d.pending
  {
    hide ValidUtf8;
  }

  lemma ApproveCounts(d: TrustData, target: Str, at: Str, id: Str)
    requires WellFormed(d) && Resolves(d.pending.Keys, target, id)
    ensures var e := Apply(d, Approve(target, at), id);
            |e.approved| == |d.approved| + 1 && |e.pending| == |d.pending| - 1
  {
    hide ValidUtf8;
    ApproveMovesOne(d, target, at, id);
    var e := Apply(d, Approve(target, at), id);
    assert |d.pending.Keys| == |d.pending| && |e.pending.Keys| == |e.pending|;
  }

  // ---- The store as an object --------------------------------------------------------

  /** The shared file; None when it is missing or does not parse. */
  class TrustFile {
    var contents: Option<TrustData>

    constructor (contents: Option<TrustData>)
      ensures this.contents == contents
    {
      this.contents := contents;
    }
  }

  /** What reading the file gives; reading it may fail. */
  function ReadFrom(file: Option<TrustData>, readable: bool): Option<TrustData> {
    if readable then file else None
  }

  function Reloaded(file: Option<TrustData>, memory: TrustData): TrustData {
    match file case Some(d) => d case None => memory
  }

  datatype Outcome<T> = Done(value: T) | NoMatch | SaveFailed

  class TrustManager {
    const file: TrustFile
    var data: TrustData

    constructor (file: TrustFile, readable: bool)
      ensures this.file == file
      ensures data == if readable && file.contents.Some? then file.contents.value else TrustData(map[], map[])
    {
      this.file := file;
      data := Reloaded(ReadFrom(file.contents, readable), EMPTY);
    }

    method Reload(readable: bool)
      modifies this`data
      ensures data == if readable && file.contents.Some? then file.contents.value else old(data)
    {
      if readable && file.contents.Some? {
        data := file.contents.value;
      }
    }

    /** Writing the file may fail. */
    method Save(writable: bool) returns (saved: bool)
      modifies file
      ensures saved == writable
      ensures file.contents == if writable then Some(data) else old(file.contents)
    {
      if writable {
        file.contents := Some(data);
      }
      saved := writable;
    }

    method IsApproved(id: Str, readable: bool) returns (approved: bool)
      modifies this`data
      ensures data == if readable && file.contents.Some? then file.contents.value else old(data)
      ensures approved <==> id in data.approved
    {
      Reload(readable);
      approved := id in data.approved;
    }

    method RegisterPending(info: PendingInfo, readable: bool, writable: bool)
      modifies this`data, file
      ensures var d := if readable && old(file.contents).Some? then old(file.contents).value else old(data);
              if info.clientId in d.approved then data == d && file.contents == old(file.contents)
              else
                && data.approved == d.approved
                && data.pending.Keys == d.pending.Keys + {info.clientId} && data.pending[info.clientId] == info
                && (forall other | other in d.pending && other != info.clientId :: data.pending[other] == d.pending[other])
                && file.contents == if writable then Some(data) else old(file.contents)
    {
      Reload(readable);
      if info.clientId in data.approved {
        return;
      }
      data := data.(pending := data.pending[info.clientId := info]);
      var _ := Save(writable);
    }

    method Approve(target: Str, now: Str, readable: bool, writable: bool) returns (r: Outcome<ApprovedInfo>)
      modifies this`data, file
      ensures var d := if readable && old(file.contents).Some? then old(file.contents).value else old(data);
              && (r.NoMatch? <==> !exists id | id in d.pending :: target <= id)
              && (r.NoMatch? ==> data == d && file.contents == old(file.contents))
              && (!r.NoMatch? ==> exists id ::
                    && id in d.pending && (if target in d.pending then id == target else target <= id)
                    && var approved := ApprovedInfo(d.pending[id].clientId, d.pending[id].hostname, d.pending[id].deviceName, now);
                       && data.approved == d.approved[id := approved]
                       && data.pending == d.pending - {id}
                       && r == (if writable then Done(approved) else SaveFailed)
                       && file.contents == if writable then Some(data) else old(file.contents))
    {
      Reload(readable);
      ghost var d := data;
      var matched := FindId(data.pending.Keys, target);
      match matched {
        case None => return NoMatch;
        case Some(id) =>
          SomeIdResolvesIffMatches(d.pending.Keys, target);
          var pending := data.pending[id];
          var approved := ApprovedInfo(pending.clientId, pending.hostname, pending.deviceName, now);
          data := TrustData(data.approved[id := approved], data.pending - {id});
          var saved := Save(writable);
          r := if saved then Done(approved) else SaveFailed;
          assert id in d.pending && (if target in d.pending then id == target else target <= id)
                 && data.approved == d.approved[id := approved] && data.pending == d.pending - {id};
      }
    }

    method Revoke(target: Str, readable: bool, writable: bool) returns (r: Outcome<bool>)
      modifies this`data, file
      ensures var d := if readable && old(file.contents).Some? then old(file.contents).value else old(data);
              && (r.NoMatch? <==> !exists id | id in d.approved :: target <= id)
              && (r.NoMatch? ==> data == d && file.contents == old(file.contents))
              && (!r.NoMatch? ==> exists id ::
                    && id in d.approved && (if target in d.approved then id == target else target <= id)
                    && data.approved == d.approved - {id} && data.pending == d.pending
                    && r == (if writable then Done(true) else SaveFailed)
                    && file.contents == if writable then Some(data) else old(file.contents))
    {
      Reload(readable);
      ghost var d := data;
      var matched := FindId(data.approved.Keys, target);
      match matched {
        case None => return NoMatch;
        case Some(id) =>
          SomeIdResolvesIffMatches(d.approved.Keys, target);
          data := data.(approved := data.approved - {id});
          var saved := Save(writable);
          r := if saved then Done(true) else SaveFailed;
          assert id in d.approved && (if target in d.approved then id == target else target <= id)
                 && data.approved == d.approved - {id} && data.pending == d.pending;
      }
    }
  }
}
