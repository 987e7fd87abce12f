/**
 How the onboarding server matches a node to a host of the Inventory: by UUID, by serial number or by
 both. `Identify` is the specification of the lookup; the class follows the code.
 */
module NodeIdentity {
  import opened Wrappers
  import opened Inventory
  import opened NodeRequest

  type HostId = nat

  /** Registration status of a host; both failures carry the status indication ERROR. */
  datatype Registration =
    | NotRegistered
    | RegistrationDone
    | SerialFailed(reported: string)
    | UuidFailed(reported: string)

  datatype HostRecord = HostRecord(
    uuid: string, serial: string, tenant: string,
    desired: HostState, current: HostState, registration: Registration, onboardingDone: bool,
    bmcIp: string, pxeMac: string)

  type Hosts = map<HostId, HostRecord>

  /** Whether the two searches work for one request, and how a write to the host found ends. */
  datatype Calls = Calls(listByUuid: bool, listBySerial: bool, update: Err)

  const ALL_SUCCEED := Calls(true, true, NoErr)

  datatype Failure = NoSuchNode | Mismatch | InternalFailure

  predicate RegistrationError(r: Registration) {
    r.SerialFailed? || r.UuidFailed?
  }

  /** Outcome of a lookup that expects at most one host. */
  datatype Search = Nobody | One(id: HostId) | Broken

  ghost function SearchIn(ids: set<HostId>, ok: bool): (s: Search)
    ensures s.One? <==> ok && exists h :: ids == {h}
    ensures s.One? ==> ids == {s.id}
    ensures s.Nobody? <==> ok && ids == {}
  {
    if !ok then Broken
    else if ids == {} then Nobody
    else if h: HostId :| ids == {h} then One(h)
    else Broken
  }

  function WithUuid(hosts: Hosts, uuid: string): set<HostId> {
    set h | h in hosts && hosts[h].uuid == uuid
  }

  function WithSerial(hosts: Hosts, serial: string): set<HostId> {
    set h | h in hosts && hosts[h].serial == serial
  }

  /** Records a failed registration; the write also blanks the reported addresses. */
  function MarkFailed(hosts: Hosts, h: HostId, r: Registration): Hosts
    requires h in hosts
  {
    hosts[h := hosts[h].(registration := r, bmcIp := "", pxeMac := "")]
  }

  /** The answer after recording a failed registration; the error of the write itself is passed on. */
  function RecordFailure(hosts: Hosts, h: HostId, r: Registration, c: Calls): (Hosts, Result<HostId, Failure>)
    requires h in hosts
  {
    if c.update == NoErr then (MarkFailed(hosts, h, r), Err(NoSuchNode))
    else (hosts, Err(if c.update == NotFound then NoSuchNode else InternalFailure))
  }

  ghost function Identify(hosts: Hosts, req: Request, c: Calls): (r: (Hosts, Result<HostId, Failure>))
    ensures r.1.Ok? ==> r.1.value in r.0
    ensures r.0.Keys == hosts.Keys
  {
    var byUuid := if req.uuid == "" then Nobody else SearchIn(WithUuid(hosts, req.uuid), c.listByUuid);
    if byUuid.Broken? then (hosts, Err(InternalFailure))
    else
      assert byUuid.One? ==> byUuid.id in WithUuid(hosts, req.uuid);
      if byUuid.One? && (hosts[byUuid.id].serial == "" || req.serial == "") then (hosts, Ok(byUuid.id))
      else
        var bySerial := if req.serial == "" then Nobody else SearchIn(WithSerial(hosts, req.serial), c.listBySerial);
        assert bySerial.One? ==> bySerial.id in WithSerial(hosts, req.serial);
        if bySerial.Broken? then (hosts, Err(InternalFailure))
        else if byUuid.One? && bySerial.One? then
          (hosts, if byUuid.id == bySerial.id then Ok(byUuid.id) else Err(Mismatch))
        else if byUuid.One? then
          RecordFailure(hosts, byUuid.id, SerialFailed(req.serial), c)
        else if bySerial.One? then
          var b := bySerial.id;
          if hosts[b].uuid != "" then RecordFailure(hosts, b, UuidFailed(req.uuid), c)
          else if c.update == NoErr then (hosts[b := hosts[b].(uuid := req.uuid)], Ok(b))
          else (hosts, Err(InternalFailure))
        else (hosts, Err(NoSuchNode))
  }

  // ---------------------------------------------------------------------------------------------
  // Soundness and completeness.
  // ---------------------------------------------------------------------------------------------

  ghost predicate Unique(hosts: Hosts) {
    forall g, h :: g in hosts && h in hosts && g != h ==>
      && (hosts[g].uuid != "" ==> hosts[g].uuid != hosts[h].uuid)
      && (hosts[g].serial != "" ==> hosts[g].serial != hosts[h].serial)
  }

  ghost predicate UniqueUuids(hosts: Hosts) {
    forall g, h :: g in hosts && h in hosts && g != h && hosts[g].uuid != "" ==> hosts[g].uuid != hosts[h].uuid
  }

  ghost predicate UuidKnown(hosts: Hosts, req: Request) {
    req.uuid != "" && exists g :: g in hosts && hosts[g].uuid == req.uuid
  }

  /** The node is this host: the UUIDs agree and the serial numbers do not contradict each other, or
      nobody has the UUID and the host was registered by serial number alone. */
  ghost predicate Matches(hosts: Hosts, req: Request, h: HostId) {
    h in hosts &&
    (|| (req.uuid != "" && hosts[h].uuid == req.uuid
         && (hosts[h].serial == "" || req.serial == "" || hosts[h].serial == req.serial))
     || (!UuidKnown(hosts, req) && req.serial != "" && hosts[h].serial == req.serial && hosts[h].uuid == ""))
  }

  /** Only half of the identity fits: the UUID is this host's but nobody has the serial number, or the
      serial number is but nobody has the UUID. */
  ghost predicate HalfMatches(hosts: Hosts, req: Request, h: HostId) {
    h in hosts && req.serial != "" && !Matches(hosts, req, h) &&
    (|| (req.uuid != "" && hosts[h].uuid == req.uuid && WithSerial(hosts, req.serial) == {})
     || (!UuidKnown(hosts, req) && hosts[h].serial == req.serial))
  }

  /** What the two searches find when calls work. */
  lemma SearchesFind(hosts: Hosts, req: Request)
    requires Unique(hosts)
    ensures var byUuid := SearchIn(WithUuid(hosts, req.uuid), true);
      && (req.uuid != "" ==> forall h :: h in hosts && hosts[h].uuid == req.uuid ==> byUuid == One(h))
      && ((forall h :: h in hosts ==> hosts[h].uuid != req.uuid) ==> byUuid == Nobody)
    ensures var bySerial := SearchIn(WithSerial(hosts, req.serial), true);
      && (req.serial != "" ==> forall h :: h in hosts && hosts[h].serial == req.serial ==> bySerial == One(h))
      && ((forall h :: h in hosts ==> hosts[h].serial != req.serial) ==> bySerial == Nobody)
  {
    UniqueSearch(hosts, req.uuid, req.serial);
    var u, n := SearchIn(WithUuid(hosts, req.uuid), true), SearchIn(WithSerial(hosts, req.serial), true);
    forall h | h in hosts && hosts[h].uuid == req.uuid && req.uuid != "" ensures u == One(h) {
      assert WithUuid(hosts, req.uuid) == {h};
    }
    forall h | h in hosts && hosts[h].serial == req.serial && req.serial != "" ensures n == One(h) {
      assert WithSerial(hosts, req.serial) == {h};
    }
  }

  lemma UniqueSearch(hosts: Hosts, uuid: string, serial: string)
    requires Unique(hosts)
    ensures uuid != "" ==> forall h :: h in hosts && hosts[h].uuid == uuid ==> WithUuid(hosts, uuid) == {h}
    ensures serial != "" ==> forall h :: h in hosts && hosts[h].serial == serial ==> WithSerial(hosts, serial) == {h}
  {
  }

  /** With unique non-empty identifiers and working calls, the lookup returns exactly the matching host, and
      otherwise says that there is no such node. */
  lemma IdentifyIsSoundAndComplete(hosts: Hosts, req: Request)
    requires Unique(hosts)
    ensures var r := Identify(hosts, req, ALL_SUCCEED).1;
      && (forall h: HostId :: r == Ok(h) <==> Matches(hosts, req, h))
      && (r == Err(NoSuchNode) || r == Err(Mismatch) <==> r.Err?)
  {
    SearchesFind(hosts, req);
  }

  /** Its only write to the host it returns is a missing UUID. */
  lemma OnlyMissingUuidIsFilled(hosts: Hosts, req: Request, h: HostId)
    requires Unique(hosts) && Identify(hosts, req, ALL_SUCCEED).1 == Ok(h)
    ensures h in hosts
    ensures var uuid := if hosts[h].uuid == "" then req.uuid else hosts[h].uuid;
      Identify(hosts, req, ALL_SUCCEED).0 == hosts[h := hosts[h].(uuid := uuid)]
  {
    SearchesFind(hosts, req);
  }

  /** Its only other write is a registration failure, on the one host that matches by half. */
  lemma FailureIsRecordedIff(hosts: Hosts, req: Request)
    requires Unique(hosts)
    ensures var (after, r) := Identify(hosts, req, ALL_SUCCEED);
      && (forall h :: HalfMatches(hosts, req, h) ==>
            && r == Err(NoSuchNode)
            && after == MarkFailed(hosts, h,
                 if hosts[h].uuid == req.uuid && req.uuid != ""
                 then SerialFailed(req.serial) else UuidFailed(req.uuid)))
      && (r.Err? && (forall h :: !HalfMatches(hosts, req, h)) ==> after == hosts)
  {
    SearchesFind(hosts, req);
    forall h | h in hosts && hosts[h].serial == req.serial ensures WithSerial(hosts, req.serial) != {} {
      assert h in WithSerial(hosts, req.serial);
    }
  }

  /** Whatever calls fail and whatever serial numbers hosts share, a host is only ever returned to a node it
      matches. */
  lemma IdentifyIsSound(hosts: Hosts, req: Request, c: Calls, h: HostId)
    requires UniqueUuids(hosts) && Identify(hosts, req, c).1 == Ok(h)
    ensures Matches(hosts, req, h)
  {
    assert h in WithUuid(hosts, req.uuid) || h in WithSerial(hosts, req.serial);
    if UuidKnown(hosts, req) {
      var g :| g in hosts && hosts[g].uuid == req.uuid;
      assert WithUuid(hosts, req.uuid) == {g};
    }
  }

  /** The lookup never creates or removes hosts, never changes a state, and never clears a registration
      error, whatever calls fail. */
  lemma IdentifyKeeps(hosts: Hosts, req: Request, c: Calls, h: HostId)
    requires h in hosts
    ensures var after := Identify(hosts, req, c).0;
      && after[h].desired == hosts[h].desired && after[h].current == hosts[h].current
      && after[h].tenant == hosts[h].tenant && after[h].serial == hosts[h].serial
      && (RegistrationError(hosts[h].registration) ==> RegistrationError(after[h].registration))
      && (hosts[h].uuid != "" ==> after[h].uuid == hosts[h].uuid)
  {
  }

  // ---------------------------------------------------------------------------------------------
  // Serial numbers that hosts share, as those do whose own one was unreadable.
  // ---------------------------------------------------------------------------------------------

  /** This host and no other has the serial number. */
  ghost predicate OnlyWithSerial(hosts: Hosts, serial: string, h: HostId) {
    h in hosts && forall g :: g in hosts ==> (hosts[g].serial == serial <==> g == h)
  }

  ghost predicate SharedSerial(hosts: Hosts, serial: string) {
    exists g, h :: g in hosts && h in hosts && g != h && hosts[g].serial == hosts[h].serial == serial
  }

  ghost predicate WithUuidOf(hosts: Hosts, req: Request, h: HostId) {
    h in hosts && req.uuid != "" && hosts[h].uuid == req.uuid
  }

  /** The host a node with a serial number is taken for: the one with its UUID if that has no serial number or
      is the only one with the reported one; or, if nobody has the UUID, the only host with the serial number
      if that has no UUID. */
  ghost predicate Identified(hosts: Hosts, req: Request, h: HostId) {
    if UuidKnown(hosts, req)
    then WithUuidOf(hosts, req, h) && (hosts[h].serial == "" || OnlyWithSerial(hosts, req.serial, h))
    else OnlyWithSerial(hosts, req.serial, h) && hosts[h].uuid == ""
  }

  /** With unique identifiers this is the host that matches. */
  lemma IdentifiedIsMatching(hosts: Hosts, req: Request, h: HostId)
    requires Unique(hosts) && req.serial != ""
    ensures Identified(hosts, req, h) <==> Matches(hosts, req, h)
  {
  }

  lemma SearchByUuid(hosts: Hosts, req: Request, h: HostId)
    requires UniqueUuids(hosts) && WithUuidOf(hosts, req, h)
    ensures SearchIn(WithUuid(hosts, req.uuid), true) == One(h)
  {
    assert WithUuid(hosts, req.uuid) == {h};
  }

  lemma SearchBySerial(hosts: Hosts, serial: string)
    ensures forall h: HostId ::
      SearchIn(WithSerial(hosts, serial), true) == One(h) <==> OnlyWithSerial(hosts, serial, h)
    ensures SearchIn(WithSerial(hosts, serial), true).Broken? <==> SharedSerial(hosts, serial)
  {
    var ids := WithSerial(hosts, serial);
    forall h: HostId ensures ids == {h} <==> OnlyWithSerial(hosts, serial, h) {
      if OnlyWithSerial(hosts, serial, h) {
        assert ids == {h};
      } else if ids == {h} {
        assert forall g :: g in hosts ==> (g in ids <==> hosts[g].serial == serial);
      }
    }
    if SharedSerial(hosts, serial) {
      var g, h :| g in hosts && h in hosts && g != h && hosts[g].serial == hosts[h].serial == serial;
      assert g in ids && h in ids;
    } else if ids != {} {
      var g :| g in ids;
      assert forall h :: h in ids ==> h == g;
      assert ids == {g};
    }
  }

  /** What the lookup answers when UUIDs are unique but serial numbers need not be: exactly the host that is
      identified. Only a shared serial number is an internal failure, unless the host of the UUID has none. */
  lemma IdentifyWithSharedSerials(hosts: Hosts, req: Request, h: HostId)
    requires UniqueUuids(hosts) && req.serial != ""
    ensures var r := Identify(hosts, req, ALL_SUCCEED).1;
      && (r == Ok(h) <==> Identified(hosts, req, h))
      && (r == Err(InternalFailure) <==>
            && SharedSerial(hosts, req.serial)
            && forall g :: WithUuidOf(hosts, req, g) ==> hosts[g].serial != "")
  {
    SearchBySerial(hosts, req.serial);
    if UuidKnown(hosts, req) {
      var g :| g in hosts && hosts[g].uuid == req.uuid;
      SearchByUuid(hosts, req, g);
      assert WithUuidOf(hosts, req, g);
    } else {
      assert WithUuid(hosts, req.uuid) == {} || req.uuid == "";
    }
  }

  /** What it writes then: the missing UUID of the host it answers; a failure on the host of the UUID if
      nobody has the serial number; or one on the only host with the serial number if nobody has the UUID. */
  lemma WritesWithSharedSerials(hosts: Hosts, req: Request, h: HostId)
    requires UniqueUuids(hosts) && req.serial != "" && h in hosts
    ensures var after := Identify(hosts, req, ALL_SUCCEED).0; var known := UuidKnown(hosts, req);
      after[h] ==
        if known && WithUuidOf(hosts, req, h) && hosts[h].serial != "" && WithSerial(hosts, req.serial) == {}
        then hosts[h].(registration := SerialFailed(req.serial), bmcIp := "", pxeMac := "")
        else if !known && OnlyWithSerial(hosts, req.serial, h)
        then if hosts[h].uuid == "" then hosts[h].(uuid := req.uuid)
             else hosts[h].(registration := UuidFailed(req.uuid), bmcIp := "", pxeMac := "")
        else hosts[h]
  {
    SearchBySerial(hosts, req.serial);
    if UuidKnown(hosts, req) {
      var g :| g in hosts && hosts[g].uuid == req.uuid;
      SearchByUuid(hosts, req, g);
      assert WithUuidOf(hosts, req, h) ==> h == g;
    } else {
      assert WithUuid(hosts, req.uuid) == {} || req.uuid == "";
    }
  }

  /** A host that the node would be given, but for the write of its UUID. */
  ghost predicate LacksUuid(hosts: Hosts, req: Request) {
    !UuidKnown(hosts, req) && exists h :: OnlyWithSerial(hosts, req.serial, h) && hosts[h].uuid == ""
  }

  /** Half of the identity is some host's and the other half is nobody's. */
  ghost predicate HalfKnown(hosts: Hosts, req: Request) {
    if UuidKnown(hosts, req) then WithSerial(hosts, req.serial) == {}
    else exists h :: OnlyWithSerial(hosts, req.serial, h) && hosts[h].uuid != ""
  }

  /** What failing calls make of the lookup: a host that has the UUID and no serial number needs one search only; a
      search that fails is an internal failure; so is a missing UUID that cannot be written; and a mismatch that cannot
      be recorded passes on how the write failed. Nothing is written by a lookup in which a call failed, and nothing
      else depends on the calls. */
  lemma IdentifyWithFailingCalls(hosts: Hosts, req: Request, c: Calls)
    requires UniqueUuids(hosts) && req.uuid != "" && req.serial != ""
    ensures var bare := exists h :: WithUuidOf(hosts, req, h) && hosts[h].serial == "";
      Identify(hosts, req, c) ==
        if !c.listByUuid || (!bare && !c.listBySerial) then (hosts, Err(InternalFailure))
        else if bare || c.update == NoErr then Identify(hosts, req, ALL_SUCCEED)
        else if LacksUuid(hosts, req) then (hosts, Err(InternalFailure))
        else if HalfKnown(hosts, req) then (hosts, Err(if c.update == NotFound then NoSuchNode else InternalFailure))
        else (hosts, Identify(hosts, req, ALL_SUCCEED).1)
  {
    SearchBySerial(hosts, req.serial);
    if UuidKnown(hosts, req) {
      var g :| g in hosts && hosts[g].uuid == req.uuid;
      SearchByUuid(hosts, req, g);
      assert forall h :: WithUuidOf(hosts, req, h) <==> h == g;
    } else {
      assert WithUuid(hosts, req.uuid) == {};
    }
  }

  /** A node with an unreadable serial number is taken for a host exactly if the host has its UUID and no
      serial number or as the only one an unreadable one too, or if nobody has its UUID and the only host
      with an unreadable serial number has no UUID. */
  lemma PlaceholderSerialAcceptedIff(hosts: Hosts, req: Request, h: HostId)
    requires UniqueUuids(hosts) && Validate(req).BadSerial?
    ensures Identify(hosts, Normalise(req), ALL_SUCCEED).1 == Ok(h) <==>
      h in hosts &&
      if exists g :: g in hosts && hosts[g].uuid == req.uuid
      then hosts[h].uuid == req.uuid && (hosts[h].serial == "" || OnlyWithSerial(hosts, NOT_AVAILABLE, h))
      else hosts[h].uuid == "" && OnlyWithSerial(hosts, NOT_AVAILABLE, h)
  {
    ServedRequest(req);
    IdentifyWithSharedSerials(hosts, Normalise(req), h);
  }

  // ---------------------------------------------------------------------------------------------
  // The lookup, step by step.
  // ---------------------------------------------------------------------------------------------

  class HostStore {
    var hosts: Hosts

    constructor (hosts: Hosts)
      ensures this.hosts == hosts
    {
      this.hosts := hosts;
    }

    method GetHostResource(ids: set<HostId>, ok: bool) returns (s: Search)
      requires ids <= hosts.Keys
      ensures s == SearchIn(ids, ok)
    {
      if !ok {
        return Broken;
      }
      if |ids| == 0 {
        return Nobody;
      }
      var h :| h in ids;
      if |ids| == 1 {
        assert |ids - {h}| == 0;
        assert ids == {h};
        return One(h);
      }
      assert forall g :: ids == {g} ==> |ids| == 1;
      return Broken;
    }

    method FindHost(req: Request, c: Calls) returns (r: Result<HostId, Failure>)
      modifies this
      ensures (hosts, r) == Identify(old(hosts), req, c)
    {
      var uuidMatch, serialMatch := false, false;
      var byUuid, bySerial := Nobody, Nobody;
      if req.uuid != "" {
        byUuid := GetHostResource(WithUuid(hosts, req.uuid), c.listByUuid);
        if byUuid.Broken? {
          return Err(InternalFailure);
        }
        if byUuid.One? {
          uuidMatch := true;
          assert byUuid.id in WithUuid(hosts, req.uuid);
          if hosts[byUuid.id].serial == "" {
            return Ok(byUuid.id);
          }
        }
      }
      if req.serial != "" {
        bySerial := GetHostResource(WithSerial(hosts, req.serial), c.listBySerial);
        if bySerial.Broken? {
          return Err(InternalFailure);
        }
        if bySerial.One? {
          serialMatch := true;
          assert bySerial.id in WithSerial(hosts, req.serial);
          var h := if uuidMatch then byUuid.id else bySerial.id;
          if hosts[h].uuid == "" {
            if c.update != NoErr {
              return Err(InternalFailure);
            }
            hosts := hosts[h := hosts[h].(uuid := req.uuid)];
            return Ok(h);
          }
        }
      } else if uuidMatch {
        return Ok(byUuid.id);
      }
      if uuidMatch && serialMatch {
        if byUuid.id != bySerial.id {
          return Err(Mismatch);
        }
      }
      if uuidMatch != serialMatch {
        var h := if uuidMatch then byUuid.id else bySerial.id;
        var status := if !serialMatch then SerialFailed(req.serial) else UuidFailed(req.uuid);
        if c.update != NoErr {
          return Err(if c.update == NotFound then NoSuchNode else InternalFailure);
        }
        hosts := MarkFailed(hosts, h, status);
        return Err(NoSuchNode);
      }
      if uuidMatch && serialMatch {
        return Ok(byUuid.id);
      }
      return Err(NoSuchNode);
    }
  }
}
