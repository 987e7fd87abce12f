/**
 Interactive onboarding: the CreateNodes call of onboarding-manager with the zero-touch provisioning it
 starts, and the node's loop of at most three attempts around it.
 */
module CreateNodes {
  import opened Wrappers
  import opened Inventory
  import opened NodeRequest
  import opened NodeIdentity

  /** The hosts, the host of each Instance that exists, the next free host id, and the internal events sent, each
      for the Instance of a host. */
  datatype Store = Store(hosts: Hosts, instances: seq<HostId>, nextId: HostId, events: seq<HostId>)

  ghost predicate Valid(s: Store) {
    forall h :: h in s.hosts || h in s.instances ==> h < s.nextId
  }

  /** The provider configuration as zero-touch finds it. */
  datatype ProviderConfig = Unavailable | Config(autoProvision: bool)

  /** Which of the calls made for one request succeed; `skip` is the profile without OS provisioning. `running`
      is what is read of the state of an existing Instance, `listening` whether somebody takes internal events:
      without a listener an event is dropped. */
  datatype CreateCalls = CreateCalls(
    skip: bool, lookup: bool, update: bool, create: bool,
    readHost: bool, running: bool, listening: bool,
    provider: ProviderConfig, readDefaults: bool, createInstance: bool)

  predicate AllSucceed(c: CreateCalls) {
    c.lookup && c.update && c.create && c.readHost && c.readDefaults && c.createInstance
  }

  datatype Reply = Project(id: string) | Refused

  /** The node as it introduces itself, within its tenant. */
  datatype Introduction = Introduction(tenant: string, node: Request)

  function Matching(s: Store, req: Introduction): set<HostId> {
    set h | h in s.hosts && s.hosts[h].tenant == req.tenant && s.hosts[h].uuid == req.node.uuid
  }

  /** The host created for a node; its registration status stays unknown. */
  function NewHost(req: Introduction): HostRecord {
    var n := Normalise(req.node);
    HostRecord(n.uuid, n.serial, req.tenant, HostUnspecified, HostOnboarded, NotRegistered, true, n.ip, n.mac)
  }

  /** A known host with another serial number; whatever its registration status was, it is unknown again. */
  function UpdatedHost(host: HostRecord, req: Introduction): HostRecord {
    var n := Normalise(req.node);
    host.(serial := n.serial, bmcIp := n.ip, pxeMac := n.mac,
          current := HostOnboarded, onboardingDone := true, registration := NotRegistered)
  }

  function WithNewHost(s: Store, req: Introduction): Store {
    s.(hosts := s.hosts[s.nextId := NewHost(req)], nextId := s.nextId + 1)
  }

  function WithUpdatedHost(s: Store, req: Introduction, h: HostId): Store
    requires h in s.hosts
  {
    s.(hosts := s.hosts[h := UpdatedHost(s.hosts[h], req)])
  }

  function SendEvent(s: Store, h: HostId, c: CreateCalls): Store {
    if c.listening then s.(events := s.events + [h]) else s
  }

  function ZeroTouch(s: Store, h: HostId, c: CreateCalls): (Store, bool) {
    if c.skip then (s, true)
    else if !c.readHost then (s, false)
    else if h in s.instances then (if c.running then s else SendEvent(s, h, c), true)
    else if c.provider.Unavailable? || !c.provider.autoProvision then (s, true)
    else if !c.readDefaults || !c.createInstance then (s, false)
    else (s.(instances := s.instances + [h]), true)
  }

  ghost function CreateNodes(s: Store, req: Introduction, c: CreateCalls): (Store, Reply) {
    var found := Matching(s, req);
    if Validate(req.node).BadField? || !c.lookup then (s, Refused)
    else if found == {} then
      if !c.create then (s, Refused)
      else
        var (s2, ok) := ZeroTouch(WithNewHost(s, req), s.nextId, c);
        (s2, if ok then Project("") else Refused)
    else if h: HostId :| found == {h} then
      assert h in found;
      var same := s.hosts[h].serial == Normalise(req.node).serial;
      if !same && !c.update then (s, Refused)
      else
        var s1 := if same then s else WithUpdatedHost(s, req, h);
        var (s2, ok) := ZeroTouch(s1, h, c);
        (s2, if ok then Project(req.tenant) else Refused)
    else (s, Refused)
  }

  // ---------------------------------------------------------------------------------------------
  // The service and the client, step by step.
  // ---------------------------------------------------------------------------------------------

  class Service {
    var store: Store

    constructor (store: Store)
      ensures this.store == store
    {
      this.store := store;
    }

    method StartZeroTouch(h: HostId, c: CreateCalls) returns (ok: bool)
      modifies this
      ensures (store, ok) == ZeroTouch(old(store), h, c)
    {
      if c.skip {
        return true;
      }
      if !c.readHost {
        return false;
      }
      if h in store.instances {
        if !c.running {
          SendInternalEvent(h, c);
        }
        return true;
      }
      if c.provider.Unavailable? {
        return true;
      }
      if c.provider.autoProvision {
        if !c.readDefaults {
          return false;
        }
        if !c.createInstance {
          return false;
        }
        store := store.(instances := store.instances + [h]);
      }
      return true;
    }

    method SendInternalEvent(h: HostId, c: CreateCalls)
      modifies this
      ensures store == SendEvent(old(store), h, c)
    {
      if c.listening {
        store := store.(events := store.events + [h]);
      }
    }

    method Create(req: Introduction, c: CreateCalls) returns (r: Reply)
      modifies this
      ensures (store, r) == CreateNodes(old(store), req, c)
    {
      var host := req.node;
      var verdict := Validate(host);
      if verdict != Valid {
        if verdict == BadSerial {
          host := host.(serial := NOT_AVAILABLE);
        } else {
          return Refused;
        }
      }
      if !c.lookup {
        return Refused;
      }
      var found := Matching(store, req);
      if found == {} {
        if !c.create {
          return Refused;
        }
        var h := store.nextId;
        store := store.(
          hosts := store.hosts[h := HostRecord(
            host.uuid, host.serial, req.tenant, HostUnspecified, HostOnboarded, NotRegistered, true,
            host.ip, host.mac)],
          nextId := h + 1);
        var ok := StartZeroTouch(h, c);
        // the looked-up host is still absent here, so its project id reads as empty
        return if ok then Project("") else Refused;
      }
      if |found| > 1 {
        assert forall g :: found == {g} ==> |found| == 1;
        return Refused;
      }
      var h :| h in found;
      assert found == {h} by { assert |found - {h}| == 0; }
      var hostInv := store.hosts[h];
      if hostInv.serial != host.serial {
        if !c.update {
          return Refused;
        }
        hostInv := hostInv.(serial := host.serial);
        hostInv := hostInv.(bmcIp := host.ip, pxeMac := host.mac);
        hostInv := hostInv.(current := HostOnboarded, onboardingDone := true, registration := NotRegistered);
        store := store.(hosts := store.hosts[h := hostInv]);
      }
      var ok := StartZeroTouch(h, c);
      return if ok then Project(req.tenant) else Refused;
    }

    /** The node's loop: an error or an empty project id is retried, at most three attempts in all. */
    method Onboard(req: Introduction, calls: seq<CreateCalls>, saved: seq<bool>)
      returns (project: Option<string>, attempts: nat)
      requires |calls| == |saved| == 3
      modifies this
      ensures (store, project, attempts) == Attempts(old(store), req, calls, saved, 0)
    {
      var retries := 0;
      while retries < 3
        invariant 0 <= retries <= 3
        invariant Attempts(old(store), req, calls, saved, 0) == Attempts(store, req, calls, saved, retries)
      {
        var r := Create(req, calls[retries]);
        if r.Project? && r.id != "" && saved[retries] {
          return Some(r.id), retries + 1;
        }
        retries := retries + 1;
      }
      return None, 3;
    }
  }

  ghost function Attempts(s: Store, req: Introduction, calls: seq<CreateCalls>, saved: seq<bool>, k: nat)
    : (Store, Option<string>, nat)
    requires k <= 3 == |calls| == |saved|
    decreases 3 - k
  {
    if k == 3 then (s, None, 3)
    else
      var (s1, r) := CreateNodes(s, req, calls[k]);
      if r.Project? && r.id != "" && saved[k] then (s1, Some(r.id), k + 1) else Attempts(s1, req, calls, saved, k + 1)
  }

  // ---------------------------------------------------------------------------------------------
  // What one call leaves behind, whatever calls fail in it: the host written, the Instance created, the event
  // sent and the reply, each with its exact condition.
  // ---------------------------------------------------------------------------------------------

  /** The host is the node's: same tenant and same UUID. */
  predicate OfNode(host: HostRecord, req: Introduction) {
    host.tenant == req.tenant && host.uuid == req.node.uuid
  }

  ghost predicate NoHost(s: Store, req: Introduction) {
    forall g :: g in s.hosts ==> !OfNode(s.hosts[g], req)
  }

  ghost predicate OnlyHost(s: Store, req: Introduction, h: HostId) {
    h in s.hosts && forall g :: g in s.hosts ==> (OfNode(s.hosts[g], req) <==> g == h)
  }

  function StoredSerial(req: Introduction): string {
    if IsSerial(req.node.serial) then req.node.serial else NOT_AVAILABLE
  }

  /** The call comes to zero-touch for this host: a new one that was created, or the only one known, which has the
      serial number already or was updated. */
  ghost predicate Reached(s: Store, req: Introduction, c: CreateCalls, h: HostId) {
    && !Validate(req.node).BadField? && c.lookup
    && (|| (NoHost(s, req) && c.create && h == s.nextId)
        || (OnlyHost(s, req, h) && (s.hosts[h].serial == StoredSerial(req) || c.update)))
  }

  /** The call creates a host. */
  ghost predicate CreationDue(s: Store, req: Introduction, c: CreateCalls) {
    !Validate(req.node).BadField? && c.lookup && NoHost(s, req) && c.create
  }

  /** The call gives the only host known another serial number. */
  ghost predicate UpdateDue(s: Store, req: Introduction, c: CreateCalls, h: HostId) {
    && !Validate(req.node).BadField? && c.lookup && OnlyHost(s, req, h)
    && s.hosts[h].serial != StoredSerial(req) && c.update
  }

  /** Zero-touch creates an Instance: the host has none, and the provider asks for one. */
  ghost predicate InstanceDue(s: Store, req: Introduction, c: CreateCalls, h: HostId) {
    && Reached(s, req, c, h) && h !in s.instances
    && !c.skip && c.readHost && c.provider == Config(true) && c.readDefaults && c.createInstance
  }

  /** Zero-touch triggers provisioning: the host has an Instance that is not running, and somebody listens. */
  ghost predicate EventDue(s: Store, req: Introduction, c: CreateCalls, h: HostId) {
    Reached(s, req, c, h) && h in s.instances && !c.skip && c.readHost && !c.running && c.listening
  }

  /** Zero-touch ends without an error. */
  predicate Started(s: Store, c: CreateCalls, h: HostId) {
    || c.skip
    || (c.readHost && (h in s.instances || c.provider != Config(true) || (c.readDefaults && c.createInstance)))
  }

  lemma MatchingSays(s: Store, req: Introduction)
    ensures Matching(s, req) == {} <==> NoHost(s, req)
    ensures forall h: HostId :: Matching(s, req) == {h} <==> OnlyHost(s, req, h)
  {
    var found := Matching(s, req);
    assert forall g :: g in found <==> g in s.hosts && OfNode(s.hosts[g], req);
    forall h: HostId ensures found == {h} <==> OnlyHost(s, req, h) {
      if OnlyHost(s, req, h) {
        assert found == {h};
      }
    }
  }

  /** Where zero-touch is reached, and what the call is then. */
  lemma ReachedSays(s: Store, req: Introduction, c: CreateCalls, h: HostId)
    requires Valid(s) && Reached(s, req, c, h)
    ensures var t := if NoHost(s, req) then WithNewHost(s, req)
                     else if s.hosts[h].serial == StoredSerial(req) then s else WithUpdatedHost(s, req, h);
      var (u, ok) := ZeroTouch(t, h, c);
      && CreateNodes(s, req, c) ==
           (u, if !ok then Refused else Project(if NoHost(s, req) then "" else req.tenant))
      && (h in t.instances <==> h in s.instances)
  {
    MatchingSays(s, req);
    ServedRequest(req.node);
    if OnlyHost(s, req, h) {
      assert OfNode(s.hosts[h], req);
    }
  }

  lemma NotReachedSays(s: Store, req: Introduction, c: CreateCalls)
    requires forall h :: !Reached(s, req, c, h)
    ensures CreateNodes(s, req, c) == (s, Refused)
  {
    MatchingSays(s, req);
    ServedRequestIfAny(req.node);
    assert !Reached(s, req, c, s.nextId);
    forall h | OnlyHost(s, req, h) ensures !Reached(s, req, c, h) {
    }
  }

  lemma ServedRequestIfAny(r: Request)
    ensures !Validate(r).BadField? ==> Normalise(r).serial == if IsSerial(r.serial) then r.serial else NOT_AVAILABLE
  {
  }

  /** An Instance is added for a host exactly if it had none, zero-touch is reached and not skipped, the host can be
      read, the provider's configuration is there and asks for one, and both calls to make it succeed. */
  lemma InstanceAddedIff(s: Store, req: Introduction, c: CreateCalls, h: HostId)
    requires Valid(s)
    ensures var t := CreateNodes(s, req, c).0;
      && (InstanceDue(s, req, c, h) <==> t.instances == s.instances + [h])
      && ((forall g :: !InstanceDue(s, req, c, g)) ==> t.instances == s.instances)
  {
    OneReached(s, req, c);
    assert |s.instances + [h]| > |s.instances| && (s.instances + [h])[|s.instances|] == h;
    if g :| Reached(s, req, c, g) {
      ReachedSays(s, req, c, g);
      assert (s.instances + [g])[|s.instances|] == g;
      assert !InstanceDue(s, req, c, g) ==> CreateNodes(s, req, c).0.instances == s.instances;
    } else {
      NotReachedSays(s, req, c);
    }
  }

  /** An event is sent for a host exactly if it has an Instance that is not running, zero-touch is reached and not
      skipped, the host can be read and somebody listens. */
  lemma EventSentIff(s: Store, req: Introduction, c: CreateCalls, h: HostId)
    requires Valid(s)
    ensures var t := CreateNodes(s, req, c).0;
      && (EventDue(s, req, c, h) <==> t.events == s.events + [h])
      && ((forall g :: !EventDue(s, req, c, g)) ==> t.events == s.events)
  {
    OneReached(s, req, c);
    assert |s.events + [h]| > |s.events| && (s.events + [h])[|s.events|] == h;
    if g :| Reached(s, req, c, g) {
      ReachedSays(s, req, c, g);
      assert (s.events + [g])[|s.events|] == g;
      assert !EventDue(s, req, c, g) ==> CreateNodes(s, req, c).0.events == s.events;
    } else {
      NotReachedSays(s, req, c);
    }
  }

  lemma OneReached(s: Store, req: Introduction, c: CreateCalls)
    ensures forall g, h :: Reached(s, req, c, g) && Reached(s, req, c, h) ==> g == h
  {
    forall g, h | Reached(s, req, c, g) && Reached(s, req, c, h) ensures g == h {
      if OnlyHost(s, req, g) {
        assert OfNode(s.hosts[g], req);
      }
    }
  }

  /** The call is answered exactly if zero-touch is reached and ends without an error: with the tenant's project for
      a host that was known, and with an empty one for a new host. */
  lemma AnsweredIff(s: Store, req: Introduction, c: CreateCalls, p: string)
    requires Valid(s)
    ensures CreateNodes(s, req, c).1 == Project(p) <==>
      && p == (if NoHost(s, req) then "" else req.tenant)
      && exists h :: Reached(s, req, c, h) && Started(s, c, h)
  {
    OneReached(s, req, c);
    if g :| Reached(s, req, c, g) {
      ReachedSays(s, req, c, g);
    } else {
      NotReachedSays(s, req, c);
    }
  }

  /** The host written, if any: a new one, onboarded as it introduces itself and with nothing desired of it; or the
      only one known, if its serial number is another, which becomes onboarded with the new data. */
  lemma HostWrittenIff(s: Store, req: Introduction, c: CreateCalls)
    requires Valid(s)
    ensures var t := CreateNodes(s, req, c).0; var n := req.node;
      if CreationDue(s, req, c) then
        && t.nextId == s.nextId + 1
        && t.hosts == s.hosts[s.nextId := HostRecord(n.uuid, StoredSerial(req), req.tenant, HostUnspecified,
                                                     HostOnboarded, NotRegistered, true, n.ip, n.mac)]
      else
        && t.nextId == s.nextId
        && (forall h :: UpdateDue(s, req, c, h) ==>
              t.hosts == s.hosts[h := HostRecord(n.uuid, StoredSerial(req), req.tenant, s.hosts[h].desired,
                                                 HostOnboarded, NotRegistered, true, n.ip, n.mac)])
        && ((forall h :: !UpdateDue(s, req, c, h)) ==> t.hosts == s.hosts)
  {
    OneReached(s, req, c);
    assert forall h :: UpdateDue(s, req, c, h) ==> Reached(s, req, c, h) && OfNode(s.hosts[h], req);
    if g :| Reached(s, req, c, g) {
      ReachedHosts(s, req, c, g);
    } else {
      NotReachedSays(s, req, c);
      assert !Reached(s, req, c, s.nextId);
    }
  }

  lemma ReachedHosts(s: Store, req: Introduction, c: CreateCalls, g: HostId)
    requires Valid(s) && Reached(s, req, c, g)
    ensures var t := CreateNodes(s, req, c).0; var n := req.node;
      if NoHost(s, req) then
        && CreationDue(s, req, c) && g == s.nextId && t.nextId == g + 1
        && t.hosts == s.hosts[g := HostRecord(n.uuid, StoredSerial(req), req.tenant, HostUnspecified, HostOnboarded,
                                              NotRegistered, true, n.ip, n.mac)]
      else
        && t.nextId == s.nextId && g in s.hosts && (UpdateDue(s, req, c, g) <==> s.hosts[g].serial != StoredSerial(req))
        && t.hosts == if s.hosts[g].serial == StoredSerial(req) then s.hosts
                      else s.hosts[g := HostRecord(n.uuid, StoredSerial(req), req.tenant, s.hosts[g].desired,
                                                   HostOnboarded, NotRegistered, true, n.ip, n.mac)]
  {
    ReachedSays(s, req, c, g);
    ServedRequest(req.node);
    if OnlyHost(s, req, g) {
      assert OfNode(s.hosts[g], req);
    }
  }

  // ---------------------------------------------------------------------------------------------
  // Idempotence.
  // ---------------------------------------------------------------------------------------------

  /** The store after any number of calls for one node. */
  ghost function CallAll(s: Store, req: Introduction, calls: seq<CreateCalls>): Store
    decreases |calls|
  {
    if calls == [] then s else CallAll(CreateNodes(s, req, calls[0]).0, req, calls[1..])
  }

  function InstancesOf(instances: seq<HostId>, h: HostId): nat {
    if instances == [] then 0 else (if instances[0] == h then 1 else 0) + InstancesOf(instances[1..], h)
  }

  lemma {:induction false} InstancesOfAppend(a: seq<HostId>, g: HostId, h: HostId)
    ensures InstancesOf(a + [g], h) == InstancesOf(a, h) + (if g == h then 1 else 0)
    ensures h !in a ==> InstancesOf(a, h) == 0
    decreases |a|
  {
    if a != [] {
      assert (a + [g])[0] == a[0] && (a + [g])[1..] == a[1..] + [g];
      InstancesOfAppend(a[1..], g, h);
    }
  }

  /** At most one host for the node, and for it at most one instance. */
  ghost predicate Single(s: Store, req: Introduction) {
    && Valid(s)
    && (forall g, h :: g in Matching(s, req) && h in Matching(s, req) ==> g == h)
    && (forall h :: h in Matching(s, req) ==> InstancesOf(s.instances, h) <= 1)
  }

  /** New events are for the node's own Instance. */
  ghost predicate EventsAreOwn(s: Store, t: Store, req: Introduction) {
    && s.events <= t.events
    && forall k :: |s.events| <= k < |t.events| ==> t.events[k] in Matching(t, req)
  }

  /** What belongs to other nodes or tenants is not touched. */
  ghost predicate OthersUntouched(s: Store, t: Store, req: Introduction) {
    && EventsAreOwn(s, t, req)
    && (forall h :: h in s.hosts && h !in Matching(s, req) ==>
          h in t.hosts && t.hosts[h] == s.hosts[h] && h !in Matching(t, req))
    && (forall h :: h in s.hosts && h !in Matching(s, req) ==>
          InstancesOf(t.instances, h) == InstancesOf(s.instances, h))
    && (forall h :: h in Matching(s, req) ==> h in Matching(t, req))
    && (forall h :: h in t.hosts && h !in s.hosts ==> h in Matching(t, req))
  }

  lemma MatchingIsSingleton(s: Store, req: Introduction, h: HostId)
    requires Single(s, req) && h in Matching(s, req)
    ensures Matching(s, req) == {h}
  {
  }

  lemma ZeroTouchKeepsSingle(s: Store, req: Introduction, h: HostId, c: CreateCalls)
    requires Single(s, req) && h in Matching(s, req)
    ensures var (t, ok) := ZeroTouch(s, h, c);
      Single(t, req) && t.hosts == s.hosts && OthersUntouched(s, t, req)
  {
    var t := ZeroTouch(s, h, c).0;
    assert Matching(t, req) == Matching(s, req);
    forall g ensures InstancesOf(s.instances + [h], g) == InstancesOf(s.instances, g) + (if g == h then 1 else 0)
      && (g !in s.instances ==> InstancesOf(s.instances, g) == 0)
    {
      InstancesOfAppend(s.instances, h, g);
    }
  }

  lemma AddKeepsSingle(s: Store, req: Introduction)
    requires Single(s, req) && Matching(s, req) == {}
    ensures var t := WithNewHost(s, req);
      Single(t, req) && OthersUntouched(s, t, req) && Matching(t, req) == {s.nextId}
  {
    InstancesOfAppend(s.instances, s.nextId, s.nextId);
    var t := WithNewHost(s, req);
    assert forall h :: h in t.hosts && h != s.nextId ==>
        h in s.hosts && t.hosts[h] == s.hosts[h] && h !in Matching(s, req);
    assert Matching(t, req) == {s.nextId};
  }

  lemma UpdateKeepsSingle(s: Store, req: Introduction, h: HostId)
    requires Single(s, req) && h in Matching(s, req)
    ensures var t := WithUpdatedHost(s, req, h);
      Single(t, req) && OthersUntouched(s, t, req) && Matching(t, req) == Matching(s, req)
  {
    var t := WithUpdatedHost(s, req, h);
    assert Matching(t, req) == Matching(s, req);
  }

  lemma UntouchedComposes(s: Store, m: Store, t: Store, req: Introduction)
    requires OthersUntouched(s, m, req) && OthersUntouched(m, t, req)
    ensures OthersUntouched(s, t, req)
  {
    assert forall h :: h in m.hosts && h !in s.hosts ==> h in Matching(m, req);
  }

  ghost predicate KeepsSingle(s: Store, req: Introduction, t: Store, r: Reply) {
    && Single(t, req) && OthersUntouched(s, t, req)
    && (r.Project? ==> Matching(t, req) != {})
    && (r == Project(req.tenant) && req.tenant != "" ==> Matching(s, req) != {})
  }

  lemma NewHostKeepsSingle(s: Store, req: Introduction, c: CreateCalls)
    requires Single(s, req) && Matching(s, req) == {}
    ensures KeepsSingle(s, req, CreateNodes(s, req, c).0, CreateNodes(s, req, c).1)
  {
    var s1 := WithNewHost(s, req);
    AddKeepsSingle(s, req);
    ZeroTouchKeepsSingle(s1, req, s.nextId, c);
    UntouchedComposes(s, s1, ZeroTouch(s1, s.nextId, c).0, req);
  }

  lemma KnownHostKeepsSingle(s: Store, req: Introduction, c: CreateCalls, h: HostId)
    requires Single(s, req) && h in Matching(s, req)
    ensures KeepsSingle(s, req, CreateNodes(s, req, c).0, CreateNodes(s, req, c).1)
  {
    MatchingIsSingleton(s, req, h);
    var s1 := WithUpdatedHost(s, req, h);
    UpdateKeepsSingle(s, req, h);
    ZeroTouchKeepsSingle(s, req, h, c);
    ZeroTouchKeepsSingle(s1, req, h, c);
    UntouchedComposes(s, s1, ZeroTouch(s1, h, c).0, req);
  }

  lemma CreateKeepsSingle(s: Store, req: Introduction, c: CreateCalls)
    requires Single(s, req)
    ensures KeepsSingle(s, req, CreateNodes(s, req, c).0, CreateNodes(s, req, c).1)
  {
    if Matching(s, req) == {} {
      NewHostKeepsSingle(s, req, c);
    } else {
      var h :| h in Matching(s, req);
      KnownHostKeepsSingle(s, req, c, h);
    }
  }

  /** Any number of calls for one node, whatever fails in them, leaves at most one host for it with at
      most one instance, and exactly one host once a call was answered; nothing else is touched. */
  lemma {:induction false} CreateNodesIsIdempotent(s: Store, req: Introduction, calls: seq<CreateCalls>)
    requires Single(s, req)
    ensures var t := CallAll(s, req, calls);
      && Single(t, req) && OthersUntouched(s, t, req)
      && ((exists k :: 0 <= k < |calls| && CreateNodes(CallAll(s, req, calls[..k]), req, calls[k]).1.Project?) ==>
            |Matching(t, req)| == 1)
    decreases |calls|
  {
    if calls != [] {
      var s1 := CreateNodes(s, req, calls[0]).0;
      CreateKeepsSingle(s, req, calls[0]);
      CreateNodesIsIdempotent(s1, req, calls[1..]);
      var t := CallAll(s, req, calls);
      forall k | 0 <= k < |calls| && CreateNodes(CallAll(s, req, calls[..k]), req, calls[k]).1.Project?
        ensures |Matching(t, req)| == 1
      {
        if k == 0 {
          assert calls[..0] == [];
          var h :| h in Matching(s1, req);
          MatchingIsSingleton(t, req, h);
        } else {
          assert calls[..k][0] == calls[0] && calls[..k][1..] == calls[1..][..k - 1];
          assert calls[1..][k - 1] == calls[k];
        }
      }
    }
  }

  // ---------------------------------------------------------------------------------------------
  // Whether identifiers stay unique, on which the lookup of the stream relies.
  // ---------------------------------------------------------------------------------------------

  /** The call writes an identifier: it creates a host, or gives a known one another serial number. */
  predicate Writes(s: Store, req: Introduction, c: CreateCalls) {
    && !Validate(req.node).BadField? && c.lookup
    && (Matching(s, req) == {} ==> c.create)
    && (Matching(s, req) != {} ==> |Matching(s, req)| == 1 && c.update && !SameSerial(s, req))
  }

  /** Every host that matches has the serial number already. */
  predicate SameSerial(s: Store, req: Introduction) {
    forall h :: h in Matching(s, req) ==> s.hosts[h].serial == Normalise(req.node).serial
  }

  /** Another host, of any tenant, has the serial number that the node is stored with. */
  ghost predicate SerialTaken(s: Store, req: Introduction) {
    exists g :: g in s.hosts && g !in Matching(s, req) && s.hosts[g].serial == Normalise(req.node).serial
  }

  /** A host of another tenant has the UUID. */
  ghost predicate UuidTaken(s: Store, req: Introduction) {
    exists g :: g in s.hosts && g !in Matching(s, req) && s.hosts[g].uuid == req.node.uuid
  }

  lemma HostsAfter(s: Store, req: Introduction, c: CreateCalls)
    ensures var t := CreateNodes(s, req, c).0;
      if !Writes(s, req, c) then t.hosts == s.hosts
      else if Matching(s, req) == {} then t.hosts == WithNewHost(s, req).hosts
      else exists h :: Matching(s, req) == {h} && t.hosts == WithUpdatedHost(s, req, h).hosts
  {
    var found := Matching(s, req);
    if found != {} {
      var h :| h in found;
      assert |found - {h}| == |found| - 1;
      if |found| == 1 {
        assert found == {h};
      }
      assert forall g :: found == {g} ==> |found| == 1 && g == h;
    }
  }

  lemma UniqueAfterNew(s: Store, req: Introduction)
    requires Valid(s) && Unique(s.hosts) && Matching(s, req) == {} && !Validate(req.node).BadField?
    ensures Unique(WithNewHost(s, req).hosts) <==> !SerialTaken(s, req) && !UuidTaken(s, req)
    ensures UniqueUuids(WithNewHost(s, req).hosts) <==> !UuidTaken(s, req)
  {
    ServedRequest(req.node);
    var t := WithNewHost(s, req).hosts;
    assert forall g :: g in s.hosts ==> g != s.nextId && t[g] == s.hosts[g];
    assert t[s.nextId] == NewHost(req);
  }

  lemma UniqueAfterUpdate(s: Store, req: Introduction, h: HostId)
    requires Unique(s.hosts) && Matching(s, req) == {h} && !Validate(req.node).BadField?
    ensures Unique(WithUpdatedHost(s, req, h).hosts) <==> !SerialTaken(s, req)
    ensures UniqueUuids(WithUpdatedHost(s, req, h).hosts) && !UuidTaken(s, req)
  {
    ServedRequest(req.node);
    var t := WithUpdatedHost(s, req, h).hosts;
    assert h in Matching(s, req);
    assert t[h].serial == Normalise(req.node).serial && t[h].uuid == req.node.uuid;
    assert forall g :: g in s.hosts && g != h ==> t[g] == s.hosts[g] && g !in Matching(s, req);
  }

  /** Identifiers stay unique across a call exactly if it writes none, or neither the UUID nor the serial
      number it stores is another host's. UUIDs alone stay unique unless another tenant has the UUID. */
  lemma UniqueSurvivesIff(s: Store, req: Introduction, c: CreateCalls)
    requires Valid(s) && Unique(s.hosts)
    ensures var hosts := CreateNodes(s, req, c).0.hosts;
      && (Unique(hosts) <==> (Writes(s, req, c) ==> !SerialTaken(s, req) && !UuidTaken(s, req)))
      && (UniqueUuids(hosts) <==> (Writes(s, req, c) ==> !UuidTaken(s, req)))
  {
    HostsAfter(s, req, c);
    if Writes(s, req, c) {
      if Matching(s, req) == {} {
        UniqueAfterNew(s, req);
      } else {
        var h :| Matching(s, req) == {h} && CreateNodes(s, req, c).0.hosts == WithUpdatedHost(s, req, h).hosts;
        UniqueAfterUpdate(s, req, h);
      }
    }
  }

  /** Two nodes whose serial numbers are unreadable end up with the same one, and from then on the stream
      fails for every such node but one whose host has no serial number at all. */
  lemma SecondUnreadableSerialIsShared(s: Store, req: Introduction, c: CreateCalls, g: HostId, m: Request)
    requires Valid(s) && Unique(s.hosts) && Validate(req.node).BadSerial? && Writes(s, req, c)
    requires g in s.hosts && g !in Matching(s, req) && s.hosts[g].serial == NOT_AVAILABLE
    requires Validate(m).BadSerial? && UniqueUuids(CreateNodes(s, req, c).0.hosts)
    ensures var hosts := CreateNodes(s, req, c).0.hosts; var n := Normalise(m);
      && !Unique(hosts)
      && (Identify(hosts, n, NodeIdentity.ALL_SUCCEED).1 == Err(InternalFailure) <==>
            forall h :: WithUuidOf(hosts, n, h) ==> hosts[h].serial != "")
  {
    var hosts := CreateNodes(s, req, c).0.hosts;
    ServedRequest(m);
    UniqueSurvivesIff(s, req, c);
    HostsAfter(s, req, c);
    if Matching(s, req) == {} {
      assert hosts[s.nextId].serial == NOT_AVAILABLE && hosts[g].serial == NOT_AVAILABLE && g != s.nextId;
    } else {
      var h :| Matching(s, req) == {h} && hosts == WithUpdatedHost(s, req, h).hosts;
      assert h in Matching(s, req) && hosts[h].serial == NOT_AVAILABLE && hosts[g].serial == NOT_AVAILABLE && g != h;
    }
    assert SharedSerial(hosts, NOT_AVAILABLE);
    IdentifyWithSharedSerials(hosts, Normalise(m), g);
  }

  // ---------------------------------------------------------------------------------------------
  // The client loop around it.
  // ---------------------------------------------------------------------------------------------

  /** When no call fails and the request is not refused, a known host gets its project at once, a new one gets
      an empty project id first and its project on the second attempt. */
  lemma NewHostTakesTwoAttempts(s: Store, req: Introduction, calls: seq<CreateCalls>, saved: seq<bool>)
    requires |calls| == |saved| == 3 && Single(s, req) && req.tenant != ""
    requires !Validate(req.node).BadField? && forall k :: 0 <= k < 3 ==> AllSucceed(calls[k]) && saved[k]
    ensures var (t, project, n) := Attempts(s, req, calls, saved, 0);
      && project == Some(req.tenant)
      && n == (if Matching(s, req) == {} then 2 else 1)
      && |Matching(t, req)| == 1
  {
    var (s1, r1) := CreateNodes(s, req, calls[0]);
    var (s2, r2) := CreateNodes(s1, req, calls[1]);
    CreateKeepsSingle(s, req, calls[0]);
    CreateKeepsSingle(s1, req, calls[1]);
    AnsweredWhenCallsSucceed(s, req, calls[0]);
    AnsweredWhenCallsSucceed(s1, req, calls[1]);
    var h1 :| h1 in Matching(s1, req);
    MatchingIsSingleton(s1, req, h1);
    var h2 :| h2 in Matching(s2, req);
    MatchingIsSingleton(s2, req, h2);
  }

  lemma AnsweredWhenCallsSucceed(s: Store, req: Introduction, c: CreateCalls)
    requires Single(s, req) && AllSucceed(c) && !Validate(req.node).BadField?
    ensures CreateNodes(s, req, c).1 == Project(if Matching(s, req) == {} then "" else req.tenant)
  {
    if Matching(s, req) != {} {
      var h :| h in Matching(s, req);
      MatchingIsSingleton(s, req, h);
    }
  }

  /** The end of a node's attempts, of which it had made k before. */
  ghost predicate GoodEnd(s: Store, req: Introduction, k: nat, t: Store, project: Option<string>, n: nat) {
    && Single(t, req) && OthersUntouched(s, t, req)
    && (project.Some? ==> project == Some(req.tenant) && |Matching(t, req)| == 1 && k < n <= 3)
    && (project.Some? && Matching(s, req) == {} ==> n > k + 1)
  }

  lemma LastAttempt(s: Store, req: Introduction, c: CreateCalls, k: nat)
    requires Single(s, req) && req.tenant != "" && k < 3
    requires var r := CreateNodes(s, req, c).1; r.Project? && r.id != ""
    ensures var (t, r) := CreateNodes(s, req, c); GoodEnd(s, req, k, t, Some(r.id), k + 1)
  {
    CreateKeepsSingle(s, req, c);
    var t := CreateNodes(s, req, c).0;
    var h :| h in Matching(t, req);
    MatchingIsSingleton(t, req, h);
  }

  lemma OneMoreAttempt(s: Store, m: Store, req: Introduction, k: nat, t: Store, project: Option<string>, n: nat)
    requires OthersUntouched(s, m, req) && GoodEnd(m, req, k + 1, t, project, n)
    ensures GoodEnd(s, req, k, t, project, n)
  {
    UntouchedComposes(s, m, t, req);
  }

  /** A node gives up only after its third attempt, and never makes another. */
  lemma {:induction false} ThreeAttempts(
    s: Store, req: Introduction, calls: seq<CreateCalls>, saved: seq<bool>, k: nat)
    requires k < 3 == |calls| == |saved|
    ensures var (_, project, n) := Attempts(s, req, calls, saved, k); k < n <= 3 && (project == None ==> n == 3)
    decreases 3 - k
  {
    if k < 2 {
      ThreeAttempts(CreateNodes(s, req, calls[k]).0, req, calls, saved, k + 1);
    } else {
      assert Attempts(CreateNodes(s, req, calls[2]).0, req, calls, saved, 3).2 == 3;
    }
  }

  /** Whatever fails, the project a node ends with is its tenant's, a new host never gets it on the first
      attempt, and a node that ends with a project has exactly one host. */
  lemma {:induction false} OnboardedNodeHasOneHost(
    s: Store, req: Introduction, calls: seq<CreateCalls>, saved: seq<bool>, k: nat)
    requires k <= 3 == |calls| == |saved| && Single(s, req) && req.tenant != ""
    ensures var (t, project, n) := Attempts(s, req, calls, saved, k); GoodEnd(s, req, k, t, project, n)
    decreases 3 - k
  {
    if k < 3 {
      var (s1, r) := CreateNodes(s, req, calls[k]);
      if r.Project? && r.id != "" && saved[k] {
        LastAttempt(s, req, calls[k], k);
      } else {
        CreateKeepsSingle(s, req, calls[k]);
        OnboardedNodeHasOneHost(s1, req, calls, saved, k + 1);
        var (t, project, n) := Attempts(s1, req, calls, saved, k + 1);
        OneMoreAttempt(s, s1, req, k, t, project, n);
      }
    }
  }
}
