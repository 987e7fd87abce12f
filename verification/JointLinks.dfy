/**
 The joint machine of both reconcilers knows onboarding only by its effects on one host. Here its steps are tied to
 what the stream and the interactive path do to that host in detail.
 */
module JointLinks {
  import opened Wrappers
  import opened StatusDetail
  import opened Inventory
  import opened NodeRequest
  import opened NodeIdentity
  import opened OnboardStream
  import opened StreamOutcomes
  import J = JointRuns
  import C = CreateNodes

  /** The record of a host and the host of the joint machine have the same states. */
  predicate Same(record: HostRecord, host: Host) {
    record.desired == host.desired && record.current == host.current
  }

  /** The step that answers what StreamFetch has read. */
  function AnswerStep(record: HostRecord, c: StreamCalls): J.Step {
    if record.desired == HostRegistered then J.StreamRegister(c.send && c.writeState)
    else J.StreamOnboard(c.fetchSecret, c.send && c.writeState)
  }

  lemma StatesAfter(hosts: Hosts, m: Request, c: StreamCalls, h: HostId)
    requires h in hosts
    ensures var after := Serve(hosts, m, c).hosts;
      && h in after && after[h].desired == hosts[h].desired
      && after[h].current ==
           if Admitted(hosts, m, c, h) && c.send && c.writeState
              && (hosts[h].desired == HostRegistered || (hosts[h].desired == HostOnboarded && c.fetchSecret))
           then hosts[h].desired else hosts[h].current
  {
    WrittenIff(hosts, m, c, h);
    IdentifyKeeps(hosts, Normalise(m), c.lookup, h);
  }

  /** A request admitted to a host that is to be REGISTERED or ONBOARDED is one StreamFetch and one answer of the joint
      machine: the states of the host, the credentials issued and the requests in flight come out the same. */
  lemma ServedIsJoint(s: J.Setup, j: J.Joint, hosts: Hosts, m: Request, c: StreamCalls, h: HostId)
    requires h in hosts && Same(hosts[h], j.w.host) && !j.w.host.current.HostDeleted?
    requires Admitted(hosts, m, c, h) && hosts[h].desired in {HostRegistered, HostOnboarded}
    ensures var t := J.Run(s, j, [J.StreamFetch, AnswerStep(hosts[h], c)]);
      && t.Some? && h in Serve(hosts, m, c).hosts && Same(Serve(hosts, m, c).hosts[h], t.value.w.host)
      && t.value == j.(w := j.w.(host := t.value.w.host, credentials := t.value.w.credentials))
      && t.value.w.credentials == (j.w.credentials || (c.fetchSecret && hosts[h].desired == HostOnboarded))
      && t.value.w.host == j.w.host.(current := t.value.w.host.current)
  {
    StatesAfter(hosts, m, c, h);
    var steps := [J.StreamFetch, AnswerStep(hosts[h], c)];
    var k := J.Apply(s, j, steps[0]);
    assert steps[1..][0] == AnswerStep(hosts[h], c) && steps[1..][1..] == [];
    assert J.Run(s, k, steps[1..]) == Some(J.Apply(s, k, steps[1..][0]));
  }

  /** Every other request leaves the states of the host alone, and hands out no credentials for it. */
  lemma OthersAreNoStep(hosts: Hosts, m: Request, c: StreamCalls, h: HostId)
    requires h in hosts && !(Admitted(hosts, m, c, h) && hosts[h].desired in {HostRegistered, HostOnboarded})
    ensures var r := Serve(hosts, m, c);
      && h in r.hosts && r.hosts[h].desired == hosts[h].desired && r.hosts[h].current == hosts[h].current
      && !HandsOut(r, h)
  {
    StatesAfter(hosts, m, c, h);
    AdmittedReplyIff(hosts, m, c, h);
    var (found, r) := Identify(hosts, Normalise(m), c.lookup);
    IdentifyKeeps(hosts, Normalise(m), c.lookup, h);
    AnswerHandsOutIff(found, r, Normalise(m), c, h);
  }

  /** A CreateNodes call is the interactive step of the joint machine, for a host it finds: the host is written exactly
      if the call gives it another serial number. */
  lemma CreateIsJoint(s: J.Setup, j: J.Joint, store: C.Store, req: C.Introduction, c: C.CreateCalls, h: HostId)
    requires C.Valid(store) && h in store.hosts && Same(store.hosts[h], j.w.host) && !j.w.host.current.HostDeleted?
    ensures var t := C.CreateNodes(store, req, c).0;
      var k := J.Apply(s, j, J.InteractiveOnboard(C.UpdateDue(store, req, c, h)));
      && h in t.hosts && Same(t.hosts[h], k.w.host)
      && k == j.(w := j.w.(host := k.w.host))
      && k.w.host.onboarding ==
           if C.UpdateDue(store, req, c, h) then Status("Onboarded", NoDetail, Settled) else j.w.host.onboarding
  {
    C.HostWrittenIff(store, req, c);
    if g :| C.UpdateDue(store, req, c, g) {
      assert C.OfNode(store.hosts[g], req);
    }
  }
}
