/**
 The life of a node from its registration to its removal, as a run of the joint machine: the states that the other
 results speak of are all come to, when nothing fails and nobody interferes.
 */
module Lifecycle {
  import opened Wrappers
  import opened StatusDetail
  import opened Inventory
  import opened InstanceReconciler
  import opened InstanceOutcomes
  import opened HostDeletion
  import opened JointRuns

  /** What the environment contributes: the parts that are discovered, the OS wanted, how the workflow looks at its end,
      and the statuses reported by the running node. */
  datatype Life = Life(
    parts: Parts, live: set<ResourceId>, os: Os, wf: Workflow, running: Status, update: Status, attestation: Status)

  function Onboarding(l: Life): seq<Step> {
    [Discover(l.parts, l.live), SetHostDesired(HostOnboarded), StreamFetch, StreamOnboard(true, true)]
  }

  function Ordering(l: Life): seq<Step> {
    [CreateInstance(InstRunning, l.os), Fetch, Act(ALL_SUCCEED)]
  }

  function Provisioning(l: Life): seq<Step> {
    [WorkflowMoves(l.wf), HrmRunning, HrmStatuses(l.running, l.update, l.attestation), Fetch, Act(ALL_SUCCEED)]
  }

  function Retiring(): seq<Step> {
    [SetInstanceDesired(InstDeleted), Fetch, Act(ALL_SUCCEED), Purge, SetHostDesired(HostDeleted), FetchHost,
     ActHost([])]
  }

  /** One step of a run that is given in full. */
  lemma First(s: Setup, j: Joint, step: Step, rest: seq<Step>)
    requires Possible(s, j, step)
    ensures Run(s, j, [step] + rest) == Run(s, Apply(s, j, step), rest)
  {
    assert ([step] + rest)[1..] == rest;
  }

  /** A host that is registered, is not onboarded yet, and may be. */
  predicate Registered(s: Setup, j: Joint) {
    && s.full && Start(j) && !j.w.host.hasProvider
    && j.w.host.desired == HostRegistered && j.w.host.current != HostOnboarded
  }

  predicate IsOnboarded(s: Setup, j: Joint, l: Life) {
    && s.full && j.snap == None && j.hsnap == None && j.w.workflow == None && j.w.instance == None
    && !j.w.host.hasProvider && j.w.host.desired == HostOnboarded && j.w.host.current == HostOnboarded
    && j.w.host.parts == l.parts && j.w.live == l.live && j.w.credentials
  }

  lemma NodeIsOnboarded(s: Setup, j: Joint, l: Life)
    requires Registered(s, j)
    ensures var t := Run(s, j, Onboarding(l));
      && t.Some? && IsOnboarded(s, t.value, l) && t.value.nextId == j.nextId
      && t.value.registering == j.registering && t.value.onboarding == j.onboarding
  {
    var a, b, c, d := Discover(l.parts, l.live), SetHostDesired(HostOnboarded), StreamFetch, StreamOnboard(true, true);
    var j1 := Apply(s, j, a);
    var j2 := Apply(s, j1, b);
    var j3 := Apply(s, j2, c);
    First(s, j, a, [b, c, d]);
    First(s, j1, b, [c, d]);
    First(s, j2, c, [d]);
    First(s, j3, d, []);
    assert Onboarding(l) == [a] + [b, c, d] && [b, c, d] == [b] + [c, d] && [c, d] == [c] + [d] && [d] == [d] + [];
  }

  /** An instance waits for its workflow. */
  predicate IsOrdered(s: Setup, j: Joint, l: Life, id: ResourceId) {
    && s.full && j.snap == None && j.hsnap == None && j.w.workflow != None
    && j.w.instance == Some(Instance(id, InstRunning, InstUnspecified, l.os, NOT_SET, NOT_SET, NOT_SET, NOT_SET))
    && !j.w.host.hasProvider && j.w.host.desired == HostOnboarded && j.w.host.current == HostOnboarded
    && j.w.host.parts == l.parts && j.w.live == l.live && j.w.credentials
  }

  lemma InstanceIsOrdered(s: Setup, j: Joint, l: Life)
    requires IsOnboarded(s, j, l) && Supported(l.os)
    ensures var t := Run(s, j, Ordering(l));
      t.Some? && IsOrdered(s, t.value, l, j.nextId) && t.value.nextId == j.nextId + 1
  {
    var a, b, c := CreateInstance(InstRunning, l.os), Fetch, Act(ALL_SUCCEED);
    var j1 := Apply(s, j, a);
    var j2 := Apply(s, j1, b);
    First(s, j, a, [b, c]);
    First(s, j1, b, [c]);
    First(s, j2, c, []);
    assert Ordering(l) == [a] + [b, c] && [b, c] == [b] + [c] && [c] == [c] + [];
    var h, i := j2.snap.value.host, j2.snap.value.inst;
    WorkflowCreatedExactly(s.texts, h, i, j2.w, ALL_SUCCEED);
    CredentialsIssuedExactly(s.texts, h, i, j2.w, ALL_SUCCEED);
    NoEvaluationOutcome(s.texts, h, i, j2.w, ALL_SUCCEED);
    ReconcileKeeps(s.texts, h, i, j2.w, ALL_SUCCEED);
  }

  /** The instance runs what was wanted, and says so. */
  predicate IsProvisioned(s: Setup, j: Joint, l: Life, id: ResourceId) {
    && s.full && j.snap == None && j.hsnap == None && j.w.workflow == None
    && j.w.instance == Some(Instance(id, InstRunning, InstRunning, l.os, Status("Provisioned", NoDetail, Settled),
                                     l.running, l.update, l.attestation))
    && !j.w.host.hasProvider && j.w.host.desired == HostOnboarded && j.w.host.current == HostOnboarded
    && j.w.host.parts == l.parts && j.w.live == l.live && j.w.credentials
  }

  lemma InstanceIsProvisioned(s: Setup, j: Joint, l: Life, id: ResourceId)
    requires IsOrdered(s, j, l, id) && Supported(l.os) && l.wf.state == Success
    ensures var t := Run(s, j, Provisioning(l)); t.Some? && IsProvisioned(s, t.value, l, id)
  {
    var a, b, c := WorkflowMoves(l.wf), HrmRunning, HrmStatuses(l.running, l.update, l.attestation);
    var d, e := Fetch, Act(ALL_SUCCEED);
    var j1 := Apply(s, j, a);
    var j2 := Apply(s, j1, b);
    First(s, j, a, [b, c, d, e]);
    First(s, j1, b, [c, d, e]);
    First(s, j2, c, [d, e]);
    assert Provisioning(l) == [a] + [b, c, d, e] && [b, c, d, e] == [b] + [c, d, e] && [c, d, e] == [c] + [d, e];
    SuccessIsSeen(s, Apply(s, j2, c), l, id);
  }

  lemma SuccessIsSeen(s: Setup, j: Joint, l: Life, id: ResourceId)
    requires s.full && j.snap == None && j.hsnap == None && j.w.workflow == Some(l.wf) && l.wf.state == Success
    requires Supported(l.os)
    requires j.w.instance ==
      Some(Instance(id, InstRunning, InstRunning, l.os, NOT_SET, l.running, l.update, l.attestation))
    requires !j.w.host.hasProvider && j.w.host.desired == HostOnboarded && j.w.host.current == HostOnboarded
    requires j.w.host.parts == l.parts && j.w.live == l.live && j.w.credentials
    ensures var t := Run(s, j, [Fetch, Act(ALL_SUCCEED)]); t.Some? && IsProvisioned(s, t.value, l, id)
  {
    var a, b := Fetch, Act(ALL_SUCCEED);
    var j1 := Apply(s, j, a);
    First(s, j, a, [b]);
    First(s, j1, b, []);
    assert [a, b] == [a] + [b] && [b] == [b] + [];
    var h, i := j1.snap.value.host, j1.snap.value.inst;
    EvaluationOutcome(s.texts, h, i, j1.w, ALL_SUCCEED);
    WorkflowGoneIff(s.texts, h, i, j1.w, ALL_SUCCEED);
    CredentialsIssuedExactly(s.texts, h, i, j1.w, ALL_SUCCEED);
    ReconcileKeeps(s.texts, h, i, j1.w, ALL_SUCCEED);
  }

  /** Nothing of the node is left. */
  predicate IsGone(j: Joint, l: Life) {
    && j.w.host.current == HostDeleted && j.w.instance == None && j.w.workflow == None && !j.w.credentials
    && (forall x :: x in l.parts.nics + l.parts.disks + l.parts.usbs + l.parts.gpus ==> x !in j.w.live)
    && (forall n, a :: n in l.parts.nics && n in l.live && n in l.parts.addresses && a in l.parts.addresses[n] ==>
          a !in j.w.live)
  }

  lemma NodeIsRetired(s: Setup, j: Joint, l: Life, id: ResourceId)
    requires IsProvisioned(s, j, l, id)
    ensures var t := Run(s, j, Retiring()); t.Some? && IsGone(t.value, l)
  {
    var a, b, c, d := SetInstanceDesired(InstDeleted), Fetch, Act(ALL_SUCCEED), Purge;
    var e, f, g := SetHostDesired(HostDeleted), FetchHost, ActHost([]);
    var j1 := Apply(s, j, a);
    var j2 := Apply(s, j1, b);
    var h, i := j2.snap.value.host, j2.snap.value.inst;
    RequestedStateOutcome(s.texts, h, i, j2.w, ALL_SUCCEED);
    ReconcileKeeps(s.texts, h, i, j2.w, ALL_SUCCEED);
    ReconcileEffects(s.texts, h, i, j2.w, ALL_SUCCEED);
    var j3 := Apply(s, j2, c);
    assert [c, d, e, f, g] == [c] + [d, e, f, g];
    First(s, j, a, [b, c, d, e, f, g]);
    First(s, j1, b, [c, d, e, f, g]);
    First(s, j2, c, [d, e, f, g]);
    assert Retiring() == [a] + [b, c, d, e, f, g] && [b, c, d, e, f, g] == [b] + [c, d, e, f, g];
    HostIsRetired(s, j3, l);
  }

  lemma HostIsRetired(s: Setup, j: Joint, l: Life)
    requires j.hsnap == None && j.w.workflow == None && j.w.instance != None
    requires j.w.instance.value.desired == InstDeleted && j.w.instance.value.current == InstDeleted
    requires !j.w.host.hasProvider && j.w.host.desired == HostOnboarded && j.w.host.current == HostOnboarded
    requires j.w.host.parts == l.parts && j.w.live == l.live
    ensures var t := Run(s, j, [Purge, SetHostDesired(HostDeleted), FetchHost, ActHost([])]);
      t.Some? && IsGone(t.value, l)
  {
    var a, b, c, d := Purge, SetHostDesired(HostDeleted), FetchHost, ActHost([]);
    var j1 := Apply(s, j, a);
    var j2 := Apply(s, j1, b);
    var j3 := Apply(s, j2, c);
    First(s, j, a, [b, c, d]);
    First(s, j1, b, [c, d]);
    First(s, j2, c, [d]);
    First(s, j3, d, []);
    assert [a, b, c, d] == [a] + [b, c, d] && [b, c, d] == [b] + [c, d] && [c, d] == [c] + [d] && [d] == [d] + [];
    HostReconcileEffects(s.full, j3.hsnap.value, j3.w, []);
    HostStateEffects(s, j3.hsnap.value, j3.w, []);
    DeleteHostAttempt(s.full, j3.hsnap.value, j3.w, []);
  }

  /** A registered node can be onboarded, provisioned and removed again, whatever parts it has, whatever supported OS is
      wanted, and whatever its workflow reports on the way to success. */
  lemma NodeLives(s: Setup, j: Joint, l: Life)
    requires Registered(s, j) && Supported(l.os) && l.wf.state == Success
    ensures var up := Run(s, j, Onboarding(l) + Ordering(l) + Provisioning(l));
      var down := Run(s, j, Onboarding(l) + Ordering(l) + Provisioning(l) + Retiring());
      && up.Some? && IsProvisioned(s, up.value, l, j.nextId)
      && down.Some? && IsGone(down.value, l)
  {
    NodeIsOnboarded(s, j, l);
    var k1 := Run(s, j, Onboarding(l)).value;
    RunConcat(s, j, Onboarding(l), Ordering(l));
    InstanceIsOrdered(s, k1, l);
    var k2 := Run(s, k1, Ordering(l)).value;
    RunConcat(s, j, Onboarding(l) + Ordering(l), Provisioning(l));
    InstanceIsProvisioned(s, k2, l, k1.nextId);
    var k3 := Run(s, k2, Provisioning(l)).value;
    RunConcat(s, j, Onboarding(l) + Ordering(l) + Provisioning(l), Retiring());
    NodeIsRetired(s, k3, l, k1.nextId);
  }
}
