/**
 The Host reconciler of onboarding-manager: deleting a host with all its children, and invalidating a
 host that is no longer trusted. External calls are answered from an oracle, a list of outcomes that is
 consumed call by call and followed by successes only, so "finitely many calls fail" is the length of a
 list.
 */
module HostDeletion {
  import opened Wrappers
  import opened StatusDetail
  import opened Inventory

  type Oracle = seq<Err>

  function Answer(o: Oracle): Err {
    if o == [] then NoErr else o[0]
  }

  function Rest(o: Oracle): Oracle {
    if o == [] then [] else o[1..]
  }

  /** Failures still to come. */
  function Failures(o: Oracle): nat {
    if o == [] then 0 else (if o[0] == NoErr then 0 else 1) + Failures(o[1..])
  }

  function Existing(ids: seq<ResourceId>, live: set<ResourceId>): (r: seq<ResourceId>)
    ensures forall x :: x in r <==> x in ids && x in live
  {
    if ids == [] then []
    else (if ids[0] in live then [ids[0]] else []) + Existing(ids[1..], live)
  }

  function Addresses(p: Parts, nic: ResourceId): seq<ResourceId> {
    if nic in p.addresses then p.addresses[nic] else []
  }

  /** Progress of a deletion: what is still there, what was removed and in which order, what the
      oracle still holds, and the error that stopped it. */
  datatype Deletion = Deletion(live: set<ResourceId>, removed: seq<ResourceId>, oracle: Oracle, err: Err)

  /** Deleting one resource; NotFound means it is gone. */
  function DeleteOne(id: ResourceId, d: Deletion): Deletion
    requires d.err == NoErr
  {
    var e := Answer(d.oracle);
    if e == NoErr || e == NotFound
    then Deletion(d.live - {id}, d.removed + [id], Rest(d.oracle), NoErr)
    else d.(oracle := Rest(d.oracle), err := e)
  }

  function DeleteEach(ids: seq<ResourceId>, d: Deletion): (r: Deletion)
    requires d.err == NoErr
  {
    if ids == [] then d
    else
      var d1 := DeleteOne(ids[0], d);
      if d1.err != NoErr then d1 else DeleteEach(ids[1..], d1)
  }

  /** What the Host reconciler reads at its start: the host, the Instance attached to it, and which of its
      children exist. */
  datatype HostSnapshot = HostSnapshot(host: Host, attached: Option<ResourceId>, live: set<ResourceId>)

  function Snap(w: World): HostSnapshot {
    HostSnapshot(w.host, if w.instance.Some? then Some(w.instance.value.id) else None, w.live)
  }

  /** The children as read, with the addresses their NICs have now: those are listed when they are deleted. */
  function PartsNow(h: HostSnapshot, w: World): Parts {
    h.host.parts.(addresses := w.host.parts.addresses)
  }

  /** A NIC: list its addresses, delete them, then delete the NIC. */
  function DeleteNic(p: Parts, nic: ResourceId, d: Deletion): Deletion
    requires d.err == NoErr
  {
    var e := Answer(d.oracle);
    var d0 := d.(oracle := Rest(d.oracle));
    if e != NoErr then d0.(err := e)
    else
      var d1 := DeleteEach(Existing(Addresses(p, nic), d0.live), d0);
      if d1.err != NoErr then d1 else DeleteOne(nic, d1)
  }

  function DeleteNics(p: Parts, nics: seq<ResourceId>, d: Deletion): Deletion
    requires d.err == NoErr
  {
    if nics == [] then d
    else
      var d1 := DeleteNic(p, nics[0], d);
      if d1.err != NoErr then d1 else DeleteNics(p, nics[1..], d1)
  }

  /** All children that existed before. */
  function DeleteChildren(p: Parts, before: set<ResourceId>, d: Deletion): Deletion
    requires d.err == NoErr
  {
    var d1 := DeleteNics(p, Existing(p.nics, before), d);
    if d1.err != NoErr then d1 else DeleteDevices(p, before, d1)
  }

  /** Storage, USB and GPU devices, as far as they existed before. */
  function DeleteDevices(p: Parts, before: set<ResourceId>, d: Deletion): Deletion
    requires d.err == NoErr
  {
    var d1 := DeleteEach(Existing(p.disks, before), d);
    if d1.err != NoErr then d1 else
    var d2 := DeleteEach(Existing(p.usbs, before), d1);
    if d2.err != NoErr then d2 else
    DeleteEach(Existing(p.gpus, before), d2)
  }

  /** The status shown while deleting, which names the Instance that is waited for. */
  function DeletingStatus(full: bool, h: HostSnapshot): Status {
    if full && h.attached.Some? then DELETING.(detail := WaitingOn(h.attached.value)) else DELETING
  }

  /** One deletion attempt. `full` is the profile with OS provisioning, where instances exist. */
  function DeleteHost(full: bool, h: HostSnapshot, w: World, o: Oracle): (World, Oracle, Err) {
    var w1 := if Answer(o) == NoErr then w.(host := w.host.(onboarding := DeletingStatus(full, h))) else w;
    var o1 := Rest(o);
    if full && h.attached.Some? then (w1, o1, Other)
    else if h.host.current.HostUntrusted? then ClearHost(h, w1, o1)
    else if Answer(o1) != NoErr then (w1, Rest(o1), Answer(o1))
    else ClearHost(h, w1.(credentials := false), Rest(o1))
  }

  /** The end of an attempt: the children, then the state. */
  function ClearHost(h: HostSnapshot, w: World, o: Oracle): (World, Oracle, Err) {
    var d := DeleteChildren(PartsNow(h, w), h.live, Deletion(w.live, [], o, NoErr));
    var w1 := w.(live := d.live);
    if d.err != NoErr then (w1, d.oracle, d.err)
    else if Answer(d.oracle) != NoErr then (w1, Rest(d.oracle), Answer(d.oracle))
    else (w1.(host := w1.host.(current := HostDeleted)), Rest(d.oracle), NoErr)
  }

  function Invalidated(host: Host): Host {
    host.(current := HostUntrusted, status := INVALIDATED, onboarding := UNKNOWN, registration := UNKNOWN)
  }

  function InvalidateHost(w: World, o: Oracle): (World, Oracle, Err) {
    if Answer(o) != NoErr then (w, Rest(o), Answer(o))
    else
      var w1 := w.(credentials := false);
      var o1 := Rest(o);
      if Answer(o1) != NoErr then (w1, Rest(o1), Answer(o1))
      else (w1.(host := Invalidated(w1.host)), Rest(o1), NoErr)
  }

  /** One reconciliation of the host as read. */
  function ReconciledHost(full: bool, h: HostSnapshot, w: World, o: Oracle): (World, Oracle, Directive) {
    if h.host.hasProvider || h.host.desired == h.host.current then (w, o, AckIt)
    else if h.host.desired.HostDeleted? then
      var (w1, o1, e) := DeleteHost(full, h, w, o);
      (w1, o1, if e == NoErr then AckIt else HandleInventoryError(e).value)
    else if h.host.desired.HostUntrusted? then
      var (w1, o1, e) := InvalidateHost(w, o);
      (w1, o1, if e == NoErr then AckIt else HandleInventoryError(e).value)
    else (w, o, AckIt)
  }

  // ---------------------------------------------------------------------------------------------
  // What a deletion leaves behind, in which order it removes things, and why it converges.
  // ---------------------------------------------------------------------------------------------

  ghost function SetOf(xs: seq<ResourceId>): set<ResourceId> {
    set x | x in xs
  }

  /** Answers that say more than that what should be deleted is gone. */
  function Serious(o: Oracle): nat {
    if o == [] then 0 else (if o[0] == NoErr || o[0] == NotFound then 0 else 1) + Serious(o[1..])
  }

  /** The calls from `o` to `o1` are the next ones answered; an error is the last of these answers, and the only
      serious one among them. */
  ghost predicate Consumed(o: Oracle, o1: Oracle, e: Err) {
    var n := |o| - |o1|;
    && 0 <= n && o1 == o[n..]
    && (e != NoErr ==> 0 < n && o[n - 1] == e)
    && Serious(o) == Serious(o1) + (if e == NoErr || e == NotFound then 0 else 1)
  }

  /** From `a` to `b` only the newly removed resources disappeared, and every error cost the oracle at
      least one of its failures. */
  ghost predicate Progressed(a: Deletion, b: Deletion) {
    && a.removed <= b.removed
    && b.live == a.live - SetOf(b.removed[|a.removed|..])
    && Failures(b.oracle) + (if b.err == NoErr then 0 else 1) <= Failures(a.oracle)
    && Consumed(a.oracle, b.oracle, b.err)
  }

  lemma ConsumedComposes(o: Oracle, o1: Oracle, o2: Oracle, e: Err)
    requires Consumed(o, o1, NoErr) && Consumed(o1, o2, e)
    ensures Consumed(o, o2, e)
  {
    var n, k := |o| - |o1|, |o1| - |o2|;
    assert o[n..][k..] == o[n + k..];
  }

  lemma ProgressComposes(a: Deletion, b: Deletion, c: Deletion)
    requires a.err == NoErr && b.err == NoErr && Progressed(a, b) && Progressed(b, c)
    ensures Progressed(a, c)
  {
    ConsumedComposes(a.oracle, b.oracle, c.oracle, c.err);
    assert c.removed[|a.removed|..] == b.removed[|a.removed|..] + c.removed[|b.removed|..];
  }

  lemma DeleteOneProgress(id: ResourceId, d: Deletion)
    requires d.err == NoErr
    ensures var r := DeleteOne(id, d);
      Progressed(d, r) && (r.err == NoErr ==> r.removed == d.removed + [id])
  {
    var r := DeleteOne(id, d);
    if r.err == NoErr {
      assert r.removed[|d.removed|..] == [id];
    } else {
      assert r.removed[|d.removed|..] == [];
    }
  }

  lemma {:induction false} DeleteEachProgress(ids: seq<ResourceId>, d: Deletion)
    requires d.err == NoErr
    ensures var r := DeleteEach(ids, d);
      && Progressed(d, r)
      && (r.err == NoErr ==> r.removed == d.removed + ids)
    decreases |ids|
  {
    if ids == [] {
      assert d.removed[|d.removed|..] == [];
    } else {
      var d1 := DeleteOne(ids[0], d);
      DeleteOneProgress(ids[0], d);
      if d1.err == NoErr {
        DeleteEachProgress(ids[1..], d1);
        ProgressComposes(d, d1, DeleteEach(ids, d));
        assert [ids[0]] + ids[1..] == ids;
      }
    }
  }

  /** Whatever stops it, what was removed is an initial part of the list. */
  lemma {:induction false} DeleteEachPrefix(ids: seq<ResourceId>, d: Deletion) returns (k: nat)
    requires d.err == NoErr
    ensures k <= |ids| && DeleteEach(ids, d).removed == d.removed + ids[..k]
    decreases |ids|
  {
    k := 0;
    if ids != [] {
      var d1 := DeleteOne(ids[0], d);
      if d1.err == NoErr {
        var m := DeleteEachPrefix(ids[1..], d1);
        k := m + 1;
        assert ids[..k] == [ids[0]] + ids[1..][..m];
      }
    }
  }

  lemma ListingProgress(d: Deletion)
    requires d.err == NoErr
    ensures Progressed(d, d.(oracle := Rest(d.oracle), err := Answer(d.oracle)))
  {
    assert d.removed[|d.removed|..] == [];
  }

  lemma DeleteNicProgress(p: Parts, nic: ResourceId, d: Deletion)
    requires d.err == NoErr
    ensures Progressed(d, DeleteNic(p, nic, d))
  {
    ListingProgress(d);
    if Answer(d.oracle) == NoErr {
      var d0 := d.(oracle := Rest(d.oracle));
      AfterListing(p, nic, d0);
      ProgressComposes(d, d0, DeleteNic(p, nic, d));
    }
  }

  lemma AfterListing(p: Parts, nic: ResourceId, d: Deletion)
    requires d.err == NoErr
    ensures var d1 := DeleteEach(Existing(Addresses(p, nic), d.live), d);
      Progressed(d, if d1.err != NoErr then d1 else DeleteOne(nic, d1))
  {
    var ips := Existing(Addresses(p, nic), d.live);
    var d1 := DeleteEach(ips, d);
    DeleteEachProgress(ips, d);
    if d1.err == NoErr {
      DeleteOneProgress(nic, d1);
      ProgressComposes(d, d1, DeleteOne(nic, d1));
    }
  }

  lemma {:induction false} DeleteNicsProgress(p: Parts, nics: seq<ResourceId>, d: Deletion)
    requires d.err == NoErr
    ensures Progressed(d, DeleteNics(p, nics, d))
    decreases |nics|
  {
    if nics == [] {
      assert d.removed[|d.removed|..] == [];
    } else {
      DeleteNicProgress(p, nics[0], d);
      var d1 := DeleteNic(p, nics[0], d);
      if d1.err == NoErr {
        DeleteNicsProgress(p, nics[1..], d1);
        ProgressComposes(d, d1, DeleteNics(p, nics, d));
      }
    }
  }

  /** Each NIC that was there is gone, and so are its addresses. */
  ghost predicate NicGone(p: Parts, nic: ResourceId, live: set<ResourceId>) {
    nic !in live && (nic in p.addresses ==> forall a :: a in p.addresses[nic] ==> a !in live)
  }

  lemma DeleteNicRemoves(p: Parts, nic: ResourceId, d: Deletion)
    requires d.err == NoErr && DeleteNic(p, nic, d).err == NoErr
    ensures NicGone(p, nic, DeleteNic(p, nic, d).live)
  {
    var d0 := d.(oracle := Rest(d.oracle));
    var ips := Existing(Addresses(p, nic), d0.live);
    var d1 := DeleteEach(ips, d0);
    DeleteEachProgress(ips, d0);
    assert d1.removed[|d0.removed|..] == ips;
  }

  lemma {:induction false} DeleteNicsRemoves(p: Parts, nics: seq<ResourceId>, d: Deletion)
    requires d.err == NoErr && DeleteNics(p, nics, d).err == NoErr
    ensures forall n :: n in nics ==> NicGone(p, n, DeleteNics(p, nics, d).live)
    decreases |nics|
  {
    if nics != [] {
      var d1 := DeleteNic(p, nics[0], d);
      DeleteNicRemoves(p, nics[0], d);
      DeleteNicsRemoves(p, nics[1..], d1);
      DeleteNicsProgress(p, nics[1..], d1);
      assert forall n :: n in nics ==> n == nics[0] || n in nics[1..];
    }
  }

  /** Nothing of the snapshot is left. */
  ghost predicate AllGone(p: Parts, before: set<ResourceId>, live: set<ResourceId>) {
    && (forall n :: n in p.nics && n in before ==> NicGone(p, n, live))
    && (forall x :: x in p.disks + p.usbs + p.gpus && x in before ==> x !in live)
  }

  lemma EachIsGone(ids: seq<ResourceId>, d: Deletion)
    requires d.err == NoErr
    ensures var r := DeleteEach(ids, d);
      Progressed(d, r) && (r.err == NoErr ==> forall x :: x in ids ==> x !in r.live)
  {
    DeleteEachProgress(ids, d);
    var r := DeleteEach(ids, d);
    if r.err == NoErr {
      assert r.removed[|d.removed|..] == ids;
    }
  }

  lemma DevicesAreGone(p: Parts, before: set<ResourceId>, d: Deletion)
    requires d.err == NoErr
    ensures var r := DeleteDevices(p, before, d);
      && Progressed(d, r)
      && (r.err == NoErr ==> forall x :: x in p.disks + p.usbs + p.gpus && x in before ==> x !in r.live)
  {
    var disks, usbs, gpus := Existing(p.disks, before), Existing(p.usbs, before), Existing(p.gpus, before);
    var d1 := DeleteEach(disks, d);
    EachIsGone(disks, d);
    if d1.err == NoErr {
      var d2 := DeleteEach(usbs, d1);
      EachIsGone(usbs, d1);
      ProgressComposes(d, d1, d2);
      if d2.err == NoErr {
        EachIsGone(gpus, d2);
        ProgressComposes(d, d2, DeleteEach(gpus, d2));
      }
    }
  }

  lemma DeleteChildrenProgress(p: Parts, before: set<ResourceId>, d: Deletion)
    requires d.err == NoErr
    ensures var r := DeleteChildren(p, before, d); Progressed(d, r) && (r.err == NoErr ==> AllGone(p, before, r.live))
  {
    var nics := Existing(p.nics, before);
    var d1 := DeleteNics(p, nics, d);
    DeleteNicsProgress(p, nics, d);
    if d1.err == NoErr {
      DeleteNicsRemoves(p, nics, d);
      DevicesAreGone(p, before, d1);
      ProgressComposes(d, d1, DeleteDevices(p, before, d1));
      StillGone(p, nics, d1, DeleteDevices(p, before, d1));
    }
  }

  /** NICs that are gone do not come back. */
  lemma StillGone(p: Parts, nics: seq<ResourceId>, a: Deletion, b: Deletion)
    requires b.live <= a.live && forall n :: n in nics ==> NicGone(p, n, a.live)
    ensures forall n :: n in nics ==> NicGone(p, n, b.live)
  {
  }

  /** NICs are not addresses and are not listed under another kind. */
  ghost predicate DistinctKinds(p: Parts) {
    && (forall n, m :: n in p.nics && m in p.addresses ==> n !in p.addresses[m])
    && (forall n :: n in p.nics ==> n !in p.disks && n !in p.usbs && n !in p.gpus)
  }

  /** Whenever a NIC is removed, all its addresses that existed at the start are removed already. */
  ghost predicate AddressesFirst(p: Parts, start: set<ResourceId>, removed: seq<ResourceId>) {
    forall k, a ::
      && 0 <= k < |removed| && removed[k] in p.nics
      && removed[k] in p.addresses && a in p.addresses[removed[k]] && a in start ==>
        a in removed[..k]
  }

  lemma AddressesFirstExtends(p: Parts, start: set<ResourceId>, removed: seq<ResourceId>, more: seq<ResourceId>)
    requires AddressesFirst(p, start, removed)
    requires forall x :: x in more ==> x !in p.nics
    ensures AddressesFirst(p, start, removed + more)
  {
    var all := removed + more;
    assert forall k :: |removed| <= k < |all| ==> all[k] in more;
    forall k, a | 0 <= k < |all| && all[k] in p.nics && all[k] in p.addresses && a in p.addresses[all[k]] && a in start
      ensures a in all[..k]
    {
      assert all[k] == removed[k] && all[..k] == removed[..k];
    }
  }

  lemma AddressesFirstNic(p: Parts, start: set<ResourceId>, removed: seq<ResourceId>, nic: ResourceId)
    requires AddressesFirst(p, start, removed)
    requires nic in p.addresses ==> forall a :: a in p.addresses[nic] && a in start ==> a in removed
    ensures AddressesFirst(p, start, removed + [nic])
  {
    var all := removed + [nic];
    forall k, a | 0 <= k < |all| && all[k] in p.nics && all[k] in p.addresses && a in p.addresses[all[k]] && a in start
      ensures a in all[..k]
    {
      if k < |removed| {
        assert all[..k] == removed[..k];
      } else {
        assert all[..k] == removed;
      }
    }
  }

  lemma LiveIsRest(start: set<ResourceId>, d: Deletion, r: Deletion)
    requires Progressed(d, r) && d.live == start - SetOf(d.removed)
    ensures r.live == start - SetOf(r.removed)
  {
    assert r.removed == d.removed + r.removed[|d.removed|..];
  }

  lemma DeleteNicOrder(p: Parts, start: set<ResourceId>, nic: ResourceId, d: Deletion)
    requires d.err == NoErr && DistinctKinds(p)
    requires d.live == start - SetOf(d.removed) && AddressesFirst(p, start, d.removed)
    ensures var r := DeleteNic(p, nic, d);
      r.live == start - SetOf(r.removed) && AddressesFirst(p, start, r.removed)
  {
    DeleteNicProgress(p, nic, d);
    LiveIsRest(start, d, DeleteNic(p, nic, d));
    if Answer(d.oracle) == NoErr {
      var d0 := d.(oracle := Rest(d.oracle));
      var ips := Existing(Addresses(p, nic), d0.live);
      var d1 := DeleteEach(ips, d0);
      assert forall x :: x in ips ==> x !in p.nics;
      DeleteEachOrder(p, start, ips, d0);
      if d1.err == NoErr {
        DeleteEachProgress(ips, d0);
        assert forall a :: a in Addresses(p, nic) && a in start ==> a in d0.removed || a in ips;
        DeleteOneProgress(nic, d1);
        AddressesFirstNic(p, start, d1.removed, nic);
      }
    }
  }

  lemma {:induction false} DeleteNicsOrder(p: Parts, start: set<ResourceId>, nics: seq<ResourceId>, d: Deletion)
    requires d.err == NoErr && DistinctKinds(p)
    requires d.live == start - SetOf(d.removed) && AddressesFirst(p, start, d.removed)
    ensures var r := DeleteNics(p, nics, d);
      r.live == start - SetOf(r.removed) && AddressesFirst(p, start, r.removed)
    decreases |nics|
  {
    if nics != [] {
      DeleteNicOrder(p, start, nics[0], d);
      var d1 := DeleteNic(p, nics[0], d);
      if d1.err == NoErr {
        DeleteNicsOrder(p, start, nics[1..], d1);
      }
    }
  }

  lemma DeleteEachOrder(p: Parts, start: set<ResourceId>, ids: seq<ResourceId>, d: Deletion)
    requires d.err == NoErr && AddressesFirst(p, start, d.removed)
    requires forall x :: x in ids ==> x !in p.nics
    ensures AddressesFirst(p, start, DeleteEach(ids, d).removed)
  {
    var k := DeleteEachPrefix(ids, d);
    AddressesFirstExtends(p, start, d.removed, ids[..k]);
  }

  /** However far an attempt gets before it fails, no NIC is removed before its addresses. */
  lemma AddressesGoBeforeTheirNic(p: Parts, before: set<ResourceId>, live: set<ResourceId>, o: Oracle)
    requires DistinctKinds(p)
    ensures AddressesFirst(p, live, DeleteChildren(p, before, Deletion(live, [], o, NoErr)).removed)
  {
    var d := Deletion(live, [], o, NoErr);
    var d1 := DeleteNics(p, Existing(p.nics, before), d);
    DeleteNicsOrder(p, live, Existing(p.nics, before), d);
    if d1.err == NoErr {
      var d2 := DeleteEach(Existing(p.disks, before), d1);
      DeleteEachOrder(p, live, Existing(p.disks, before), d1);
      if d2.err == NoErr {
        var d3 := DeleteEach(Existing(p.usbs, before), d2);
        DeleteEachOrder(p, live, Existing(p.usbs, before), d2);
        if d3.err == NoErr {
          DeleteEachOrder(p, live, Existing(p.gpus, before), d3);
        }
      }
    }
  }

  /** Of the children that were read, none is left: no NIC with any address it has now, no storage, no USB and no
      GPU device. */
  ghost predicate ChildrenGone(
    h: HostSnapshot, addresses: map<ResourceId, seq<ResourceId>>, live: set<ResourceId>)
  {
    && (forall n :: n in h.host.parts.nics && n in h.live ==> n !in live)
    && (forall n, a :: n in h.host.parts.nics && n in h.live && n in addresses && a in addresses[n] ==> a !in live)
    && (forall x :: x in h.host.parts.disks && x in h.live ==> x !in live)
    && (forall x :: x in h.host.parts.usbs && x in h.live ==> x !in live)
    && (forall x :: x in h.host.parts.gpus && x in h.live ==> x !in live)
  }

  /** A resource that deleting the host may remove. */
  ghost predicate IsChild(h: HostSnapshot, addresses: map<ResourceId, seq<ResourceId>>, x: ResourceId) {
    || x in h.host.parts.nics || x in h.host.parts.disks || x in h.host.parts.usbs || x in h.host.parts.gpus
    || exists n :: n in h.host.parts.nics && n in addresses && x in addresses[n]
  }

  lemma {:induction false} DeleteEachOnly(ids: seq<ResourceId>, d: Deletion)
    requires d.err == NoErr
    ensures forall x :: x in d.live && x !in DeleteEach(ids, d).live ==> x in ids
    decreases |ids|
  {
    if ids != [] && DeleteOne(ids[0], d).err == NoErr {
      DeleteEachOnly(ids[1..], DeleteOne(ids[0], d));
    }
  }

  lemma {:induction false} DeleteNicsOnly(p: Parts, nics: seq<ResourceId>, d: Deletion)
    requires d.err == NoErr
    ensures forall x :: x in d.live && x !in DeleteNics(p, nics, d).live ==>
      x in nics || exists n :: n in nics && n in p.addresses && x in p.addresses[n]
    decreases |nics|
  {
    if nics != [] {
      var d0 := d.(oracle := Rest(d.oracle));
      DeleteEachOnly(Existing(Addresses(p, nics[0]), d0.live), d0);
      if DeleteNic(p, nics[0], d).err == NoErr {
        DeleteNicsOnly(p, nics[1..], DeleteNic(p, nics[0], d));
      }
    }
  }

  lemma DeleteDevicesOnly(p: Parts, before: set<ResourceId>, d: Deletion)
    requires d.err == NoErr
    ensures forall x :: x in d.live && x !in DeleteDevices(p, before, d).live ==>
      x in p.disks || x in p.usbs || x in p.gpus
  {
    var disks, usbs, gpus := Existing(p.disks, before), Existing(p.usbs, before), Existing(p.gpus, before);
    DeleteEachOnly(disks, d);
    var d1 := DeleteEach(disks, d);
    if d1.err == NoErr {
      DeleteEachOnly(usbs, d1);
      var d2 := DeleteEach(usbs, d1);
      if d2.err == NoErr {
        DeleteEachOnly(gpus, d2);
      }
    }
  }

  lemma ClearsOnlyChildren(h: HostSnapshot, w: World, o: Oracle)
    ensures forall x :: x in w.live && x !in ClearHost(h, w, o).0.live ==> IsChild(h, w.host.parts.addresses, x)
  {
    var p, d := PartsNow(h, w), Deletion(w.live, [], o, NoErr);
    var nics := Existing(p.nics, h.live);
    DeleteNicsOnly(p, nics, d);
    var d1 := DeleteNics(p, nics, d);
    if d1.err == NoErr {
      DeleteDevicesOnly(p, h.live, d1);
    }
  }

  lemma ClearHostEffects(h: HostSnapshot, w: World, o: Oracle)
    ensures var (w1, o1, e) := ClearHost(h, w, o);
      && w1 == w.(live := w1.live, host := w.host.(current := if e == NoErr then HostDeleted else w.host.current))
      && w1.live <= w.live && (e == NoErr ==> ChildrenGone(h, w.host.parts.addresses, w1.live))
      && Failures(o1) + (if e == NoErr then 0 else 1) <= Failures(o)
  {
    var d := Deletion(w.live, [], o, NoErr);
    DeleteChildrenProgress(PartsNow(h, w), h.live, d);
  }

  /** One attempt: it writes DELETED exactly when it reports no error, and then no Instance was attached, no
      child is left of those that were read, and the credentials are revoked unless the host was UNTRUSTED;
      otherwise the host is as re-runnable as before, children only disappear, and the oracle has spent a
      failure, unless the attempt is waiting for the Instance. */
  lemma DeleteHostAttempt(full: bool, h: HostSnapshot, w: World, o: Oracle)
    ensures var (w1, o1, e) := DeleteHost(full, h, w, o);
      && w1.host == w.host.(
           current := if e == NoErr then HostDeleted else w.host.current, onboarding := w1.host.onboarding)
      && w1.instance == w.instance && w1.workflow == w.workflow
      && w1.live <= w.live
      && (w1.credentials ==> w.credentials)
      && (e == NoErr ==>
            && !(full && h.attached.Some?)
            && ChildrenGone(h, w.host.parts.addresses, w1.live)
            && w1.credentials == (h.host.current.HostUntrusted? && w.credentials))
      && Failures(o1) <= Failures(o)
      && (e != NoErr && !(full && h.attached.Some?) ==> Failures(o1) < Failures(o))
  {
    var w1 := if Answer(o) == NoErr then w.(host := w.host.(onboarding := DeletingStatus(full, h))) else w;
    if full && h.attached.Some? {
    } else if h.host.current.HostUntrusted? {
      ClearHostEffects(h, w1, Rest(o));
    } else if Answer(Rest(o)) == NoErr {
      ClearHostEffects(h, w1.(credentials := false), Rest(Rest(o)));
    }
  }

  /** Nothing but children of the host disappears, whatever fails. */
  lemma OnlyChildrenGo(full: bool, h: HostSnapshot, w: World, o: Oracle)
    ensures forall x :: x in w.live && x !in ReconciledHost(full, h, w, o).0.live ==>
      IsChild(h, w.host.parts.addresses, x)
  {
    var w1 := if Answer(o) == NoErr then w.(host := w.host.(onboarding := DeletingStatus(full, h))) else w;
    if h.host.current.HostUntrusted? {
      ClearsOnlyChildren(h, w1, Rest(o));
    } else {
      ClearsOnlyChildren(h, w1.(credentials := false), Rest(Rest(o)));
    }
  }

  // ---------------------------------------------------------------------------------------------
  // When an attempt comes to its end, call by call.
  // ---------------------------------------------------------------------------------------------

  /** A call that must work, or one that deletes, for which it will do that there is nothing to delete. */
  datatype Kind = MustWork | Deletes

  /** What is left of the answers after these calls, if each does what it should. */
  function Play(o: Oracle, calls: seq<Kind>): Option<Oracle> {
    if calls == [] then Some(o)
    else if Answer(o) == NoErr || (calls[0] == Deletes && Answer(o) == NotFound) then Play(Rest(o), calls[1..])
    else None
  }

  lemma {:induction false} PlayConcat(o: Oracle, a: seq<Kind>, b: seq<Kind>)
    ensures Play(o, a + b) == if Play(o, a) == None then None else Play(Play(o, a).value, b)
    decreases |a|
  {
    if a == [] {
      assert a + b == b;
    } else {
      assert (a + b)[0] == a[0] && (a + b)[1..] == a[1..] + b;
      PlayConcat(Rest(o), a[1..], b);
    }
  }

  function Deletions(n: nat): (r: seq<Kind>)
    ensures |r| == n && forall k :: 0 <= k < n ==> r[k] == Deletes
  {
    seq(n, _ => Deletes)
  }

  /** The calls for NICs: listing the addresses of each, deleting those that are there, and deleting it. */
  function NicCalls(
    addresses: map<ResourceId, seq<ResourceId>>, nics: seq<ResourceId>, live: set<ResourceId>): seq<Kind>
  {
    if nics == [] then []
    else
      var ips := if nics[0] in addresses then Existing(addresses[nics[0]], live) else [];
      ([MustWork] + Deletions(|ips|) + Deletions(1))
      + NicCalls(addresses, nics[1..], live - (set x | x in ips) - {nics[0]})
  }

  /** The calls for the children of a host: NICs first, then its devices. */
  function ChildCalls(h: HostSnapshot, w: World): seq<Kind> {
    NicCalls(w.host.parts.addresses, Existing(h.host.parts.nics, h.live), w.live)
    + Deletions(|Existing(h.host.parts.disks, h.live)|)
    + Deletions(|Existing(h.host.parts.usbs, h.live)|)
    + Deletions(|Existing(h.host.parts.gpus, h.live)|)
  }

  /** Where a deletion stands after these calls: without an error exactly if they do what they should. */
  ghost predicate Made(o: Oracle, calls: seq<Kind>, r: Deletion) {
    Play(o, calls) == if r.err == NoErr then Some(r.oracle) else None
  }

  lemma MadeConcat(o: Oracle, a: seq<Kind>, r: Deletion, b: seq<Kind>, s: Deletion)
    requires Made(o, a, r) && (if r.err == NoErr then Made(r.oracle, b, s) else s == r)
    ensures Made(o, a + b, s)
  {
    PlayConcat(o, a, b);
  }

  lemma {:induction false} DeleteEachMade(ids: seq<ResourceId>, d: Deletion)
    requires d.err == NoErr
    ensures var r := DeleteEach(ids, d);
      Made(d.oracle, Deletions(|ids|), r) && (r.err == NoErr ==> r.live == d.live - set x | x in ids)
    decreases |ids|
  {
    if ids != [] {
      assert Deletions(|ids|)[1..] == Deletions(|ids| - 1);
      if DeleteOne(ids[0], d).err == NoErr {
        DeleteEachMade(ids[1..], DeleteOne(ids[0], d));
        assert (set x | x in ids) == (set x | x in ids[1..]) + {ids[0]};
      }
    }
  }

  lemma DeleteOneMade(id: ResourceId, d: Deletion)
    requires d.err == NoErr
    ensures Made(d.oracle, Deletions(1), DeleteOne(id, d))
  {
    assert Deletions(1)[1..] == [];
  }

  lemma DeleteNicMade(p: Parts, nic: ResourceId, d: Deletion)
    requires d.err == NoErr
    ensures var r := DeleteNic(p, nic, d);
      var ips := if nic in p.addresses then Existing(p.addresses[nic], d.live) else [];
      && Made(d.oracle, [MustWork] + Deletions(|ips|) + Deletions(1), r)
      && (r.err == NoErr ==> r.live == d.live - (set x | x in ips) - {nic})
  {
    var ips := Existing(Addresses(p, nic), d.live);
    var d0 := d.(oracle := Rest(d.oracle), err := Answer(d.oracle));
    assert Made(d.oracle, [MustWork], d0);
    if d0.err == NoErr {
      var d1 := DeleteEach(ips, d0);
      DeleteEachMade(ips, d0);
      MadeConcat(d.oracle, [MustWork], d0, Deletions(|ips|), d1);
      if d1.err == NoErr {
        DeleteOneMade(nic, d1);
      }
      MadeConcat(d.oracle, [MustWork] + Deletions(|ips|), d1, Deletions(1), DeleteNic(p, nic, d));
    } else {
      MadeConcat(d.oracle, [MustWork], d0, Deletions(|ips|), d0);
      MadeConcat(d.oracle, [MustWork] + Deletions(|ips|), d0, Deletions(1), d0);
    }
  }

  lemma {:induction false} DeleteNicsMade(p: Parts, nics: seq<ResourceId>, d: Deletion)
    requires d.err == NoErr
    ensures Made(d.oracle, NicCalls(p.addresses, nics, d.live), DeleteNics(p, nics, d))
    decreases |nics|
  {
    if nics != [] {
      var ips := if nics[0] in p.addresses then Existing(p.addresses[nics[0]], d.live) else [];
      var d1 := DeleteNic(p, nics[0], d);
      DeleteNicMade(p, nics[0], d);
      if d1.err == NoErr {
        DeleteNicsMade(p, nics[1..], d1);
      }
      MadeConcat(d.oracle, [MustWork] + Deletions(|ips|) + Deletions(1), d1,
                 NicCalls(p.addresses, nics[1..], d.live - (set x | x in ips) - {nics[0]}), DeleteNics(p, nics, d));
    }
  }

  /** One more kind of devices. */
  lemma DevicesMade(o: Oracle, calls: seq<Kind>, d: Deletion, ids: seq<ResourceId>) returns (r: Deletion)
    requires Made(o, calls, d)
    ensures r == (if d.err == NoErr then DeleteEach(ids, d) else d) && Made(o, calls + Deletions(|ids|), r)
  {
    r := if d.err == NoErr then DeleteEach(ids, d) else d;
    if d.err == NoErr {
      DeleteEachMade(ids, d);
    }
    MadeConcat(o, calls, d, Deletions(|ids|), r);
  }

  lemma DeleteChildrenMade(h: HostSnapshot, w: World, o: Oracle)
    ensures Made(o, ChildCalls(h, w), DeleteChildren(PartsNow(h, w), h.live, Deletion(w.live, [], o, NoErr)))
  {
    var p, d := PartsNow(h, w), Deletion(w.live, [], o, NoErr);
    var nics, disks, usbs, gpus :=
      Existing(p.nics, h.live), Existing(p.disks, h.live), Existing(p.usbs, h.live), Existing(p.gpus, h.live);
    var calls := NicCalls(p.addresses, nics, w.live);
    DeleteNicsMade(p, nics, d);
    var d1 := DevicesMade(o, calls, DeleteNics(p, nics, d), disks);
    var d2 := DevicesMade(o, calls + Deletions(|disks|), d1, usbs);
    var d3 := DevicesMade(o, calls + Deletions(|disks|) + Deletions(|usbs|), d2, gpus);
  }

  lemma ClearHostIff(h: HostSnapshot, w: World, o: Oracle)
    ensures ClearHost(h, w, o).2 == NoErr <==> Play(o, ChildCalls(h, w) + [MustWork]) != None
  {
    DeleteChildrenMade(h, w, o);
    PlayConcat(o, ChildCalls(h, w), [MustWork]);
  }

  /** The calls of an attempt, after the status: the revocation, unless the host was read as UNTRUSTED, those for its
      children, and the write of the state. */
  function AttemptCalls(h: HostSnapshot, w: World): seq<Kind> {
    (if h.host.current == HostUntrusted then [] else [MustWork]) + (ChildCalls(h, w) + [MustWork])
  }

  /** DELETED is written exactly if no Instance is waited for and every call does what it should, where deleting what is
      gone is no failure; how the write of the status ends does not matter. */
  lemma DeletedIff(full: bool, h: HostSnapshot, w: World, o: Oracle)
    requires w.host.current != HostDeleted
    ensures DeleteHost(full, h, w, o).0.host.current == HostDeleted <==>
      !(full && h.attached != None) && Play(Rest(o), AttemptCalls(h, w)) != None
  {
    var w1 := if Answer(o) == NoErr then w.(host := w.host.(onboarding := DeletingStatus(full, h))) else w;
    var w2, rest := w1.(credentials := false), ChildCalls(h, w) + [MustWork];
    assert ChildCalls(h, w1) == ChildCalls(h, w) == ChildCalls(h, w2);
    DeleteHostAttempt(full, h, w, o);
    ClearHostIff(h, w1, Rest(o));
    ClearHostIff(h, w2, Rest(Rest(o)));
    PlayConcat(Rest(o), if h.host.current == HostUntrusted then [] else [MustWork], rest);
  }

  /** Credentials are revoked exactly by an attempt that does not wait, on a host not UNTRUSTED, if that call works. */
  lemma RevokedIff(full: bool, h: HostSnapshot, w: World, o: Oracle)
    ensures DeleteHost(full, h, w, o).0.credentials <==>
      && w.credentials
      && ((full && h.attached != None) || h.host.current == HostUntrusted || (|o| > 1 && o[1] != NoErr))
  {
    var w1 := if Answer(o) == NoErr then w.(host := w.host.(onboarding := DeletingStatus(full, h))) else w;
    if full && h.attached.Some? {
    } else if h.host.current.HostUntrusted? {
      ClearHostEffects(h, w1, Rest(o));
    } else if Answer(Rest(o)) == NoErr {
      ClearHostEffects(h, w1.(credentials := false), Rest(Rest(o)));
    }
  }

  /** What is shown while a host is being deleted: that it is, and which Instance it waits for, if any. */
  lemma DeletionIsShown(full: bool, h: HostSnapshot, w: World, o: Oracle)
    ensures DeleteHost(full, h, w, o).0.host.onboarding ==
      if o != [] && o[0] != NoErr then w.host.onboarding
      else Status("Deleting", if full && h.attached != None then WaitingOn(h.attached.value) else NoDetail, InProgress)
  {
    var w1 := if Answer(o) == NoErr then w.(host := w.host.(onboarding := DeletingStatus(full, h))) else w;
    if h.host.current.HostUntrusted? {
      ClearHostEffects(h, w1, Rest(o));
    } else {
      ClearHostEffects(h, w1.(credentials := false), Rest(Rest(o)));
    }
  }

  lemma ClearHostErr(h: HostSnapshot, w: World, o: Oracle)
    ensures var (_, o1, e) := ClearHost(h, w, o); Consumed(o, o1, e)
  {
    var d := Deletion(w.live, [], o, NoErr);
    DeleteChildrenProgress(PartsNow(h, w), h.live, d);
    var r := DeleteChildren(PartsNow(h, w), h.live, d);
    if r.err == NoErr {
      ConsumedComposes(o, r.oracle, Rest(r.oracle), Answer(r.oracle));
    }
  }

  /** After the status, whose write may fail, an attempt makes calls until one fails, and fails with its error. */
  lemma DeleteHostErr(full: bool, h: HostSnapshot, w: World, o: Oracle)
    ensures var (_, o1, e) := DeleteHost(full, h, w, o);
      if full && h.attached != None then e == Other else Consumed(Rest(o), o1, e)
  {
    var w1 := if Answer(o) == NoErr then w.(host := w.host.(onboarding := DeletingStatus(full, h))) else w;
    var (_, o1, e) := DeleteHost(full, h, w, o);
    if full && h.attached != None {
    } else if h.host.current.HostUntrusted? {
      ClearHostErr(h, w1, Rest(o));
    } else if Answer(Rest(o)) == NoErr {
      ClearHostErr(h, w1.(credentials := false), Rest(Rest(o)));
      ConsumedComposes(Rest(o), Rest(Rest(o)), o1, e);
    }
  }

  /** The directives while deleting: waiting for the Instance is retried, and a failed attempt is retried exactly if
      the last of its answers is an error worth it. No answer before that, and none of an attempt that comes to
      DELETED, is serious, but for the one about the status. */
  lemma DeletionDirective(full: bool, h: HostSnapshot, w: World, o: Oracle)
    requires !h.host.hasProvider && h.host.desired == HostDeleted && h.host.current != HostDeleted
    requires w.host.current != HostDeleted
    ensures var (r, o1, d) := ReconciledHost(full, h, w, o); var n := |o| - |o1|;
      && d != Fail && n >= 0 && o1 == o[n..]
      && (full && h.attached != None ==> d == Retry)
      && (r.host.current == HostDeleted ==> d == AckIt && Serious(o1) == Serious(Rest(o)))
      && (!(full && h.attached != None) && r.host.current != HostDeleted ==>
            && n > 1 && o[n - 1] != NoErr
            && (d == Retry <==> o[n - 1] in {OperationInProgress, Aborted, Other})
            && Serious(Rest(o)) == Serious(o1) + (if o[n - 1] == NotFound then 0 else 1))
  {
    var (r, o1, e) := DeleteHost(full, h, w, o);
    assert ReconciledHost(full, h, w, o) == (r, o1, if e == NoErr then AckIt else HandleInventoryError(e).value);
    DeleteHostAttempt(full, h, w, o);
    DeleteHostErr(full, h, w, o);
    assert e == NoErr <==> r.host.current == HostDeleted;
  }

  /** Every other request is answered without a change, but for an invalidation that is due. */
  lemma HostIdle(full: bool, h: HostSnapshot, w: World, o: Oracle)
    requires h.host.hasProvider || h.host.desired == h.host.current || h.host.desired !in {HostDeleted, HostUntrusted}
    ensures ReconciledHost(full, h, w, o) == (w, o, AckIt)
  {
  }

  /** Invalidating a host: revocation comes first, and only if it worked are the state and the statuses written,
      which say that the authorisation is invalidated and nothing else is known. */
  lemma InvalidationOutcome(full: bool, h: HostSnapshot, w: World, o: Oracle)
    requires !h.host.hasProvider && h.host.desired == HostUntrusted && h.host.current != HostUntrusted
    ensures var (r, _, d) := ReconciledHost(full, h, w, o);
      var revoked := o == [] || o[0] == NoErr; var written := revoked && (|o| < 2 || o[1] == NoErr);
      var unknown := Status("Unknown", NoDetail, NoIndication);
      && r.credentials == (w.credentials && !revoked)
      && r.host == (if written
                    then w.host.(current := HostUntrusted, status := Status("Invalidated", NoDetail, Settled),
                                 onboarding := unknown, registration := unknown)
                    else w.host)
      && r == w.(credentials := r.credentials, host := r.host)
      && (written ==> d == AckIt)
      && (!written ==> (d == Retry <==> (if revoked then o[1] else o[0]) in {OperationInProgress, Aborted, Other}))
  {
  }

  /** Reconciling a host n times. */
  function Attempts(full: bool, w: World, o: Oracle, n: nat): World
    decreases n
  {
    if n == 0 then w
    else var (w1, o1, _) := ReconciledHost(full, Snap(w), w, o); Attempts(full, w1, o1, n - 1)
  }

  lemma {:induction false} DeletedStays(full: bool, w: World, o: Oracle, n: nat)
    requires w.host.desired.HostDeleted? && w.host.current.HostDeleted?
    ensures Attempts(full, w, o, n) == w
    decreases n
  {
    if n > 0 {
      DeletedStays(full, w, o, n - 1);
    }
  }

  /** Deletion converges: with k failing calls to come, k + 1 reconciliations reach DELETED. */
  lemma {:induction false} DeletionConverges(full: bool, w: World, o: Oracle, n: nat)
    requires w.host.desired.HostDeleted? && !w.host.hasProvider && (full ==> w.instance.None?)
    requires n > Failures(o)
    ensures Attempts(full, w, o, n).host.current.HostDeleted?
    decreases n
  {
    if w.host.current.HostDeleted? {
      DeletedStays(full, w, o, n);
    } else {
      AttemptProgress(full, w, o);
      var (w1, o1, d) := ReconciledHost(full, Snap(w), w, o);
      AttemptsNext(full, w, o, n, w1, o1, d);
      if w1.host.current.HostDeleted? {
        DeletedStays(full, w1, o1, n - 1);
      } else {
        DeletionConverges(full, w1, o1, n - 1);
      }
    }
  }

  lemma AttemptsNext(full: bool, w: World, o: Oracle, n: nat, w1: World, o1: Oracle, d: Directive)
    requires n > 0 && ReconciledHost(full, Snap(w), w, o) == (w1, o1, d)
    ensures Attempts(full, w, o, n) == Attempts(full, w1, o1, n - 1)
  {
  }

  lemma AttemptProgress(full: bool, w: World, o: Oracle)
    requires w.host.desired.HostDeleted? && !w.host.current.HostDeleted?
    requires !w.host.hasProvider && (full ==> w.instance.None?)
    ensures var (w1, o1, _) := ReconciledHost(full, Snap(w), w, o);
      && w1.host.desired == w.host.desired && w1.host.hasProvider == w.host.hasProvider && w1.instance == w.instance
      && (w1.host.current.HostDeleted? || Failures(o1) < Failures(o))
  {
    DeleteHostAttempt(full, Snap(w), w, o);
  }

  // ---------------------------------------------------------------------------------------------
  // The reconciler, step by step.
  // ---------------------------------------------------------------------------------------------

  class HostReconciler {
    const skipOSProvisioning: bool
    var world: World
    var oracle: Oracle
    ghost var removed: seq<ResourceId>

    constructor (skipOSProvisioning: bool, world: World, oracle: Oracle)
      ensures this.skipOSProvisioning == skipOSProvisioning
      ensures this.world == world && this.oracle == oracle && removed == []
    {
      this.skipOSProvisioning := skipOSProvisioning;
      this.world := world;
      this.oracle := oracle;
      this.removed := [];
    }

    /** Everything the loops below change, as one value. */
    ghost function Now(err: Err): Deletion
      reads this
    {
      Deletion(world.live, removed, oracle, err)
    }

    /** The children are the only part of the stores the loops below touch. */
    twostate predicate OnlyLiveChanges()
      reads this
    {
      world == old(world).(live := world.live)
    }

    method Call() returns (e: Err)
      modifies this`oracle
      ensures e == Answer(old(oracle)) && oracle == Rest(old(oracle))
    {
      e := NoErr;
      if oracle != [] {
        e := oracle[0];
        oracle := oracle[1..];
      }
    }

    method DeleteResource(id: ResourceId) returns (e: Err)
      modifies this
      ensures Now(e) == DeleteOne(id, old(Now(NoErr))) && OnlyLiveChanges()
    {
      e := Call();
      if e == NotFound {
        e := NoErr;
      }
      if e == NoErr {
        world := world.(live := world.live - {id});
        removed := removed + [id];
      }
    }

    method DeleteResources(ids: seq<ResourceId>) returns (e: Err)
      modifies this
      ensures Now(e) == DeleteEach(ids, old(Now(NoErr))) && OnlyLiveChanges()
    {
      for i := 0 to |ids|
        invariant DeleteEach(ids, old(Now(NoErr))) == DeleteEach(ids[i..], Now(NoErr))
        invariant OnlyLiveChanges()
      {
        e := DeleteResource(ids[i]);
        assert ids[i..][0] == ids[i] && ids[i..][1..] == ids[i + 1..];
        if e != NoErr {
          return;
        }
      }
      e := NoErr;
    }

    method DeleteHostNic(p: Parts, nic: ResourceId) returns (e: Err)
      modifies this
      ensures Now(e) == DeleteNic(p, nic, old(Now(NoErr))) && OnlyLiveChanges()
    {
      e := Call();
      if e != NoErr {
        return;
      }
      var nicIPs := Existing(Addresses(p, nic), world.live);
      e := DeleteResources(nicIPs);
      if e != NoErr {
        return;
      }
      e := DeleteResource(nic);
    }

    method DeleteHostNics(p: Parts, nics: seq<ResourceId>) returns (e: Err)
      modifies this
      ensures Now(e) == DeleteNics(p, nics, old(Now(NoErr))) && OnlyLiveChanges()
    {
      for i := 0 to |nics|
        invariant DeleteNics(p, nics, old(Now(NoErr))) == DeleteNics(p, nics[i..], Now(NoErr))
        invariant OnlyLiveChanges()
      {
        e := DeleteHostNic(p, nics[i]);
        assert nics[i..][0] == nics[i] && nics[i..][1..] == nics[i + 1..];
        if e != NoErr {
          return;
        }
      }
      e := NoErr;
    }

    method DeleteHostChildren(p: Parts, before: set<ResourceId>) returns (e: Err)
      modifies this
      ensures Now(e) == DeleteChildren(p, before, old(Now(NoErr))) && OnlyLiveChanges()
    {
      // the lists are eager-loaded with the host
      var nics, disks := Existing(p.nics, before), Existing(p.disks, before);
      var usbs, gpus := Existing(p.usbs, before), Existing(p.gpus, before);
      e := DeleteHostNics(p, nics);
      if e != NoErr {
        return;
      }
      e := DeleteResources(disks);
      if e != NoErr {
        return;
      }
      e := DeleteResources(usbs);
      if e != NoErr {
        return;
      }
      e := DeleteResources(gpus);
    }

    method SetDeletingDetail(status: Status)
      modifies this`world, this`oracle
      ensures oracle == Rest(old(oracle))
      ensures world == if Answer(old(oracle)) != NoErr then old(world)
                       else old(world).(host := old(world).host.(onboarding := status))
    {
      var e := Call();
      if e == NoErr {
        world := world.(host := world.host.(onboarding := status));
      }
    }

    method DeleteHostResource(host: HostSnapshot) returns (e: Err)
      requires removed == []
      modifies this
      ensures (world, oracle, e) == DeleteHost(!skipOSProvisioning, host, old(world), old(oracle))
    {
      if !skipOSProvisioning && host.attached.Some? {
        SetDeletingDetail(DELETING.(detail := WaitingOn(host.attached.value)));
        return Other;
      }
      SetDeletingDetail(DELETING);
      if host.host.current != HostUntrusted {
        e := Call();
        if e != NoErr {
          return;
        }
        world := world.(credentials := false);
      }
      e := DeleteHostChildren(PartsNow(host, world), host.live);
      if e != NoErr {
        return;
      }
      e := Call();
      if e != NoErr {
        return;
      }
      world := world.(host := world.host.(current := HostDeleted));
    }

    method Invalidate() returns (e: Err)
      modifies this
      ensures (world, oracle, e) == InvalidateHost(old(world), old(oracle))
    {
      e := Call();
      if e != NoErr {
        return;
      }
      world := world.(credentials := false);
      e := Call();
      if e != NoErr {
        return;
      }
      world := world.(host := Invalidated(world.host));
    }

    /** A reconciliation; fetched is the host that was read, or how reading it failed. */
    method Reconcile(fetched: Result<HostSnapshot, Err>) returns (d: Directive)
      requires removed == [] && (fetched.Err? ==> fetched.error != NoErr)
      modifies this
      ensures fetched.Err? ==> world == old(world) && Some(d) == HandleInventoryError(fetched.error)
      ensures fetched.Ok? ==>
        (world, oracle, d) == ReconciledHost(!skipOSProvisioning, fetched.value, old(world), old(oracle))
    {
      if fetched.Err? {
        return HandleInventoryError(fetched.error).value;
      }
      var host := fetched.value;
      if host.host.hasProvider {
        return AckIt;
      }
      if host.host.desired == host.host.current {
        return AckIt;
      }
      if host.host.desired == HostDeleted {
        var e := DeleteHostResource(host);
        var directive := HandleInventoryError(e);
        return if directive.Some? then directive.value else AckIt;
      }
      if host.host.desired == HostUntrusted {
        var e := Invalidate();
        var directive := HandleInventoryError(e);
        return if directive.Some? then directive.value else AckIt;
      }
      return AckIt;
    }
  }
}
