/**
 What a node gets on its onboarding stream: for every request the exact reply, whether the stream stays open and
 what is written; and over a whole stream, that a node which waits is served in the end.
 */
module StreamOutcomes {
  import opened Wrappers
  import opened Inventory
  import opened NodeRequest
  import opened NodeIdentity
  import opened OnboardStream

  /** A host that the stream turns away: onboarded already, or one whose registration failed. */
  predicate Shut(host: HostRecord) {
    host.current == HostOnboarded || host.registration.SerialFailed? || host.registration.UuidFailed?
  }

  /** The lookup for the request; only meaningful for one that is not refused. */
  ghost function Lookup(hosts: Hosts, m: Request, c: StreamCalls): Result<HostId, Failure> {
    Identify(hosts, Normalise(m), c.lookup).1
  }

  /** The request is answered for this host: it is not refused, the lookup finds the host, and the host is neither
      onboarded nor failed. */
  ghost predicate Admitted(hosts: Hosts, m: Request, c: StreamCalls, h: HostId) {
    !Validate(m).BadField? && Lookup(hosts, m, c) == Ok(h) && h in hosts && !Shut(hosts[h])
  }

  /** The lookup changes nothing of the host it answers with but a missing UUID. */
  lemma FoundAsStored(hosts: Hosts, m: Request, c: StreamCalls, h: HostId)
    requires Lookup(hosts, m, c) == Ok(h)
    ensures h in hosts
    ensures var found := Identify(hosts, Normalise(m), c.lookup).0; found[h] == hosts[h].(uuid := found[h].uuid)
  {
    AnsweredIsUnmarked(hosts, Normalise(m), c.lookup, h);
  }

  /** Nothing is sent on a stream that fails, or to a host for which no secret can be fetched. Otherwise a request
      that is not admitted is told why: a field is refused, there is no such node, the lookup failed, or the host is
      shut. */
  lemma TurnedAwayIff(hosts: Hosts, m: Request, c: StreamCalls)
    ensures var reply := Serve(hosts, m, c).reply; var r := Lookup(hosts, m, c); var refused := Validate(m).BadField?;
      && (reply == None <==>
            !c.send || (!c.fetchSecret && exists h :: Admitted(hosts, m, c, h) && hosts[h].desired == HostOnboarded))
      && (reply == Some(InvalidReply) <==> c.send && refused)
      && (reply == Some(NotFoundReply) <==> c.send && !refused && r == Err(NoSuchNode))
      && (reply == Some(InternalReply) <==> c.send && !refused && r in {Err(Mismatch), Err(InternalFailure)})
      && (reply == Some(PreconditionReply) <==>
            c.send && !refused && exists h :: r == Ok(h) && h in hosts && Shut(hosts[h]))
  {
    AdmittedAlone(hosts, m, c);
  }

  lemma AdmittedAlone(hosts: Hosts, m: Request, c: StreamCalls)
    ensures Lookup(hosts, m, c).Ok? ==>
      var h := Lookup(hosts, m, c).value; var found := Identify(hosts, Normalise(m), c.lookup).0;
      && h in hosts && found[h] == hosts[h].(uuid := found[h].uuid)
      && (!Validate(m).BadField? ==> (Admitted(hosts, m, c, h) <==> !Shut(hosts[h])))
      && forall g :: Admitted(hosts, m, c, g) ==> g == h
  {
    if Lookup(hosts, m, c).Ok? {
      FoundAsStored(hosts, m, c, Lookup(hosts, m, c).value);
    }
  }

  /** An admitted request is replied to by the state desired of its host: with the project while it is REGISTERED,
      with credentials once it is ONBOARDED, and with a refusal otherwise. No other request gets these replies. */
  lemma AdmittedReplyIff(hosts: Hosts, m: Request, c: StreamCalls, h: HostId)
    requires h in hosts
    ensures var reply := Serve(hosts, m, c).reply; var admitted := Admitted(hosts, m, c, h);
      && (admitted && c.send && hosts[h].desired == HostRegistered ==> reply == Some(RegisteredReply(hosts[h].tenant)))
      && (reply == Some(OnboardedReply(h, hosts[h].tenant)) <==>
            admitted && c.send && c.fetchSecret && hosts[h].desired == HostOnboarded)
      && (admitted && c.send && hosts[h].desired !in {HostRegistered, HostOnboarded} ==>
            reply == Some(UnspecifiedReply))
    ensures var reply := Serve(hosts, m, c).reply;
      var admitted := exists g :: Admitted(hosts, m, c, g);
      reply != None && !admitted ==> reply.value in {InvalidReply, NotFoundReply, InternalReply, PreconditionReply}
  {
    AdmittedAlone(hosts, m, c);
  }

  /** The stream stays open exactly after a NotFound that was sent, or after a REGISTERED reply that was sent for a
      host whose state could be written. */
  lemma StaysOpenIff(hosts: Hosts, m: Request, c: StreamCalls)
    ensures Serve(hosts, m, c).open <==>
      && c.send && !Validate(m).BadField?
      && (|| Lookup(hosts, m, c) == Err(NoSuchNode)
          || (c.writeState && exists h :: Admitted(hosts, m, c, h) && hosts[h].desired == HostRegistered))
  {
    AdmittedAlone(hosts, m, c);
  }

  /** A refused request writes nothing. Beyond what the lookup writes, any other one changes only a host it is
      admitted to, and only if the reply went out and the write works: the host gets the state desired of it and the
      addresses reported; its registration is done once it is REGISTERED, its onboarding once it is ONBOARDED. */
  lemma WrittenIff(hosts: Hosts, m: Request, c: StreamCalls, h: HostId)
    requires h in hosts
    ensures var after := Serve(hosts, m, c).hosts;
      var found := if Validate(m).BadField? then hosts else Identify(hosts, Normalise(m), c.lookup).0;
      var written := Admitted(hosts, m, c, h) && c.send && c.writeState; var was := hosts[h];
      && after.Keys == hosts.Keys
      && after[h] ==
           if written && was.desired == HostRegistered
           then HostRecord(found[h].uuid, was.serial, was.tenant, HostRegistered, HostRegistered, RegistrationDone,
                           was.onboardingDone, m.ip, m.mac)
           else if written && c.fetchSecret && was.desired == HostOnboarded
           then HostRecord(found[h].uuid, was.serial, was.tenant, HostOnboarded, HostOnboarded, was.registration,
                           true, m.ip, m.mac)
           else found[h]
  {
    AdmittedAlone(hosts, m, c);
  }

  // ---------------------------------------------------------------------------------------------
  // A node that waits on its stream.
  // ---------------------------------------------------------------------------------------------

  /** The node sends the same request n times on its stream, and no call fails. */
  function Rounds(id: StreamId, m: Request, n: nat): seq<Step> {
    seq(n, _ => Step.Request(id, m, STREAM_CALLS_SUCCEED))
  }

  function Replies(id: StreamId, r: Response, n: nat): seq<Event> {
    seq(n, _ => Sent(id, r))
  }

  lemma RoundsUnfold(id: StreamId, m: Request, n: nat, rest: seq<Step>)
    requires n > 0
    ensures var all := Rounds(id, m, n) + rest;
      all[0] == Step.Request(id, m, STREAM_CALLS_SUCCEED) && all[1..] == Rounds(id, m, n - 1) + rest
  {
    assert Rounds(id, m, n)[1..] == Rounds(id, m, n - 1);
  }

  lemma RepliesUnfold(log: seq<Event>, id: StreamId, r: Response, n: nat, rest: seq<Event>)
    requires n > 0
    ensures log + [Sent(id, r)] + (Replies(id, r, n - 1) + rest) == log + (Replies(id, r, n) + rest)
  {
    assert Replies(id, r, n) == [Sent(id, r)] + Replies(id, r, n - 1);
  }

  /** Nothing is known of the node: no host has its UUID or its serial number. */
  ghost predicate Unknown(hosts: Hosts, m: Request) {
    forall h :: h in hosts ==> hosts[h].uuid != m.uuid && hosts[h].serial != Normalise(m).serial
  }

  lemma UnknownRound(s: System, id: StreamId, m: Request)
    requires id !in s.closed && !Validate(m).BadField? && Unknown(s.hosts, m)
    ensures Apply(s, Step.Request(id, m, STREAM_CALLS_SUCCEED)) == s.(log := s.log + [Sent(id, NotFoundReply)])
  {
    ServedRequest(m);
    assert WithUuid(s.hosts, m.uuid) == {} && WithSerial(s.hosts, Normalise(m).serial) == {};
    assert Serve(s.hosts, m, STREAM_CALLS_SUCCEED) == Served(s.hosts, Some(NotFoundReply), true, None, None);
  }

  /** The stream is open, its requests are not refused, and they are identified as a host that is not shut. */
  ghost predicate Due(s: System, id: StreamId, m: Request, h: HostId) {
    && id !in s.closed && !Validate(m).BadField?
    && UniqueUuids(s.hosts) && h in s.hosts && Identified(s.hosts, Normalise(m), h) && !Shut(s.hosts[h])
  }

  lemma DueIsAdmitted(s: System, id: StreamId, m: Request, h: HostId)
    requires Due(s, id, m, h)
    ensures Admitted(s.hosts, m, STREAM_CALLS_SUCCEED, h)
  {
    ServedRequest(m);
    IdentifyWithSharedSerials(s.hosts, Normalise(m), h);
  }

  /** One round of a node whose host is to be REGISTERED. */
  lemma RegisteredRound(s: System, id: StreamId, m: Request, h: HostId)
    requires Due(s, id, m, h) && s.hosts[h].desired == HostRegistered
    ensures var t := Apply(s, Step.Request(id, m, STREAM_CALLS_SUCCEED));
      && h in t.hosts && t.hosts[h].desired == HostRegistered && t.hosts[h].tenant == s.hosts[h].tenant
      && !Shut(t.hosts[h]) && t.closed == s.closed
      && t.log == s.log + [Sent(id, RegisteredReply(s.hosts[h].tenant))]
  {
    DueIsAdmitted(s, id, m, h);
    AdmittedReplyIff(s.hosts, m, STREAM_CALLS_SUCCEED, h);
    StaysOpenIff(s.hosts, m, STREAM_CALLS_SUCCEED);
    WrittenIff(s.hosts, m, STREAM_CALLS_SUCCEED, h);
    ServeCloses(s.hosts, m, STREAM_CALLS_SUCCEED);
  }

  /** A served request fills in the UUID of its host and changes no other UUID and no serial number. */
  lemma UuidAfter(s: System, id: StreamId, m: Request, h: HostId, g: HostId)
    requires Due(s, id, m, h) && g in s.hosts
    ensures var hosts := Serve(s.hosts, m, STREAM_CALLS_SUCCEED).hosts;
      && g in hosts && hosts[g].serial == s.hosts[g].serial
      && hosts[g].uuid == if g == h then m.uuid else s.hosts[g].uuid
  {
    ServedRequest(m);
    WrittenIff(s.hosts, m, STREAM_CALLS_SUCCEED, g);
    WritesWithSharedSerials(s.hosts, Normalise(m), g);
  }

  /** After it the node is still taken for this host. */
  lemma StillIdentified(s: System, id: StreamId, m: Request, h: HostId)
    requires Due(s, id, m, h)
    ensures var hosts := Serve(s.hosts, m, STREAM_CALLS_SUCCEED).hosts;
      UniqueUuids(hosts) && Identified(hosts, Normalise(m), h)
  {
    var hosts, n := Serve(s.hosts, m, STREAM_CALLS_SUCCEED).hosts, Normalise(m);
    ServedRequest(m);
    forall g | g in s.hosts
      ensures g in hosts && hosts[g].serial == s.hosts[g].serial
      ensures hosts[g].uuid == if g == h then n.uuid else s.hosts[g].uuid
    {
      UuidAfter(s, id, m, h, g);
    }
    ServeCloses(s.hosts, m, STREAM_CALLS_SUCCEED);
    if UuidKnown(s.hosts, n) {
      assert forall g :: g in s.hosts ==> hosts[g].uuid == s.hosts[g].uuid;
    }
  }

  /** One round of a node whose host is to be ONBOARDED. */
  lemma OnboardedRound(s: System, id: StreamId, m: Request, h: HostId)
    requires Due(s, id, m, h) && s.hosts[h].desired == HostOnboarded
    ensures var t := Apply(s, Step.Request(id, m, STREAM_CALLS_SUCCEED));
      && h in t.hosts && t.hosts[h].current == HostOnboarded && t.closed == s.closed + {id}
      && t.log == s.log + [Sent(id, OnboardedReply(h, s.hosts[h].tenant)), Persisted(h), ZeroTouch(h)]
  {
    var c := STREAM_CALLS_SUCCEED;
    DueIsAdmitted(s, id, m, h);
    AdmittedReplyIff(s.hosts, m, c, h);
    StaysOpenIff(s.hosts, m, c);
    WrittenIff(s.hosts, m, c, h);
    ServeCloses(s.hosts, m, c);
    assert Serve(s.hosts, m, c).reply == Some(OnboardedReply(h, s.hosts[h].tenant));
    assert HandsOut(Serve(s.hosts, m, c), h);
  }

  /** The log of a node whose host was to be REGISTERED for n requests and then ONBOARDED. */
  function WaitedLog(id: StreamId, h: HostId, tenant: string, n: nat): seq<Event> {
    Replies(id, RegisteredReply(tenant), n) + [Sent(id, OnboardedReply(h, tenant)), Persisted(h), ZeroTouch(h)]
  }

  ghost predicate EndsServed(s: System, id: StreamId, h: HostId, n: nat, t: Option<System>)
    requires h in s.hosts
  {
    && t != None && h in t.value.hosts && t.value.hosts[h].current == HostOnboarded
    && t.value.closed == s.closed + {id} && t.value.log == s.log + WaitedLog(id, h, s.hosts[h].tenant, n)
  }

  lemma ApprovedNodeIsServed(s: System, id: StreamId, m: Request, h: HostId)
    requires Due(s, id, m, h)
    ensures EndsServed(s, id, h, 0, Run(s, [SetDesired(h, HostOnboarded)] + Rounds(id, m, 1)))
  {
    var rest := [SetDesired(h, HostOnboarded)] + Rounds(id, m, 1);
    var s1 := Apply(s, SetDesired(h, HostOnboarded));
    assert rest[1..] == Rounds(id, m, 1) && Rounds(id, m, 1)[1..] == [];
    OnboardedRound(s1, id, m, h);
    assert Run(s1, Rounds(id, m, 1)) == Some(Apply(s1, Step.Request(id, m, STREAM_CALLS_SUCCEED)));
    assert WaitedLog(id, h, s.hosts[h].tenant, 0)
        == [Sent(id, OnboardedReply(h, s.hosts[h].tenant)), Persisted(h), ZeroTouch(h)];
  }

  /** A node waits on its stream for as long as its host is to be REGISTERED, and gets its credentials on the same
      stream once the host is to be ONBOARDED. */
  lemma {:induction false} RegisteredNodeIsServed(s: System, id: StreamId, m: Request, h: HostId, n: nat)
    requires Due(s, id, m, h) && s.hosts[h].desired == HostRegistered
    ensures EndsServed(s, id, h, n, Run(s, Rounds(id, m, n) + ([SetDesired(h, HostOnboarded)] + Rounds(id, m, 1))))
    decreases n
  {
    var rest := [SetDesired(h, HostOnboarded)] + Rounds(id, m, 1);
    if n == 0 {
      ApprovedNodeIsServed(s, id, m, h);
      assert Rounds(id, m, n) + rest == rest;
    } else {
      var s1 := Apply(s, Step.Request(id, m, STREAM_CALLS_SUCCEED));
      RegisteredRound(s, id, m, h);
      StillIdentified(s, id, m, h);
      RegisteredNodeIsServed(s1, id, m, h, n - 1);
      RoundsUnfold(id, m, n, rest);
      OneRoundMore(s, s1, id, h, n, Run(s1, Rounds(id, m, n - 1) + rest));
    }
  }

  lemma OneRoundMore(s: System, s1: System, id: StreamId, h: HostId, n: nat, t: Option<System>)
    requires n > 0 && h in s.hosts && h in s1.hosts && s1.hosts[h].tenant == s.hosts[h].tenant
    requires s1.closed == s.closed && s1.log == s.log + [Sent(id, RegisteredReply(s.hosts[h].tenant))]
    requires EndsServed(s1, id, h, n - 1, t)
    ensures EndsServed(s, id, h, n, t)
  {
    var tenant := s.hosts[h].tenant;
    RepliesUnfold(s.log, id, RegisteredReply(tenant), n,
      [Sent(id, OnboardedReply(h, tenant)), Persisted(h), ZeroTouch(h)]);
  }

  /** A node that is not known yet keeps asking on one stream, and nothing else happens to it. */
  lemma {:induction false} UnknownNodeWaits(s: System, id: StreamId, m: Request, n: nat, rest: seq<Step>)
    requires id !in s.closed && !Validate(m).BadField? && Unknown(s.hosts, m)
    ensures Run(s, Rounds(id, m, n) + rest) == Run(s.(log := s.log + Replies(id, NotFoundReply, n)), rest)
    decreases n
  {
    if n == 0 {
      assert Rounds(id, m, n) + rest == rest && s.log + Replies(id, NotFoundReply, n) == s.log;
    } else {
      UnknownRound(s, id, m);
      UnknownNodeWaits(Apply(s, Step.Request(id, m, STREAM_CALLS_SUCCEED)), id, m, n - 1, rest);
      RoundsUnfold(id, m, n, rest);
      RepliesUnfold(s.log, id, NotFoundReply, n, []);
      assert s.log + [Sent(id, NotFoundReply)] + Replies(id, NotFoundReply, n - 1)
          == s.log + Replies(id, NotFoundReply, n);
    }
  }

  // ---------------------------------------------------------------------------------------------
  // A session of the service is a run of its requests.
  // ---------------------------------------------------------------------------------------------

  /** What a log holds: the replies sent, the hosts whose ONBOARDED state was written, and those zero-touch was started
      for, each in order. */
  function View(log: seq<Event>): (v: (seq<Response>, seq<HostId>, seq<HostId>)) {
    if log == [] then ([], [], [])
    else
      var v := View(log[..|log| - 1]);
      match log[|log| - 1]
      case Sent(_, r) => (v.0 + [r], v.1, v.2)
      case Persisted(h) => (v.0, v.1 + [h], v.2)
      case ZeroTouch(h) => (v.0, v.1, v.2 + [h])
  }

  /** From one log to a later one, these replies, written states and starts of zero-touch were added. */
  ghost predicate Added(
    before: seq<Event>, after: seq<Event>, sent: seq<Response>, stored: seq<HostId>, touched: seq<HostId>)
  {
    && View(after).0 == View(before).0 + sent
    && View(after).1 == View(before).1 + stored
    && View(after).2 == View(before).2 + touched
  }

  lemma AddedCompose(a: seq<Event>, b: seq<Event>, c: seq<Event>, first: Session, rest: Session)
    requires Added(a, b, first.replies, first.persisted, first.zeroTouch)
    requires Added(b, c, rest.replies, rest.persisted, rest.zeroTouch)
    ensures Added(a, c, first.replies + rest.replies, first.persisted + rest.persisted,
                  first.zeroTouch + rest.zeroTouch)
  {
    assert View(a).0 + first.replies + rest.replies == View(a).0 + (first.replies + rest.replies);
    assert View(a).1 + first.persisted + rest.persisted == View(a).1 + (first.persisted + rest.persisted);
    assert View(a).2 + first.zeroTouch + rest.zeroTouch == View(a).2 + (first.zeroTouch + rest.zeroTouch);
  }

  lemma AddedOne(log: seq<Event>, e: Event)
    ensures Added(log, log + [e], if e.Sent? then [e.reply] else [], if e.Persisted? then [e.host] else [],
                  if e.ZeroTouch? then [e.host] else [])
  {
    assert (log + [e])[..|log|] == log;
  }

  lemma AddedNothing(log: seq<Event>)
    ensures Added(log, log + [], [], [], [])
  {
    assert log + [] == log;
  }

  lemma ServedIsAdded(log: seq<Event>, id: StreamId, r: Served)
    ensures Added(log, log + EventsOf(id, r), ToSeq(r.reply), ToSeq(r.persisted), ToSeq(r.zeroTouch))
  {
    var sent := if r.reply.Some? then [Sent(id, r.reply.value)] else [];
    var stored := if r.persisted.Some? then [Persisted(r.persisted.value)] else [];
    var touched := if r.zeroTouch.Some? then [ZeroTouch(r.zeroTouch.value)] else [];
    assert Added(log, log + sent, ToSeq(r.reply), [], []) by {
      AddedNothing(log);
      if r.reply.Some? {
        AddedOne(log, sent[0]);
      }
    }
    assert Added(log + sent, log + sent + stored, [], ToSeq(r.persisted), []) by {
      AddedNothing(log + sent);
      if r.persisted.Some? {
        AddedOne(log + sent, stored[0]);
      }
    }
    assert Added(log + sent + stored, log + sent + stored + touched, [], [], ToSeq(r.zeroTouch)) by {
      AddedNothing(log + sent + stored);
      if r.zeroTouch.Some? {
        AddedOne(log + sent + stored, touched[0]);
      }
    }
    assert log + EventsOf(id, r) == log + sent + stored + touched;
  }

  function Requests(id: StreamId, requests: seq<Request>, calls: seq<StreamCalls>): seq<Step>
    requires |requests| == |calls|
  {
    seq(|requests|, k requires 0 <= k < |requests| => Step.Request(id, requests[k], calls[k]))
  }

  lemma RequestsUnfold(id: StreamId, requests: seq<Request>, calls: seq<StreamCalls>, m: nat)
    requires |requests| == |calls| && m < |requests|
    ensures var steps := Requests(id, requests[..m + 1], calls[..m + 1]);
      && steps[0] == Step.Request(id, requests[0], calls[0])
      && steps[1..] == Requests(id, requests[1..][..m], calls[1..][..m])
  {
  }

  /** What a session comes to, as a run of its first n requests. */
  ghost predicate RunsAs(s: System, id: StreamId, requests: seq<Request>, calls: seq<StreamCalls>, n: nat, all: Session)
    requires |requests| == |calls|
  {
    n <= |requests| &&
    var t := Run(s, Requests(id, requests[..n], calls[..n]));
    && t.Some? && t.value.hosts == all.hosts && (n < |requests| ==> id in t.value.closed)
    && Added(s.log, t.value.log, all.replies, all.persisted, all.zeroTouch)
  }

  /** The requests of a session up to the one that closes the stream are a run, after which the hosts are the same and
      the log holds the replies sent, the states written and the zero-touch started by the session. */
  lemma {:induction false} SessionIsRun(s: System, id: StreamId, requests: seq<Request>, calls: seq<StreamCalls>)
    returns (n: nat)
    requires |requests| == |calls| && id !in s.closed
    ensures RunsAs(s, id, requests, calls, n, ServeAll(s.hosts, requests, calls))
    decreases |requests|
  {
    n := 0;
    if requests != [] {
      var r, s1 := Serve(s.hosts, requests[0], calls[0]), Apply(s, Step.Request(id, requests[0], calls[0]));
      ServedIsAdded(s.log, id, r);
      var m, rest := 0, Session(r.hosts, [], [], []);
      if r.open {
        m := SessionIsRun(s1, id, requests[1..], calls[1..]);
        rest := ServeAll(r.hosts, requests[1..], calls[1..]);
      } else {
        AddedNothing(s1.log);
      }
      n := m + 1;
      RequestsUnfold(id, requests, calls, m);
      var t := Run(s1, Requests(id, requests[1..][..m], calls[1..][..m])).value;
      AddedCompose(s.log, s1.log, t.log,
        Session(r.hosts, ToSeq(r.reply), ToSeq(r.persisted), ToSeq(r.zeroTouch)), rest);
    }
  }
}
