/**
 The non-interactive onboarding stream of onboarding-manager. `Serve` is the specification of serving one
 request; runs interleave any number of streams request by request with changes made by users.
 */
module OnboardStream {
  import opened Wrappers
  import opened Inventory
  import opened NodeRequest
  import opened NodeIdentity

  type StreamId = nat

  datatype Response =
    | RegisteredReply(project: string)
    | OnboardedReply(host: HostId, project: string)
    | NotFoundReply
    | InternalReply
    | InvalidReply
    | PreconditionReply
    | UnspecifiedReply

  datatype StreamCalls = StreamCalls(lookup: Calls, send: bool, fetchSecret: bool, writeState: bool)

  const STREAM_CALLS_SUCCEED := StreamCalls(NodeIdentity.ALL_SUCCEED, true, true, true)

  /** Effect of serving one request: the reply that reached the node, if any, whether the stream stays
      open, the host whose ONBOARDED state was persisted, and the host to start zero-touch for. */
  datatype Served = Served(
    hosts: Hosts, reply: Option<Response>, open: bool, persisted: Option<HostId>, zeroTouch: Option<HostId>)

  function Reply(hosts: Hosts, r: Response, open: bool, c: StreamCalls): Served {
    Served(hosts, if c.send then Some(r) else None, open && c.send, None, None)
  }

  function Touch(hosts: Hosts, h: HostId, current: HostState, req: Request): Hosts
    requires h in hosts
  {
    var done := hosts[h].onboardingDone || current.HostOnboarded?;
    hosts[h := hosts[h].(current := current, bmcIp := req.ip, pxeMac := req.mac, onboardingDone := done)]
  }

  /** The answer for a host as it was read, with its writes to the hosts as they are. */
  function ServeHost(hosts: Hosts, h: HostId, host: HostRecord, req: Request, c: StreamCalls): Served
    requires h in hosts
  {
    if host.current.HostOnboarded? || RegistrationError(host.registration)
    then Reply(hosts, PreconditionReply, false, c)
    else match host.desired
      case HostRegistered =>
        if !c.send then Served(hosts, None, false, None, None)
        else if !c.writeState then Served(hosts, Some(RegisteredReply(host.tenant)), false, None, None)
        else
          var t := Touch(hosts, h, HostRegistered, req);
          Served(t[h := t[h].(registration := RegistrationDone)], Some(RegisteredReply(host.tenant)), true, None, None)
      case HostOnboarded =>
        if !c.fetchSecret || !c.send then Served(hosts, None, false, None, None)
        else if !c.writeState then Served(hosts, Some(OnboardedReply(h, host.tenant)), false, None, None)
        else Served(Touch(hosts, h, HostOnboarded, req), Some(OnboardedReply(h, host.tenant)), false, Some(h), Some(h))
      case _ => Reply(hosts, UnspecifiedReply, false, c)
  }

  ghost function Serve(hosts: Hosts, m: Request, c: StreamCalls): Served {
    if Validate(m).BadField? then Reply(hosts, InvalidReply, false, c)
    else
      var req := Normalise(m);
      var (found, r) := Identify(hosts, req, c.lookup);
      Answer(found, r, req, c)
  }

  /** The answer to a lookup. */
  function Answer(found: Hosts, r: Result<HostId, Failure>, req: Request, c: StreamCalls): Served
    requires r.Ok? ==> r.value in found
  {
    match r
    case Err(NoSuchNode) => Reply(found, NotFoundReply, true, c)
    case Err(_) => Reply(found, InternalReply, false, c)
    case Ok(h) => ServeHost(found, h, found[h], req, c)
  }

  // ---------------------------------------------------------------------------------------------
  // The server, step by step.
  // ---------------------------------------------------------------------------------------------

  class Service {
    const store: HostStore
    var sent: seq<Response>
    var zeroTouched: seq<HostId>
    ghost var persisted: seq<HostId>

    constructor (store: HostStore)
      ensures this.store == store && sent == [] && zeroTouched == [] && persisted == []
    {
      this.store := store;
      sent, zeroTouched, persisted := [], [], [];
    }

    method Send(r: Response, c: StreamCalls) returns (ok: bool)
      modifies this`sent
      ensures ok == c.send && sent == old(sent) + if ok then [r] else []
    {
      ok := c.send;
      sent := sent + if ok then [r] else [];
    }

    /** One turn of the stream loop; `open` tells whether the loop goes on and `host` is the host to
        start zero-touch for after the stream is closed. */
    method HandleRequest(m: Request, c: StreamCalls) returns (open: bool, host: Option<HostId>)
      modifies this`sent, this`persisted, store
      ensures var r := Serve(old(store.hosts), m, c);
        && store.hosts == r.hosts
        && sent == old(sent) + ToSeq(r.reply)
        && persisted == old(persisted) + ToSeq(r.persisted)
        && open == r.open && host == r.zeroTouch
    {
      host := None;
      var req := m;
      var verdict := Validate(req);
      if verdict != Valid {
        if verdict == BadSerial {
          req := req.(serial := NOT_AVAILABLE);
        } else {
          var ok := Send(InvalidReply, c);
          return false, None;
        }
      }
      var r := store.FindHost(req, c.lookup);
      if r.Err? {
        if r.error == NoSuchNode {
          var ok := Send(NotFoundReply, c);
          return ok, None;
        }
        var ok := Send(InternalReply, c);
        return false, None;
      }
      open, host := HandleHost(r.value, req, c);
    }

    /** The rest of the turn, once the host is known. */
    method HandleHost(h: HostId, req: Request, c: StreamCalls) returns (open: bool, host: Option<HostId>)
      requires h in store.hosts
      modifies this`sent, this`persisted, store
      ensures var r := ServeHost(old(store.hosts), h, old(store.hosts)[h], req, c);
        && store.hosts == r.hosts
        && sent == old(sent) + ToSeq(r.reply)
        && persisted == old(persisted) + ToSeq(r.persisted)
        && open == r.open && host == r.zeroTouch
    {
      host := None;
      var hostInv := store.hosts[h];
      if hostInv.current == HostOnboarded || RegistrationError(hostInv.registration) {
        var ok := Send(PreconditionReply, c);
        return false, None;
      }
      match hostInv.desired
      case HostRegistered =>
        open := HandleRegisteredState(h, req, c);
      case HostOnboarded =>
        var done := HandleOnboardedState(h, req, c);
        return false, if done then Some(h) else None;
      case _ =>
        var ok := Send(UnspecifiedReply, c);
        open := false;
    }

    method HandleRegisteredState(h: HostId, req: Request, c: StreamCalls) returns (ok: bool)
      requires h in store.hosts
      modifies this`sent, store
      ensures ok == (c.send && c.writeState)
      ensures sent == old(sent) + if c.send then [RegisteredReply(old(store.hosts)[h].tenant)] else []
      ensures store.hosts ==
        if !ok then old(store.hosts)
        else var t := Touch(old(store.hosts), h, HostRegistered, req); t[h := t[h].(registration := RegistrationDone)]
    {
      ok := Send(RegisteredReply(store.hosts[h].tenant), c);
      if !ok {
        return;
      }
      if !c.writeState {
        return false;
      }
      var t := Touch(store.hosts, h, HostRegistered, req);
      store.hosts := t[h := t[h].(registration := RegistrationDone)];
    }

    method HandleOnboardedState(h: HostId, req: Request, c: StreamCalls) returns (ok: bool)
      requires h in store.hosts
      modifies this`sent, this`persisted, store
      ensures ok == (c.fetchSecret && c.send && c.writeState)
      ensures sent == old(sent) +
        if c.fetchSecret && c.send then [OnboardedReply(h, old(store.hosts)[h].tenant)] else []
      ensures persisted == old(persisted) + if ok then [h] else []
      ensures store.hosts == if ok then Touch(old(store.hosts), h, HostOnboarded, req) else old(store.hosts)
    {
      if !c.fetchSecret {
        return false;
      }
      ok := Send(OnboardedReply(h, store.hosts[h].tenant), c);
      if !ok {
        return;
      }
      if !c.writeState {
        return false;
      }
      store.hosts := Touch(store.hosts, h, HostOnboarded, req);
      persisted := persisted + [h];
    }

    /** The stream loop over the requests a node sends, until one closes the stream or the node stops
        sending. Zero-touch starts after the loop, for the host of the last request. */
    method OnboardNodeStream(requests: seq<Request>, calls: seq<StreamCalls>)
      requires |requests| == |calls|
      modifies this, store
      ensures var r := ServeAll(old(store.hosts), requests, calls);
        && store.hosts == r.hosts
        && sent == old(sent) + r.replies
        && persisted == old(persisted) + r.persisted
        && zeroTouched == old(zeroTouched) + r.zeroTouch
    {
      var startZeroTouch := None;
      var open := true;
      var i := 0;
      ghost var all := ServeAll(store.hosts, requests, calls);
      ghost var replies, stored := [], [];
      while open && i < |requests|
        invariant 0 <= i <= |requests|
        invariant zeroTouched == old(zeroTouched) && (open ==> startZeroTouch.None?)
        invariant sent == old(sent) + replies && persisted == old(persisted) + stored
        invariant all == Whole(store.hosts, open, replies, stored, startZeroTouch, requests[i..], calls[i..])
      {
        assert requests[i..][1..] == requests[i + 1..] && calls[i..][1..] == calls[i + 1..];
        open, startZeroTouch, replies, stored :=
          ServeNext(requests[i..], calls[i..], old(sent), old(persisted), replies, stored);
        i := i + 1;
      }
      WholeEnds(store.hosts, open, replies, stored, startZeroTouch, requests[i..], calls[i..]);
      zeroTouched := zeroTouched + ToSeq(startZeroTouch);
    }

    method ServeNext(requests: seq<Request>, calls: seq<StreamCalls>,
                     ghost sent0: seq<Response>, ghost persisted0: seq<HostId>,
                     ghost replies: seq<Response>, ghost stored: seq<HostId>)
      returns (open: bool, host: Option<HostId>, ghost replies': seq<Response>, ghost stored': seq<HostId>)
      requires |requests| == |calls| > 0 && sent == sent0 + replies && persisted == persisted0 + stored
      modifies this`sent, this`persisted, store
      ensures sent == sent0 + replies' && persisted == persisted0 + stored'
      ensures open ==> host.None?
      ensures Whole(store.hosts, open, replies', stored', host, requests[1..], calls[1..])
           == Whole(old(store.hosts), true, replies, stored, None, requests, calls)
    {
      ghost var r := Serve(store.hosts, requests[0], calls[0]);
      ServeCloses(store.hosts, requests[0], calls[0]);
      WholeStep(store.hosts, replies, stored, None, requests, calls);
      open, host := HandleRequest(requests[0], calls[0]);
      replies', stored' := replies + ToSeq(r.reply), stored + ToSeq(r.persisted);
    }
  }

  /** The session that the loop will have been, once it has got so far; while it is open there is no
      zero-touch to start. */
  ghost function Whole(hosts: Hosts, open: bool, replies: seq<Response>, stored: seq<HostId>, zeroTouch: Option<HostId>,
                       requests: seq<Request>, calls: seq<StreamCalls>): Session
    requires |requests| == |calls|
  {
    if open then Prepend(replies, stored, ToSeq(zeroTouch), ServeAll(hosts, requests, calls))
    else Session(hosts, replies, stored, ToSeq(zeroTouch))
  }

  /** What a whole session does to the stores. */
  datatype Session = Session(hosts: Hosts, replies: seq<Response>, persisted: seq<HostId>, zeroTouch: seq<HostId>)

  function ToSeq<T>(o: Option<T>): seq<T> {
    if o.Some? then [o.value] else []
  }

  function Prepend(replies: seq<Response>, persisted: seq<HostId>, zeroTouch: seq<HostId>, s: Session): Session {
    Session(s.hosts, replies + s.replies, persisted + s.persisted, zeroTouch + s.zeroTouch)
  }

  ghost function ServeAll(hosts: Hosts, requests: seq<Request>, calls: seq<StreamCalls>): Session
    requires |requests| == |calls|
    decreases |requests|
  {
    if requests == [] then Session(hosts, [], [], [])
    else
      var r := Serve(hosts, requests[0], calls[0]);
      var rest := if r.open then ServeAll(r.hosts, requests[1..], calls[1..]) else Session(r.hosts, [], [], []);
      Prepend(ToSeq(r.reply), ToSeq(r.persisted), ToSeq(r.zeroTouch), rest)
  }

  lemma WholeEnds(hosts: Hosts, open: bool, replies: seq<Response>, stored: seq<HostId>, zeroTouch: Option<HostId>,
                  requests: seq<Request>, calls: seq<StreamCalls>)
    requires |requests| == |calls| && (open ==> requests == [])
    ensures Whole(hosts, open, replies, stored, zeroTouch, requests, calls)
         == Session(hosts, replies, stored, ToSeq(zeroTouch))
  {
  }

  lemma WholeStep(hosts: Hosts, replies: seq<Response>, stored: seq<HostId>, zeroTouch: Option<HostId>,
                  requests: seq<Request>, calls: seq<StreamCalls>)
    requires |requests| == |calls| > 0 && zeroTouch.None?
    ensures var r := Serve(hosts, requests[0], calls[0]);
      Whole(hosts, true, replies, stored, zeroTouch, requests, calls) ==
      Whole(r.hosts, r.open, replies + ToSeq(r.reply), stored + ToSeq(r.persisted), r.zeroTouch,
            requests[1..], calls[1..])
  {
    var r := Serve(hosts, requests[0], calls[0]);
    ServeCloses(hosts, requests[0], calls[0]);
    var rest := if r.open then ServeAll(r.hosts, requests[1..], calls[1..]) else Session(r.hosts, [], [], []);
    PrependTwice(replies, stored, r, rest);
  }

  lemma PrependTwice(replies: seq<Response>, stored: seq<HostId>, r: Served, rest: Session)
    ensures Prepend(replies, stored, [], Prepend(ToSeq(r.reply), ToSeq(r.persisted), ToSeq(r.zeroTouch), rest))
         == Prepend(replies + ToSeq(r.reply), stored + ToSeq(r.persisted), ToSeq(r.zeroTouch), rest)
    ensures Prepend(replies + ToSeq(r.reply), stored + ToSeq(r.persisted), ToSeq(r.zeroTouch),
                    Session(r.hosts, [], [], []))
         == Session(r.hosts, replies + ToSeq(r.reply), stored + ToSeq(r.persisted), ToSeq(r.zeroTouch))
  {
    assert replies + (ToSeq(r.reply) + rest.replies) == (replies + ToSeq(r.reply)) + rest.replies;
    assert stored + (ToSeq(r.persisted) + rest.persisted) == (stored + ToSeq(r.persisted)) + rest.persisted;
  }

  // ---------------------------------------------------------------------------------------------
  // What serving one request can do.
  // ---------------------------------------------------------------------------------------------

  /** Serving hands out credentials for this host. */
  predicate HandsOut(r: Served, h: HostId) {
    r.reply.Some? && r.reply.value.OnboardedReply? && r.reply.value.host == h
  }

  /** Only credentials are followed by anything, and they close the stream. */
  predicate CredentialsClose(r: Served) {
    && r.zeroTouch == r.persisted
    && (r.persisted.Some? ==> HandsOut(r, r.persisted.value))
    && (r.reply.Some? && r.reply.value.OnboardedReply? ==> !r.open)
  }

  /** What an answer means for one host, given as it was. */
  predicate KeepsHost(before: HostRecord, r: Served, h: HostId) {
    && h in r.hosts && r.hosts[h].desired == before.desired
    && (HandsOut(r, h) ==>
          before.desired.HostOnboarded? && !before.current.HostOnboarded? && !RegistrationError(before.registration))
    && (r.hosts[h].current.HostOnboarded? <==>
          if HandsOut(r, h) then r.persisted == Some(h) else before.current.HostOnboarded?)
    && (RegistrationError(before.registration) ==> RegistrationError(r.hosts[h].registration))
  }

  lemma AnswerCloses(found: Hosts, r: Result<HostId, Failure>, req: Request, c: StreamCalls)
    requires r.Ok? ==> r.value in found
    ensures var a := Answer(found, r, req, c); CredentialsClose(a) && a.hosts.Keys == found.Keys
    ensures forall h: HostId :: HandsOut(Answer(found, r, req, c), h) ==>
      h in found && Answer(found, r, req, c).persisted == if c.writeState then Some(h) else None
  {
  }

  lemma AnswerKeeps(found: Hosts, r: Result<HostId, Failure>, req: Request, c: StreamCalls, h: HostId)
    requires (r.Ok? ==> r.value in found) && h in found
    ensures KeepsHost(found[h], Answer(found, r, req, c), h)
  {
  }

  /** Whatever calls fail: credentials close the stream, only after them is ONBOARDED persisted, for the host
      they are for and if that write succeeds, and zero-touch follows exactly a persisted state. */
  lemma ServeCloses(hosts: Hosts, m: Request, c: StreamCalls)
    ensures var r := Serve(hosts, m, c); CredentialsClose(r) && r.hosts.Keys == hosts.Keys
    ensures forall h: HostId :: HandsOut(Serve(hosts, m, c), h) ==>
      h in hosts && Serve(hosts, m, c).persisted == if c.writeState then Some(h) else None
  {
    var (found, r) := Identify(hosts, Normalise(m), c.lookup);
    AnswerCloses(found, r, Normalise(m), c);
  }

  /** Whatever calls fail: credentials go to a host that was not ONBOARDED, desired it and had no registration
      error; no request removes a host, changes what is desired of it or clears its registration error, and
      only a persisted hand-out makes it ONBOARDED. */
  lemma ServeKeeps(hosts: Hosts, m: Request, c: StreamCalls, h: HostId)
    requires h in hosts
    ensures KeepsHost(hosts[h], Serve(hosts, m, c), h)
  {
    var (found, r) := Identify(hosts, Normalise(m), c.lookup);
    IdentifyKeeps(hosts, Normalise(m), c.lookup, h);
    AnswerKeeps(found, r, Normalise(m), c, h);
    assert Serve(hosts, m, c).hosts.Keys == hosts.Keys;
    if RegistrationError(found[h].registration) && !RegistrationError(hosts[h].registration) {
      FailureIsNoAnswer(hosts, Normalise(m), c.lookup, h);
    }
  }

  /** A lookup that records a failure for a host does not answer with a host. */
  lemma FailureIsNoAnswer(hosts: Hosts, req: Request, c: Calls, h: HostId)
    requires h in hosts && Identify(hosts, req, c).0[h].registration != hosts[h].registration
    ensures Identify(hosts, req, c).1.Err?
  {
  }

  /** With working calls and unique UUIDs, credentials for a host go out exactly to a request that is not
      refused and is identified as that host, if the host is desired ONBOARDED, not yet ONBOARDED and without
      a registration error. */
  lemma CredentialsIff(hosts: Hosts, m: Request, h: HostId)
    requires UniqueUuids(hosts)
    ensures HandsOut(Serve(hosts, m, STREAM_CALLS_SUCCEED), h) <==>
      && !Validate(m).BadField? && Identified(hosts, Normalise(m), h)
      && hosts[h].desired.HostOnboarded? && !hosts[h].current.HostOnboarded?
      && !RegistrationError(hosts[h].registration)
  {
    if !Validate(m).BadField? {
      var n := Normalise(m);
      ServedRequest(m);
      IdentifyWithSharedSerials(hosts, n, h);
      var (found, r) := Identify(hosts, n, NodeIdentity.ALL_SUCCEED);
      AnswerHandsOutIff(found, r, n, STREAM_CALLS_SUCCEED, h);
      if r == Ok(h) {
        AnsweredIsUnmarked(hosts, n, NodeIdentity.ALL_SUCCEED, h);
      }
    }
  }

  lemma AnswerHandsOutIff(found: Hosts, r: Result<HostId, Failure>, req: Request, c: StreamCalls, h: HostId)
    requires r.Ok? ==> r.value in found
    ensures HandsOut(Answer(found, r, req, c), h) <==>
      && r == Ok(h) && c.fetchSecret && c.send
      && found[h].desired.HostOnboarded? && !found[h].current.HostOnboarded?
      && !RegistrationError(found[h].registration)
  {
  }

  /** The host that a lookup answers with is as before but for its UUID. */
  lemma AnsweredIsUnmarked(hosts: Hosts, req: Request, c: Calls, h: HostId)
    requires Identify(hosts, req, c).1 == Ok(h)
    ensures h in hosts && Identify(hosts, req, c).0[h] == hosts[h].(uuid := Identify(hosts, req, c).0[h].uuid)
  {
  }

  /** Whatever calls fail and whatever serial numbers hosts share, credentials only go to a node the host
      matches. */
  lemma HandoutMatches(hosts: Hosts, m: Request, c: StreamCalls, h: HostId)
    requires UniqueUuids(hosts) && HandsOut(Serve(hosts, m, c), h)
    ensures Matches(hosts, Normalise(m), h)
  {
    var (found, r) := Identify(hosts, Normalise(m), c.lookup);
    AnswerHandsOutIff(found, r, Normalise(m), c, h);
    IdentifyIsSound(hosts, Normalise(m), c.lookup, h);
  }

  // ---------------------------------------------------------------------------------------------
  // Runs of interleaved streams.
  // ---------------------------------------------------------------------------------------------

  datatype Event =
    | Sent(stream: StreamId, reply: Response)
    | Persisted(host: HostId)
    | ZeroTouch(host: HostId)

  datatype System = System(hosts: Hosts, closed: set<StreamId>, log: seq<Event>)

  datatype Step =
    | Request(stream: StreamId, m: Request, c: StreamCalls)
    | SetDesired(host: HostId, state: HostState)
    | AddHost(host: HostId, record: HostRecord)

  predicate Possible(s: System, step: Step) {
    match step
    case Request(id, _, _) => id !in s.closed
    case SetDesired(h, _) => h in s.hosts
    case AddHost(h, _) => h !in s.hosts
  }

  ghost function Apply(s: System, step: Step): System
    requires Possible(s, step)
  {
    match step
    case Request(id, m, c) =>
      var r := Serve(s.hosts, m, c);
      System(r.hosts, if r.open then s.closed else s.closed + {id}, s.log + EventsOf(id, r))
    case SetDesired(h, d) => s.(hosts := s.hosts[h := s.hosts[h].(desired := d)])
    case AddHost(h, r) => s.(hosts := s.hosts[h := r])
  }

  function EventsOf(id: StreamId, r: Served): seq<Event> {
    (if r.reply.Some? then [Sent(id, r.reply.value)] else []) +
    (if r.persisted.Some? then [Persisted(r.persisted.value)] else []) +
    (if r.zeroTouch.Some? then [ZeroTouch(r.zeroTouch.value)] else [])
  }

  ghost function Run(s: System, steps: seq<Step>): Option<System>
    decreases |steps|
  {
    if steps == [] then Some(s)
    else if Possible(s, steps[0]) then Run(Apply(s, steps[0]), steps[1..])
    else None
  }

  predicate IsHandout(e: Event, h: HostId) {
    e.Sent? && e.reply.OnboardedReply? && e.reply.host == h
  }

  function Handouts(log: seq<Event>, h: HostId): nat {
    if log == [] then 0
    else (if IsHandout(log[0], h) then 1 else 0) + Handouts(log[1..], h)
  }

  function Persists(log: seq<Event>, h: HostId): nat {
    if log == [] then 0
    else (if log[0] == Persisted(h) then 1 else 0) + Persists(log[1..], h)
  }

  lemma {:induction false} CountsAdd(a: seq<Event>, b: seq<Event>, h: HostId)
    ensures Handouts(a + b, h) == Handouts(a, h) + Handouts(b, h)
    ensures Persists(a + b, h) == Persists(a, h) + Persists(b, h)
    decreases |a|
  {
    if a == [] {
      assert a + b == b;
    } else {
      assert (a + b)[0] == a[0] && (a + b)[1..] == a[1..] + b;
      CountsAdd(a[1..], b, h);
    }
  }

  /** Credentials are the last thing a stream carries. */
  ghost predicate HandoutsLast(s: System) {
    && (forall k, h :: 0 <= k < |s.log| && IsHandout(s.log[k], h) ==> s.log[k].stream in s.closed)
    && forall k, l, h :: 0 <= k < l < |s.log| && IsHandout(s.log[k], h) && s.log[l].Sent? ==>
         s.log[l].stream != s.log[k].stream
  }

  /** Zero-touch always directly follows the persisted state of the same host. */
  ghost predicate ZeroTouchAfterPersist(log: seq<Event>) {
    forall k :: 0 <= k < |log| && log[k].ZeroTouch? ==> k > 0 && log[k - 1] == Persisted(log[k].host)
  }

  ghost predicate LogInv(s: System) {
    HandoutsLast(s) && ZeroTouchAfterPersist(s.log)
  }

  ghost predicate Shape(id: StreamId, r: Served, ev: seq<Event>) {
    && |ev| <= 3
    && (|ev| > 0 ==> ev[0].Sent? && ev[0].stream == id && Some(ev[0].reply) == r.reply)
    && (|ev| > 1 ==> |ev| == 3 && ev[0].reply.OnboardedReply? && !r.open)
    && (|ev| > 1 ==> ev[1] == Persisted(ev[0].reply.host) && ev[2] == ZeroTouch(ev[0].reply.host))
    && (|ev| > 0 && ev[0].reply.OnboardedReply? ==> !r.open)
    && (r.persisted.Some? <==> |ev| == 3)
    && (r.reply.None? <==> |ev| == 0)
  }

  lemma EventsShape(id: StreamId, hosts: Hosts, m: Request, c: StreamCalls)
    ensures Shape(id, Serve(hosts, m, c), EventsOf(id, Serve(hosts, m, c)))
  {
    ServeCloses(hosts, m, c);
    ServedShape(id, Serve(hosts, m, c));
  }

  lemma ServedShape(id: StreamId, r: Served)
    requires CredentialsClose(r)
    ensures Shape(id, r, EventsOf(id, r))
  {
  }

  lemma StepKeepsLogInv(s: System, step: Step)
    requires Possible(s, step) && LogInv(s)
    ensures LogInv(Apply(s, step))
  {
    if step.Request? {
      EventsShape(step.stream, s.hosts, step.m, step.c);
      var ev := EventsOf(step.stream, Serve(s.hosts, step.m, step.c));
      AppendKeepsLogInv(s, step.stream, ev, Apply(s, step).closed);
    }
  }

  lemma AppendKeepsLogInv(s: System, id: StreamId, ev: seq<Event>, closed: set<StreamId>)
    requires LogInv(s) && id !in s.closed && s.closed <= closed
    requires |ev| == 0 || |ev| == 1 || |ev| == 3
    requires |ev| > 0 ==> ev[0].Sent? && ev[0].stream == id && (ev[0].reply.OnboardedReply? ==> id in closed)
    requires |ev| == 3 ==> ev[1].Persisted? && ev[2] == ZeroTouch(ev[1].host)
    ensures LogInv(System(s.hosts, closed, s.log + ev))
  {
    var t := System(s.hosts, closed, s.log + ev);
    var n := |s.log|;
    assert forall k :: 0 <= k < n ==> t.log[k] == s.log[k];
    assert forall k :: n <= k < |t.log| ==> t.log[k] == ev[k - n];
    forall k, l, h | 0 <= k < l < |t.log| && IsHandout(t.log[k], h) && t.log[l].Sent?
      ensures t.log[l].stream != t.log[k].stream
    {
      assert k < n;
      assert s.log[k].stream in s.closed;
    }
  }

  lemma EventCounts(ev: seq<Event>, h: HostId)
    requires |ev| == 0 || |ev| == 1 || |ev| == 3
    requires |ev| > 0 ==> ev[0].Sent?
    requires |ev| == 3 ==> ev[1].Persisted? && ev[2].ZeroTouch?
    ensures Handouts(ev, h) == if |ev| > 0 && IsHandout(ev[0], h) then 1 else 0
    ensures Persists(ev, h) == if |ev| == 3 && ev[1].host == h then 1 else 0
  {
    if |ev| == 3 {
      CountsAdd([ev[0]], [ev[1]] + [ev[2]], h);
      CountsAdd([ev[1]], [ev[2]], h);
      assert ev == [ev[0]] + ([ev[1]] + [ev[2]]);
    } else if |ev| == 1 {
      assert ev == [ev[0]];
    }
  }

  lemma {:induction false} RunsKeepLogInv(s: System, steps: seq<Step>)
    requires Run(s, steps).Some? && LogInv(s)
    ensures LogInv(Run(s, steps).value)
    decreases |steps|
  {
    if steps != [] {
      StepKeepsLogInv(s, steps[0]);
      RunsKeepLogInv(Apply(s, steps[0]), steps[1..]);
    }
  }

  /** 1 if the host is there and ONBOARDED. */
  function Onboarded(hosts: Hosts, h: HostId): nat {
    if h in hosts && hosts[h].current.HostOnboarded? then 1 else 0
  }

  /** How often the host was added as one that is ONBOARDED already. */
  function Arrivals(steps: seq<Step>, h: HostId): nat {
    if steps == [] then 0
    else
      (if steps[0].AddHost? && steps[0].host == h && steps[0].record.current.HostOnboarded? then 1 else 0)
      + Arrivals(steps[1..], h)
  }

  /** The hand-outs of a request whose state write fails. */
  ghost function Lost(hosts: Hosts, m: Request, c: StreamCalls, h: HostId): nat {
    if HandsOut(Serve(hosts, m, c), h) && !c.writeState then 1 else 0
  }

  lemma ServeCounts(s: System, step: Step, h: HostId)
    requires step.Request? && Possible(s, step)
    ensures var t := Apply(s, step);
      && Persists(t.log, h) + Onboarded(s.hosts, h) == Persists(s.log, h) + Onboarded(t.hosts, h)
      && Handouts(t.log, h) + Persists(s.log, h)
         == Handouts(s.log, h) + Persists(t.log, h) + Lost(s.hosts, step.m, step.c, h)
  {
    var r := Serve(s.hosts, step.m, step.c);
    var ev := EventsOf(step.stream, r);
    EventsShape(step.stream, s.hosts, step.m, step.c);
    CountsAdd(s.log, ev, h);
    EventCounts(ev, h);
    ServeCloses(s.hosts, step.m, step.c);
    if h in s.hosts {
      ServeKeeps(s.hosts, step.m, step.c, h);
    }
  }

  /** Along every run, ONBOARDED is written for a host exactly as often as it became ONBOARDED here: once
      at most, and never if it was ONBOARDED before. */
  lemma {:induction false} PersistsAddUp(s: System, steps: seq<Step>, h: HostId)
    requires Run(s, steps).Some?
    ensures var t := Run(s, steps).value;
      Persists(t.log, h) + Onboarded(s.hosts, h) + Arrivals(steps, h) == Persists(s.log, h) + Onboarded(t.hosts, h)
    decreases |steps|
  {
    if steps != [] {
      if steps[0].Request? {
        ServeCounts(s, steps[0], h);
      }
      PersistsAddUp(Apply(s, steps[0]), steps[1..], h);
    }
  }

  /** On every run: credentials are the last message of their stream, zero-touch starts right after the
      state of its host was persisted, and that happens at most once per host, exactly if the host became
      ONBOARDED on the way. */
  lemma CredentialHandouts(s: System, steps: seq<Step>, h: HostId)
    requires s.log == [] && Run(s, steps).Some?
    ensures var t := Run(s, steps).value;
      && HandoutsLast(t)
      && ZeroTouchAfterPersist(t.log)
      && Persists(t.log, h) <= 1
      && Persists(t.log, h) == Onboarded(t.hosts, h) - Onboarded(s.hosts, h) - Arrivals(steps, h)
  {
    RunsKeepLogInv(s, steps);
    PersistsAddUp(s, steps, h);
  }

  /** Lost state writes along a run. */
  ghost function LostWrites(s: System, steps: seq<Step>, h: HostId): nat
    decreases |steps|
  {
    if steps == [] || !Possible(s, steps[0]) then 0
    else
      (if steps[0].Request? then Lost(s.hosts, steps[0].m, steps[0].c, h) else 0)
      + LostWrites(Apply(s, steps[0]), steps[1..], h)
  }

  /** The exact number of handouts of a host on any run: one if it became ONBOARDED here, plus the lost
      state writes. So when every write succeeds, at most one stream gets the credentials of a host. */
  lemma {:induction false} HandoutsAreConserved(s: System, steps: seq<Step>, h: HostId)
    requires Run(s, steps).Some?
    ensures var t := Run(s, steps).value;
      Handouts(t.log, h) - Handouts(s.log, h)
        == Onboarded(t.hosts, h) - Onboarded(s.hosts, h) - Arrivals(steps, h) + LostWrites(s, steps, h)
    decreases |steps|
  {
    if steps != [] {
      if steps[0].Request? {
        ServeCounts(s, steps[0], h);
      }
      HandoutsAreConserved(Apply(s, steps[0]), steps[1..], h);
    }
  }

  /** A registration error is never cleared on this path, and shuts the host out of credentials. */
  lemma {:induction false} RegistrationErrorIsFinal(s: System, steps: seq<Step>, h: HostId)
    requires Run(s, steps).Some? && h in s.hosts && RegistrationError(s.hosts[h].registration)
    ensures var t := Run(s, steps).value;
      h in t.hosts && RegistrationError(t.hosts[h].registration) && Handouts(t.log, h) == Handouts(s.log, h)
    decreases |steps|
  {
    if steps != [] {
      var step := steps[0];
      if step.Request? {
        var r := Serve(s.hosts, step.m, step.c);
        ServeKeeps(s.hosts, step.m, step.c, h);
        EventsShape(step.stream, s.hosts, step.m, step.c);
        CountsAdd(s.log, EventsOf(step.stream, r), h);
        EventCounts(EventsOf(step.stream, r), h);
      }
      RegistrationErrorIsFinal(Apply(s, step), steps[1..], h);
    }
  }
}
