/**
 The node's side of the non-interactive onboarding stream: send the same request, wait for the reply,
 sleep and repeat while the host is only registered. The sleep is the base back-off; the random jitter
 added to it is left out. Composed with the server, the two run in lock-step.
 */
module StreamClient {
  import opened Wrappers
  import opened Inventory
  import opened NodeRequest
  import opened NodeIdentity
  import opened OnboardStream
  import S = StreamOutcomes

  const MIN_BACKOFF := 2
  const MAX_BACKOFF := 32

  /** What receiving on the stream gives: a response, or an error or the end of the stream. */
  datatype Received = Got(response: Response) | StreamBroken

  datatype Outcome = Credentials(host: HostId) | Fallback | GivesUp

  /** Whether the project id could be saved and the credentials in the reply are not empty. */
  datatype Local = Local(saved: bool, nonEmpty: bool)

  /** The end the client comes to on a reply, or None to go round the loop again. */
  function React(r: Received, l: Local): Option<Outcome> {
    match r
    case Got(RegisteredReply(_)) => None
    case Got(OnboardedReply(h, project)) =>
      if project != "" && l.saved && l.nonEmpty then Some(Credentials(h)) else Some(GivesUp)
    case Got(NotFoundReply) => Some(Fallback)
    case _ => Some(GivesUp)
  }

  function Pow2(n: nat): (p: nat)
    ensures p > 0
  {
    if n == 0 then 1 else 2 * Pow2(n - 1)
  }

  /** The sleep after the n-th round: it doubles up to the maximum and starts again. */
  function Backoff(n: nat): nat {
    if n == 0 then MIN_BACKOFF
    else if Backoff(n - 1) * 2 > MAX_BACKOFF then MIN_BACKOFF
    else Backoff(n - 1) * 2
  }

  /** Total base sleep after n rounds. */
  function TotalSleep(n: nat): nat {
    if n == 0 then 0 else TotalSleep(n - 1) + Backoff(n - 1)
  }

  /** The base sleep is a power of two between 2 and 32, in cycles of five that add up to 62. */
  lemma {:induction false} DoublingRule(n: nat)
    ensures Backoff(n) == Pow2(n % 5 + 1) && 2 <= Backoff(n) <= 32
    ensures TotalSleep(n) == 62 * (n / 5) + Pow2(n % 5 + 1) - 2
    decreases n
  {
    assert Pow2(1) == 2 && Pow2(2) == 4 && Pow2(3) == 8 && Pow2(4) == 16 && Pow2(5) == 32;
    if n > 0 {
      DoublingRule(n - 1);
      if (n - 1) % 5 == 4 {
        assert n / 5 == (n - 1) / 5 + 1 && n % 5 == 0;
      } else {
        assert n / 5 == (n - 1) / 5 && n % 5 == (n - 1) % 5 + 1;
      }
    }
  }

  /** Runs the client against the replies that arrive; None means that it is still waiting after the last
      of them. */
  method GrpcStreamClient(replies: seq<Received>, l: Local) returns (outcome: Option<Outcome>, rounds: nat, slept: nat)
    ensures rounds <= |replies|
    ensures forall k :: 0 <= k < rounds ==> React(replies[k], l) == None
    ensures outcome == if rounds < |replies| then React(replies[rounds], l) else None
    ensures outcome.Some? <==> rounds < |replies|
    ensures slept == TotalSleep(rounds)
  {
    var backoff := MIN_BACKOFF;
    rounds, slept := 0, 0;
    while rounds < |replies|
      invariant rounds <= |replies|
      invariant backoff == Backoff(rounds)
      invariant slept == TotalSleep(rounds)
      invariant forall k :: 0 <= k < rounds ==> React(replies[k], l) == None
    {
      match replies[rounds]
      case StreamBroken => return Some(GivesUp), rounds, slept;
      case Got(response) =>
        match response {
          case RegisteredReply(_) =>
            slept := slept + backoff;
            backoff := backoff * 2;
            if backoff > MAX_BACKOFF {
              backoff := 2;
            }
            rounds := rounds + 1;
          case OnboardedReply(host, project) =>
            if project == "" {
              return Some(GivesUp), rounds, slept;
            }
            if !l.saved {
              return Some(GivesUp), rounds, slept;
            }
            if !l.nonEmpty {
              return Some(GivesUp), rounds, slept;
            }
            return Some(Credentials(host)), rounds, slept;
          case NotFoundReply => return Some(Fallback), rounds, slept;
          case _ => return Some(GivesUp), rounds, slept;
        }
    }
    outcome := None;
  }

  // ---------------------------------------------------------------------------------------------
  // Client and server together.
  // ---------------------------------------------------------------------------------------------

  /** Where the client is: about to send, blocked in receiving, or at its end. */
  datatype Client = Ready | Waiting | Ended(outcome: Outcome)

  /** What travels to the client, with the hosts a response was served from. */
  datatype Message = Message(content: Received, from: Hosts)

  /** One connection: a queue in either direction, whether the server still reads the stream, what the client
      counted, and the last response it received. Sending only appends to a queue; receiving blocks while the
      queue is empty. */
  datatype Connection = Connection(
    hosts: Hosts, client: Client, toServer: seq<Request>, toClient: seq<Message>, serving: bool,
    sent: nat, received: nat, rounds: nat, slept: int, last: Option<Message>)

  datatype Step =
    | ClientSends
    | ClientCannotSend
    | ClientReceives
    | ServerServes(c: StreamCalls)
    | StreamBreaks
    | Others(hosts: Hosts)

  predicate Possible(k: Connection, step: Step) {
    match step
    case ClientSends => k.client.Ready?
    case ClientCannotSend => k.client.Ready?
    case ClientReceives => k.client.Waiting? && k.toClient != []
    case ServerServes(_) => k.serving && k.toServer != []
    case StreamBreaks => true
    case Others(_) => true
  }

  /** What the client does with a received message. */
  function Receive(l: Local, k: Connection, msg: Message): Connection {
    var k1 := k.(client := match React(msg.content, l) case None => Ready case Some(o) => Ended(o));
    if msg.content.StreamBroken? then k1
    else
      var k2 := k1.(received := k.received + 1, last := Some(msg));
      if k2.client.Ready? then k2.(rounds := k.rounds + 1, slept := k.slept + Backoff(k.rounds)) else k2
  }

  /** The server answers one request; when it stops reading, the end of the stream follows its answer. */
  ghost function ServerAnswer(k: Connection, m: Request, c: StreamCalls): Connection {
    var r := Serve(k.hosts, m, c);
    var answer := if r.reply.Some? then [Message(Got(r.reply.value), k.hosts)] else [];
    k.(hosts := r.hosts, serving := r.open,
       toClient := k.toClient + answer + if r.open then [] else [Message(StreamBroken, k.hosts)])
  }

  ghost function Apply(m: Request, l: Local, k: Connection, step: Step): Connection
    requires Possible(k, step)
  {
    match step
    case ClientSends => k.(client := Waiting, toServer := k.toServer + [m], sent := k.sent + 1)
    case ClientCannotSend => k.(client := Ended(GivesUp))
    case ClientReceives => Receive(l, k.(toClient := k.toClient[1..]), k.toClient[0])
    case ServerServes(c) => ServerAnswer(k.(toServer := k.toServer[1..]), k.toServer[0], c)
    case StreamBreaks => k.(serving := false, toClient := k.toClient + [Message(StreamBroken, k.hosts)])
    case Others(hosts) => k.(hosts := hosts)
  }

  ghost function Run(m: Request, l: Local, k: Connection, steps: seq<Step>): Option<Connection>
    decreases |steps|
  {
    if steps == [] then Some(k)
    else if Possible(k, steps[0]) then Run(m, l, Apply(m, l, k, steps[0]), steps[1..])
    else None
  }

  predicate Start(k: Connection) {
    && k.client.Ready? && k.toServer == [] && k.toClient == [] && k.serving
    && k.sent == k.received == k.rounds == 0 && k.slept == 0 && k.last.None?
  }

  /** The responses on their way. */
  function Responses(msgs: seq<Message>): nat {
    if msgs == [] then 0 else (if msgs[0].content.Got? then 1 else 0) + Responses(msgs[1..])
  }

  lemma {:induction false} ResponsesAdd(a: seq<Message>, b: seq<Message>)
    ensures Responses(a + b) == Responses(a) + Responses(b)
    decreases |a|
  {
    if a == [] {
      assert a + b == b;
    } else {
      assert (a + b)[0] == a[0] && (a + b)[1..] == a[1..] + b;
      ResponsesAdd(a[1..], b);
    }
  }

  /** Requests and responses on their way in either direction. */
  function InFlight(k: Connection): nat {
    |k.toServer| + Responses(k.toClient)
  }

  /** A client that is about to send has nothing in flight, and a blocked one at most one message, which no
      break of the stream comes before. */
  predicate Paced(k: Connection) {
    && InFlight(k) + k.received <= k.sent <= k.received + 1
    && (k.client.Ready? ==> k.sent == k.received)
    && (k.client.Waiting? ==> k.sent == k.received + 1)
  }

  /** The server answers this response to this request on these hosts, for some outcome of its calls. */
  ghost predicate Answers(hosts: Hosts, m: Request, r: Response) {
    exists c :: Serve(hosts, m, c).reply == Some(r)
  }

  ghost predicate Genuine(m: Request, msg: Message) {
    msg.content.Got? ==> Answers(msg.from, m, msg.content.response)
  }

  ghost predicate AllGenuine(m: Request, k: Connection) {
    && (forall i :: 0 <= i < |k.toServer| ==> k.toServer[i] == m)
    && (forall i :: 0 <= i < |k.toClient| ==> Genuine(m, k.toClient[i]))
    && (k.last.Some? ==> k.last.value.content.Got? && Genuine(m, k.last.value))
  }

  /** What the client has come to follows from the last response, unless the stream failed it. */
  predicate Decided(l: Local, k: Connection) {
    && (k.last.Some? ==> k.last.value.content.Got?)
    && (!k.client.Ended? && k.last.Some? ==> React(k.last.value.content, l) == None)
    && (k.client.Ended? ==>
          || (k.last.Some? && React(k.last.value.content, l) == Some(k.client.outcome))
          || (k.client.outcome.GivesUp? && (k.last.Some? ==> React(k.last.value.content, l) == None)))
    && k.slept == TotalSleep(k.rounds)
  }

  lemma StepKeepsPaced(m: Request, l: Local, k: Connection, step: Step)
    requires Possible(k, step) && Paced(k)
    ensures Paced(Apply(m, l, k, step))
  {
    match step
    case ServerServes(c) =>
      var k1 := k.(toServer := k.toServer[1..]);
      var r := Serve(k.hosts, k.toServer[0], c);
      var answer := if r.reply.Some? then [Message(Got(r.reply.value), k.hosts)] else [];
      ResponsesAdd(k.toClient, answer);
      ResponsesAdd(k.toClient + answer, if r.open then [] else [Message(StreamBroken, k.hosts)]);
    case StreamBreaks => ResponsesAdd(k.toClient, [Message(StreamBroken, k.hosts)]);
    case _ =>
  }

  /** What one message makes of a waiting client: a REGISTERED reply, and nothing else, sends it round the loop again,
      after it has slept; NotFound makes it fall back, and ONBOARDED ends it with the credentials if there is a
      project, which can be saved, and they are not empty. */
  lemma ReceptionIff(m: Request, l: Local, k: Connection)
    requires Possible(k, ClientReceives)
    ensures var t := Apply(m, l, k, ClientReceives); var got := k.toClient[0].content;
      && (t.client == Ready <==> got.Got? && got.response.RegisteredReply?)
      && (t.client == Ended(Fallback) <==> got == Got(NotFoundReply))
      && (forall h :: t.client == Ended(Credentials(h)) <==>
            && got.Got? && got.response.OnboardedReply? && got.response.host == h
            && got.response.project != "" && l.saved && l.nonEmpty)
      && t.client != Waiting
      && t.rounds == k.rounds + (if t.client == Ready then 1 else 0)
  {
  }

  lemma StepKeepsGenuine(m: Request, l: Local, k: Connection, step: Step)
    requires Possible(k, step) && AllGenuine(m, k)
    ensures AllGenuine(m, Apply(m, l, k, step))
  {
    if step.ServerServes? {
      var r := Serve(k.hosts, m, step.c);
      assert r.reply.Some? ==> Answers(k.hosts, m, r.reply.value);
    }
  }

  lemma StepKeepsDecided(m: Request, l: Local, k: Connection, step: Step)
    requires Possible(k, step) && Decided(l, k)
    ensures Decided(l, Apply(m, l, k, step))
  {
    if step.ClientReceives? {
      ReceiveKeepsDecided(l, k.(toClient := k.toClient[1..]), k.toClient[0]);
    }
  }

  lemma ReceiveKeepsDecided(l: Local, k: Connection, msg: Message)
    requires k.client.Waiting? && Decided(l, k)
    ensures Decided(l, Receive(l, k, msg))
  {
  }

  lemma {:induction false} RunsKeepInv(m: Request, l: Local, k: Connection, steps: seq<Step>)
    requires Run(m, l, k, steps).Some? && Paced(k) && AllGenuine(m, k) && Decided(l, k)
    ensures var t := Run(m, l, k, steps).value; Paced(t) && AllGenuine(m, t) && Decided(l, t)
    decreases |steps|
  {
    if steps != [] {
      StepKeepsPaced(m, l, k, steps[0]);
      StepKeepsGenuine(m, l, k, steps[0]);
      StepKeepsDecided(m, l, k, steps[0]);
      RunsKeepInv(m, l, Apply(m, l, k, steps[0]), steps[1..]);
    }
  }

  /** Client and server run in lock-step, whatever other streams and users do to the hosts and whenever the
      stream breaks: at most one message is in flight in either direction, and the client is at most one
      request ahead. It falls back exactly when the last response was NotFound, and ends with credentials
      exactly when it was ONBOARDED with a project it could save. The total base sleep after n rounds is
      62 * (n div 5) + 2^(n mod 5 + 1) - 2 seconds. */
  lemma LockStep(m: Request, l: Local, k: Connection, steps: seq<Step>)
    requires Start(k) && Run(m, l, k, steps).Some?
    ensures var t := Run(m, l, k, steps).value;
      && InFlight(t) <= 1
      && (t.sent == t.received || t.sent == t.received + 1)
      && (InFlight(t) == 1 ==> t.sent == t.received + 1)
      && (t.client == Ended(Fallback) <==> t.last.Some? && t.last.value.content == Got(NotFoundReply))
      && (forall h :: t.client == Ended(Credentials(h)) <==>
            && t.last.Some? && t.last.value.content.Got? && t.last.value.content.response.OnboardedReply?
            && t.last.value.content.response.host == h && t.last.value.content.response.project != ""
            && l.saved && l.nonEmpty)
      && t.slept == 62 * (t.rounds / 5) + Pow2(t.rounds % 5 + 1) - 2
  {
    RunsKeepInv(m, l, k, steps);
    DoublingRule(Run(m, l, k, steps).value.rounds);
  }

  /** A client that ends with credentials was served, by the last response it got, for a host that matched its
      identity, was desired ONBOARDED and not yet ONBOARDED. */
  lemma CredentialsAreForTheMatchingHost(m: Request, l: Local, k: Connection, steps: seq<Step>, h: HostId)
    requires Start(k) && Run(m, l, k, steps).Some?
    requires Run(m, l, k, steps).value.client == Ended(Credentials(h))
    requires var last := Run(m, l, k, steps).value.last; last.Some? ==> UniqueUuids(last.value.from)
    ensures Run(m, l, k, steps).value.last.Some?
    ensures var last := Run(m, l, k, steps).value.last.value;
      && Matches(last.from, Normalise(m), h)
      && last.from[h].desired.HostOnboarded? && !last.from[h].current.HostOnboarded?
  {
    RunsKeepInv(m, l, k, steps);
    var last := Run(m, l, k, steps).value.last.value;
    HandoutIsForTheMatchingHost(last.from, m, last.content.response);
  }

  lemma HandoutIsForTheMatchingHost(hosts: Hosts, m: Request, r: Response)
    requires UniqueUuids(hosts) && Answers(hosts, m, r) && r.OnboardedReply?
    ensures Matches(hosts, Normalise(m), r.host)
    ensures hosts[r.host].desired.HostOnboarded? && !hosts[r.host].current.HostOnboarded?
  {
    var c :| Serve(hosts, m, c).reply == Some(r);
    assert HandsOut(Serve(hosts, m, c), r.host);
    HandoutMatches(hosts, m, c, r.host);
    ServeKeeps(hosts, m, c, r.host);
  }

  // ---------------------------------------------------------------------------------------------
  // A client that waits is served.
  // ---------------------------------------------------------------------------------------------

  /** The client is about to send on a stream that is served, and the server takes its requests for a host that is to
      get into this state. */
  ghost predicate AwaitsHost(m: Request, k: Connection, h: HostId, desired: HostState) {
    && k.client.Ready? && k.toServer == [] && k.toClient == [] && k.serving
    && S.Due(System(k.hosts, {}, []), 0, m, h) && k.hosts[h].desired == desired
  }

  const ROUND := [ClientSends, ServerServes(STREAM_CALLS_SUCCEED), ClientReceives]

  /** One round of both: the request goes out, is served, and its answer is received. */
  lemma RoundRuns(m: Request, l: Local, k: Connection)
    requires k.client.Ready? && k.toServer == [] && k.toClient == [] && k.serving
    requires Serve(k.hosts, m, STREAM_CALLS_SUCCEED).reply.Some?
    ensures var r := Serve(k.hosts, m, STREAM_CALLS_SUCCEED); var reply := Message(Got(r.reply.value), k.hosts);
      Run(m, l, k, ROUND) ==
        Some(Receive(l, k.(hosts := r.hosts, serving := r.open, client := Waiting, sent := k.sent + 1,
                           toClient := if r.open then [] else [Message(StreamBroken, k.hosts)]), reply))
  {
    var k1 := Apply(m, l, k, ROUND[0]);
    var k2 := Apply(m, l, k1, ROUND[1]);
    assert k1.toServer == [m] && k1.toServer[1..] == [];
    var r := Serve(k.hosts, m, STREAM_CALLS_SUCCEED);
    var reply, rest := Message(Got(r.reply.value), k.hosts), if r.open then [] else [Message(StreamBroken, k.hosts)];
    assert k2.toClient == [reply] + rest;
    assert k2.toClient[1..] == rest;
    assert ROUND[1..][0] == ROUND[1] && ROUND[1..][1..][0] == ROUND[2] && ROUND[1..][1..][1..] == [];
    assert Run(m, l, k2, ROUND[1..][1..]) == Some(Apply(m, l, k2, ROUND[2]));
  }

  lemma RegisteredIsServed(m: Request, hosts: Hosts, h: HostId)
    requires S.Due(System(hosts, {}, []), 0, m, h) && hosts[h].desired == HostRegistered
    ensures var r := Serve(hosts, m, STREAM_CALLS_SUCCEED);
      && r.reply == Some(RegisteredReply(hosts[h].tenant)) && r.open
      && S.Due(System(r.hosts, {}, []), 0, m, h)
      && r.hosts[h].desired == HostRegistered && r.hosts[h].tenant == hosts[h].tenant
  {
    var s := System(hosts, {}, []);
    S.DueIsAdmitted(s, 0, m, h);
    S.AdmittedReplyIff(hosts, m, STREAM_CALLS_SUCCEED, h);
    S.StaysOpenIff(hosts, m, STREAM_CALLS_SUCCEED);
    S.RegisteredRound(s, 0, m, h);
    S.StillIdentified(s, 0, m, h);
  }

  lemma OnboardedIsServed(m: Request, hosts: Hosts, h: HostId)
    requires S.Due(System(hosts, {}, []), 0, m, h) && hosts[h].desired == HostOnboarded
    ensures var r := Serve(hosts, m, STREAM_CALLS_SUCCEED);
      && r.reply == Some(OnboardedReply(h, hosts[h].tenant)) && !r.open
      && h in r.hosts && r.hosts[h].current == HostOnboarded
  {
    S.DueIsAdmitted(System(hosts, {}, []), 0, m, h);
    S.AdmittedReplyIff(hosts, m, STREAM_CALLS_SUCCEED, h);
    S.StaysOpenIff(hosts, m, STREAM_CALLS_SUCCEED);
    S.WrittenIff(hosts, m, STREAM_CALLS_SUCCEED, h);
  }

  /** A round that ends with a REGISTERED reply. */
  lemma RegisteredRoundRuns(m: Request, l: Local, k: Connection, h: HostId)
    requires AwaitsHost(m, k, h, HostRegistered)
    ensures var t := Run(m, l, k, ROUND);
      && t.Some? && AwaitsHost(m, t.value, h, HostRegistered) && t.value.hosts[h].tenant == k.hosts[h].tenant
      && t.value.rounds == k.rounds + 1
  {
    RegisteredIsServed(m, k.hosts, h);
    RoundRuns(m, l, k);
  }

  /** The client has its credentials, n rounds later. */
  predicate HasCredentials(t: Option<Connection>, h: HostId, rounds: nat) {
    && t.Some? && t.value.client == Ended(Credentials(h)) && !t.value.serving && t.value.rounds == rounds
    && h in t.value.hosts && t.value.hosts[h].current == HostOnboarded
  }

  /** The round that ends with the credentials. */
  lemma CredentialsRoundRuns(m: Request, l: Local, k: Connection, h: HostId)
    requires AwaitsHost(m, k, h, HostOnboarded) && k.hosts[h].tenant != "" && l.saved && l.nonEmpty
    ensures HasCredentials(Run(m, l, k, ROUND), h, k.rounds)
  {
    OnboardedIsServed(m, k.hosts, h);
    RoundRuns(m, l, k);
  }

  /** n rounds, after which a user wants the host ONBOARDED, and one more. */
  ghost function Awaiting(m: Request, l: Local, k: Connection, h: HostId, n: nat): seq<Step>
    requires AwaitsHost(m, k, h, HostRegistered)
    decreases n
  {
    if n == 0 then [Others(k.hosts[h := k.hosts[h].(desired := HostOnboarded)])] + ROUND
    else
      RegisteredRoundRuns(m, l, k, h);
      ROUND + Awaiting(m, l, Run(m, l, k, ROUND).value, h, n - 1)
  }

  lemma {:induction false} RunConcat(m: Request, l: Local, k: Connection, a: seq<Step>, b: seq<Step>)
    requires Run(m, l, k, a).Some?
    ensures Run(m, l, k, a + b) == Run(m, l, Run(m, l, k, a).value, b)
    decreases |a|
  {
    if a == [] {
      assert a + b == b;
    } else {
      assert (a + b)[0] == a[0] && (a + b)[1..] == a[1..] + b;
      RunConcat(m, l, Apply(m, l, k, a[0]), a[1..], b);
    }
  }

  /** A client goes round as long as its host is to be REGISTERED, and gets the credentials with the first answer after
      it is to be ONBOARDED. */
  lemma {:induction false} WaitingClientIsServed(m: Request, l: Local, k: Connection, h: HostId, n: nat)
    requires AwaitsHost(m, k, h, HostRegistered) && k.hosts[h].tenant != "" && l.saved && l.nonEmpty
    ensures HasCredentials(Run(m, l, k, Awaiting(m, l, k, h, n)), h, k.rounds + n)
    decreases n
  {
    if n == 0 {
      ApprovedClientIsServed(m, l, k, h);
    } else {
      RegisteredRoundRuns(m, l, k, h);
      var k1 := Run(m, l, k, ROUND).value;
      WaitingClientIsServed(m, l, k1, h, n - 1);
      RunConcat(m, l, k, ROUND, Awaiting(m, l, k1, h, n - 1));
    }
  }

  lemma ApprovedClientIsServed(m: Request, l: Local, k: Connection, h: HostId)
    requires AwaitsHost(m, k, h, HostRegistered) && k.hosts[h].tenant != "" && l.saved && l.nonEmpty
    ensures var change := Others(k.hosts[h := k.hosts[h].(desired := HostOnboarded)]);
      HasCredentials(Run(m, l, k, [change] + ROUND), h, k.rounds)
  {
    var change := Others(k.hosts[h := k.hosts[h].(desired := HostOnboarded)]);
    assert ([change] + ROUND)[1..] == ROUND;
    CredentialsRoundRuns(m, l, Apply(m, l, k, change), h);
  }

  /** A stream that breaks ends the client whether it is about to send or waits: sending fails, or it receives the break
      after what was sent before. */
  lemma BrokenStreamEndsIt(m: Request, l: Local, k: Connection)
    ensures var t := Run(m, l, k, [StreamBreaks, ClientCannotSend]);
      k.client.Ready? ==> t.Some? && t.value.client == Ended(GivesUp) && !t.value.serving
    ensures var t := Run(m, l, k, [StreamBreaks, ClientReceives]);
      k.client.Waiting? && k.toClient == [] ==> t.Some? && t.value.client == Ended(GivesUp) && !t.value.serving
  {
    var k1 := Apply(m, l, k, StreamBreaks);
    var a, b := [StreamBreaks, ClientCannotSend], [StreamBreaks, ClientReceives];
    assert a[1..] == [ClientCannotSend] && a[1..][1..] == [] && b[1..] == [ClientReceives] && b[1..][1..] == [];
    if k.client.Ready? {
      assert Run(m, l, k1, a[1..]) == Some(Apply(m, l, k1, ClientCannotSend));
    }
    if k.client.Waiting? && k.toClient == [] {
      assert Run(m, l, k1, b[1..]) == Some(Apply(m, l, k1, ClientReceives));
    }
  }
}
