/**
 Onboarding streams that race: looking a host up and answering are separate steps, so any number of streams
 may have found the same host before one of them writes its state. What OnboardStream proves about requests
 that are served at once is refined here by exactly what such overlaps add.
 */
module StreamRaces {
  import opened Wrappers
  import opened Inventory
  import opened NodeRequest
  import opened NodeIdentity
  import opened OnboardStream

  /** What a lookup found: the host and its record as read then. */
  datatype Found = Found(req: Request, answer: Result<HostId, Failure>, record: Option<HostRecord>)

  /** What happened to a host that a request served at once would not have done, or that changed its state from
      outside. */
  datatype Note =
    | Overlapped(host: HostId)
    | Reverted(host: HostId)
    | LostWrite(host: HostId)
    | AddedOnboarded(host: HostId)

  datatype Race = Race(
    hosts: Hosts, pending: map<StreamId, Found>, closed: set<StreamId>, log: seq<Event>, notes: seq<Note>)

  datatype Move =
    | Refuse(stream: StreamId, m: Request, c: StreamCalls)
    | LookUp(stream: StreamId, m: Request, calls: Calls)
    | Finish(stream: StreamId, c: StreamCalls)
    | UserSets(host: HostId, state: HostState)
    | UserAdds(host: HostId, record: HostRecord)

  predicate Idle(s: Race, id: StreamId) {
    id !in s.closed && id !in s.pending
  }

  /** The host that was found is still there; hosts never disappear, so this always holds (PendingStaysReady). */
  predicate Ready(hosts: Hosts, f: Found) {
    f.answer.Ok? ==> f.record.Some? && f.answer.value in hosts
  }

  predicate Allowed(s: Race, move: Move) {
    match move
    case Refuse(id, m, _) => Idle(s, id) && Validate(m).BadField?
    case LookUp(id, m, _) => Idle(s, id) && !Validate(m).BadField?
    case Finish(id, _) => id in s.pending && Ready(s.hosts, s.pending[id])
    case UserSets(h, _) => h in s.hosts
    case UserAdds(h, _) => h !in s.hosts
  }

  /** The answer to a lookup, by what was read then and on the hosts as they are now. */
  function Late(hosts: Hosts, f: Found, c: StreamCalls): Served
    requires Ready(hosts, f)
  {
    match f.answer
    case Err(NoSuchNode) => Reply(hosts, NotFoundReply, true, c)
    case Err(_) => Reply(hosts, InternalReply, false, c)
    case Ok(h) => ServeHost(hosts, h, f.record.value, f.req, c)
  }

  predicate IsOnboarded(hosts: Hosts, h: HostId) {
    h in hosts && hosts[h].current.HostOnboarded?
  }

  /** Credentials are handed out and ONBOARDED is written for a host that became ONBOARDED meanwhile. */
  predicate Overlaps(hosts: Hosts, f: Found, c: StreamCalls, h: HostId)
    requires Ready(hosts, f)
  {
    Late(hosts, f, c).persisted == Some(h) && IsOnboarded(hosts, h)
  }

  /** An ONBOARDED host is written back to REGISTERED. */
  predicate Reverts(hosts: Hosts, f: Found, c: StreamCalls, h: HostId)
    requires Ready(hosts, f)
  {
    IsOnboarded(hosts, h) && !IsOnboarded(Late(hosts, f, c).hosts, h)
  }

  predicate LosesWrite(hosts: Hosts, f: Found, c: StreamCalls, h: HostId)
    requires Ready(hosts, f)
  {
    HandsOut(Late(hosts, f, c), h) && !c.writeState
  }

  function If(b: bool, n: Note): seq<Note> {
    if b then [n] else []
  }

  function NotesOf(hosts: Hosts, f: Found, c: StreamCalls): seq<Note>
    requires Ready(hosts, f)
  {
    if f.answer.Err? then []
    else
      var h := f.answer.value;
      If(Overlaps(hosts, f, c, h), Overlapped(h)) + If(Reverts(hosts, f, c, h), Reverted(h))
      + If(LosesWrite(hosts, f, c, h), LostWrite(h))
  }

  ghost function LookedUp(hosts: Hosts, m: Request, c: Calls): (Hosts, Found) {
    var (after, r) := Identify(hosts, Normalise(m), c);
    (after, Found(Normalise(m), r, if r.Ok? then Some(after[r.value]) else None))
  }

  ghost function Next(s: Race, move: Move): Race
    requires Allowed(s, move)
  {
    match move
    case Refuse(id, _, c) =>
      var r := Reply(s.hosts, InvalidReply, false, c);
      s.(closed := s.closed + {id}, log := s.log + EventsOf(id, r))
    case LookUp(id, m, c) =>
      var (after, f) := LookedUp(s.hosts, m, c);
      s.(hosts := after, pending := s.pending[id := f])
    case Finish(id, c) =>
      var r := Late(s.hosts, s.pending[id], c);
      Race(r.hosts, s.pending - {id}, if r.open then s.closed else s.closed + {id}, s.log + EventsOf(id, r),
           s.notes + NotesOf(s.hosts, s.pending[id], c))
    case UserSets(h, d) => s.(hosts := s.hosts[h := s.hosts[h].(desired := d)])
    case UserAdds(h, r) =>
      s.(hosts := s.hosts[h := r], notes := s.notes + If(r.current.HostOnboarded?, AddedOnboarded(h)))
  }

  ghost function Races(s: Race, moves: seq<Move>): Option<Race>
    decreases |moves|
  {
    if moves == [] then Some(s)
    else if Allowed(s, moves[0]) then Races(Next(s, moves[0]), moves[1..])
    else None
  }

  ghost predicate AllReady(s: Race) {
    forall id :: id in s.pending ==> Ready(s.hosts, s.pending[id])
  }

  lemma {:induction false} PendingStaysReady(s: Race, moves: seq<Move>)
    requires AllReady(s) && Races(s, moves).Some?
    ensures AllReady(Races(s, moves).value)
    decreases |moves|
  {
    if moves != [] {
      PendingStaysReady(Next(s, moves[0]), moves[1..]);
    }
  }

  // ---------------------------------------------------------------------------------------------
  // What an answer does that comes late.
  // ---------------------------------------------------------------------------------------------

  /** The record promises credentials. */
  predicate Due(host: HostRecord) {
    host.desired.HostOnboarded? && !host.current.HostOnboarded? && !RegistrationError(host.registration)
  }

  /** When an answer overlaps, reverts a host or clears its registration error: exactly by what was read. */
  lemma LateIff(hosts: Hosts, f: Found, c: StreamCalls, h: HostId)
    requires Ready(hosts, f) && h in hosts
    ensures Overlaps(hosts, f, c, h) <==>
      && f.answer == Ok(h) && Due(f.record.value) && c.fetchSecret && c.send && c.writeState
      && hosts[h].current.HostOnboarded?
    ensures Reverts(hosts, f, c, h) <==>
      && f.answer == Ok(h) && f.record.value.desired.HostRegistered? && !f.record.value.current.HostOnboarded?
      && !RegistrationError(f.record.value.registration) && c.send && c.writeState
      && hosts[h].current.HostOnboarded?
    ensures RegistrationError(hosts[h].registration) && !RegistrationError(Late(hosts, f, c).hosts[h].registration) <==>
      && f.answer == Ok(h) && f.record.value.desired.HostRegistered? && !f.record.value.current.HostOnboarded?
      && !RegistrationError(f.record.value.registration) && c.send && c.writeState
      && RegistrationError(hosts[h].registration)
  {
  }

  lemma LateCloses(hosts: Hosts, f: Found, c: StreamCalls)
    requires Ready(hosts, f)
    ensures var r := Late(hosts, f, c); CredentialsClose(r) && r.hosts.Keys == hosts.Keys
    ensures forall h: HostId :: HandsOut(Late(hosts, f, c), h) ==>
      h in hosts && Late(hosts, f, c).persisted == if c.writeState then Some(h) else None
  {
  }

  /** Whether the host is ONBOARDED after an answer. */
  lemma LateOnboarded(hosts: Hosts, f: Found, c: StreamCalls, h: HostId)
    requires Ready(hosts, f)
    ensures IsOnboarded(Late(hosts, f, c).hosts, h) <==>
      || Late(hosts, f, c).persisted == Some(h)
      || (IsOnboarded(hosts, h) && !Reverts(hosts, f, c, h))
  {
    LateCloses(hosts, f, c);
  }

  /** An answer concerns no other host than the one found. */
  lemma LateIsAbout(hosts: Hosts, f: Found, c: StreamCalls, h: HostId)
    requires Ready(hosts, f) && f.answer != Ok(h)
    ensures !Overlaps(hosts, f, c, h) && !Reverts(hosts, f, c, h) && !LosesWrite(hosts, f, c, h)
  {
  }

  // ---------------------------------------------------------------------------------------------
  // A lookup that is answered at once is a request that is served at once.
  // ---------------------------------------------------------------------------------------------

  /** The only thing to note about an answer to what is still current is a lost write. */
  lemma PromptNotes(hosts: Hosts, f: Found, c: StreamCalls)
    requires Ready(hosts, f) && (f.answer.Ok? ==> f.record.value == hosts[f.answer.value])
    ensures NotesOf(hosts, f, c) == LostNotes(Late(hosts, f, c), c)
  {
    if f.answer.Ok? {
      LateIff(hosts, f, c, f.answer.value);
    }
  }

  function LostNotes(r: Served, c: StreamCalls): seq<Note> {
    if r.reply.Some? && r.reply.value.OnboardedReply? && !c.writeState then [LostWrite(r.reply.value.host)] else []
  }

  lemma PromptFinishIsServing(s: Race, id: StreamId, m: Request, c: StreamCalls)
    requires id !in s.closed && id !in s.pending && !Validate(m).BadField?
    ensures Allowed(s, LookUp(id, m, c.lookup)) && !Allowed(s, Refuse(id, m, c))
    ensures var s1 := Next(s, LookUp(id, m, c.lookup)); var r := Serve(s.hosts, m, c);
      && Allowed(s1, Finish(id, c))
      && Next(s1, Finish(id, c))
         == Race(r.hosts, s.pending, if r.open then s.closed else s.closed + {id}, s.log + EventsOf(id, r),
                 s.notes + LostNotes(r, c))
  {
    var (after, f) := LookedUp(s.hosts, m, c.lookup);
    assert s.pending[id := f] - {id} == s.pending;
    assert Late(after, f, c) == Answer(after, f.answer, Normalise(m), c);
    PromptNotes(after, f, c);
  }

  /** So is a refusal, and only a request with a field that violates its pattern is refused. */
  lemma RefusalIsServing(s: Race, id: StreamId, m: Request, c: StreamCalls)
    requires id !in s.closed && id !in s.pending && Validate(m).BadField?
    ensures Allowed(s, Refuse(id, m, c)) && !Allowed(s, LookUp(id, m, c.lookup))
    ensures var r := Serve(s.hosts, m, c);
      Next(s, Refuse(id, m, c)) ==
        Race(r.hosts, s.pending, if r.open then s.closed else s.closed + {id}, s.log + EventsOf(id, r), s.notes)
  {
  }

  // ---------------------------------------------------------------------------------------------
  // Counting hand-outs along races.
  // ---------------------------------------------------------------------------------------------

  function Count(notes: seq<Note>, n: Note): nat {
    if notes == [] then 0 else (if notes[0] == n then 1 else 0) + Count(notes[1..], n)
  }

  lemma {:induction false} CountAdds(a: seq<Note>, b: seq<Note>, n: Note)
    ensures Count(a + b, n) == Count(a, n) + Count(b, n)
    decreases |a|
  {
    if a == [] {
      assert a + b == b;
    } else {
      assert (a + b)[0] == a[0] && (a + b)[1..] == a[1..] + b;
      CountAdds(a[1..], b, n);
    }
  }

  lemma CountIf(b: bool, n: Note, o: Note)
    ensures Count(If(b, n), o) == if b && n == o then 1 else 0
  {
  }

  /** What answering adds to the counts of a host. */
  lemma CountNotesOf(hosts: Hosts, f: Found, c: StreamCalls, h: HostId)
    requires Ready(hosts, f)
    ensures var notes := NotesOf(hosts, f, c);
      && Count(notes, Overlapped(h)) == (if Overlaps(hosts, f, c, h) then 1 else 0)
      && Count(notes, Reverted(h)) == (if Reverts(hosts, f, c, h) then 1 else 0)
      && Count(notes, LostWrite(h)) == (if LosesWrite(hosts, f, c, h) then 1 else 0)
      && Count(notes, AddedOnboarded(h)) == 0
  {
    if f.answer.Ok? {
      var g := f.answer.value;
      var o, r := If(Overlaps(hosts, f, c, g), Overlapped(g)), If(Reverts(hosts, f, c, g), Reverted(g));
      var l := If(LosesWrite(hosts, f, c, g), LostWrite(g));
      forall n: Note ensures Count(o + r + l, n) == Count(o, n) + Count(r, n) + Count(l, n) {
        CountAdds(o + r, l, n);
        CountAdds(o, r, n);
      }
    }
    if f.answer != Ok(h) {
      LateIsAbout(hosts, f, c, h);
    }
  }

  /** The hand-outs of a host that are not accounted for; no move changes this. */
  function Balance(s: Race, h: HostId): int {
    Handouts(s.log, h) - Onboarded(s.hosts, h) + Count(s.notes, AddedOnboarded(h))
    - Count(s.notes, Overlapped(h)) - Count(s.notes, Reverted(h)) - Count(s.notes, LostWrite(h))
  }

  lemma FinishKeepsBalance(s: Race, id: StreamId, c: StreamCalls, h: HostId)
    requires Allowed(s, Finish(id, c))
    ensures Balance(Next(s, Finish(id, c)), h) == Balance(s, h)
  {
    var f := s.pending[id];
    var r := Late(s.hosts, f, c);
    var ev := EventsOf(id, r);
    LateCloses(s.hosts, f, c);
    ServedShape(id, r);
    CountsAdd(s.log, ev, h);
    EventCounts(ev, h);
    LateOnboarded(s.hosts, f, c, h);
    CountNotesOf(s.hosts, f, c, h);
    forall n: Note
      ensures Count(s.notes + NotesOf(s.hosts, f, c), n) == Count(s.notes, n) + Count(NotesOf(s.hosts, f, c), n)
    {
      CountAdds(s.notes, NotesOf(s.hosts, f, c), n);
    }
  }

  lemma MoveKeepsBalance(s: Race, move: Move, h: HostId)
    requires Allowed(s, move)
    ensures Balance(Next(s, move), h) == Balance(s, h)
  {
    match move
    case Refuse(id, _, c) =>
      var ev := EventsOf(id, Reply(s.hosts, InvalidReply, false, c));
      CountsAdd(s.log, ev, h);
      EventCounts(ev, h);
    case LookUp(_, m, c) =>
      if h in s.hosts {
        IdentifyKeeps(s.hosts, Normalise(m), c, h);
      }
    case Finish(id, c) => FinishKeepsBalance(s, id, c, h);
    case UserSets(_, _) =>
    case UserAdds(g, r) =>
      forall n: Note ensures Count(s.notes + If(r.current.HostOnboarded?, AddedOnboarded(g)), n)
          == Count(s.notes, n) + if r.current.HostOnboarded? && AddedOnboarded(g) == n then 1 else 0
      {
        CountAdds(s.notes, If(r.current.HostOnboarded?, AddedOnboarded(g)), n);
        CountIf(r.current.HostOnboarded?, AddedOnboarded(g), n);
      }
  }

  lemma {:induction false} BalanceIsKept(s: Race, moves: seq<Move>, h: HostId)
    requires Races(s, moves).Some?
    ensures Balance(Races(s, moves).value, h) == Balance(s, h)
    decreases |moves|
  {
    if moves != [] {
      MoveKeepsBalance(s, moves[0], h);
      BalanceIsKept(Next(s, moves[0]), moves[1..], h);
    }
  }

  /** The exact number of hand-outs of a host in any race: one if it became ONBOARDED, plus one for every lost
      state write, for every answer that overlapped another, and for every time it was written back. */
  lemma HandoutsInRaces(s: Race, moves: seq<Move>, h: HostId)
    requires s.log == [] && s.notes == [] && Races(s, moves).Some?
    ensures var t := Races(s, moves).value;
      Handouts(t.log, h) == Onboarded(t.hosts, h) - Onboarded(s.hosts, h) - Count(t.notes, AddedOnboarded(h))
        + Count(t.notes, LostWrite(h)) + Count(t.notes, Overlapped(h)) + Count(t.notes, Reverted(h))
  {
    BalanceIsKept(s, moves, h);
  }

  /** A host for which an answer overlapped, and that was never written back, is ONBOARDED. */
  ghost predicate OverlapInv(s: Race, h: HostId) {
    Count(s.notes, Overlapped(h)) > 0 && Count(s.notes, Reverted(h)) == 0 ==> IsOnboarded(s.hosts, h)
  }

  lemma MoveKeepsOverlapInv(s: Race, move: Move, h: HostId)
    requires Allowed(s, move) && OverlapInv(s, h)
    ensures OverlapInv(Next(s, move), h)
  {
    match move
    case LookUp(_, m, c) =>
      if h in s.hosts {
        IdentifyKeeps(s.hosts, Normalise(m), c, h);
      }
    case Finish(id, c) =>
      var f := s.pending[id];
      CountNotesOf(s.hosts, f, c, h);
      CountAdds(s.notes, NotesOf(s.hosts, f, c), Overlapped(h));
      CountAdds(s.notes, NotesOf(s.hosts, f, c), Reverted(h));
      LateOnboarded(s.hosts, f, c, h);
    case UserAdds(g, r) =>
      CountAdds(s.notes, If(r.current.HostOnboarded?, AddedOnboarded(g)), Overlapped(h));
      CountAdds(s.notes, If(r.current.HostOnboarded?, AddedOnboarded(g)), Reverted(h));
      CountIf(r.current.HostOnboarded?, AddedOnboarded(g), Overlapped(h));
    case _ =>
  }

  lemma {:induction false} OverlapInvIsKept(s: Race, moves: seq<Move>, h: HostId)
    requires Races(s, moves).Some? && OverlapInv(s, h)
    ensures OverlapInv(Races(s, moves).value, h)
    decreases |moves|
  {
    if moves != [] {
      MoveKeepsOverlapInv(s, moves[0], h);
      OverlapInvIsKept(Next(s, moves[0]), moves[1..], h);
    }
  }

  /** With every state write successful and none of them undone, a host that was not ONBOARDED has its
      credentials handed out at most once if and only if no answer overlapped. */
  lemma AtMostOnceIff(s: Race, moves: seq<Move>, h: HostId)
    requires s.log == [] && s.notes == [] && Races(s, moves).Some? && !IsOnboarded(s.hosts, h)
    requires var notes := Races(s, moves).value.notes;
      Count(notes, AddedOnboarded(h)) == Count(notes, LostWrite(h)) == Count(notes, Reverted(h)) == 0
    ensures var t := Races(s, moves).value; Handouts(t.log, h) <= 1 <==> Count(t.notes, Overlapped(h)) == 0
  {
    HandoutsInRaces(s, moves, h);
    OverlapInvIsKept(s, moves, h);
  }

  lemma OneMove(s: Race, moves: seq<Move>)
    requires moves != [] && Allowed(s, moves[0])
    ensures Races(s, moves) == Races(Next(s, moves[0]), moves[1..])
  {
  }

  lemma TwoMoves(s: Race, moves: seq<Move>)
    requires |moves| >= 2 && Allowed(s, moves[0]) && Allowed(Next(s, moves[0]), moves[1])
    ensures Races(s, moves) == Races(Next(Next(s, moves[0]), moves[1]), moves[2..])
  {
    OneMove(s, moves);
    OneMove(Next(s, moves[0]), moves[1..]);
    assert moves[1..][0] == moves[1] && moves[1..][1..] == moves[2..];
  }

  /** Two streams that look a host up before either is answered both get its credentials, with no call
      failing. */
  lemma BothGetCredentials(s: Race, m: Request, h: HostId, a: StreamId, b: StreamId) returns (moves: seq<Move>)
    requires s.log == [] && s.notes == [] && a != b && Idle(s, a) && Idle(s, b) && !Validate(m).BadField?
    requires Identify(s.hosts, Normalise(m), NodeIdentity.ALL_SUCCEED) == (s.hosts, Ok(h)) && Due(s.hosts[h])
    ensures Races(s, moves).Some?
    ensures var t := Races(s, moves).value; t.notes == [Overlapped(h)] && Handouts(t.log, h) == 2
  {
    var c := STREAM_CALLS_SUCCEED;
    var f := Found(Normalise(m), Ok(h), Some(s.hosts[h]));
    var s2 := s.(pending := s.pending[a := f][b := f]);
    var t := BothAnswered(s2, h, a, b, f);
    moves := [LookUp(a, m, c.lookup), LookUp(b, m, c.lookup), Finish(a, c), Finish(b, c)];
    assert LookedUp(s.hosts, m, c.lookup) == (s.hosts, f);
    assert Next(Next(s, moves[0]), moves[1]) == s2;
    TwoMoves(s, moves);
    assert moves[2..] == [Finish(a, c), Finish(b, c)];
    HandoutsInRaces(s, moves, h);
  }

  lemma BothAnswered(s: Race, h: HostId, a: StreamId, b: StreamId, f: Found) returns (t: Race)
    requires a != b && a in s.pending && b in s.pending && s.pending[a] == s.pending[b] == f && s.notes == []
    requires f.answer == Ok(h) && f.record.Some? && Due(f.record.value) && h in s.hosts && Due(s.hosts[h])
    ensures Races(s, [Finish(a, STREAM_CALLS_SUCCEED), Finish(b, STREAM_CALLS_SUCCEED)]) == Some(t)
    ensures t.notes == [Overlapped(h)] && IsOnboarded(t.hosts, h)
  {
    var c := STREAM_CALLS_SUCCEED;
    LateIff(s.hosts, f, c, h);
    var s1 := Next(s, Finish(a, c));
    LateIff(s1.hosts, f, c, h);
    t := Next(s1, Finish(b, c));
    var moves := [Finish(a, c), Finish(b, c)];
    TwoMoves(s, moves);
    assert moves[2..] == [];
  }

  /** An answer goes by what was desired when the host was looked up: if a user decides meanwhile, the node is told that
      its host is REGISTERED and has to ask again, whatever is desired by then. */
  lemma DecisionsComeTooLate(s: Race, m: Request, h: HostId, id: StreamId, state: HostState)
    requires Idle(s, id) && !Validate(m).BadField?
    requires Identify(s.hosts, Normalise(m), NodeIdentity.ALL_SUCCEED) == (s.hosts, Ok(h))
    requires s.hosts[h].desired == HostRegistered
    requires s.hosts[h].current != HostOnboarded && !RegistrationError(s.hosts[h].registration)
    ensures var c := STREAM_CALLS_SUCCEED;
      var t := Races(s, [LookUp(id, m, c.lookup), UserSets(h, state), Finish(id, c)]);
      && t.Some? && t.value.log == s.log + [Sent(id, RegisteredReply(s.hosts[h].tenant))] && t.value.closed == s.closed
      && h in t.value.hosts && t.value.hosts[h].desired == state && t.value.hosts[h].current == HostRegistered
  {
    var c := STREAM_CALLS_SUCCEED;
    var moves := [LookUp(id, m, c.lookup), UserSets(h, state), Finish(id, c)];
    var s1 := Next(s, moves[0]);
    assert s1.pending[id] == Found(Normalise(m), Ok(h), Some(s.hosts[h]));
    var s2 := Next(s1, moves[1]);
    TwoMoves(s, moves);
    assert moves[2..][0] == moves[2] && moves[2..][1..] == [];
    assert Races(s2, moves[2..]) == Some(Next(s2, moves[2]));
  }
}
