/**
 One turn of a tink-worker: pulling an image with retries, executing an action in a container, and
 the loop that runs a block of actions and reports each of them. The loop is proved to produce the
 trace TurnEvents, and every such trace is a run of the protocol in WorkerProtocol, so the theorems
 proved there about all runs hold of the loop.
 */
module WorkerTurn {
  import opened Wrappers
  import opened WorkerProtocol

  /** How the container manager answers while one action executes. `pulls` holds the answers to
      successive pull attempts (none after its end), `granted` is how many retries the backoff policy
      allows, which is at most the configured number of retries. */
  datatype ActionRun = ActionRun(
    pulls: seq<bool>, granted: nat, created: bool, started: bool,
    wait: State, waitFailed: bool,
    onTimeout: bool, onFailure: bool)

  datatype Reaction = OnTimeout | OnFailure

  ghost predicate Pulled(pulls: seq<bool>, granted: nat) {
    exists k :: 0 <= k < |pulls| && k <= granted && pulls[k]
  }

  /** The action got as far as waiting for its container. */
  ghost predicate Waited(run: ActionRun) {
    Pulled(run.pulls, run.granted) && run.created && run.started
  }

  /** What is reported for an action. */
  ghost function Outcome(run: ActionRun): State {
    if !Waited(run) then Failed
    else if run.wait.Success? && !run.waitFailed then Success
    else if run.wait.Timeout? then Timeout
    else Failed
  }

  ghost function Outcomes(runs: seq<ActionRun>): (outs: seq<State>)
    ensures |outs| == |runs| && forall k :: 0 <= k < |runs| ==> outs[k] == Outcome(runs[k])
    ensures Results(outs)
  {
    seq(|runs|, k requires 0 <= k < |runs| => Outcome(runs[k]))
  }

  predicate Results(outs: seq<State>) {
    forall k :: 0 <= k < |outs| ==> outs[k].Success? || Terminal(outs[k])
  }

  /** What is reported, by how the calls went: SUCCESS exactly if one of the allowed pulls, create, start and wait
      all succeeded, TIMEOUT exactly if the wait said so, with or without an error, and FAILED otherwise. */
  lemma OutcomeIff(run: ActionRun)
    ensures var pulled := exists k :: 0 <= k < |run.pulls| && k <= run.granted && run.pulls[k];
      var ran := run.created && run.started && pulled;
      && (Outcome(run) == Success <==> ran && run.wait == Success && !run.waitFailed)
      && (Outcome(run) == Timeout <==> ran && run.wait == Timeout)
      && (Outcome(run) == Failed <==> !ran || (run.wait != Timeout && (run.wait != Success || run.waitFailed)))
  {
  }

  method PullImageWithRetry(pulls: seq<bool>, granted: nat) returns (ok: bool, attempt: nat)
    ensures ok <==> Pulled(pulls, granted)
    ensures 1 <= attempt <= granted + 1
    ensures ok ==> attempt <= |pulls| && pulls[attempt - 1]
    ensures forall k :: 0 <= k < attempt - 1 && k < |pulls| ==> !pulls[k]
    ensures !ok ==> attempt == granted + 1
  {
    attempt := 0;
    ok := false;
    while true
      invariant 0 <= attempt <= granted
      invariant forall k :: 0 <= k < attempt && k < |pulls| ==> !pulls[k]
      decreases granted - attempt
    {
      attempt := attempt + 1;
      if attempt <= |pulls| && pulls[attempt - 1] {
        ok := true;
        return;
      }
      if attempt > granted {
        return;
      }
    }
  }

  /** Runs one action. The reaction is the special command that was executed after the wait, if any.
      A manager that returns an error together with TIMEOUT, as both managers of the worker do, never
      gets an on-timeout command executed, nor an on-failure command for that timeout. */
  method Execute(run: ActionRun) returns (st: State, failed: bool, reaction: Option<Reaction>)
    ensures (!failed && st.Success?) <==> Outcome(run) == Success
    ensures (failed || !st.Success?) && st.Timeout? <==> Outcome(run) == Timeout
    ensures reaction == Some(OnTimeout) <==>
      Waited(run) && !run.waitFailed && run.wait.Timeout? && run.onTimeout
    ensures reaction == Some(OnFailure) <==>
      Waited(run) && !run.waitFailed && !run.wait.Success? && !(run.wait.Timeout? && run.onTimeout) && run.onFailure
    ensures (run.wait.Timeout? ==> run.waitFailed) ==>
      reaction != Some(OnTimeout) && (Outcome(run) == Timeout ==> reaction == None)
  {
    reaction := None;
    var ok, attempt := PullImageWithRetry(run.pulls, run.granted);
    if !ok {
      return Running, true, None;
    }
    if !run.created {
      return Running, true, None;
    }
    if !run.started {
      return Running, true, None;
    }
    st := run.wait;
    if run.waitFailed {
      return st, true, None;
    }
    if st.Success? {
      return st, false, None;
    }
    if st.Timeout? && run.onTimeout {
      reaction := Some(OnTimeout);
    } else if run.onFailure {
      reaction := Some(OnFailure);
    }
    failed := false;
  }

  // ---------------------------------------------------------------------------------------------
  // The trace of a turn, given the result each action would have if it ran.
  // ---------------------------------------------------------------------------------------------

  function Contribution(me: WorkerId, i: nat, quiet: bool, st: State): seq<Event> {
    (if quiet then [] else [Applied(me, i, Running)]) + [Started(me, i), Applied(me, i, st)]
  }

  predicate Continues(owners: seq<WorkerId>, me: WorkerId, i: nat, outs: seq<State>)
    requires i < |outs|
  {
    outs[i].Success? && i + 1 < |owners| && owners[i + 1] == me
  }

  function TurnEvents(owners: seq<WorkerId>, me: WorkerId, i: nat, quiet: bool, outs: seq<State>): seq<Event>
    requires i < |owners| == |outs|
    decreases |owners| - i
  {
    Contribution(me, i, quiet, outs[i]) +
    (if Continues(owners, me, i, outs) then TurnEvents(owners, me, i + 1, quiet, outs) else [])
  }

  /** The last action of the turn. */
  function TurnEnd(owners: seq<WorkerId>, me: WorkerId, i: nat, outs: seq<State>): (e: nat)
    requires i < |owners| == |outs|
    ensures i <= e < |owners|
    decreases |owners| - i
  {
    if Continues(owners, me, i, outs) then TurnEnd(owners, me, i + 1, outs) else i
  }

  /** A turn is one contiguous ascending block of the worker's own actions: all but the last succeed,
      and it ends at the first that fails, is the last of the workflow or precedes somebody else's. */
  lemma {:induction false} TurnIsBlock(owners: seq<WorkerId>, me: WorkerId, i: nat, outs: seq<State>)
    requires i < |owners| == |outs| && owners[i] == me
    ensures var e := TurnEnd(owners, me, i, outs);
      && (forall k :: i <= k <= e ==> owners[k] == me)
      && (forall k :: i <= k < e ==> outs[k] == Success)
      && (outs[e] != Success || e + 1 == |owners| || owners[e + 1] != me)
    decreases |owners| - i
  {
    if Continues(owners, me, i, outs) {
      TurnIsBlock(owners, me, i + 1, outs);
    }
  }

  /** Position of the first event of action k in a turn that began at action i. */
  function Position(k: nat, i: nat, quiet: bool): nat
    requires i <= k
  {
    if quiet then 2 * (k - i) else 3 * (k - i)
  }

  lemma {:induction false} TurnLength(owners: seq<WorkerId>, me: WorkerId, i: nat, quiet: bool, outs: seq<State>)
    requires i < |owners| == |outs|
    ensures |TurnEvents(owners, me, i, quiet, outs)| == Position(TurnEnd(owners, me, i, outs) + 1, i, quiet)
    decreases |owners| - i
  {
    if Continues(owners, me, i, outs) {
      TurnLength(owners, me, i + 1, quiet, outs);
    }
  }

  lemma Regroup<T>(a: seq<T>, b: seq<T>, c: seq<T>, d: seq<T>)
    ensures a + (b + c + d) == (a + b) + c + d
    ensures [] + a + b == a + b
  {
  }

  /** The events of a turn before, of and after one of its actions. */
  lemma {:induction false} TurnSplits(
    owners: seq<WorkerId>, me: WorkerId, i: nat, quiet: bool, outs: seq<State>, k: nat)
    returns (before: seq<Event>, after: seq<Event>)
    requires i < |owners| == |outs|
    requires i <= k <= TurnEnd(owners, me, i, outs)
    ensures |before| == Position(k, i, quiet)
    ensures TurnEvents(owners, me, i, quiet, outs) == before + Contribution(me, k, quiet, outs[k]) + after
    decreases |owners| - i
  {
    var head := Contribution(me, i, quiet, outs[i]);
    var rest := if Continues(owners, me, i, outs) then TurnEvents(owners, me, i + 1, quiet, outs) else [];
    if k == i {
      before, after := [], rest;
      Regroup(head, rest, [], []);
    } else {
      before, after := TurnSplits(owners, me, i + 1, quiet, outs, k);
      Regroup(head, before, Contribution(me, k, quiet, outs[k]), after);
      before := head + before;
    }
  }

  lemma Middle<T>(a: seq<T>, b: seq<T>, c: seq<T>)
    ensures (a + b + c)[|a|..|a| + |b|] == b
  {
  }

  /** Each action of the block contributes RUNNING (never, if the polled context was RUNNING), its
      start and its result, in the order of the block, and the turn reports nothing else. */
  lemma TurnTrace(owners: seq<WorkerId>, me: WorkerId, i: nat, quiet: bool, outs: seq<State>, k: nat)
    requires i < |owners| == |outs|
    requires i <= k <= TurnEnd(owners, me, i, outs)
    ensures var events := TurnEvents(owners, me, i, quiet, outs);
      && |events| == Position(TurnEnd(owners, me, i, outs) + 1, i, quiet) >= Position(k + 1, i, quiet)
      && events[Position(k, i, quiet)..Position(k + 1, i, quiet)] == Contribution(me, k, quiet, outs[k])
  {
    TurnLength(owners, me, i, quiet, outs);
    var before, after := TurnSplits(owners, me, i, quiet, outs, k);
    Middle(before, Contribution(me, k, quiet, outs[k]), after);
  }

  /** A turn is its first action followed by the turn that goes on from there. */
  lemma Unfold(log: seq<Event>, owners: seq<WorkerId>, me: WorkerId, i: nat, quiet: bool, outs: seq<State>)
    requires i < |owners| == |outs|
    ensures var more := Continues(owners, me, i, outs); var mine := Contribution(me, i, quiet, outs[i]);
      && TurnEnd(owners, me, i, outs) == (if more then TurnEnd(owners, me, i + 1, outs) else i)
      && log + TurnEvents(owners, me, i, quiet, outs)
         == if more then (log + mine) + TurnEvents(owners, me, i + 1, quiet, outs) else log + mine
  {
    var mine := Contribution(me, i, quiet, outs[i]);
    assert mine + [] == mine;
  }

  /** The state once action i has been reported, all in one turn of `me`. */
  function AfterAction(s: System, me: WorkerId, i: nat, quiet: bool, st: State): System {
    System(At(i, st), s.pcs[me := Idle], s.log + Contribution(me, i, quiet, st))
  }

  /** How a turn goes on once action i has been reported. */
  function NextInTurn(owners: seq<WorkerId>, d: System, me: WorkerId, i: nat, quiet: bool, st: State): System {
    if st.Success? && i + 1 < |owners| && owners[i + 1] == me then Launch(d, me, i + 1, quiet) else d
  }

  /** From the start of an action to the acknowledgement of its result. */
  lemma ActionEnds(owners: seq<WorkerId>, s: System, me: WorkerId, i: nat, quiet: bool, st: State, rest: seq<Step>)
    requires (st.Success? || Terminal(st)) && PcOf(s, me) == Executing(i, quiet)
    ensures Exec(owners, s, [Finish(me, st)] + ([Ack(me)] + rest)) == Exec(owners,
      NextInTurn(owners, System(At(i, st), s.pcs[me := Idle], s.log + [Applied(me, i, st)]), me, i, quiet, st), rest)
  {
    var s1 := Apply(owners, s, Finish(me, st));
    assert s1.pcs[me := Idle] == s.pcs[me := Idle];
    assert s1.pcs[me := Executing(i + 1, true)] == s.pcs[me := Idle][me := Executing(i + 1, true)];
    assert s1.pcs[me := Starting(i + 1)] == s.pcs[me := Idle][me := Starting(i + 1)];
    ExecCons(owners, s1, Ack(me), rest);
    ExecCons(owners, s, Finish(me, st), [Ack(me)] + rest);
  }

  /** One action of a turn, from its launch to the acknowledgement of its result. */
  lemma OneAction(owners: seq<WorkerId>, s: System, me: WorkerId, i: nat, quiet: bool, st: State, rest: seq<Step>)
    returns (steps: seq<Step>)
    requires st.Success? || Terminal(st)
    requires AllAcknowledged(rest)
    ensures AllAcknowledged(steps)
    ensures Exec(owners, Launch(s, me, i, quiet), steps)
         == Exec(owners, NextInTurn(owners, AfterAction(s, me, i, quiet, st), me, i, quiet, st), rest)
  {
    var s0 := Launch(s, me, i, quiet);
    var s1 := if quiet then s0 else Apply(owners, s0, Ack(me));
    steps := [Finish(me, st)] + ([Ack(me)] + rest);
    ActionEnds(owners, s1, me, i, quiet, st, rest);
    assert s1.log + [Applied(me, i, st)] == s.log + Contribution(me, i, quiet, st);
    assert s1.pcs[me := Idle] == s.pcs[me := Idle];
    if !quiet {
      ExecCons(owners, s0, Ack(me), steps);
      steps := [Ack(me)] + steps;
    }
  }

  /** What a run has to come to that is a turn from action i. */
  ghost predicate IsTurn(
    owners: seq<WorkerId>, s: System, me: WorkerId, i: nat, quiet: bool, outs: seq<State>, r: Option<System>)
    requires i < |owners| == |outs|
  {
    var e := TurnEnd(owners, me, i, outs);
    && r.Some?
    && r.value.log == s.log + TurnEvents(owners, me, i, quiet, outs)
    && r.value.ctx == At(e, outs[e])
    && r.value.pcs == s.pcs[me := Idle]
  }

  lemma TurnStops(owners: seq<WorkerId>, s: System, me: WorkerId, i: nat, quiet: bool, outs: seq<State>)
    requires i < |owners| == |outs| && !Continues(owners, me, i, outs)
    ensures IsTurn(owners, s, me, i, quiet, outs, Some(AfterAction(s, me, i, quiet, outs[i])))
  {
    Unfold(s.log, owners, me, i, quiet, outs);
  }

  lemma TurnGoesOn(
    owners: seq<WorkerId>, s: System, me: WorkerId, i: nat, quiet: bool, outs: seq<State>, r: Option<System>)
    requires i < |owners| == |outs| && Continues(owners, me, i, outs)
    requires IsTurn(owners, AfterAction(s, me, i, quiet, outs[i]), me, i + 1, quiet, outs, r)
    ensures IsTurn(owners, s, me, i, quiet, outs, r)
  {
    Unfold(s.log, owners, me, i, quiet, outs);
    assert s.pcs[me := Idle][me := Idle] == s.pcs[me := Idle];
  }

  /** Every turn of the loop is a run of the protocol in which all reports are acknowledged, so the
      theorems about all runs of the protocol hold of it. */
  lemma {:induction false} TurnIsRun(
    owners: seq<WorkerId>, s: System, me: WorkerId, i: nat, quiet: bool, outs: seq<State>)
    returns (steps: seq<Step>)
    requires i < |owners| == |outs| && Results(outs)
    ensures AllAcknowledged(steps)
    ensures IsTurn(owners, s, me, i, quiet, outs, Exec(owners, Launch(s, me, i, quiet), steps))
    decreases |owners| - i
  {
    var rest: seq<Step> := [];
    var d := AfterAction(s, me, i, quiet, outs[i]);
    if Continues(owners, me, i, outs) {
      rest := TurnIsRun(owners, d, me, i + 1, quiet, outs);
      TurnGoesOn(owners, s, me, i, quiet, outs, Exec(owners, Launch(d, me, i + 1, quiet), rest));
    } else {
      TurnStops(owners, s, me, i, quiet, outs);
    }
    steps := OneAction(owners, s, me, i, quiet, outs[i], rest);
  }

  // ---------------------------------------------------------------------------------------------
  // Reporting.
  // ---------------------------------------------------------------------------------------------

  /** How one attempt to report ends: it leaves no trace, it is applied but its acknowledgement is lost, or it is
      applied and acknowledged. */
  datatype Attempt = Refused | AckLost | Acked

  /** The attempts for the two reports of an action. */
  datatype Reports = Reports(first: seq<Attempt>, last: seq<Attempt>)

  /** How many of the attempts arrive, up to the first that is acknowledged. */
  function Arrivals(attempts: seq<Attempt>): nat {
    if attempts == [] then 0
    else match attempts[0]
      case Refused => Arrivals(attempts[1..])
      case AckLost => 1 + Arrivals(attempts[1..])
      case Acked => 1
  }

  /** Some attempt is acknowledged, and none that arrived before it. */
  predicate Direct(attempts: seq<Attempt>) {
    Acked in attempts && Arrivals(attempts) == 1
  }

  predicate AllDirect(rs: seq<Reports>) {
    forall k :: 0 <= k < |rs| ==> Direct(rs[k].first) && Direct(rs[k].last)
  }

  function Copies(e: Event, n: nat): (c: seq<Event>)
    ensures |c| == n && forall k :: 0 <= k < n ==> c[k] == e
  {
    seq(n, _ => e)
  }

  /** The report a worker is at. */
  function PendingReport(s: System, w: WorkerId): Event
    requires PcOf(s, w).Starting? || PcOf(s, w).Reporting?
  {
    var pc := PcOf(s, w);
    Applied(w, pc.index, if pc.Starting? then Running else pc.result)
  }

  function ReportSteps(w: WorkerId, attempts: seq<Attempt>): seq<Step> {
    if attempts == [] then []
    else match attempts[0]
      case Refused => ReportSteps(w, attempts[1..])
      case AckLost => [LostAck(w)] + ReportSteps(w, attempts[1..])
      case Acked => [Ack(w)]
  }

  /** The system after a report has arrived n times without acknowledgement. */
  function Redelivered(s: System, w: WorkerId, n: nat): System
    requires PcOf(s, w).Starting? || PcOf(s, w).Reporting?
  {
    var e := PendingReport(s, w);
    s.(ctx := if n > 0 then At(e.index, e.state) else s.ctx, log := s.log + Copies(e, n))
  }

  /** A report with any number of lost acknowledgements is a run of the protocol: the copies that arrive are the
      protocol's, and it goes on from the acknowledged one. */
  lemma {:induction false} RetriedReportIsRun(owners: seq<WorkerId>, s: System, w: WorkerId, attempts: seq<Attempt>)
    requires (PcOf(s, w).Starting? || PcOf(s, w).Reporting?) && Acked in attempts
    ensures Arrivals(attempts) > 0
    ensures Exec(owners, s, ReportSteps(w, attempts))
         == Some(Apply(owners, Redelivered(s, w, Arrivals(attempts) - 1), Ack(w)))
    decreases |attempts|
  {
    match attempts[0]
    case Refused =>
      RetriedReportIsRun(owners, s, w, attempts[1..]);
    case AckLost =>
      var s1 := Apply(owners, s, LostAck(w));
      RetriedReportIsRun(owners, s1, w, attempts[1..]);
      ExecCons(owners, s, LostAck(w), ReportSteps(w, attempts[1..]));
      RedeliveredOnce(owners, s, w, Arrivals(attempts[1..]) - 1);
    case Acked =>
      assert Redelivered(s, w, 0) == s;
      assert [Ack(w)] + [] == [Ack(w)];
      ExecCons(owners, s, Ack(w), []);
  }

  lemma RedeliveredOnce(owners: seq<WorkerId>, s: System, w: WorkerId, n: nat)
    requires PcOf(s, w).Starting? || PcOf(s, w).Reporting?
    ensures Redelivered(Apply(owners, s, LostAck(w)), w, n) == Redelivered(s, w, n + 1)
  {
    var e := PendingReport(s, w);
    assert (s.log + [e]) + Copies(e, n) == s.log + Copies(e, n + 1);
  }

  // ---------------------------------------------------------------------------------------------
  // The loop.
  // ---------------------------------------------------------------------------------------------

  class Server {
    var ctx: Context
    ghost var log: seq<Event>

    constructor (ctx: Context)
      ensures this.ctx == ctx && log == []
    {
      this.ctx := ctx;
      log := [];
    }

    /** Reports a status again and again until an attempt is acknowledged; if none of these is, the worker is
        still at it. Every attempt that arrives is applied. */
    method Report(who: WorkerId, index: nat, st: State, attempts: seq<Attempt>) returns (acked: bool)
      modifies this
      ensures acked <==> Acked in attempts
      ensures log == old(log) + Copies(Applied(who, index, st), Arrivals(attempts))
      ensures ctx == if Arrivals(attempts) > 0 then At(index, st) else old(ctx)
    {
      ghost var e, n := Applied(who, index, st), 0;
      for i := 0 to |attempts|
        invariant Acked !in attempts[..i] && Arrivals(attempts) == n + Arrivals(attempts[i..])
        invariant log == old(log) + Copies(e, n)
        invariant ctx == if n > 0 then At(index, st) else old(ctx)
      {
        assert attempts[i..][0] == attempts[i] && attempts[i..][1..] == attempts[i + 1..];
        if attempts[i] != Refused {
          ctx := At(index, st);
          log := log + [e];
          n := n + 1;
        }
        if attempts[i] == Acked {
          return true;
        }
      }
      assert attempts[..|attempts|] == attempts;
      return false;
    }

    /** Runs one action and reports it, with no acknowledgement lost; `done` tells whether it succeeded. */
    method RunAction(me: WorkerId, index: nat, quiet: bool, run: ActionRun, r: Reports) returns (done: bool)
      requires Direct(r.first) && Direct(r.last)
      modifies this
      ensures done <==> Outcome(run) == Success
      ensures ctx == At(index, Outcome(run))
      ensures log == old(log) + Contribution(me, index, quiet, Outcome(run))
    {
      if !quiet {
        var acked := Report(me, index, Running, r.first);
      }
      log := log + [Started(me, index)];
      var st, failed, reaction := Execute(run);
      if failed || !st.Success? {
        var acked := Report(me, index, if st.Timeout? then Timeout else Failed, r.last);
        done := false;
      } else {
        var acked := Report(me, index, Success, r.last);
        done := true;
      }
    }
  }

  /** Handles one received workflow context: decide whether it is this worker's turn and, if so, run
      and report actions until the turn ends. */
  method ProcessContext(server: Server, me: WorkerId, owners: seq<WorkerId>, runs: seq<ActionRun>, rs: seq<Reports>)
    requires 0 < |owners| == |runs| == |rs| && AllDirect(rs)
    requires server.ctx.At? ==> server.ctx.index < |owners|
    modifies server
    ensures match Decide(owners, old(server.ctx), me)
      case None => server.ctx == old(server.ctx) && server.log == old(server.log)
      case Some(i) =>
        var e := TurnEnd(owners, me, i, Outcomes(runs));
        var quiet := old(server.ctx.At? && server.ctx.state.Running?);
        && server.ctx == At(e, Outcome(runs[e]))
        && server.log == old(server.log) + TurnEvents(owners, me, i, quiet, Outcomes(runs))
  {
    var wfContext := server.ctx;
    var turn := false;
    var actionIndex: nat := 0;
    if wfContext.Unset? {
      if owners[0] == me {
        turn := true;
      }
    } else {
      match wfContext.state {
        case Success =>
          if wfContext.index == |owners| - 1 {
            return;
          }
          actionIndex := wfContext.index + 1;
        case Failed => return;
        case Timeout => return;
        case _ => actionIndex := wfContext.index;
      }
      if owners[actionIndex] == me {
        turn := true;
      }
    }
    if turn {
      RunTurn(server, me, owners, runs, rs, actionIndex, wfContext.At? && wfContext.state.Running?);
    }
  }

  method RunTurn(server: Server, me: WorkerId, owners: seq<WorkerId>, runs: seq<ActionRun>, rs: seq<Reports>,
                 first: nat, quiet: bool)
    requires first < |owners| == |runs| == |rs| && AllDirect(rs)
    modifies server
    ensures var e := TurnEnd(owners, me, first, Outcomes(runs)); server.ctx == At(e, Outcome(runs[e]))
    ensures server.log == old(server.log) + TurnEvents(owners, me, first, quiet, Outcomes(runs))
  {
    var turn := true;
    var actionIndex := first;
    ghost var all := TurnLog(server.log, owners, me, first, quiet, Outcomes(runs));
    while turn
      invariant first <= actionIndex < |owners|
      invariant turn ==> all == TurnLog(server.log, owners, me, actionIndex, quiet, Outcomes(runs))
      invariant !turn ==> server.log == all.0 && server.ctx == At(all.1, Outcome(runs[all.1]))
      decreases turn, |owners| - actionIndex
    {
      turn, actionIndex := TakeAction(server, me, owners, runs, rs, actionIndex, quiet);
    }
  }

  /** The log at the end of a turn that has got to action i, and its last action. */
  ghost function TurnLog(
    log: seq<Event>, owners: seq<WorkerId>, me: WorkerId, i: nat, quiet: bool, outs: seq<State>)
    : (r: (seq<Event>, nat))
    requires i < |owners| == |outs|
    ensures r.1 < |owners|
  {
    (log + TurnEvents(owners, me, i, quiet, outs), TurnEnd(owners, me, i, outs))
  }

  /** The body of the loop: one action, and whether and where the turn goes on. */
  method TakeAction(server: Server, me: WorkerId, owners: seq<WorkerId>, runs: seq<ActionRun>, rs: seq<Reports>,
                    actionIndex: nat, quiet: bool)
    returns (turn: bool, next: nat)
    requires actionIndex < |owners| == |runs| == |rs| && AllDirect(rs)
    modifies server
    ensures actionIndex <= next < |owners| && (turn ==> next == actionIndex + 1)
    ensures var all := TurnLog(old(server.log), owners, me, actionIndex, quiet, Outcomes(runs));
      if turn then all == TurnLog(server.log, owners, me, next, quiet, Outcomes(runs))
      else server.log == all.0 && server.ctx == At(all.1, Outcome(runs[all.1]))
  {
    Unfold(server.log, owners, me, actionIndex, quiet, Outcomes(runs));
    var done := server.RunAction(me, actionIndex, quiet, runs[actionIndex], rs[actionIndex]);
    if !done || |owners| == actionIndex + 1 || owners[actionIndex + 1] != me {
      return false, actionIndex;
    }
    return true, actionIndex + 1;
  }
}
