/**
 The workflow execution protocol of tink-worker: any number of workers poll the context of one
 workflow, take turns, run a block of actions and report each one to the server. The server is
 abstract: it stores the last report that reached it. A report attempt either fails without effect
 (the worker retries, so nothing is visible), is applied and acknowledged (Ack), or is applied while
 its acknowledgement is lost (LostAck), in which case the worker will send it again.
 */
module WorkerProtocol {
  import opened Wrappers

  type WorkerId = string

  datatype State = Pending | Running | Success | Failed | Timeout

  /** What the server knows: no action reported yet, or the index and state of the last report. */
  datatype Context = Unset | At(index: nat, state: State)

  predicate Terminal(st: State) {
    st.Failed? || st.Timeout?
  }

  predicate Stopped(ctx: Context) {
    ctx.At? && Terminal(ctx.state)
  }

  /** The first action that still has to succeed. */
  function Frontier(ctx: Context): nat {
    match ctx
    case Unset => 0
    case At(i, Success) => i + 1
    case At(i, _) => i
  }

  /** The action `me` has to run next according to a polled context, if it is its turn. */
  function Decide(owners: seq<WorkerId>, ctx: Context, me: WorkerId): Option<nat> {
    var i := Frontier(ctx);
    if !Stopped(ctx) && i < |owners| && owners[i] == me then Some(i) else None
  }

  /** Where a worker is in its turn. `quiet` records that the polled context was already RUNNING,
      which suppresses the RUNNING reports of the whole turn. */
  datatype Pc =
    | Idle
    | Starting(index: nat)
    | Executing(index: nat, quiet: bool)
    | Reporting(index: nat, quiet: bool, result: State)

  datatype Event =
    | Started(who: WorkerId, index: nat)
    | Applied(who: WorkerId, index: nat, state: State)

  datatype System = System(ctx: Context, pcs: map<WorkerId, Pc>, log: seq<Event>)

  datatype Step =
    | Poll(who: WorkerId)
    | Ack(who: WorkerId)
    | LostAck(who: WorkerId)
    | Finish(who: WorkerId, result: State)
    | Crash(who: WorkerId)

  function PcOf(s: System, w: WorkerId): Pc {
    if w in s.pcs then s.pcs[w] else Idle
  }

  predicate Enabled(s: System, step: Step) {
    var pc := PcOf(s, step.who);
    match step
    case Poll(_) => pc.Idle?
    case Ack(_) => pc.Starting? || pc.Reporting?
    case LostAck(_) => pc.Starting? || pc.Reporting?
    case Finish(_, st) => pc.Executing? && (st.Success? || Terminal(st))
    case Crash(_) => true
  }

  /** Begin an action: straight into execution when quiet, else the RUNNING report comes first. */
  function Launch(s: System, w: WorkerId, i: nat, quiet: bool): System {
    if quiet
    then s.(pcs := s.pcs[w := Executing(i, true)], log := s.log + [Started(w, i)])
    else s.(pcs := s.pcs[w := Starting(i)])
  }

  function Deliver(s: System, w: WorkerId, i: nat, st: State): System {
    s.(ctx := At(i, st), log := s.log + [Applied(w, i, st)])
  }

  function Apply(owners: seq<WorkerId>, s: System, step: Step): System
    requires Enabled(s, step)
  {
    var w := step.who;
    match step
    case Poll(_) =>
      (match Decide(owners, s.ctx, w)
       case None => s
       case Some(i) => Launch(s, w, i, s.ctx.At? && s.ctx.state.Running?))
    case Ack(_) =>
      (match PcOf(s, w)
       case Starting(i) =>
         var d := Deliver(s, w, i, Running);
         d.(pcs := s.pcs[w := Executing(i, false)], log := d.log + [Started(w, i)])
       case Reporting(i, quiet, st) =>
         var d := Deliver(s, w, i, st);
         if st.Success? && i + 1 < |owners| && owners[i + 1] == w
         then Launch(d, w, i + 1, quiet)
         else d.(pcs := s.pcs[w := Idle])
       case _ => s)
    case LostAck(_) =>
      (match PcOf(s, w)
       case Starting(i) => Deliver(s, w, i, Running)
       case Reporting(i, _, st) => Deliver(s, w, i, st)
       case _ => s)
    case Finish(_, st) =>
      (match PcOf(s, w)
       case Executing(i, quiet) => s.(pcs := s.pcs[w := Reporting(i, quiet, st)])
       case _ => s)
    case Crash(_) => s.(pcs := s.pcs[w := Idle])
  }

  /** The system after a sequence of steps, or None when one of them is not enabled. */
  function Exec(owners: seq<WorkerId>, s: System, steps: seq<Step>): Option<System>
    decreases |steps|
  {
    if steps == [] then Some(s)
    else if Enabled(s, steps[0]) then Exec(owners, Apply(owners, s, steps[0]), steps[1..])
    else None
  }

  /** A fresh workflow; the server may already point at the first action as pending. */
  predicate Init(s: System) {
    (s.ctx == Unset || s.ctx == At(0, Pending)) && s.pcs == map[] && s.log == []
  }

  // ---------------------------------------------------------------------------------------------
  // When a turn is taken, and that one can be.
  // ---------------------------------------------------------------------------------------------

  /** What a poll makes of each context: the worker begins the first action if nothing was reported, the next
      one after SUCCESS, the same one while it is PENDING or RUNNING, and none after FAILED or TIMEOUT, each time
      exactly if it owns that action. A RUNNING action it takes up without reporting RUNNING again. */
  lemma PollBegins(owners: seq<WorkerId>, s: System, me: WorkerId)
    requires Enabled(s, Poll(me))
    ensures var t := Apply(owners, s, Poll(me));
      match s.ctx
      case Unset => t == if 0 < |owners| && owners[0] == me then s.(pcs := s.pcs[me := Starting(0)]) else s
      case At(i, Success) =>
        t == if i + 1 < |owners| && owners[i + 1] == me then s.(pcs := s.pcs[me := Starting(i + 1)]) else s
      case At(i, Pending) => t == if i < |owners| && owners[i] == me then s.(pcs := s.pcs[me := Starting(i)]) else s
      case At(i, Running) =>
        t == if i < |owners| && owners[i] == me
             then s.(pcs := s.pcs[me := Executing(i, true)], log := s.log + [Started(me, i)]) else s
      case At(_, Failed) => t == s
      case At(_, Timeout) => t == s
  {
  }

  /** A restarted worker is idle, and the server knows nothing of the crash. */
  lemma CrashForgets(owners: seq<WorkerId>, s: System, w: WorkerId)
    ensures Enabled(s, Crash(w)) && Enabled(Apply(owners, s, Crash(w)), Poll(w))
    ensures Apply(owners, s, Crash(w)).ctx == s.ctx && Apply(owners, s, Crash(w)).log == s.log
  {
  }

  /** The first action that has not succeeded. */
  predicate IsNext(ctx: Context, i: nat) {
    match ctx
    case Unset => i == 0
    case At(k, Success) => i == k + 1
    case At(k, Pending) => i == k
    case At(k, Running) => i == k
    case At(_, Failed) => false
    case At(_, Timeout) => false
  }

  /** Progress: whatever the others do, the idle owner of the next action can run it to SUCCESS, reporting RUNNING
      before unless that was reported. */
  lemma NextActionCanRun(owners: seq<WorkerId>, s: System, i: nat) returns (steps: seq<Step>)
    requires IsNext(s.ctx, i) && i < |owners| && PcOf(s, owners[i]).Idle?
    ensures Exec(owners, s, steps).Some? && AllAcknowledged(steps)
    ensures var t, me := Exec(owners, s, steps).value, owners[i];
      && t.ctx == At(i, Success)
      && s.log + (if s.ctx == At(i, Running) then [] else [Applied(me, i, Running)])
         + [Started(me, i), Applied(me, i, Success)] <= t.log
  {
    var me := owners[i];
    PollBegins(owners, s, me);
    var s1 := Apply(owners, s, Poll(me));
    var s2 := if s.ctx == At(i, Running) then s1 else Apply(owners, s1, Ack(me));
    var s3 := Apply(owners, s2, Finish(me, Success));
    var last := [Finish(me, Success)] + ([Ack(me)] + []);
    ExecCons(owners, s3, Ack(me), []);
    ExecCons(owners, s2, Finish(me, Success), [Ack(me)] + []);
    if s.ctx == At(i, Running) {
      ExecCons(owners, s, Poll(me), last);
      steps := [Poll(me)] + last;
    } else {
      ExecCons(owners, s1, Ack(me), last);
      ExecCons(owners, s, Poll(me), [Ack(me)] + last);
      steps := [Poll(me)] + ([Ack(me)] + last);
    }
  }

  /** So from every state that has not stopped, whoever is where in a turn, some run completes the workflow: its
      owners restart and take the remaining actions one after the other. */
  lemma {:induction false} WorkflowCanComplete(owners: seq<WorkerId>, s: System, i: nat) returns (steps: seq<Step>)
    requires IsNext(s.ctx, i) && i < |owners|
    ensures Exec(owners, s, steps).Some? && Exec(owners, s, steps).value.ctx == At(|owners| - 1, Success)
    decreases |owners| - i
  {
    var me := owners[i];
    CrashForgets(owners, s, me);
    var s1 := Apply(owners, s, Crash(me));
    var run := NextActionCanRun(owners, s1, i);
    var s2 := Exec(owners, s1, run).value;
    var rest: seq<Step> := [];
    if i + 1 < |owners| {
      rest := WorkflowCanComplete(owners, s2, i + 1);
    }
    ExecConcat(owners, s1, run, rest);
    ExecCons(owners, s, Crash(me), run + rest);
    steps := [Crash(me)] + (run + rest);
  }

  lemma {:induction false} ExecConcat(owners: seq<WorkerId>, s: System, a: seq<Step>, b: seq<Step>)
    ensures Exec(owners, s, a + b)
         == (match Exec(owners, s, a) case None => None case Some(m) => Exec(owners, m, b))
    decreases |a|
  {
    if a == [] {
      assert a + b == b;
    } else {
      assert (a + b)[0] == a[0] && (a + b)[1..] == a[1..] + b;
      if Enabled(s, a[0]) {
        ExecConcat(owners, Apply(owners, s, a[0]), a[1..], b);
      }
    }
  }

  // ---------------------------------------------------------------------------------------------
  // Order and ownership: they survive every interleaving, every crash and every lost
  // acknowledgement.
  // ---------------------------------------------------------------------------------------------

  ghost predicate SucceededIn(log: seq<Event>, j: nat) {
    exists m :: 0 <= m < |log| && log[m].Applied? && log[m].index == j && log[m].state.Success?
  }

  ghost predicate AllBefore(log: seq<Event>, i: nat) {
    forall j: nat :: j < i ==> SucceededIn(log, j)
  }

  /** Every start is by the owner of the action and after SUCCESS of each earlier action. */
  ghost predicate Orderly(owners: seq<WorkerId>, log: seq<Event>) {
    forall k :: 0 <= k < |log| && log[k].Started? ==>
      && log[k].index < |owners|
      && owners[log[k].index] == log[k].who
      && AllBefore(log[..k], log[k].index)
  }

  /** Indices stay within the action list and nobody is busy with an action of another worker. */
  ghost predicate OwnInv(owners: seq<WorkerId>, s: System) {
    && (s.ctx.At? ==> s.ctx.index < |owners|)
    && forall w :: w in s.pcs && !s.pcs[w].Idle? ==>
         && s.pcs[w].index < |owners|
         && owners[s.pcs[w].index] == w
         && (s.pcs[w].Reporting? ==> s.pcs[w].result.Success? || Terminal(s.pcs[w].result))
  }

  ghost predicate OrderInv(owners: seq<WorkerId>, s: System) {
    && OwnInv(owners, s)
    && Orderly(owners, s.log)
    && AllBefore(s.log, Frontier(s.ctx))
    && forall w :: w in s.pcs && !s.pcs[w].Idle? ==> AllBefore(s.log, s.pcs[w].index)
  }

  lemma AllBeforeGrows(log: seq<Event>, e: Event, i: nat)
    requires AllBefore(log, i)
    ensures AllBefore(log + [e], i)
    ensures e.Applied? && e.index == i && e.state.Success? ==> AllBefore(log + [e], i + 1)
  {
    var big := log + [e];
    forall j: nat | j < i ensures SucceededIn(big, j) {
      assert SucceededIn(log, j);
      var m :| 0 <= m < |log| && log[m].Applied? && log[m].index == j && log[m].state.Success?;
      assert big[m] == log[m];
    }
    if e.Applied? && e.index == i && e.state.Success? {
      assert big[|log|] == e;
      assert SucceededIn(big, i);
    }
  }

  lemma OrderlyGrows(owners: seq<WorkerId>, log: seq<Event>, e: Event)
    requires Orderly(owners, log)
    requires e.Started? ==> e.index < |owners| && owners[e.index] == e.who && AllBefore(log, e.index)
    ensures Orderly(owners, log + [e])
  {
    var big := log + [e];
    forall k | 0 <= k < |big| && big[k].Started?
      ensures big[k].index < |owners| && owners[big[k].index] == big[k].who && AllBefore(big[..k], big[k].index)
    {
      if k < |log| {
        assert big[..k] == log[..k];
      } else {
        assert big[..k] == log;
      }
    }
  }

  lemma DeliverKeepsOrder(owners: seq<WorkerId>, s: System, w: WorkerId, i: nat, st: State)
    requires OrderInv(owners, s)
    requires i < |owners| && owners[i] == w && AllBefore(s.log, i)
    ensures OrderInv(owners, Deliver(s, w, i, st))
  {
    var e := Applied(w, i, st);
    OrderlyGrows(owners, s.log, e);
    AllBeforeGrows(s.log, e, i);
    forall v | v in s.pcs && !s.pcs[v].Idle? ensures AllBefore(s.log + [e], s.pcs[v].index) {
      AllBeforeGrows(s.log, e, s.pcs[v].index);
    }
  }

  lemma StartKeepsOrder(owners: seq<WorkerId>, s: System, w: WorkerId, i: nat, quiet: bool)
    requires OrderInv(owners, s)
    requires i < |owners| && owners[i] == w && AllBefore(s.log, i)
    ensures OrderInv(owners, s.(pcs := s.pcs[w := Executing(i, quiet)], log := s.log + [Started(w, i)]))
  {
    var e := Started(w, i);
    OrderlyGrows(owners, s.log, e);
    AllBeforeGrows(s.log, e, Frontier(s.ctx));
    AllBeforeGrows(s.log, e, i);
    forall v | v in s.pcs && !s.pcs[v].Idle? ensures AllBefore(s.log + [e], s.pcs[v].index) {
      AllBeforeGrows(s.log, e, s.pcs[v].index);
    }
  }

  lemma StepKeepsOrder(owners: seq<WorkerId>, s: System, step: Step)
    requires Enabled(s, step) && OrderInv(owners, s)
    ensures OrderInv(owners, Apply(owners, s, step))
  {
    var w := step.who;
    match step
    case Poll(_) =>
      match Decide(owners, s.ctx, w) {
        case None =>
        case Some(i) =>
          if s.ctx.At? && s.ctx.state.Running? { StartKeepsOrder(owners, s, w, i, true); }
      }
    case Ack(_) =>
      var pc := PcOf(s, w);
      var st := if pc.Starting? then Running else pc.result;
      var d := Deliver(s, w, pc.index, st);
      DeliverKeepsOrder(owners, s, w, pc.index, st);
      if pc.Starting? {
        AllBeforeGrows(s.log, Applied(w, pc.index, st), pc.index);
        StartKeepsOrder(owners, d, w, pc.index, false);
      } else if st.Success? && pc.index + 1 < |owners| && owners[pc.index + 1] == w && pc.quiet {
        StartKeepsOrder(owners, d, w, pc.index + 1, true);
      }
    case LostAck(_) =>
      var pc := PcOf(s, w);
      DeliverKeepsOrder(owners, s, w, pc.index, if pc.Starting? then Running else pc.result);
    case Finish(_, _) =>
    case Crash(_) =>
  }

  lemma {:induction false} RunsKeepOrder(owners: seq<WorkerId>, s: System, steps: seq<Step>)
    requires OrderInv(owners, s) && Exec(owners, s, steps).Some?
    ensures OrderInv(owners, Exec(owners, s, steps).value)
    decreases |steps|
  {
    if steps != [] {
      StepKeepsOrder(owners, s, steps[0]);
      RunsKeepOrder(owners, Apply(owners, s, steps[0]), steps[1..]);
    }
  }

  /** Action i is only ever started by its owner, and only after SUCCESS of every earlier action
      reached the server: for any workers, any interleaving, any crashes and any lost
      acknowledgements. */
  lemma ActionsStartInOrderByTheirOwner(owners: seq<WorkerId>, s: System, steps: seq<Step>)
    requires |owners| > 0 && Init(s) && Exec(owners, s, steps).Some?
    ensures Orderly(owners, Exec(owners, s, steps).value.log)
  {
    RunsKeepOrder(owners, s, steps);
  }

  // ---------------------------------------------------------------------------------------------
  // Exclusion: one worker in a turn, and nothing runs after FAILED or TIMEOUT. A SUCCESS that hands
  // the workflow over to another worker is the only report whose acknowledgement must not be lost.
  // ---------------------------------------------------------------------------------------------

  predicate HandsOver(owners: seq<WorkerId>, w: WorkerId, i: nat, st: State) {
    st.Success? && i + 1 < |owners| && owners[i + 1] != w
  }

  predicate LosesHandover(owners: seq<WorkerId>, s: System, step: Step) {
    step.LostAck? &&
    var pc := PcOf(s, step.who);
    pc.Reporting? && HandsOver(owners, step.who, pc.index, pc.result)
  }

  predicate NeverLosesHandover(owners: seq<WorkerId>, s: System, steps: seq<Step>)
    decreases |steps|
  {
    steps == [] ||
    (Enabled(s, steps[0]) ==>
       !LosesHandover(owners, s, steps[0]) && NeverLosesHandover(owners, Apply(owners, s, steps[0]), steps[1..]))
  }

  ghost predicate Exclusive(s: System) {
    forall v, w :: v in s.pcs && w in s.pcs && !s.pcs[v].Idle? && !s.pcs[w].Idle? ==> v == w
  }

  ghost predicate NothingAfterStop(log: seq<Event>) {
    forall m, k :: 0 <= m < k < |log| && log[m].Applied? && Terminal(log[m].state) ==> !log[k].Started?
  }

  /** A worker in a turn stands at the frontier of a workflow that is not stopped, or is repeating a
      report that already reached the server and that no other worker can act on. */
  predicate InStep(owners: seq<WorkerId>, ctx: Context, w: WorkerId, pc: Pc) {
    pc.Idle? ||
    (!Stopped(ctx) && pc.index == Frontier(ctx)) ||
    (pc.Reporting? && ctx == At(pc.index, pc.result) && !HandsOver(owners, w, pc.index, pc.result))
  }

  ghost predicate AllInStep(owners: seq<WorkerId>, s: System) {
    forall w :: w in s.pcs ==> InStep(owners, s.ctx, w, s.pcs[w])
  }

  ghost predicate HasStop(log: seq<Event>) {
    exists m :: 0 <= m < |log| && log[m].Applied? && Terminal(log[m].state)
  }

  ghost predicate StopInv(s: System) {
    NothingAfterStop(s.log) && (HasStop(s.log) ==> Stopped(s.ctx))
  }

  ghost predicate LockInv(owners: seq<WorkerId>, s: System) {
    OwnInv(owners, s) && AllInStep(owners, s) && StopInv(s)
  }

  lemma LockIsExclusive(owners: seq<WorkerId>, s: System)
    requires OwnInv(owners, s) && AllInStep(owners, s)
    ensures Exclusive(s)
  {
    forall v, w | v in s.pcs && w in s.pcs && !s.pcs[v].Idle? && !s.pcs[w].Idle? ensures v == w {
      assert InStep(owners, s.ctx, v, s.pcs[v]) && InStep(owners, s.ctx, w, s.pcs[w]);
    }
  }

  lemma StopGrows(log: seq<Event>, e: Event)
    requires NothingAfterStop(log) && (e.Started? ==> !HasStop(log))
    ensures NothingAfterStop(log + [e])
    ensures HasStop(log + [e]) <==> HasStop(log) || (e.Applied? && Terminal(e.state))
  {
    var big := log + [e];
    assert big[|log|] == e && forall m :: 0 <= m < |log| ==> big[m] == log[m];
  }

  lemma StepKeepsOwn(owners: seq<WorkerId>, s: System, step: Step)
    requires Enabled(s, step) && OwnInv(owners, s)
    ensures OwnInv(owners, Apply(owners, s, step))
  {
  }

  lemma StepKeepsInStep(owners: seq<WorkerId>, s: System, step: Step)
    requires Enabled(s, step) && OwnInv(owners, s) && AllInStep(owners, s) && !LosesHandover(owners, s, step)
    ensures AllInStep(owners, Apply(owners, s, step))
  {
    LockIsExclusive(owners, s);
    var w := step.who;
    var t := Apply(owners, s, step);
    forall v | v in t.pcs ensures InStep(owners, t.ctx, v, t.pcs[v]) {
      assert InStep(owners, s.ctx, w, PcOf(s, w));
      if v != w {
        assert v in s.pcs && t.pcs[v] == s.pcs[v] && InStep(owners, s.ctx, v, s.pcs[v]);
      }
    }
  }

  lemma StepKeepsStop(owners: seq<WorkerId>, s: System, step: Step)
    requires Enabled(s, step) && OwnInv(owners, s) && AllInStep(owners, s) && StopInv(s)
    ensures StopInv(Apply(owners, s, step))
  {
    var w := step.who;
    var pc := PcOf(s, w);
    assert InStep(owners, s.ctx, w, pc);
    match step
    case Poll(_) =>
      if !Stopped(s.ctx) { StopGrows(s.log, Started(w, Frontier(s.ctx))); }
    case Ack(_) =>
      var e := Applied(w, pc.index, if pc.Starting? then Running else pc.result);
      StopGrows(s.log, e);
      if pc.Starting? {
        StopGrows(s.log + [e], Started(w, pc.index));
      } else if pc.result.Success? {
        StopGrows(s.log + [e], Started(w, pc.index + 1));
      }
    case LostAck(_) =>
      StopGrows(s.log, Applied(w, pc.index, if pc.Starting? then Running else pc.result));
    case Finish(_, _) =>
    case Crash(_) =>
  }

  lemma StepKeepsLock(owners: seq<WorkerId>, s: System, step: Step)
    requires Enabled(s, step) && LockInv(owners, s) && !LosesHandover(owners, s, step)
    ensures LockInv(owners, Apply(owners, s, step))
  {
    StepKeepsOwn(owners, s, step);
    StepKeepsInStep(owners, s, step);
    StepKeepsStop(owners, s, step);
  }

  lemma {:induction false} RunsKeepLock(owners: seq<WorkerId>, s: System, steps: seq<Step>)
    requires LockInv(owners, s) && Exec(owners, s, steps).Some? && NeverLosesHandover(owners, s, steps)
    ensures LockInv(owners, Exec(owners, s, steps).value)
    decreases |steps|
  {
    if steps != [] {
      StepKeepsLock(owners, s, steps[0]);
      RunsKeepLock(owners, Apply(owners, s, steps[0]), steps[1..]);
    }
  }

  /** At most one worker is inside a turn, and no action starts after a FAILED or TIMEOUT report, in
      every run that does not lose the acknowledgement of a handover. */
  lemma OneWorkerAtATime(owners: seq<WorkerId>, s: System, steps: seq<Step>)
    requires |owners| > 0 && Init(s) && Exec(owners, s, steps).Some? && NeverLosesHandover(owners, s, steps)
    ensures Exclusive(Exec(owners, s, steps).value)
    ensures NothingAfterStop(Exec(owners, s, steps).value.log)
  {
    RunsKeepLock(owners, s, steps);
    LockIsExclusive(owners, Exec(owners, s, steps).value);
  }

  // ---------------------------------------------------------------------------------------------
  // Exactly once: with every report acknowledged, the actions complete as 0, 1, 2, ...
  // ---------------------------------------------------------------------------------------------

  /** Indices of the SUCCESS reports, in the order they reached the server. */
  function Completed(log: seq<Event>): seq<nat> {
    if log == [] then []
    else
      var e := log[|log| - 1];
      Completed(log[..|log| - 1]) + (if e.Applied? && e.state.Success? then [e.index] else [])
  }

  ghost predicate Ascending(xs: seq<nat>, n: nat) {
    |xs| == n && forall k :: 0 <= k < n ==> xs[k] == k
  }

  predicate AllAcknowledged(steps: seq<Step>) {
    forall k :: 0 <= k < |steps| ==> !steps[k].LostAck?
  }

  /** Without lost acknowledgements a busy worker always stands exactly at the frontier. */
  ghost predicate AtFrontier(s: System) {
    forall w :: w in s.pcs && !s.pcs[w].Idle? ==> !Stopped(s.ctx) && s.pcs[w].index == Frontier(s.ctx)
  }

  ghost predicate OnceInv(owners: seq<WorkerId>, s: System) {
    OwnInv(owners, s) && AtFrontier(s) && Ascending(Completed(s.log), Frontier(s.ctx))
  }

  lemma CompletedAppend(log: seq<Event>, e: Event)
    ensures Completed(log + [e]) == Completed(log) + (if e.Applied? && e.state.Success? then [e.index] else [])
  {
    assert (log + [e])[..|log|] == log;
  }

  lemma StepKeepsAtFrontier(owners: seq<WorkerId>, s: System, step: Step)
    requires Enabled(s, step) && OwnInv(owners, s) && AtFrontier(s) && !step.LostAck?
    ensures AtFrontier(Apply(owners, s, step))
  {
    var w := step.who;
    var t := Apply(owners, s, step);
    forall v | v in t.pcs && !t.pcs[v].Idle? ensures !Stopped(t.ctx) && t.pcs[v].index == Frontier(t.ctx) {
      if v != w {
        assert v in s.pcs && t.pcs[v] == s.pcs[v];
        assert w in s.pcs && !s.pcs[w].Idle? ==> v == w;
      }
    }
  }

  predicate Completes(s: System, step: Step) {
    var pc := PcOf(s, step.who);
    step.Ack? && pc.Reporting? && pc.result.Success?
  }

  /** The only step that completes an action is an acknowledged SUCCESS. */
  lemma StepCompletes(owners: seq<WorkerId>, s: System, step: Step)
    requires Enabled(s, step) && !step.LostAck?
    ensures Completed(Apply(owners, s, step).log)
         == Completed(s.log) + (if Completes(s, step) then [PcOf(s, step.who).index] else [])
  {
    var w := step.who;
    var pc := PcOf(s, w);
    if step.Poll? {
      CompletedAppend(s.log, Started(w, Frontier(s.ctx)));
    } else if step.Ack? && pc.Starting? {
      CompletedAppend(s.log, Applied(w, pc.index, Running));
      CompletedAppend(s.log + [Applied(w, pc.index, Running)], Started(w, pc.index));
    } else if step.Ack? {
      CompletedAppend(s.log, Applied(w, pc.index, pc.result));
      CompletedAppend(s.log + [Applied(w, pc.index, pc.result)], Started(w, pc.index + 1));
    }
  }

  lemma FrontierMoves(owners: seq<WorkerId>, s: System, step: Step)
    requires Enabled(s, step) && AtFrontier(s) && !step.LostAck?
    ensures Frontier(Apply(owners, s, step).ctx) == Frontier(s.ctx) + (if Completes(s, step) then 1 else 0)
    ensures Completes(s, step) ==> PcOf(s, step.who).index == Frontier(s.ctx)
  {
    var pc := PcOf(s, step.who);
    assert !pc.Idle? ==> !Stopped(s.ctx) && pc.index == Frontier(s.ctx);
  }

  lemma StepKeepsAscending(owners: seq<WorkerId>, s: System, step: Step)
    requires Enabled(s, step) && OnceInv(owners, s) && !step.LostAck?
    ensures var t := Apply(owners, s, step); Ascending(Completed(t.log), Frontier(t.ctx))
  {
    StepCompletes(owners, s, step);
    FrontierMoves(owners, s, step);
  }

  lemma {:induction false} RunsKeepOnce(owners: seq<WorkerId>, s: System, steps: seq<Step>)
    requires OnceInv(owners, s) && Exec(owners, s, steps).Some? && AllAcknowledged(steps)
    ensures OnceInv(owners, Exec(owners, s, steps).value)
    decreases |steps|
  {
    if steps != [] {
      StepKeepsOwn(owners, s, steps[0]);
      StepKeepsAtFrontier(owners, s, steps[0]);
      StepKeepsAscending(owners, s, steps[0]);
      RunsKeepOnce(owners, Apply(owners, s, steps[0]), steps[1..]);
    }
  }

  /** With every report acknowledged, SUCCESS reaches the server exactly once per action and in
      order, whatever the crashes: the n-th completion is action n, and the context says how many
      there have been. */
  lemma ActionsCompleteOnceInOrder(owners: seq<WorkerId>, s: System, steps: seq<Step>)
    requires |owners| > 0 && Init(s) && Exec(owners, s, steps).Some? && AllAcknowledged(steps)
    ensures var t := Exec(owners, s, steps).value; Ascending(Completed(t.log), Frontier(t.ctx))
  {
    RunsKeepOnce(owners, s, steps);
  }

  // ---------------------------------------------------------------------------------------------
  // How far exclusion goes when acknowledgements may be lost freely.
  // ---------------------------------------------------------------------------------------------

  const FRESH := System(Unset, map[], [])

  predicate SingleOwner(owners: seq<WorkerId>) {
    forall i :: 0 <= i < |owners| ==> owners[i] == owners[0]
  }

  /** No run, whatever it loses, has two workers in a turn or a start after FAILED or TIMEOUT. */
  ghost predicate AlwaysSafe(owners: seq<WorkerId>) {
    forall steps: seq<Step> :: Exec(owners, FRESH, steps).Some? ==>
      var t := Exec(owners, FRESH, steps).value;
      Exclusive(t) && NothingAfterStop(t.log)
  }

  /** All workers idle and the first i actions done: a state some run reaches for every i. */
  predicate Resting(s: System, i: nat) {
    s.ctx == (if i == 0 then Unset else At(i - 1, Success)) && forall w :: w in s.pcs ==> s.pcs[w].Idle?
  }

  lemma {:induction false} RestingReachable(owners: seq<WorkerId>, i: nat) returns (steps: seq<Step>)
    requires i <= |owners|
    ensures Exec(owners, FRESH, steps).Some? && Resting(Exec(owners, FRESH, steps).value, i)
  {
    if i == 0 {
      steps := [];
    } else {
      var before := RestingReachable(owners, i - 1);
      var s := Exec(owners, FRESH, before).value;
      var w := owners[i - 1];
      var s1 := Apply(owners, s, Poll(w));
      var s2 := Apply(owners, s1, Ack(w));
      var s3 := Apply(owners, s2, Finish(w, Success));
      var s4 := Apply(owners, s3, Ack(w));
      var turn := [Poll(w), Ack(w), Finish(w, Success), Ack(w), Crash(w)];
      ExecFive(owners, turn, [s, s1, s2, s3, s4, Apply(owners, s4, Crash(w))]);
      ExecConcat(owners, FRESH, before, turn);
      steps := before + turn;
    }
  }

  lemma ExecCons(owners: seq<WorkerId>, s: System, step: Step, rest: seq<Step>)
    requires Enabled(s, step)
    ensures Exec(owners, s, [step] + rest) == Exec(owners, Apply(owners, s, step), rest)
  {
    assert ([step] + rest)[1..] == rest;
  }

  lemma ExecFive(owners: seq<WorkerId>, t: seq<Step>, s: seq<System>)
    requires |t| == 5 && |s| == 6
    requires forall k :: 0 <= k < 5 ==> Enabled(s[k], t[k]) && s[k + 1] == Apply(owners, s[k], t[k])
    ensures Exec(owners, s[0], t) == Some(s[5])
  {
    assert t == [t[0]] + t[1..] && t[1..] == [t[1]] + t[2..] && t[2..] == [t[2]] + t[3..];
    assert t[3..] == [t[3]] + t[4..] && t[4..] == [t[4]] + [];
    ExecCons(owners, s[4], t[4], []);
    ExecCons(owners, s[3], t[3], t[4..]);
    ExecCons(owners, s[2], t[2], t[3..]);
    ExecCons(owners, s[1], t[1], t[2..]);
    ExecCons(owners, s[0], t[0], t[1..]);
  }

  /** A worker whose report is not acknowledged reports it again, whatever the others do, for as long as it
      neither gets the acknowledgement nor crashes. */
  lemma {:induction false} ReportsUntilAcknowledged(owners: seq<WorkerId>, s: System, steps: seq<Step>, w: WorkerId)
    requires PcOf(s, w).Reporting? && Exec(owners, s, steps).Some?
    requires forall k :: 0 <= k < |steps| && steps[k].who == w ==> !steps[k].Ack? && !steps[k].Crash?
    ensures var t := Exec(owners, s, steps).value; PcOf(t, w) == PcOf(s, w) && Enabled(t, LostAck(w))
    decreases |steps|
  {
    if steps != [] {
      ReportsUntilAcknowledged(owners, Apply(owners, s, steps[0]), steps[1..], w);
    }
  }

  /** Where the owner changes, losing one acknowledgement puts two workers in a turn at once: the next owner
      starts while the sender still reports. */
  lemma LostHandoverBreaksExclusion(owners: seq<WorkerId>, i: nat) returns (steps: seq<Step>)
    requires i + 1 < |owners| && owners[i] != owners[i + 1]
    ensures Exec(owners, FRESH, steps).Some? && !Exclusive(Exec(owners, FRESH, steps).value)
    ensures var t := Exec(owners, FRESH, steps).value;
      PcOf(t, owners[i]) == Reporting(i, false, Success) && PcOf(t, owners[i + 1]) == Starting(i + 1)
  {
    var before := RestingReachable(owners, i);
    var s := Exec(owners, FRESH, before).value;
    var w, v := owners[i], owners[i + 1];
    var s1 := Apply(owners, s, Poll(w));
    var s2 := Apply(owners, s1, Ack(w));
    var s3 := Apply(owners, s2, Finish(w, Success));
    var s4 := Apply(owners, s3, LostAck(w));
    var turn := [Poll(w), Ack(w), Finish(w, Success), LostAck(w), Poll(v)];
    ExecFive(owners, turn, [s, s1, s2, s3, s4, Apply(owners, s4, Poll(v))]);
    ExecConcat(owners, FRESH, before, turn);
    steps := before + turn;
    var t := Exec(owners, FRESH, steps).value;
    assert t.pcs[w] == Reporting(i, false, Success) && t.pcs[v] == Starting(i + 1);
  }

  lemma {:induction false} OwnerChanges(owners: seq<WorkerId>, k: nat) returns (i: nat)
    requires k < |owners| && owners[k] != owners[0]
    ensures i + 1 < |owners| && owners[i] != owners[i + 1]
  {
    if owners[k - 1] != owners[k] {
      i := k - 1;
    } else {
      i := OwnerChanges(owners, k - 1);
    }
  }

  lemma {:induction false} SingleOwnerNeverHandsOver(owners: seq<WorkerId>, s: System, steps: seq<Step>)
    requires SingleOwner(owners) && OwnInv(owners, s)
    ensures NeverLosesHandover(owners, s, steps)
    decreases |steps|
  {
    if steps != [] && Enabled(s, steps[0]) {
      StepKeepsOwn(owners, s, steps[0]);
      SingleOwnerNeverHandsOver(owners, Apply(owners, s, steps[0]), steps[1..]);
    }
  }

  /** With acknowledgements lost freely, exclusion and the stop at FAILED or TIMEOUT hold on all runs
      of a workflow if and only if a single worker owns all its actions. */
  lemma SafeUnderLossIffSingleOwner(owners: seq<WorkerId>)
    requires |owners| > 0
    ensures AlwaysSafe(owners) <==> SingleOwner(owners)
  {
    if SingleOwner(owners) {
      forall steps: seq<Step> | Exec(owners, FRESH, steps).Some?
        ensures Exclusive(Exec(owners, FRESH, steps).value)
        ensures NothingAfterStop(Exec(owners, FRESH, steps).value.log)
      {
        SingleOwnerNeverHandsOver(owners, FRESH, steps);
        OneWorkerAtATime(owners, FRESH, steps);
      }
    } else {
      var k :| 0 <= k < |owners| && owners[k] != owners[0];
      var i := OwnerChanges(owners, k);
      var steps := LostHandoverBreaksExclusion(owners, i);
    }
  }
}
