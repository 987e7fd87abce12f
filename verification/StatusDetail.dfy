/**
 The progress text shown while a provisioning workflow runs: "i/n: message" for the first action that
 has not succeeded, or for the last one. Proved never to go backwards, and to name the action the
 worker protocol is running or will run next. Rendering the numbers into the text is left out.
 */
module StatusDetail {
  import opened Wrappers
  import P = WorkerProtocol

  datatype WorkflowState = Empty | Pending | Running | Success | Failed | Timeout | Unrecognised

  datatype Action = Action(name: string, status: WorkflowState, message: string)

  datatype Workflow = Workflow(template: string, state: WorkflowState, tasks: seq<seq<Action>>)

  /** What a status adds to its text: nothing, a progress, or the Instance that deletion waits for. */
  datatype Detail = NoDetail | Progress(current: nat, total: nat, message: string) | WaitingOn(instance: nat)

  /** Index of the first action that has not succeeded, or of the last action. */
  ghost predicate Shown(actions: seq<Action>, i: nat) {
    && i < |actions|
    && (forall k :: 0 <= k < i ==> actions[k].status.Success?)
    && (actions[i].status.Success? ==> i == |actions| - 1)
  }

  /** The text for one action, given the table of human-readable step names. */
  function Message(texts: map<string, string>, a: Action): string {
    var text := if a.name in texts then texts[a.name] else a.name;
    match a.status
    case Failed => text + " failed" + (if a.message == "" then "" else ": " + a.message)
    case Timeout => text + " timeout"
    case _ => text
  }

  method PrepareStatusDetails(texts: map<string, string>, actions: seq<Action>) returns (d: Detail)
    requires |actions| > 0
    ensures d == DetailOf(texts, actions)
  {
    var currActionNumber: nat := 1;
    var message := "";
    var i := 0;
    while i < |actions|
      invariant 0 <= i <= |actions|
      invariant forall k :: 0 <= k < i ==> actions[k].status.Success? && k != |actions| - 1 && actions[k].name != ""
    {
      if actions[i].name == "" {
        UnnamedActionShowsNothing(texts, actions, i);
        return NoDetail;
      }
      if actions[i].status.Success? && i != |actions| - 1 {
        i := i + 1;
        continue;
      }
      message := Message(texts, actions[i]);
      currActionNumber := i + 1;
      ShownIsUnique(actions, i, FirstOpen(actions, 0));
      break;
    }
    d := Progress(currActionNumber, |actions|, message);
  }

  function FirstOpen(actions: seq<Action>, from: nat): (i: nat)
    requires from < |actions|
    requires forall k :: 0 <= k < from ==> actions[k].status.Success?
    ensures Shown(actions, i)
    decreases |actions| - from
  {
    if actions[from].status.Success? && from < |actions| - 1 then FirstOpen(actions, from + 1) else from
  }

  /** The detail of an action list: nothing when an unnamed action comes no later than the shown one. */
  function DetailOf(texts: map<string, string>, actions: seq<Action>): Detail
    requires |actions| > 0
  {
    var i := FirstOpen(actions, 0);
    if exists k :: 0 <= k <= i && actions[k].name == "" then NoDetail
    else Progress(i + 1, |actions|, Message(texts, actions[i]))
  }

  function GenerateStatusDetail(texts: map<string, string>, wf: Workflow): Detail {
    if wf.state.Success? || wf.tasks == [] || wf.tasks[0] == [] then NoDetail
    else DetailOf(texts, wf.tasks[0])
  }

  /** What is shown of a workflow that has not succeeded: the position of the shown action, counted from 1, of how
      many, and its step name with how it ended; nothing if an unnamed action comes no later. */
  lemma DetailSays(texts: map<string, string>, wf: Workflow, i: nat)
    requires wf.state != Success && wf.tasks != [] && Shown(wf.tasks[0], i)
    ensures var actions := wf.tasks[0]; var a := actions[i]; var d := GenerateStatusDetail(texts, wf);
      var step := if a.name in texts then texts[a.name] else a.name;
      && (d == NoDetail <==> exists k :: 0 <= k <= i && actions[k].name == "")
      && (d != NoDetail ==>
            && d.Progress? && d.current == i + 1 && d.total == |actions|
            && (a.status == Failed && a.message != "" ==> d.message == step + " failed: " + a.message)
            && (a.status == Failed && a.message == "" ==> d.message == step + " failed")
            && (a.status == Timeout ==> d.message == step + " timeout")
            && (a.status !in {Failed, Timeout} ==> d.message == step))
  {
    var actions := wf.tasks[0];
    ShownIsUnique(actions, i, FirstOpen(actions, 0));
    var step := if actions[i].name in texts then texts[actions[i].name] else actions[i].name;
    assert step + " failed" + (": " + actions[i].message) == step + " failed: " + actions[i].message;
  }

  /** Nothing is shown of a workflow that has succeeded or has no actions. */
  lemma NothingToShow(texts: map<string, string>, wf: Workflow)
    requires wf.state == Success || wf.tasks == [] || wf.tasks[0] == []
    ensures GenerateStatusDetail(texts, wf) == NoDetail
  {
  }

  lemma ShownIsUnique(actions: seq<Action>, i: nat, j: nat)
    requires Shown(actions, i) && Shown(actions, j)
    ensures i == j
  {
  }

  lemma UnnamedActionShowsNothing(texts: map<string, string>, actions: seq<Action>, k: nat)
    requires k < |actions| && actions[k].name == ""
    requires forall j :: 0 <= j < k ==> actions[j].status.Success? && j != |actions| - 1
    ensures DetailOf(texts, actions) == NoDetail
  {
    var i := FirstOpen(actions, 0);
    assert i >= k;
  }

  /** While succeeded actions stay succeeded, the shown number never decreases. */
  lemma ProgressNeverDecreases(before: seq<Action>, after: seq<Action>, i: nat, j: nat)
    requires |before| == |after|
    requires forall k :: 0 <= k < |before| && before[k].status.Success? ==> after[k].status.Success?
    requires Shown(before, i) && Shown(after, j)
    ensures i <= j
  {
  }

  // ---------------------------------------------------------------------------------------------
  // What the worker protocol makes of it: the status of an action is the last report about it.
  // ---------------------------------------------------------------------------------------------

  function Reported(st: P.State): WorkflowState {
    match st
    case Pending => Pending
    case Running => Running
    case Success => Success
    case Failed => Failed
    case Timeout => Timeout
  }

  /** The statuses of n actions after the reports in a log. */
  function Statuses(log: seq<P.Event>, n: nat): (s: seq<WorkflowState>)
    ensures |s| == n
  {
    if log == [] then seq(n, _ => Pending)
    else
      var s := Statuses(log[..|log| - 1], n);
      var e := log[|log| - 1];
      if e.Applied? && e.index < n then s[e.index := Reported(e.state)] else s
  }

  ghost predicate SucceededUpTo(s: seq<WorkflowState>, f: nat) {
    forall k :: 0 <= k < |s| ==> (s[k].Success? <==> k < f)
  }

  lemma StatusesAppend(log: seq<P.Event>, e: P.Event, n: nat)
    ensures Statuses(log + [e], n)
         == if e.Applied? && e.index < n then Statuses(log, n)[e.index := Reported(e.state)] else Statuses(log, n)
  {
    assert (log + [e])[..|log|] == log;
  }

  /** The report an acknowledged step delivers, if any. */
  function Delivered(s: P.System, step: P.Step): Option<P.Event> {
    var pc := P.PcOf(s, step.who);
    if step.Ack? && pc.Starting? then Some(P.Applied(step.who, pc.index, P.Running))
    else if step.Ack? && pc.Reporting? then Some(P.Applied(step.who, pc.index, pc.result))
    else None
  }

  lemma StepStatuses(owners: seq<P.WorkerId>, s: P.System, step: P.Step, n: nat)
    requires P.Enabled(s, step) && !step.LostAck?
    ensures Statuses(P.Apply(owners, s, step).log, n)
         == match Delivered(s, step) case None => Statuses(s.log, n) case Some(e) => Statuses(s.log + [e], n)
  {
    var w := step.who;
    var pc := P.PcOf(s, w);
    if step.Poll? {
      StatusesAppend(s.log, P.Started(w, P.Frontier(s.ctx)), n);
    } else if step.Ack? {
      var e := Delivered(s, step).value;
      StatusesAppend(s.log + [e], P.Started(w, pc.index), n);
      StatusesAppend(s.log + [e], P.Started(w, pc.index + 1), n);
    }
  }

  lemma StepContext(owners: seq<P.WorkerId>, s: P.System, step: P.Step)
    requires P.Enabled(s, step) && !step.LostAck?
    ensures P.Apply(owners, s, step).ctx
         == match Delivered(s, step) case None => s.ctx case Some(e) => P.At(e.index, e.state)
  {
  }

  lemma DeliveryKeepsStatuses(log: seq<P.Event>, e: P.Event, n: nat, f: nat)
    requires e.Applied? && e.index == f && f < n && SucceededUpTo(Statuses(log, n), f)
    ensures SucceededUpTo(Statuses(log + [e], n), P.Frontier(P.At(e.index, e.state)))
  {
    StatusesAppend(log, e, n);
  }

  lemma StepKeepsStatuses(owners: seq<P.WorkerId>, s: P.System, step: P.Step)
    requires P.Enabled(s, step) && P.OnceInv(owners, s) && !step.LostAck?
    requires SucceededUpTo(Statuses(s.log, |owners|), P.Frontier(s.ctx))
    ensures var t := P.Apply(owners, s, step);
      SucceededUpTo(Statuses(t.log, |owners|), P.Frontier(t.ctx)) && P.Frontier(s.ctx) <= P.Frontier(t.ctx)
  {
    StepStatuses(owners, s, step, |owners|);
    StepContext(owners, s, step);
    match Delivered(s, step) {
      case None =>
      case Some(e) =>
        assert step.who in s.pcs && !s.pcs[step.who].Idle? && s.pcs[step.who].index == P.Frontier(s.ctx);
        DeliveryKeepsStatuses(s.log, e, |owners|, P.Frontier(s.ctx));
    }
  }

  lemma {:induction false} RunsKeepStatuses(owners: seq<P.WorkerId>, s: P.System, steps: seq<P.Step>)
    requires P.OnceInv(owners, s) && P.Exec(owners, s, steps).Some? && P.AllAcknowledged(steps)
    requires SucceededUpTo(Statuses(s.log, |owners|), P.Frontier(s.ctx))
    ensures var t := P.Exec(owners, s, steps).value;
      SucceededUpTo(Statuses(t.log, |owners|), P.Frontier(t.ctx)) && P.Frontier(s.ctx) <= P.Frontier(t.ctx)
    decreases |steps|
  {
    if steps != [] {
      StepKeepsStatuses(owners, s, steps[0]);
      P.StepKeepsOwn(owners, s, steps[0]);
      P.StepKeepsAtFrontier(owners, s, steps[0]);
      P.StepKeepsAscending(owners, s, steps[0]);
      RunsKeepStatuses(owners, P.Apply(owners, s, steps[0]), steps[1..]);
    }
  }

  /** The actions of a workflow object whose statuses are the last reports of a run. */
  ghost predicate Tracks(actions: seq<Action>, t: P.System, n: nat) {
    |actions| == n && forall k :: 0 <= k < n ==> actions[k].status == Statuses(t.log, n)[k]
  }

  lemma TrackedShown(owners: seq<P.WorkerId>, s: P.System, steps: seq<P.Step>, actions: seq<Action>)
    requires |owners| > 0 && P.OnceInv(owners, s) && P.Exec(owners, s, steps).Some? && P.AllAcknowledged(steps)
    requires SucceededUpTo(Statuses(s.log, |owners|), P.Frontier(s.ctx))
    requires Tracks(actions, P.Exec(owners, s, steps).value, |owners|)
    ensures var f := P.Frontier(P.Exec(owners, s, steps).value.ctx);
      FirstOpen(actions, 0) == if f < |owners| then f else |owners| - 1
  {
    RunsKeepStatuses(owners, s, steps);
    P.RunsKeepOnce(owners, s, steps);
    var t := P.Exec(owners, s, steps).value;
    var f := if P.Frontier(t.ctx) < |owners| then P.Frontier(t.ctx) else |owners| - 1;
    forall k | 0 <= k < |actions| ensures actions[k].status.Success? <==> k < P.Frontier(t.ctx) {
      assert actions[k].status == Statuses(t.log, |owners|)[k];
    }
    ShownIsUnique(actions, f, FirstOpen(actions, 0));
  }

  /** On the statuses any acknowledged run produces, the number shown is that of the action being run
      or next to run (the last action once all are done), every worker in a turn is on it, and it does
      not decrease as the run goes on. */
  lemma ProgressNamesTheCurrentAction(owners: seq<P.WorkerId>, s: P.System, early: seq<P.Step>, late: seq<P.Step>,
                                      before: seq<Action>, after: seq<Action>)
    requires |owners| > 0 && P.Init(s) && P.AllAcknowledged(early) && P.AllAcknowledged(late)
    requires P.Exec(owners, s, early).Some? && P.Exec(owners, P.Exec(owners, s, early).value, late).Some?
    requires Tracks(before, P.Exec(owners, s, early).value, |owners|)
    requires Tracks(after, P.Exec(owners, P.Exec(owners, s, early).value, late).value, |owners|)
    ensures var t := P.Exec(owners, s, early).value; var f := P.Frontier(t.ctx);
      && FirstOpen(before, 0) == (if f < |owners| then f else |owners| - 1)
      && forall w :: w in t.pcs && !t.pcs[w].Idle? ==> t.pcs[w].index == FirstOpen(before, 0)
    ensures FirstOpen(before, 0) <= FirstOpen(after, 0)
  {
    var t := P.Exec(owners, s, early).value;
    TrackedShown(owners, s, early, before);
    RunsKeepStatuses(owners, s, early);
    P.RunsKeepOnce(owners, s, early);
    TrackedShown(owners, t, late, after);
    RunsKeepStatuses(owners, t, late);
  }
}
