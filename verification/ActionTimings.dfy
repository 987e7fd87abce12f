/**
 Timing instrumentation of onboarding-manager: global maps keyed by workflow name + action name are
 filled on every poll of a workflow, and summed up and emptied for that workflow once its reboot action
 has succeeded. Go visits a map in no particular order; the loops below pick the next key arbitrarily.
 */
module ActionTimings {
  import opened Wrappers

  datatype Status = Pending | Running | Success | OtherStatus

  datatype Action = Action(name: string, status: Status, seconds: int)

  /** Names of the action whose waiting time is measured and of the one that ends a workflow. */
  datatype Names = Names(secureBoot: string, reboot: string)

  datatype Maps = Maps(
    status: map<string, Status>, start: map<string, int>, running: map<string, int>, success: map<string, int>)

  predicate Contains(s: string, sub: string) {
    exists i :: 0 <= i <= |s| && sub <= s[i..]
  }

  function KeysContaining(m: map<string, int>, wf: string): set<string> {
    set k | k in m && Contains(k, wf)
  }

  // ---------------------------------------------------------------------------------------------
  // Specification.
  // ---------------------------------------------------------------------------------------------

  /** Effect of one polled action. An unexpected status forgets the timings of every workflow seen. */
  function Record(n: Names, m: Maps, wf: string, a: Action, now: int): Maps {
    var key := wf + a.name;
    var m1 := m.(status := m.status[key := a.status]);
    match a.status
    case Pending =>
      if key !in m.start && a.name == n.secureBoot then m1.(start := m.start[key := now]) else m1
    case Running =>
      if key !in m.running && a.name == n.secureBoot
      then m1.(running := m.running[key := now - (if key in m.start then m.start[key] else 0)]) else m1
    case Success => m1.(success := m.success[key := a.seconds])
    case OtherStatus => Forgotten(m1)
  }

  /** The maps without all keys that have a status. */
  function Forgotten(m: Maps): Maps {
    Maps(map[], m.start - m.status.Keys, m.running - m.status.Keys, m.success - m.status.Keys)
  }

  function RecordAll(n: Names, m: Maps, wf: string, actions: seq<Action>, now: int): Maps {
    if actions == [] then m
    else Record(n, RecordAll(n, m, wf, actions[..|actions| - 1], now), wf, actions[|actions| - 1], now)
  }

  function Flatten(tasks: seq<seq<Action>>): seq<Action> {
    if tasks == [] then [] else Flatten(tasks[..|tasks| - 1]) + tasks[|tasks| - 1]
  }

  /** Sum over a set of keys; the order in which they are taken does not matter (SumRemove). */
  ghost function Sum(m: map<string, int>, keys: set<string>): int
    requires keys <= m.Keys
  {
    if keys == {} then 0 else var k :| k in keys; m[k] + Sum(m, keys - {k})
  }

  function Without(m: Maps, keys: set<string>): Maps {
    Maps(m.status - keys, m.start - keys, m.running - keys, m.success - keys)
  }

  lemma MinusAnother<V>(m: map<string, V>, keys: set<string>, k: string)
    ensures m - keys - {k} == m - (keys + {k})
    ensures m - {} == m
  {
  }

  lemma NothingForgotten(m: Maps)
    ensures Without(m, m.status.Keys - m.status.Keys) == m
  {
    assert m.status.Keys - m.status.Keys == {};
    MinusNothing(m.status);
    MinusNothing(m.start);
    MinusNothing(m.running);
    MinusNothing(m.success);
  }

  lemma MinusNothing<V>(m: map<string, V>)
    ensures m - {} == m
  {
  }

  lemma AllForgotten(m: Maps)
    ensures Without(m, m.status.Keys - {}) == Forgotten(m)
  {
    assert m.status.Keys - {} == m.status.Keys && m.status - m.status.Keys == map[];
  }

  /** The actions of all tasks, one task after the other. */
  lemma {:induction false} FlattenConcat(a: seq<seq<Action>>, b: seq<seq<Action>>, t: seq<Action>)
    ensures Flatten(a + b) == Flatten(a) + Flatten(b)
    ensures Flatten([]) == [] && Flatten([t]) == t
    decreases |b|
  {
    if b == [] {
      assert a + b == a;
    } else {
      assert (a + b)[..|a + b| - 1] == a + b[..|b| - 1];
      FlattenConcat(a, b[..|b| - 1], t);
    }
  }

  lemma RecordAllNext(n: Names, m: Maps, wf: string, before: seq<Action>, actions: seq<Action>, j: nat, now: int)
    requires j < |actions|
    ensures RecordAll(n, m, wf, before + actions[..j + 1], now)
         == Record(n, RecordAll(n, m, wf, before + actions[..j], now), wf, actions[j], now)
  {
    assert (before + actions[..j + 1])[..|before| + j] == before + actions[..j];
  }

  lemma WithoutAnother(m: Maps, keys: set<string>, k: string)
    ensures Without(Without(m, keys), {k}) == Without(m, keys + {k})
  {
    MinusAnother(m.status, keys, k);
    MinusAnother(m.start, keys, k);
    MinusAnother(m.running, keys, k);
    MinusAnother(m.success, keys, k);
  }

  predicate Finished(n: Names, m: Maps, wf: string) {
    wf + n.reboot in m.status && m.status[wf + n.reboot].Success?
  }

  function Only(b: bool, k: string): set<string> {
    if b then {k} else {}
  }

  /** m without the durations of some keys and without the waiting times of others. */
  function Less(m: Maps, keys: set<string>, boot: set<string>): Maps {
    Maps(m.status - keys, m.start - boot, m.running - boot, m.success - keys)
  }

  lemma LessNothing(m: Maps)
    ensures Less(m, {}, {}) == m
  {
  }

  lemma LessAnother(m: Maps, keys: set<string>, boot: set<string>, k: string)
    ensures Less(Less(m, keys, boot), {k}, {}) == Less(m, keys + {k}, boot)
    ensures Less(Less(m, keys, boot), {}, {k}) == Less(m, keys, boot + {k})
  {
    LessNothing(Less(m, keys, boot));
    MinusAnother(m.status, keys, k);
    MinusAnother(m.start, boot, k);
    MinusAnother(m.running, boot, k);
    MinusAnother(m.success, keys, k);
  }

  /** The maps after the total was logged. */
  function Emptied(n: Names, m: Maps, wf: string): Maps {
    Less(m, KeysContaining(m.success, wf), Only(wf + n.secureBoot in m.success, wf + n.secureBoot))
  }

  /** The maps after one poll that shows these actions. */
  function Polled(n: Names, m: Maps, wf: string, actions: seq<Action>, now: int): Maps {
    var r := RecordAll(n, m, wf, actions, now);
    if Finished(n, r, wf) then Emptied(n, r, wf) else r
  }

  // ---------------------------------------------------------------------------------------------
  // The code.
  // ---------------------------------------------------------------------------------------------

  class Instrumentation {
    const n: Names
    var actionStatusMap: map<string, Status>
    var actionStartTimes: map<string, int>
    var actionRunning: map<string, int>
    var actionSuccessDuration: map<string, int>

    constructor (n: Names)
      ensures this.n == n && Now() == Maps(map[], map[], map[], map[])
    {
      this.n := n;
      actionStatusMap, actionStartTimes, actionRunning, actionSuccessDuration := map[], map[], map[], map[];
    }

    function Now(): Maps
      reads this
    {
      Maps(actionStatusMap, actionStartTimes, actionRunning, actionSuccessDuration)
    }

    method Forget()
      modifies this
      ensures Now() == Forgotten(old(Now()))
    {
      var todo := actionStatusMap.Keys;
      ghost var m := Now();
      NothingForgotten(m);
      while todo != {}
        invariant todo <= m.status.Keys && Now() == Without(m, m.status.Keys - todo)
        decreases |todo|
      {
        var k :| k in todo;
        ForgetOne(k, m, todo);
        todo := todo - {k};
      }
      AllForgotten(m);
    }

    /** The body of the forgetting loop. */
    method ForgetOne(k: string, ghost m: Maps, ghost todo: set<string>)
      requires k in todo && todo <= m.status.Keys && Now() == Without(m, m.status.Keys - todo)
      modifies this
      ensures Now() == Without(m, m.status.Keys - (todo - {k}))
    {
      WithoutAnother(m, m.status.Keys - todo, k);
      assert m.status.Keys - (todo - {k}) == m.status.Keys - todo + {k};
      actionStartTimes := actionStartTimes - {k};
      actionRunning := actionRunning - {k};
      actionSuccessDuration := actionSuccessDuration - {k};
      actionStatusMap := actionStatusMap - {k};
    }

    method RecordAction(wf: string, a: Action, now: int)
      modifies this
      ensures Now() == Record(n, old(Now()), wf, a, now)
    {
      var key := wf + a.name;
      actionStatusMap := actionStatusMap[key := a.status];
      match a.status
      case Pending =>
        if key !in actionStartTimes && a.name == n.secureBoot {
          actionStartTimes := actionStartTimes[key := now];
        }
      case Running =>
        if key !in actionRunning && a.name == n.secureBoot {
          var since := if key in actionStartTimes then actionStartTimes[key] else 0;
          actionRunning := actionRunning[key := now - since];
        }
      case Success =>
        actionSuccessDuration := actionSuccessDuration[key := a.seconds];
      case OtherStatus =>
        Forget();
    }

    /** One poll of a workflow object; returns the logged total, if one is logged. */
    method Poll(wf: string, tasks: seq<seq<Action>>, now: int) returns (total: Option<int>)
      modifies this
      ensures var m := RecordAll(n, old(Now()), wf, Flatten(tasks), now);
        total == if Finished(n, m, wf) then Some(Sum(m.success, KeysContaining(m.success, wf))) else None
      ensures Now() == Polled(n, old(Now()), wf, Flatten(tasks), now)
    {
      for i := 0 to |tasks|
        invariant Now() == RecordAll(n, old(Now()), wf, Flatten(tasks[..i]), now)
      {
        RecordTask(wf, tasks[i], now, old(Now()), Flatten(tasks[..i]));
        assert tasks[..i + 1][..i] == tasks[..i];
      }
      assert tasks[..|tasks|] == tasks;
      total := Summarise(wf);
    }

    /** The actions of one task, after those recorded before. */
    method RecordTask(wf: string, actions: seq<Action>, now: int, ghost m: Maps, ghost before: seq<Action>)
      requires Now() == RecordAll(n, m, wf, before, now)
      modifies this
      ensures Now() == RecordAll(n, m, wf, before + actions, now)
    {
      assert before + actions[..0] == before;
      for j := 0 to |actions|
        invariant Now() == RecordAll(n, m, wf, before + actions[..j], now)
      {
        RecordAllNext(n, m, wf, before, actions, j, now);
        RecordAction(wf, actions[j], now);
      }
      assert actions[..|actions|] == actions;
    }

    method Summarise(wf: string) returns (total: Option<int>)
      modifies this
      ensures var m := old(Now());
        if Finished(n, m, wf)
        then total == Some(Sum(m.success, KeysContaining(m.success, wf))) && Now() == Emptied(n, m, wf)
        else total == None && Now() == m
    {
      total := None;
      var todo := actionStatusMap.Keys;
      ghost var m := Now();
      while todo != {}
        invariant todo <= m.status.Keys
        invariant total == None ==> Now() == m && (Finished(n, m, wf) ==> wf + n.reboot in todo)
        invariant total != None ==> Finished(n, m, wf) && wf + n.reboot !in todo
        invariant total != None ==> total == Some(Sum(m.success, KeysContaining(m.success, wf)))
        invariant total != None ==> Now() == Emptied(n, m, wf)
        decreases |todo|
      {
        var actionName :| actionName in todo;
        todo := todo - {actionName};
        // an entry deleted before it is reached is not visited
        if actionName in actionStatusMap && actionName == wf + n.reboot && actionStatusMap[actionName] == Success {
          var sum := SumUp(wf);
          total := Some(sum);
        }
      }
    }

    /** What SumUp has done to m when the keys of todo are still to be visited. */
    ghost predicate Summing(m: Maps, wf: string, todo: set<string>, total: int)
      reads this
    {
      && todo <= m.success.Keys
      && total == Sum(m.success, KeysContaining(m.success, wf) - todo)
      && Now() == Less(m, KeysContaining(m.success, wf) - todo,
                       Only(wf + n.secureBoot in m.success.Keys - todo, wf + n.secureBoot))
    }

    lemma SummingEnds(m: Maps, wf: string, total: int)
      requires Summing(m, wf, {}, total)
      ensures total == Sum(m.success, KeysContaining(m.success, wf)) && Now() == Emptied(n, m, wf)
    {
      assert KeysContaining(m.success, wf) - {} == KeysContaining(m.success, wf);
    }

    lemma SummingStarts(m: Maps, wf: string)
      requires m == Now()
      ensures Summing(m, wf, m.success.Keys, 0)
    {
      assert KeysContaining(m.success, wf) - m.success.Keys == {};
      LessNothing(m);
    }

    method SumUp(wf: string) returns (totalDuration: int)
      modifies this
      ensures var m := old(Now());
        totalDuration == Sum(m.success, KeysContaining(m.success, wf)) && Now() == Emptied(n, m, wf)
    {
      totalDuration := 0;
      ghost var m := Now();
      var todo := actionSuccessDuration.Keys;
      SummingStarts(m, wf);
      while todo != {}
        invariant Summing(m, wf, todo, totalDuration)
        decreases |todo|
      {
        var actionN :| actionN in todo;
        var seconds := VisitNext(actionN, wf, m, todo, totalDuration);
        todo := todo - {actionN};
        totalDuration := totalDuration + seconds;
      }
      SummingEnds(m, wf, totalDuration);
    }

    method VisitNext(actionN: string, wf: string, ghost m: Maps, ghost todo: set<string>, ghost total: int)
      returns (seconds: int)
      requires Summing(m, wf, todo, total) && actionN in todo
      modifies this
      ensures Summing(m, wf, todo - {actionN}, total + seconds)
    {
      ghost var keys, bootKey := KeysContaining(m.success, wf) - todo, wf + n.secureBoot;
      ghost var boot := Only(bootKey in m.success.Keys - todo, bootKey);
      seconds := Visit(actionN, wf, m, keys, boot);
      TakeOne(m.success, wf, todo, actionN);
      assert Only(bootKey in m.success.Keys - (todo - {actionN}), bootKey)
          == if actionN == bootKey then boot + {actionN} else boot;
    }

    /** The body of the summing loop: what actionN adds to the total. */
    method Visit(actionN: string, wf: string, ghost m: Maps, ghost keys: set<string>, ghost boot: set<string>)
      returns (seconds: int)
      requires Now() == Less(m, keys, boot) && actionN in m.success && actionN !in keys
      modifies this
      ensures seconds == if Contains(actionN, wf) then m.success[actionN] else 0
      ensures Now() == Less(m, if Contains(actionN, wf) then keys + {actionN} else keys,
                            if actionN == wf + n.secureBoot then boot + {actionN} else boot)
    {
      seconds := 0;
      var actionSuccessTime := actionSuccessDuration[actionN];
      ghost var boot' := boot;
      if actionN == wf + n.secureBoot {
        LessAnother(m, keys, boot, actionN);
        LessNothing(Now());
        boot' := boot + {actionN};
        actionStartTimes := actionStartTimes - {actionN};
        actionRunning := actionRunning - {actionN};
      }
      if Contains(actionN, wf) {
        LessAnother(m, keys, boot', actionN);
        LessNothing(Now());
        seconds := actionSuccessTime;
        actionSuccessDuration := actionSuccessDuration - {actionN};
        actionStatusMap := actionStatusMap - {actionN};
      }
    }
  }

  lemma TakeOne(m: map<string, int>, wf: string, todo: set<string>, k: string)
    requires k in todo && todo <= m.Keys
    ensures var keys := KeysContaining(m, wf);
      && keys - (todo - {k}) == (if Contains(k, wf) then keys - todo + {k} else keys - todo)
      && Sum(m, keys - (todo - {k})) == Sum(m, keys - todo) + if Contains(k, wf) then m[k] else 0
  {
    var keys := KeysContaining(m, wf);
    if Contains(k, wf) {
      assert keys - (todo - {k}) == keys - todo + {k};
      SumRemove(m, keys - todo + {k}, k);
      assert keys - todo + {k} - {k} == keys - todo;
    } else {
      assert keys - (todo - {k}) == keys - todo;
    }
  }

  // ---------------------------------------------------------------------------------------------
  // Conservation.
  // ---------------------------------------------------------------------------------------------

  lemma {:induction false} SumRemove(m: map<string, int>, keys: set<string>, k: string)
    requires keys <= m.Keys && k in keys
    ensures Sum(m, keys) == m[k] + Sum(m, keys - {k})
    decreases |keys|
  {
    var j :| j in keys && Sum(m, keys) == m[j] + Sum(m, keys - {j});
    if j != k {
      SumRemove(m, keys - {j}, k);
      SumRemove(m, keys - {k}, j);
      assert keys - {j} - {k} == keys - {k} - {j};
    }
  }

  function Seconds(actions: seq<Action>): int {
    if actions == [] then 0 else Seconds(actions[..|actions| - 1]) + actions[|actions| - 1].seconds
  }

  predicate AllSucceeded(actions: seq<Action>) {
    forall k :: 0 <= k < |actions| ==> actions[k].status.Success?
  }

  predicate DistinctNames(actions: seq<Action>) {
    forall j, k :: 0 <= j < k < |actions| ==> actions[j].name != actions[k].name
  }

  function KeysOf(wf: string, actions: seq<Action>): set<string> {
    set k | 0 <= k < |actions| :: wf + actions[k].name
  }

  lemma SameKeySameName(wf: string, a: string, b: string)
    ensures wf + a == wf + b <==> a == b
    ensures Contains(wf + a, wf)
  {
    assert (wf + a)[|wf|..] == a && (wf + b)[|wf|..] == b;
    assert (wf + a)[0..] == wf + a;
  }

  /** Recording succeeded actions sets exactly their entries. */
  lemma {:induction false} RecordSucceeded(n: Names, m: Maps, wf: string, actions: seq<Action>, now: int)
    requires AllSucceeded(actions)
    ensures var r := RecordAll(n, m, wf, actions, now); var keys := KeysOf(wf, actions);
      && r.success.Keys == m.success.Keys + keys
      && r.status.Keys == m.status.Keys + keys
      && (forall k :: k in keys ==> r.status[k].Success?)
      && (forall k :: k in m.success && k !in keys ==> r.success[k] == m.success[k])
      && (forall k :: k in m.status && k !in keys ==> r.status[k] == m.status[k])
    decreases |actions|
  {
    if actions != [] {
      RecordSucceeded(n, m, wf, actions[..|actions| - 1], now);
      KeysOfLast(wf, actions);
    }
  }

  lemma KeysOfLast(wf: string, actions: seq<Action>)
    requires actions != []
    ensures KeysOf(wf, actions) == KeysOf(wf, actions[..|actions| - 1]) + {wf + actions[|actions| - 1].name}
    ensures DistinctNames(actions) ==> wf + actions[|actions| - 1].name !in KeysOf(wf, actions[..|actions| - 1])
  {
    var init, a := actions[..|actions| - 1], actions[|actions| - 1];
    forall k | 0 <= k < |init| ensures wf + init[k].name == wf + a.name ==> init[k].name == a.name {
      SameKeySameName(wf, init[k].name, a.name);
    }
  }

  /** Their durations add up to their seconds. */
  lemma {:induction false} RecordedSum(n: Names, m: Maps, wf: string, actions: seq<Action>, now: int)
    requires AllSucceeded(actions) && DistinctNames(actions)
    ensures var r := RecordAll(n, m, wf, actions, now).success; var keys := KeysOf(wf, actions);
      keys <= r.Keys && Sum(r, keys) == Seconds(actions)
    decreases |actions|
  {
    if actions != [] {
      var init, a := actions[..|actions| - 1], actions[|actions| - 1];
      var key, keys := wf + a.name, KeysOf(wf, init);
      RecordedSum(n, m, wf, init, now);
      KeysOfLast(wf, actions);
      var r0 := RecordAll(n, m, wf, init, now).success;
      var r := r0[key := a.seconds];
      SumRemove(r, keys + {key}, key);
      assert keys + {key} - {key} == keys;
      SumSame(r0, r, keys);
    }
  }

  lemma {:induction false} SumSame(m: map<string, int>, o: map<string, int>, keys: set<string>)
    requires keys <= m.Keys && keys <= o.Keys && forall k :: k in keys ==> m[k] == o[k]
    ensures Sum(m, keys) == Sum(o, keys)
    decreases |keys|
  {
    if keys != {} {
      var k :| k in keys;
      SumRemove(m, keys, k);
      SumRemove(o, keys, k);
      SumSame(m, o, keys - {k});
    }
  }

  /** When a poll shows distinctly named actions, all succeeded and reboot among them, and no timings of
      an earlier run of the workflow are left, the logged total is the sum of their seconds, nothing of
      the workflow's durations stays behind, and timings whose key does not mention the workflow are
      unchanged. */
  lemma TotalsAreConserved(n: Names, m: Maps, wf: string, actions: seq<Action>, now: int)
    requires AllSucceeded(actions) && DistinctNames(actions)
    requires exists k :: 0 <= k < |actions| && actions[k].name == n.reboot
    requires KeysContaining(m.success, wf) == {}
    ensures var r := RecordAll(n, m, wf, actions, now);
      && Finished(n, r, wf)
      && Sum(r.success, KeysContaining(r.success, wf)) == Seconds(actions)
      && Polled(n, m, wf, actions, now).success == m.success
      && (forall k :: !Contains(k, wf) ==> SameAt(Polled(n, m, wf, actions, now).status, m.status, k))
  {
    var r := RecordAll(n, m, wf, actions, now);
    RecordSucceeded(n, m, wf, actions, now);
    RecordedSum(n, m, wf, actions, now);
    OnlyItsKeys(m, r, wf, actions);
    var k :| 0 <= k < |actions| && actions[k].name == n.reboot;
    assert wf + n.reboot in KeysOf(wf, actions);
    assert Emptied(n, r, wf).success == r.success - KeysOf(wf, actions);
    forall k | !Contains(k, wf) ensures SameAt(Emptied(n, r, wf).status, m.status, k) {
      assert k !in KeysOf(wf, actions);
    }
  }

  // ---------------------------------------------------------------------------------------------
  // What one poll records.
  // ---------------------------------------------------------------------------------------------

  /** The action is shown with this status. */
  predicate Shows(actions: seq<Action>, name: string, status: Status) {
    exists i :: 0 <= i < |actions| && actions[i].name == name && actions[i].status == status
  }

  /** Waiting times are only kept for one action: when it is first seen waiting, and how long it had waited when it
      is first seen running; an action that never waited counts from zero. */
  lemma {:induction false} WaitingRecorded(n: Names, m: Maps, wf: string, actions: seq<Action>, now: int)
    requires DistinctNames(actions) && NoneUnexpected(actions)
    ensures var r := RecordAll(n, m, wf, actions, now); var key := wf + n.secureBoot;
      && r.start == (if key !in m.start && Shows(actions, n.secureBoot, Pending) then m.start[key := now] else m.start)
      && r.running ==
           if key in m.running || !Shows(actions, n.secureBoot, Running) then m.running
           else m.running[key := if key in m.start then now - m.start[key] else now]
    decreases |actions|
  {
    if actions != [] {
      var init, a := actions[..|actions| - 1], actions[|actions| - 1];
      WaitingRecorded(n, m, wf, init, now);
      SameKeySameName(wf, a.name, n.secureBoot);
      ShowsNext(actions, n.secureBoot, Pending);
      ShowsNext(actions, n.secureBoot, Running);
      assert a.name == n.secureBoot ==> !Shows(init, n.secureBoot, Pending);
    }
  }

  lemma ShowsNext(actions: seq<Action>, name: string, status: Status)
    requires actions != [] && DistinctNames(actions)
    ensures var init, a := actions[..|actions| - 1], actions[|actions| - 1];
      && (a.name == name ==> !Shows(init, name, status))
      && (Shows(actions, name, status) <==> Shows(init, name, status) || (a.name == name && a.status == status))
  {
    var init, a := actions[..|actions| - 1], actions[|actions| - 1];
    assert forall i :: 0 <= i < |init| ==> actions[i] == init[i];
    if i :| 0 <= i < |init| && init[i].name == name && init[i].status == status {
      assert actions[i].name == name && actions[i].status == status;
    }
  }

  /** Every action shown leaves its status, and its seconds exactly if it has succeeded. */
  lemma {:induction false} StatusRecorded(n: Names, m: Maps, wf: string, actions: seq<Action>, now: int, i: nat)
    requires DistinctNames(actions) && NoneUnexpected(actions) && i < |actions|
    ensures var r := RecordAll(n, m, wf, actions, now); var key := wf + actions[i].name;
      && key in r.status && r.status[key] == actions[i].status
      && if actions[i].status.Success? then key in r.success && r.success[key] == actions[i].seconds
         else SameAt(r.success, m.success, key)
    decreases |actions|
  {
    var init, a := actions[..|actions| - 1], actions[|actions| - 1];
    if i < |init| {
      StatusRecorded(n, m, wf, init, now, i);
      OtherKeyKept(n, RecordAll(n, m, wf, init, now), wf, a, now, wf + actions[i].name);
    } else {
      LastIsNew(wf, actions);
      NotRecorded(n, m, wf, init, now, wf + a.name);
    }
  }

  lemma OtherKeyKept(n: Names, m: Maps, wf: string, a: Action, now: int, key: string)
    requires !a.status.OtherStatus? && (wf + a.name != key || exists b :: key == wf + b && b != a.name)
    ensures var r := Record(n, m, wf, a, now); SameAt(r.status, m.status, key) && SameAt(r.success, m.success, key)
  {
    if b :| key == wf + b && b != a.name {
      SameKeySameName(wf, a.name, b);
    }
  }

  lemma LastIsNew(wf: string, actions: seq<Action>)
    requires actions != [] && DistinctNames(actions)
    ensures var init, a := actions[..|actions| - 1], actions[|actions| - 1];
      forall k :: 0 <= k < |init| ==> wf + init[k].name != wf + a.name
  {
    var init, a := actions[..|actions| - 1], actions[|actions| - 1];
    forall k | 0 <= k < |init| ensures wf + init[k].name != wf + a.name {
      assert init[k] == actions[k];
      SameKeySameName(wf, init[k].name, a.name);
    }
  }

  /** No other entry changes. */
  lemma {:induction false} NotRecorded(n: Names, m: Maps, wf: string, actions: seq<Action>, now: int, key: string)
    requires NoneUnexpected(actions) && forall k :: 0 <= k < |actions| ==> wf + actions[k].name != key
    ensures var r := RecordAll(n, m, wf, actions, now);
      SameAt(r.status, m.status, key) && SameAt(r.success, m.success, key)
    decreases |actions|
  {
    if actions != [] {
      NotRecorded(n, m, wf, actions[..|actions| - 1], now, key);
    }
  }

  /** A poll ends a workflow exactly if it shows its reboot as succeeded, or shows no reboot and an earlier one did. */
  lemma FinishedIff(n: Names, m: Maps, wf: string, actions: seq<Action>, now: int)
    requires DistinctNames(actions) && NoneUnexpected(actions)
    ensures var key := wf + n.reboot;
      Finished(n, RecordAll(n, m, wf, actions, now), wf) <==>
        || Shows(actions, n.reboot, Success)
        || (&& (forall k :: 0 <= k < |actions| ==> actions[k].name != n.reboot)
            && key in m.status && m.status[key] == Success)
  {
    if k :| 0 <= k < |actions| && actions[k].name == n.reboot {
      StatusRecorded(n, m, wf, actions, now, k);
    } else {
      forall k | 0 <= k < |actions| ensures wf + actions[k].name != wf + n.reboot {
        SameKeySameName(wf, actions[k].name, n.reboot);
      }
      NotRecorded(n, m, wf, actions, now, wf + n.reboot);
    }
  }

  /** Summing up takes out the durations, and the statuses that belong to them, of every key that mentions the
      workflow, and the waiting times of this one if it had a duration. */
  lemma EmptiedExactly(n: Names, m: Maps, wf: string, k: string)
    ensures var r := Emptied(n, m, wf);
      && (if Contains(k, wf) then k !in r.success else SameAt(r.success, m.success, k))
      && (if Contains(k, wf) && k in m.success then k !in r.status else SameAt(r.status, m.status, k))
      && (if k == wf + n.secureBoot && k in m.success then k !in r.start && k !in r.running
          else SameAt(r.start, m.start, k) && SameAt(r.running, m.running, k))
  {
  }

  /** The polls of a workflow, each with the actions it shows and when it is made. */
  function PollAll(n: Names, m: Maps, wf: string, polls: seq<(seq<Action>, int)>): Maps {
    if polls == [] then m
    else
      var (actions, now) := polls[|polls| - 1];
      Polled(n, PollAll(n, m, wf, polls[..|polls| - 1]), wf, actions, now)
  }

  /** Polls that show every action once, each with an expected status, and not the reboot as succeeded. */
  predicate Ongoing(n: Names, polls: seq<(seq<Action>, int)>) {
    forall j :: 0 <= j < |polls| ==>
      DistinctNames(polls[j].0) && NoneUnexpected(polls[j].0) && !Shows(polls[j].0, n.reboot, Success)
  }

  /** Poll j is the first that shows the action with this status. */
  predicate FirstShown(polls: seq<(seq<Action>, int)>, name: string, status: Status, j: nat) {
    && j < |polls| && Shows(polls[j].0, name, status)
    && forall i :: 0 <= i < j ==> !Shows(polls[i].0, name, status)
  }

  /** The maps know nothing of the workflow. */
  predicate Fresh(n: Names, m: Maps, wf: string) {
    var boot := wf + n.secureBoot;
    boot !in m.start && boot !in m.running && (wf + n.reboot in m.status ==> !m.status[wf + n.reboot].Success?)
  }

  /** The waiting time starts at the first poll that shows the action waiting. */
  ghost predicate StartMeasured(n: Names, r: Maps, wf: string, polls: seq<(seq<Action>, int)>) {
    && (wf + n.secureBoot in r.start <==> exists p: nat :: FirstShown(polls, n.secureBoot, Pending, p))
    && (forall p: nat :: FirstShown(polls, n.secureBoot, Pending, p) ==> r.start[wf + n.secureBoot] == polls[p].1)
  }

  /** It is the time from there to the first poll that shows it running. */
  ghost predicate WaitMeasured(n: Names, r: Maps, wf: string, polls: seq<(seq<Action>, int)>) {
    && (wf + n.secureBoot in r.running <==> exists q: nat :: FirstShown(polls, n.secureBoot, Running, q))
    && (forall p: nat, q: nat ::
          p < q && FirstShown(polls, n.secureBoot, Pending, p) && FirstShown(polls, n.secureBoot, Running, q) ==>
            r.running[wf + n.secureBoot] == polls[q].1 - polls[p].1)
  }

  /** Over all polls of a workflow that has not ended, whatever else they show, its waiting time is measured. */
  lemma {:induction false} WaitingIsMeasured(n: Names, m: Maps, wf: string, polls: seq<(seq<Action>, int)>)
    requires Ongoing(n, polls) && Fresh(n, m, wf)
    ensures var r := PollAll(n, m, wf, polls);
      !Finished(n, r, wf) && StartMeasured(n, r, wf, polls) && WaitMeasured(n, r, wf, polls)
    decreases |polls|
  {
    if polls != [] {
      var init := polls[..|polls| - 1];
      var (actions, now) := polls[|polls| - 1];
      WaitingIsMeasured(n, m, wf, init);
      assert actions == polls[|polls| - 1].0;
      WaitingRecorded(n, PollAll(n, m, wf, init), wf, actions, now);
      FinishedIff(n, PollAll(n, m, wf, init), wf, actions, now);
      PollMeasures(n, PollAll(n, m, wf, init), PollAll(n, m, wf, polls), wf, polls);
    }
  }

  lemma PollMeasures(n: Names, m: Maps, r: Maps, wf: string, polls: seq<(seq<Action>, int)>)
    requires polls != []
    requires var init := polls[..|polls| - 1]; StartMeasured(n, m, wf, init) && WaitMeasured(n, m, wf, init)
    requires var (actions, now) := polls[|polls| - 1]; var key := wf + n.secureBoot;
      && r.start == (if key !in m.start && Shows(actions, n.secureBoot, Pending) then m.start[key := now] else m.start)
      && r.running ==
           if key in m.running || !Shows(actions, n.secureBoot, Running) then m.running
           else m.running[key := if key in m.start then now - m.start[key] else now]
    ensures StartMeasured(n, r, wf, polls) && WaitMeasured(n, r, wf, polls)
  {
    FirstShownNext(polls, n.secureBoot, Pending);
    FirstShownNext(polls, n.secureBoot, Running);
  }

  lemma FirstShownNext(polls: seq<(seq<Action>, int)>, name: string, status: Status)
    requires polls != []
    ensures var init, last := polls[..|polls| - 1], |polls| - 1;
      && (forall j: nat :: j != last ==> (FirstShown(polls, name, status, j) <==> FirstShown(init, name, status, j)))
      && (FirstShown(polls, name, status, last) <==>
            Shows(polls[last].0, name, status) && forall j: nat :: !FirstShown(init, name, status, j))
  {
    var init := polls[..|polls| - 1];
    assert forall i :: 0 <= i < |init| ==> polls[i] == init[i];
    if i :| 0 <= i < |init| && Shows(init[i].0, name, status) {
      var j := FirstOf(init, name, status, i);
    }
  }

  lemma {:induction false} FirstOf(polls: seq<(seq<Action>, int)>, name: string, status: Status, i: nat)
    returns (j: nat)
    requires i < |polls| && Shows(polls[i].0, name, status)
    ensures FirstShown(polls, name, status, j)
    decreases i
  {
    if k :| 0 <= k < i && Shows(polls[k].0, name, status) {
      j := FirstOf(polls, name, status, k);
    } else {
      j := i;
    }
  }

  predicate SameAt<V(==)>(m: map<string, V>, o: map<string, V>, k: string) {
    (k in m <==> k in o) && (k in m ==> m[k] == o[k])
  }

  lemma OnlyItsKeys(m: Maps, r: Maps, wf: string, actions: seq<Action>)
    requires KeysContaining(m.success, wf) == {} && r.success.Keys == m.success.Keys + KeysOf(wf, actions)
    ensures KeysContaining(r.success, wf) == KeysOf(wf, actions)
    ensures forall k :: k in KeysOf(wf, actions) ==> Contains(k, wf)
    ensures m.success.Keys !! KeysOf(wf, actions)
  {
    forall k | k in KeysOf(wf, actions) ensures Contains(k, wf) {
      var i :| 0 <= i < |actions| && k == wf + actions[i].name;
      SameKeySameName(wf, actions[i].name, "");
    }
    forall k | k in m.success ensures !Contains(k, wf) {
      assert k !in KeysContaining(m.success, wf);
    }
  }

  lemma RecordAt(n: Names, m: Maps, wf: string, a: Action, now: int, k: string)
    requires !Contains(k, wf)
    ensures var r := Record(n, m, wf, a, now);
      if a.status.OtherStatus?
      then k !in r.status && if k in m.status then k !in r.success else SameAt(r.success, m.success, k)
      else SameAt(r.success, m.success, k) && SameAt(r.status, m.status, k)
  {
    SameKeySameName(wf, a.name, "");
    assert wf + a.name != k;
  }

  predicate NoneUnexpected(actions: seq<Action>) {
    forall i :: 0 <= i < |actions| ==> !actions[i].status.OtherStatus?
  }

  lemma {:induction false} OtherDurationsRecorded(
    n: Names, m: Maps, wf: string, actions: seq<Action>, now: int, k: string)
    requires k in m.success && k in m.status && !Contains(k, wf)
    ensures var r := RecordAll(n, m, wf, actions, now);
      && (NoneUnexpected(actions) ==> SameAt(r.success, m.success, k) && SameAt(r.status, m.status, k))
      && (!NoneUnexpected(actions) ==> k !in r.success && k !in r.status)
    decreases |actions|
  {
    if actions != [] {
      var init, a := actions[..|actions| - 1], actions[|actions| - 1];
      OtherDurationsRecorded(n, m, wf, init, now, k);
      RecordAt(n, RecordAll(n, m, wf, init, now), wf, a, now, k);
      assert actions == init + [a];
    }
  }

  /** Summing up keeps what does not mention the workflow. */
  lemma EmptiedAt(n: Names, m: Maps, wf: string, k: string)
    requires !Contains(k, wf)
    ensures SameAt(Emptied(n, m, wf).success, m.success, k) && SameAt(Emptied(n, m, wf).status, m.status, k)
  {
  }

  /** A duration of another workflow survives a whole poll, whether or not it ends with a total, exactly when
      no polled action has an unexpected status: such an action forgets what every workflow has recorded. */
  lemma OtherDurationsKeptIff(n: Names, m: Maps, wf: string, actions: seq<Action>, now: int, k: string)
    requires k in m.success && k in m.status && !Contains(k, wf)
    ensures var r := Polled(n, m, wf, actions, now);
      && (NoneUnexpected(actions) ==> SameAt(r.success, m.success, k) && SameAt(r.status, m.status, k))
      && (!NoneUnexpected(actions) ==> k !in r.success && k !in r.status)
  {
    OtherDurationsRecorded(n, m, wf, actions, now, k);
    EmptiedAt(n, RecordAll(n, m, wf, actions, now), wf, k);
  }
}
