/** Which collection owns each plugin: the running map or the stopped list (K2hFtPluginMan). */
module Plugins {
  import opened Bytes
  import opened Wire

  const INVALID_PID: Pid := -1

  /** A plugin's address. */
  type Id = nat

  /** K2HFT_PLUGIN, state only. `badParam` says that BaseParam is empty or has no program in it. */
  datatype Plugin = Plugin(badParam: bool, notExecute: bool, autoRestart: bool, pid: Pid, exitCount: nat,
      lastStatus: int)

  datatype Man = Man(plugins: map<Id, Plugin>, run: map<Pid, Id>, stop: seq<Id>)

  /** What the system does when a plugin is to be started. */
  datatype Outcome = NoOutputFile | ForkFailed | Forked(pid: Pid)

  // ---- The operations, on values ----

  predicate Runnable(p: Plugin) {
    !p.badParam && !p.notExecute
  }

  /** RunPlugin: the plugin afterwards. */
  function Started(p: Plugin, o: Outcome): Plugin {
    if !Runnable(p) then p
    else
      var q := p.(pid := INVALID_PID, lastStatus := 0, autoRestart := true);
      match o
      case NoOutputFile => q
      case ForkFailed => q.(exitCount := q.exitCount + 1)
      case Forked(pid) => if pid == INVALID_PID then q.(exitCount := q.exitCount + 1) else q.(pid := pid)
  }

  predicate Starts(p: Plugin, o: Outcome) {
    Runnable(p) && o.Forked? && o.pid != INVALID_PID
  }

  predicate Tried(p: Plugin) {
    !p.notExecute && p.autoRestart
  }

  /** One stopped plugin's turn in RunPlugins: it moves to the map or is kept. */
  function RunOne(s: Man, id: Id, o: Outcome): Man
    requires id in s.plugins
  {
    var p := s.plugins[id];
    if !Tried(p) then s.(stop := s.stop + [id])
    else
      var q := Started(p, o);
      if Starts(p, o) then Man(s.plugins[id := q], s.run[o.pid := id], s.stop)
      else Man(s.plugins[id := q.(exitCount := q.exitCount + 1)], s.run, s.stop + [id])
  }

  function RunEach(s: Man, todo: seq<Id>, outcomes: seq<Outcome>): Man
    requires |todo| <= |outcomes| && forall id :: id in todo ==> id in s.plugins
    decreases |todo|
  {
    if todo == [] then s else RunEach(RunOne(s, todo[0], outcomes[0]), todo[1..], outcomes[1..])
  }

  /** Whether every plugin that was tried has started. */
  predicate EachStarts(s: Man, todo: seq<Id>, outcomes: seq<Outcome>)
    requires |todo| <= |outcomes| && forall id :: id in todo ==> id in s.plugins
    decreases |todo|
  {
    todo == [] ||
    ((Tried(s.plugins[todo[0]]) ==> Starts(s.plugins[todo[0]], outcomes[0])) &&
     EachStarts(RunOne(s, todo[0], outcomes[0]), todo[1..], outcomes[1..]))
  }

  function RunAll(s: Man, outcomes: seq<Outcome>): Man
    requires |s.stop| <= |outcomes| && forall id :: id in s.stop ==> id in s.plugins
  {
    RunEach(s.(stop := []), s.stop, outcomes)
  }

  function Add(s: Man, id: Id, p: Plugin): Man {
    if p.badParam then s
    else s.(plugins := s.plugins[id := p.(pid := INVALID_PID, lastStatus := 0, exitCount := 0)], stop := s.stop + [id])
  }

  /** RunAddPlugin: a new plugin goes straight into the running map; one that does not start is thrown away. */
  function RunAdded(s: Man, id: Id, p: Plugin, o: Outcome): Man {
    if Starts(p, o) then s.(plugins := s.plugins[id := Started(p, o)], run := s.run[o.pid := id]) else s
  }

  /** Write's restart, after its try to stop the old process: the plugin is run and put into the map.
      The stopped list, where a plugin is put when its process exits, is not looked at. */
  function Restarted(s: Man, id: Id, o: Outcome): Man
    requires id in s.plugins
  {
    var p := s.plugins[id];
    var s' := s.(plugins := s.plugins[id := Started(p, o)]);
    if Starts(p, o) then s'.(run := s.run[o.pid := id]) else s'
  }

  function Exit(s: Man, pid: Pid, status: int): Man
    requires pid in s.run ==> s.run[pid] in s.plugins
  {
    if pid !in s.run then s
    else
      var id := s.run[pid];
      var p := s.plugins[id];
      Man(s.plugins[id := p.(pid := INVALID_PID, lastStatus := status, exitCount := p.exitCount + 1)],
          s.run - {pid}, s.stop + [id])
  }

  // ---- Ownership ----

  /** Each plugin is in exactly one collection: with no pid on the stopped list, once; with a pid in the
      running map, under that pid; and a plugin marked not to be executed never runs. */
  ghost predicate Owned(s: Man) {
    && Distinct(s.stop)
    && (forall id :: id in s.stop ==> id in s.plugins && s.plugins[id].pid == INVALID_PID)
    && (forall pid :: pid in s.run ==>
          pid != INVALID_PID && s.run[pid] in s.plugins && s.plugins[s.run[pid]].pid == pid)
    && (forall id :: id in s.plugins ==>
          if s.plugins[id].pid == INVALID_PID then id in s.stop
          else s.plugins[id].pid in s.run && s.run[s.plugins[id].pid] == id && !s.plugins[id].notExecute)
  }

  /** `fork` gives pids that are neither in the map nor given twice. */
  predicate FreshForks(run: map<Pid, Id>, outcomes: seq<Outcome>) {
    && (forall i :: 0 <= i < |outcomes| && outcomes[i].Forked? ==> outcomes[i].pid !in run)
    && (forall i, j :: 0 <= i < j < |outcomes| && outcomes[i].Forked? && outcomes[j].Forked? ==>
        outcomes[i].pid != outcomes[j].pid)
  }

  /** Not yet visited plugins still count as stopped. */
  ghost predicate OwnedWith(s: Man, todo: seq<Id>) {
    Owned(s.(stop := s.stop + todo))
  }

  lemma RunOneOwned(s: Man, todo: seq<Id>, o: Outcome)
    requires todo != [] && OwnedWith(s, todo) && (o.Forked? ==> o.pid !in s.run)
    ensures todo[0] in s.plugins && OwnedWith(RunOne(s, todo[0], o), todo[1..])
  {
    var id := todo[0];
    assert (s.stop + todo)[|s.stop|] == id;
    var p, s' := s.plugins[id], RunOne(s, id, o);
    assert s.stop + todo == s.stop + [id] + todo[1..];
    if Tried(p) && Starts(p, o) {
      MovedToRun(s, todo, o.pid);
    } else {
      assert s'.stop + todo[1..] == s.stop + todo;
    }
  }

  lemma MovedToRun(s: Man, todo: seq<Id>, pid: Pid)
    requires todo != [] && OwnedWith(s, todo) && pid !in s.run && pid != INVALID_PID
    ensures Distinct(s.stop + todo[1..]) && todo[0] !in s.stop + todo[1..]
    ensures forall id :: id in s.stop + todo <==> id == todo[0] || id in s.stop + todo[1..]
  {
    var all, rest := s.stop + todo, s.stop + todo[1..];
    assert all[|s.stop|] == todo[0];
    forall i | 0 <= i < |rest|
      ensures rest[i] == all[if i < |s.stop| then i else i + 1]
    {
    }
    forall j | 0 <= j < |all| && j != |s.stop|
      ensures all[j] == rest[if j < |s.stop| then j else j - 1]
    {
    }
  }

  lemma {:induction false} RunEachOwned(s: Man, todo: seq<Id>, outcomes: seq<Outcome>)
    requires |todo| <= |outcomes| && OwnedWith(s, todo) && FreshForks(s.run, outcomes)
    ensures forall id :: id in todo ==> id in s.plugins
    ensures Owned(RunEach(s, todo, outcomes))
    decreases |todo|
  {
    forall id | id in todo
      ensures id in s.plugins
    {
      assert id in s.stop + todo;
    }
    if todo == [] {
      assert s.stop + todo == s.stop;
    } else {
      RunOneOwned(s, todo, outcomes[0]);
      var s' := RunOne(s, todo[0], outcomes[0]);
      assert FreshForks(s'.run, outcomes[1..]);
      RunEachOwned(s', todo[1..], outcomes[1..]);
    }
  }

  /** Restarting keeps ownership. */
  lemma RunAllOwned(s: Man)
    requires Owned(s)
    ensures forall outcomes :: |s.stop| <= |outcomes| && FreshForks(s.run, outcomes) ==> Owned(RunAll(s, outcomes))
  {
    forall outcomes | |s.stop| <= |outcomes| && FreshForks(s.run, outcomes)
      ensures Owned(RunAll(s, outcomes))
    {
      assert [] + s.stop == s.stop;
      RunEachOwned(s.(stop := []), s.stop, outcomes);
    }
  }

  /** What is left on the list: the plugins that were not started, in their order. */
  function Kept(plugins: map<Id, Plugin>, todo: seq<Id>, outcomes: seq<Outcome>): seq<Id>
    requires |todo| <= |outcomes| && forall id :: id in todo ==> id in plugins
  {
    if todo == [] then []
    else
      var p := plugins[todo[0]];
      (if Tried(p) && Starts(p, outcomes[0]) then [] else [todo[0]]) + Kept(plugins, todo[1..], outcomes[1..])
  }

  lemma {:induction false} KeptSame(a: map<Id, Plugin>, b: map<Id, Plugin>, todo: seq<Id>, outcomes: seq<Outcome>)
    requires |todo| <= |outcomes| && forall id :: id in todo ==> id in a && id in b && a[id] == b[id]
    ensures Kept(a, todo, outcomes) == Kept(b, todo, outcomes)
    decreases |todo|
  {
    if todo != [] {
      assert todo[0] in todo;
      KeptSame(a, b, todo[1..], outcomes[1..]);
    }
  }

  lemma TailIds(todo: seq<Id>)
    requires todo != [] && Distinct(todo)
    ensures Distinct(todo[1..]) && todo[0] !in todo[1..]
    ensures forall id :: id in todo <==> id == todo[0] || id in todo[1..]
  {
    assert todo == [todo[0]] + todo[1..];
  }

  /** What is kept is the filter of the list: each stopped plugin gets exactly one turn. */
  lemma {:induction false} KeptInOrder(s: Man, todo: seq<Id>, outcomes: seq<Outcome>)
    requires |todo| <= |outcomes| && Distinct(todo) && forall id :: id in todo ==> id in s.plugins
    ensures RunEach(s, todo, outcomes).stop == s.stop + Kept(s.plugins, todo, outcomes)
    decreases |todo|
  {
    if todo == [] {
      assert s.stop + [] == s.stop;
    } else {
      TailIds(todo);
      var s' := RunOne(s, todo[0], outcomes[0]);
      KeptInOrder(s', todo[1..], outcomes[1..]);
      KeptSame(s.plugins, s'.plugins, todo[1..], outcomes[1..]);
    }
  }

  /** A plugin's record after the loop depends on its own turn only. */
  lemma {:induction false} OwnTurnOnly(s: Man, todo: seq<Id>, outcomes: seq<Outcome>, id: Id)
    requires |todo| <= |outcomes| && Distinct(todo) && forall k :: k in todo ==> k in s.plugins
    requires id in s.plugins
    ensures id in RunEach(s, todo, outcomes).plugins
    ensures id !in todo ==> RunEach(s, todo, outcomes).plugins[id] == s.plugins[id]
    ensures forall i :: 0 <= i < |todo| && todo[i] == id ==>
                          RunEach(s, todo, outcomes).plugins[id] == RunOne(s, id, outcomes[i]).plugins[id]
    decreases |todo|
  {
    if todo != [] {
      TailIds(todo);
      var s' := RunOne(s, todo[0], outcomes[0]);
      OwnTurnOnly(s', todo[1..], outcomes[1..], id);
      forall i | 0 <= i < |todo| && todo[i] == id
        ensures RunEach(s, todo, outcomes).plugins[id] == RunOne(s, id, outcomes[i]).plugins[id]
      {
        if i > 0 {
          assert todo[1..][i - 1] == id && outcomes[1..][i - 1] == outcomes[i];
          assert s'.plugins[id] == s.plugins[id];
        }
      }
    }
  }

  lemma {:induction false} KeptHas(plugins: map<Id, Plugin>, todo: seq<Id>, outcomes: seq<Outcome>, i: nat)
    requires |todo| <= |outcomes| && Distinct(todo) && (forall id :: id in todo ==> id in plugins) && i < |todo|
    ensures todo[i] in Kept(plugins, todo, outcomes) <==>
              !(Tried(plugins[todo[i]]) && Starts(plugins[todo[i]], outcomes[i]))
    decreases |todo|
  {
    TailIds(todo);
    KeptInside(plugins, todo[1..], outcomes[1..]);
    if i > 0 {
      assert todo[1..][i - 1] == todo[i] && outcomes[1..][i - 1] == outcomes[i];
      KeptHas(plugins, todo[1..], outcomes[1..], i - 1);
    }
  }

  lemma {:induction false} KeptInside(plugins: map<Id, Plugin>, todo: seq<Id>, outcomes: seq<Outcome>)
    requires |todo| <= |outcomes| && forall id :: id in todo ==> id in plugins
    ensures forall id :: id in Kept(plugins, todo, outcomes) ==> id in todo
    decreases |todo|
  {
    if todo != [] {
      assert forall id :: id in todo <==> id == todo[0] || id in todo[1..];
      KeptInside(plugins, todo[1..], outcomes[1..]);
    }
  }

  /** Over one loop: every plugin that was tried and did not start is still on the list, and its exit count has
      risen, by two when fork has failed and by one else; all other exit counts stay. */
  lemma FailedStartCounts(s: Man, todo: seq<Id>, outcomes: seq<Outcome>, i: nat)
    requires |todo| <= |outcomes| && Distinct(todo) && (forall id :: id in todo ==> id in s.plugins) && i < |todo|
    ensures todo[i] in RunEach(s, todo, outcomes).plugins
    ensures var p, after := s.plugins[todo[i]], RunEach(s, todo, outcomes);
            var failed := Tried(p) && !Starts(p, outcomes[i]);
            && (failed ==> todo[i] in after.stop)
            && after.plugins[todo[i]].exitCount - p.exitCount ==
                 if !failed then 0 else if Runnable(p) && !outcomes[i].NoOutputFile? then 2 else 1
  {
    OwnTurnOnly(s, todo, outcomes, todo[i]);
    KeptInOrder(s, todo, outcomes);
    KeptHas(s.plugins, todo, outcomes, i);
  }

  /** A plugin that is not to be executed, or was stopped on purpose, keeps its record and its place. */
  lemma LeftAlone(s: Man, todo: seq<Id>, outcomes: seq<Outcome>, i: nat)
    requires |todo| <= |outcomes| && Distinct(todo) && (forall id :: id in todo ==> id in s.plugins) && i < |todo|
    requires s.plugins[todo[i]].notExecute || !s.plugins[todo[i]].autoRestart
    ensures var after := RunEach(s, todo, outcomes);
            todo[i] in after.stop && todo[i] in after.plugins && after.plugins[todo[i]] == s.plugins[todo[i]]
  {
    OwnTurnOnly(s, todo, outcomes, todo[i]);
    KeptInOrder(s, todo, outcomes);
    KeptHas(s.plugins, todo, outcomes, i);
  }

  /** Any other well-formed plugin whose fork succeeds leaves the list, with its pid, a clean status and the
      restart flag set; its exit count stays. */
  lemma StartedFields(s: Man, todo: seq<Id>, outcomes: seq<Outcome>, i: nat)
    requires |todo| <= |outcomes| && Distinct(todo) && (forall id :: id in todo ==> id in s.plugins) && i < |todo|
    requires var p := s.plugins[todo[i]]; !p.notExecute && p.autoRestart && !p.badParam
    requires outcomes[i].Forked? && outcomes[i].pid != -1 && todo[i] !in s.stop
    ensures var p, after := s.plugins[todo[i]], RunEach(s, todo, outcomes);
            && todo[i] !in after.stop && todo[i] in after.plugins
            && after.plugins[todo[i]] == Plugin(false, false, true, outcomes[i].pid, p.exitCount, 0)
  {
    OwnTurnOnly(s, todo, outcomes, todo[i]);
    KeptInOrder(s, todo, outcomes);
    KeptHas(s.plugins, todo, outcomes, i);
  }

  /** An exited plugin has lost its pid, has the child's status and one exit more, and is last on the list; no
      other record changes. */
  lemma ExitFields(s: Man, pid: Pid, status: int)
    requires Owned(s) && pid in s.run
    ensures s.run[pid] in s.plugins
    ensures var id, after := s.run[pid], Exit(s, pid, status);
            && after.stop == s.stop + [id] && pid !in after.run && after.plugins.Keys == s.plugins.Keys
            && after.plugins[id].pid == -1 && after.plugins[id].lastStatus == status
            && after.plugins[id].exitCount == s.plugins[id].exitCount + 1
            && (forall k :: k in s.plugins && k != id ==> after.plugins[k] == s.plugins[k])
            && (forall q :: q in s.run && q != pid ==> q in after.run && after.run[q] == s.run[q])
  {
  }

  /** An added plugin starts without a pid, a status or exits, last on the stopped list. */
  lemma AddFields(s: Man, id: Id, p: Plugin)
    requires !p.badParam
    ensures var after := Add(s, id, p);
            && after.stop == s.stop + [id] && after.run == s.run && id in after.plugins
            && after.plugins[id].pid == -1 && after.plugins[id].lastStatus == 0 && after.plugins[id].exitCount == 0
            && after.plugins[id].notExecute == p.notExecute && after.plugins[id].autoRestart == p.autoRestart
            && forall k :: k in s.plugins && k != id ==> k in after.plugins && after.plugins[k] == s.plugins[k]
  {
  }

  /** A plugin that is started outside the loop, as a new one or again by Write, is in the map under its new pid,
      with a clean status, the restart flag set whatever it was, and its exit count; the list stays. */
  lemma StartFields(s: Man, id: Id, p: Plugin, pid: Pid)
    requires !p.badParam && !p.notExecute && pid != -1
    ensures var q := Plugin(false, false, true, pid, p.exitCount, 0);
            && RunAdded(s, id, p, Forked(pid)) == Man(s.plugins[id := q], s.run[pid := id], s.stop)
            && (id in s.plugins && s.plugins[id] == p ==>
                  Restarted(s, id, Forked(pid)) == Man(s.plugins[id := q], s.run[pid := id], s.stop))
  {
  }

  /** A new plugin that cannot be started leaves nothing behind; one that Write cannot start again has lost its
      pid unless it was not even tried, and has one exit more when its fork has failed. */
  lemma NoStartFields(s: Man, id: Id, p: Plugin, o: Outcome)
    requires p.badParam || p.notExecute || !o.Forked? || o.pid == -1
    ensures RunAdded(s, id, p, o) == s
    ensures id in s.plugins && s.plugins[id] == p ==>
              var after := Restarted(s, id, o);
              && after.run == s.run && after.stop == s.stop && after.plugins.Keys == s.plugins.Keys
              && (forall k :: k in s.plugins && k != id ==> after.plugins[k] == s.plugins[k])
              && if p.badParam || p.notExecute then after.plugins[id] == p
                 else after.plugins[id] == Plugin(false, false, true, -1,
                                                  p.exitCount + if o.NoOutputFile? then 0 else 1, 0)
  {
  }

  lemma AddOwned(s: Man, id: Id, p: Plugin)
    requires Owned(s) && id !in s.plugins
    ensures Owned(Add(s, id, p))
  {
    var s' := Add(s, id, p);
    if !p.badParam {
      assert s'.stop[|s.stop|] == id;
    }
  }

  lemma ExitOwned(s: Man, pid: Pid, status: int)
    requires Owned(s)
    ensures Owned(Exit(s, pid, status))
  {
    var s' := Exit(s, pid, status);
    if pid in s.run {
      assert s'.stop[|s.stop|] == s.run[pid];
    }
  }

  lemma RunAddOwned(s: Man, id: Id, p: Plugin, o: Outcome)
    requires Owned(s) && id !in s.plugins && (o.Forked? ==> o.pid !in s.run)
    ensures Owned(RunAdded(s, id, p, o))
  {
  }

  // ---- Where ownership breaks ----

  /** Write's restart keeps ownership iff nothing is started and no running plugin's pid is wiped: every
      restart that succeeds leaves the plugin in two places. */
  lemma RestartOwnedIff(s: Man, id: Id, o: Outcome)
    requires Owned(s) && id in s.plugins && (o.Forked? ==> o.pid !in s.run)
    ensures Owned(Restarted(s, id, o)) <==>
              !Starts(s.plugins[id], o) && (s.plugins[id].pid == INVALID_PID || !Runnable(s.plugins[id]))
  {
    var p, s' := s.plugins[id], Restarted(s, id, o);
    if p.pid == INVALID_PID {
      assert id in s'.stop;
    } else if Runnable(p) {
      assert s'.run[p.pid] == id && s'.plugins[id].pid != p.pid;
    }
  }

  /** The loop takes nothing out of the running map, and puts each plugin that starts under its new pid. */
  lemma {:induction false} RunEachAdds(s: Man, todo: seq<Id>, outcomes: seq<Outcome>, pid: Pid)
    requires |todo| <= |outcomes| && Distinct(todo) && (forall id :: id in todo ==> id in s.plugins)
    requires FreshForks(s.run, outcomes)
    ensures pid in s.run ==> pid in RunEach(s, todo, outcomes).run && RunEach(s, todo, outcomes).run[pid] == s.run[pid]
    ensures forall i :: 0 <= i < |todo| && Tried(s.plugins[todo[i]]) && Starts(s.plugins[todo[i]], outcomes[i])
                        && outcomes[i].pid == pid ==>
                          pid in RunEach(s, todo, outcomes).run && RunEach(s, todo, outcomes).run[pid] == todo[i]
    decreases |todo|
  {
    if todo != [] {
      TailIds(todo);
      var s' := RunOne(s, todo[0], outcomes[0]);
      assert FreshForks(s'.run, outcomes[1..]);
      RunEachAdds(s', todo[1..], outcomes[1..], pid);
      forall i | 0 < i < |todo|
        ensures todo[i] == todo[1..][i - 1] && outcomes[i] == outcomes[1..][i - 1]
                  && s'.plugins[todo[i]] == s.plugins[todo[i]]
      {
        assert todo[1..][i - 1] in todo[1..];
      }
    }
  }

  /** After such a restart of a stopped plugin the next run of the whole stopped list starts a second process
      for it, when its fork succeeds: two pids of the running map then belong to one plugin. */
  lemma RestartRunsTwice(s: Man, id: Id, o: Outcome, outcomes: seq<Outcome>, i: nat)
    requires Owned(s) && i < |s.stop| && s.stop[i] == id && Starts(s.plugins[id], o) && o.pid !in s.run
    requires |s.stop| <= |outcomes| && FreshForks(Restarted(s, id, o).run, outcomes)
    requires outcomes[i].Forked? && outcomes[i].pid != INVALID_PID
    ensures forall k :: k in Restarted(s, id, o).stop ==> k in Restarted(s, id, o).plugins
    ensures var run := RunAll(Restarted(s, id, o), outcomes).run;
            && o.pid != outcomes[i].pid && o.pid in run && outcomes[i].pid in run
            && run[o.pid] == id == run[outcomes[i].pid]
  {
    var s' := Restarted(s, id, o);
    RunEachAdds(s'.(stop := []), s'.stop, outcomes, o.pid);
    RunEachAdds(s'.(stop := []), s'.stop, outcomes, outcomes[i].pid);
  }

  // ---- Runs ----

  datatype Step =
    | AddInfo(id: Id, plugin: Plugin)
    | RunNew(id: Id, plugin: Plugin, outcome: Outcome)
    | RunStopped(outcomes: seq<Outcome>)
    | ChildExit(pid: Pid, status: int)

  ghost predicate Allowed(s: Man, step: Step) {
    match step
    case AddInfo(id, plugin) => id !in s.plugins
    case RunNew(id, plugin, outcome) => id !in s.plugins && (outcome.Forked? ==> outcome.pid !in s.run)
    case RunStopped(outcomes) => |s.stop| <= |outcomes| && FreshForks(s.run, outcomes)
    case ChildExit(pid, status) => true
  }

  ghost function Next(s: Man, step: Step): Man
    requires Owned(s) && Allowed(s, step)
  {
    match step
    case AddInfo(id, plugin) => Add(s, id, plugin)
    case RunNew(id, plugin, outcome) => RunAdded(s, id, plugin, outcome)
    case RunStopped(outcomes) => RunAll(s, outcomes)
    case ChildExit(pid, status) => Exit(s, pid, status)
  }

  lemma NextOwned(s: Man)
    requires Owned(s)
    ensures forall step :: Allowed(s, step) ==> Owned(Next(s, step))
  {
    forall step | Allowed(s, step)
      ensures Owned(Next(s, step))
    {
      match step
      case AddInfo(id, plugin) => AddOwned(s, id, plugin);
      case RunNew(id, plugin, outcome) => RunAddOwned(s, id, plugin, outcome);
      case RunStopped(outcomes) => RunAllOwned(s);
      case ChildExit(pid, status) => ExitOwned(s, pid, status);
    }
  }

  /** The states along a run. */
  ghost predicate IsTrace(trace: seq<Man>, steps: seq<Step>) {
    && |trace| == |steps| + 1 && trace[0] == Man(map[], map[], [])
    && (forall k :: 0 <= k < |steps| ==> Owned(trace[k]) ==>
          Allowed(trace[k], steps[k]) && trace[k + 1] == Next(trace[k], steps[k]))
  }

  /** Over every run: each plugin is in exactly one collection, a running plugin under its own pid. */
  lemma AlwaysOwned(trace: seq<Man>, steps: seq<Step>)
    requires IsTrace(trace, steps)
    ensures forall k :: 0 <= k < |trace| ==> Owned(trace[k])
  {
    for k := 0 to |steps|
      invariant forall j :: 0 <= j <= k ==> Owned(trace[j])
    {
      var s, step := trace[k], steps[k];
      NextOwned(s);
      assert Allowed(s, step) && trace[k + 1] == Next(s, step);
    }
  }

  lemma PutTwice(m: map<Id, Plugin>, id: Id, p: Plugin, q: Plugin)
    requires id !in m
    ensures m[id := p][id := q] == m[id := q] && m[id := q] - {id} == m
  {
  }

  // ---- The class ----

  class PluginMan {
    var plugins: map<Id, Plugin>
    var runPlugin: map<Pid, Id>
    var stopPlugin: seq<Id>

    ghost function State(): Man
      reads this
    {
      Man(plugins, runPlugin, stopPlugin)
    }

    ghost predicate Valid()
      reads this
    {
      Owned(State())
    }

    constructor ()
      ensures Valid() && State() == Man(map[], map[], [])
    {
      plugins, runPlugin, stopPlugin := map[], map[], [];
    }

    method AddPluginInfo(id: Id, plugin: Plugin) returns (ok: bool)
      requires Valid() && id !in plugins
      modifies this
      ensures Valid() && State() == Add(old(State()), id, plugin) && (ok <==> !plugin.badParam)
    {
      AddOwned(State(), id, plugin);
      if plugin.badParam {
        return false;
      }
      plugins := plugins[id := plugin.(pid := INVALID_PID, lastStatus := 0, exitCount := 0)];
      stopPlugin := stopPlugin + [id];
      return true;
    }

    method RunPlugin(id: Id, o: Outcome) returns (ok: bool)
      requires id in plugins
      modifies this`plugins
      ensures plugins == old(plugins)[id := Started(old(plugins[id]), o)] && (ok <==> Starts(old(plugins[id]), o))
    {
      var p := plugins[id];
      if p.badParam || p.notExecute {
        assert plugins == plugins[id := p];
        return false;
      }
      p := p.(pid := INVALID_PID, lastStatus := 0, autoRestart := true);
      if o.NoOutputFile? {
        plugins := plugins[id := p];
        return false;
      }
      p := p.(pid := if o.Forked? then o.pid else INVALID_PID);
      if p.pid == INVALID_PID {
        plugins := plugins[id := p.(exitCount := p.exitCount + 1)];
        return false;
      }
      plugins := plugins[id := p];
      return true;
    }

    method RunAddPlugin(id: Id, plugin: Plugin, o: Outcome) returns (ok: bool)
      requires Valid() && id !in plugins && (o.Forked? ==> o.pid !in runPlugin)
      modifies this
      ensures Valid() && State() == RunAdded(old(State()), id, plugin, o) && (ok <==> Starts(plugin, o))
    {
      ghost var final := RunAdded(State(), id, plugin, o);
      RunAddOwned(State(), id, plugin, o);
      PutTwice(plugins, id, plugin, Started(plugin, o));
      plugins := plugins[id := plugin];
      ok := RunPlugin(id, o);
      if ok {
        runPlugin := runPlugin[plugins[id].pid := id];
      } else {
        plugins := plugins - {id};
      }
      assert State() == final;
    }

    /** The part of Write that restarts a plugin whose output file has changed. */
    method RestartForWrite(id: Id, o: Outcome) returns (ok: bool)
      requires id in plugins
      modifies this
      ensures State() == Restarted(old(State()), id, o) && (ok <==> Starts(old(plugins[id]), o))
    {
      ok := RunPlugin(id, o);
      if ok {
        runPlugin := runPlugin[plugins[id].pid := id];
      }
    }

    /** The turn of the plugin at the front of the unvisited part; `at` is where it stands. */
    method RunTurn(at: nat, o: Outcome, ghost kept: seq<Id>, ghost todo: seq<Id>) returns (next: nat, ok: bool)
      requires todo != [] && stopPlugin == kept + todo && at == |kept| && todo[0] in plugins
      modifies this
      ensures var s := RunOne(Man(old(plugins), old(runPlugin), kept), todo[0], o);
              && plugins == s.plugins && runPlugin == s.run && stopPlugin == s.stop + todo[1..] && next == |s.stop|
      ensures ok <==> !Tried(old(plugins[todo[0]])) || Starts(old(plugins[todo[0]]), o)
    {
      var id := stopPlugin[at];
      assert kept + todo == kept + [id] + todo[1..];
      if plugins[id].notExecute || !plugins[id].autoRestart {
        return at + 1, true;
      }
      ghost var before := plugins;
      ok := RunPlugin(id, o);
      if !ok {
        var p := plugins[id];
        plugins := plugins[id := p.(exitCount := p.exitCount + 1)];
        assert plugins == before[id := p.(exitCount := p.exitCount + 1)];
        return at + 1, false;
      }
      runPlugin := runPlugin[plugins[id].pid := id];
      stopPlugin := stopPlugin[..at] + stopPlugin[at + 1..];
      assert stopPlugin == kept + todo[1..];
      return at, true;
    }

    /** The loop erases while it iterates; `outcomes` is what the system does, turn by turn. */
    method RunPlugins(outcomes: seq<Outcome>) returns (ok: bool)
      requires Valid() && |stopPlugin| <= |outcomes| && FreshForks(runPlugin, outcomes)
      modifies this
      ensures Valid() && State() == RunAll(old(State()), outcomes)
      ensures ok <==> EachStarts(old(State()).(stop := []), old(stopPlugin), outcomes)
    {
      ghost var good := EachStarts(State().(stop := []), stopPlugin, outcomes);
      ghost var todo, kept := stopPlugin, [];
      ghost var final := RunAll(State(), outcomes);
      RunAllOwned(State());
      var at, turn := 0, 0;
      ok := true;
      while at < |stopPlugin|
        invariant stopPlugin == kept + todo && at == |kept|
        invariant turn <= |outcomes| && |todo| <= |outcomes| - turn
        invariant forall id :: id in todo ==> id in plugins
        invariant RunEach(Man(plugins, runPlugin, kept), todo, outcomes[turn..]) == final
        invariant good <==> ok && EachStarts(Man(plugins, runPlugin, kept), todo, outcomes[turn..])
        decreases |todo|
      {
        ghost var s := RunOne(Man(plugins, runPlugin, kept), todo[0], outcomes[turn]);
        assert outcomes[turn..][0] == outcomes[turn] && outcomes[turn..][1..] == outcomes[turn + 1..];
        assert todo[0] in todo;
        var started;
        at, started := RunTurn(at, outcomes[turn], kept, todo);
        ok := ok && started;
        kept, todo := s.stop, todo[1..];
        turn := turn + 1;
      }
      assert kept + [] == kept;
    }

    /** A child has exited: its plugin moves to the stopped list, and all stopped plugins are restarted. */
    method CleanupChildExit(childpid: Pid, exitstatus: int, doRestart: bool, outcomes: seq<Outcome>) returns (ok: bool)
      requires Valid()
      requires var s := Exit(State(), childpid, exitstatus); |s.stop| <= |outcomes| && FreshForks(s.run, outcomes)
      modifies this
      ensures Valid()
      ensures var s := Exit(old(State()), childpid, exitstatus);
              State() == if childpid in old(runPlugin) && doRestart then RunAll(s, outcomes) else s
      ensures var s := Exit(old(State()), childpid, exitstatus);
              ok <==> childpid in old(runPlugin) && (doRestart ==> EachStarts(s.(stop := []), s.stop, outcomes))
    {
      if childpid !in runPlugin {
        return false;
      }
      MoveToStopped(childpid, exitstatus);
      ok := true;
      if doRestart {
        ok := RunPlugins(outcomes);
      }
    }

    /** From the running map to the stopped list. */
    method MoveToStopped(childpid: Pid, exitstatus: int)
      requires Valid() && childpid in runPlugin
      modifies this
      ensures Valid() && State() == Exit(old(State()), childpid, exitstatus)
    {
      ExitOwned(State(), childpid, exitstatus);
      var id := runPlugin[childpid];
      runPlugin := runPlugin - {childpid};
      var p := plugins[id];
      plugins := plugins[id := p.(pid := INVALID_PID, lastStatus := exitstatus, exitCount := p.exitCount + 1)];
      stopPlugin := stopPlugin + [id];
    }
  }
}
