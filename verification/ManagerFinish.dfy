/** Every reachable state of the manager can be continued to a complete shutdown. */
module ManagerFinish {
  import opened Manager
  import opened ManagerProofs
  import opened ManagerRuns

  lemma StillInv(cfg: Settings, s: System)
    requires ValidSettings(cfg) && Inv(cfg, s)
    ensures forall end :: Leads(cfg, s, end) ==> Inv(cfg, end)
  {
    forall end | Leads(cfg, s, end)
      ensures Inv(cfg, end)
    {
      var steps :| RunTo(cfg, s, steps, end);
      RunInv(cfg, s, steps);
    }
  }

  // ---- Threads go home ----

  function Left(pc: Pc): nat {
    match pc
    case Idle => 0
    case Delivering(h, i) => 1
    case Popping(h) => 2
    case LockedCheck(h) => 3
    case FastCheck(h) => 4
    case Adding(h, pid, todo, force) => 5 + |todo|
  }

  function StepOf(s: System, t: Thread): Step
    requires PcOf(s, t) != Idle
  {
    match PcOf(s, t)
    case Delivering(h, i) => Deliver(t)
    case Popping(h) => PopStack(t)
    case LockedCheck(h) => LockedRead(t, false)
    case FastCheck(h) => FastRead(t)
    case Adding(h, pid, todo, force) => if todo == [] then DoneAdding(t) else StackOne(t)
  }

  lemma StepGoesHome(cfg: Settings, s: System, t: Thread)
    requires ValidSettings(cfg) && PcOf(s, t) != Idle
    ensures Enabled(cfg, s, StepOf(s, t))
    ensures var s' := Next(cfg, s, StepOf(s, t));
            && Left(PcOf(s', t)) < Left(PcOf(s, t)) && s'.phase == s.phase
            && (forall u :: u != t ==> PcOf(s', u) == PcOf(s, u))
  {
  }

  lemma {:induction false} GoHome(cfg: Settings, s: System, t: Thread)
    requires ValidSettings(cfg) && Inv(cfg, s)
    ensures exists end :: Leads(cfg, s, end) && IsHome(s, t, end)
    decreases Left(PcOf(s, t))
  {
    if PcOf(s, t) == Idle {
      LeadsNowhere(cfg, s);
      assert IsHome(s, t, s);
    } else {
      var next := Next(cfg, s, StepOf(s, t));
      StepGoesHome(cfg, s, t);
      KeepInv(cfg, s);
      GoHome(cfg, next, t);
      var end :| Leads(cfg, next, end) && IsHome(next, t, end);
      LeadsBy(cfg, s, StepOf(s, t));
      LeadsOn(cfg, s, next, end);
      assert IsHome(s, t, end);
    }
  }

  /** The thread is out, and the others are where they were. */
  ghost predicate IsHome(s: System, t: Thread, end: System) {
    end.phase == s.phase && PcOf(end, t) == Idle && forall u :: u != t ==> PcOf(end, u) == PcOf(s, u)
  }

  function Inside(s: System): set<Thread> {
    set t | t in s.pcs && s.pcs[t] != Idle
  }

  lemma {:induction false} AllGoHome(cfg: Settings, s: System)
    requires ValidSettings(cfg) && Inv(cfg, s)
    ensures exists end :: Leads(cfg, s, end) && end.phase == s.phase && AllIdle(end)
    decreases |Inside(s)|
  {
    if AllIdle(s) {
      LeadsNowhere(cfg, s);
    } else {
      var t: Thread :| PcOf(s, t) != Idle;
      GoHome(cfg, s, t);
      var middle :| Leads(cfg, s, middle) && IsHome(s, t, middle);
      StillInv(cfg, s);
      OneLess(s, middle, t);
      AllGoHome(cfg, middle);
      var end :| Leads(cfg, middle, end) && end.phase == middle.phase && AllIdle(end);
      LeadsOn(cfg, s, middle, end);
    }
  }

  lemma OneLess(s: System, middle: System, t: Thread)
    requires PcOf(s, t) != Idle && IsHome(s, t, middle)
    ensures |Inside(middle)| < |Inside(s)|
  {
    forall u
      ensures u in Inside(middle) <==> u != t && u in Inside(s)
    {
      assert u in Inside(s) <==> PcOf(s, u) != Idle;
      assert u in Inside(middle) <==> PcOf(middle, u) != Idle;
    }
    assert Inside(s) == Inside(middle) + {t};
  }

  // ---- The worker exits ----

  function WorkLeft(w: Worker, popped: nat): nat {
    match w
    case Exited => 0
    case Waiting => 1
    case Draining => 2 + popped
    case Scanning(rest) => 3 + popped
    case ScanPop(h, rest) => 5 + popped
    case ScanLocked(h, rest) => 6 + popped
    case ScanFast(h, rest) => 7 + popped
  }

  /** The step can be taken now and brings the worker nearer to its end. */
  ghost predicate Advances(cfg: Settings, s: System, step: Step)
    requires ValidSettings(cfg)
  {
    && Enabled(cfg, s, step) && Next(cfg, s, step).phase == s.phase
    && WorkLeft(Next(cfg, s, step).worker, |Next(cfg, s, step).valmap|) < WorkLeft(s.worker, |s.valmap|)
  }

  lemma WorkerStep(cfg: Settings, s: System)
    requires ValidSettings(cfg) && !s.running && s.worker != Exited
    ensures exists step :: Advances(cfg, s, step)
  {
    match s.worker
    case Waiting => assert Advances(cfg, s, WorkerRest);
    case Scanning(rest) => assert Advances(cfg, s, WorkerNext);
    case ScanFast(h, rest) => assert Advances(cfg, s, WorkerFast);
    case ScanLocked(h, rest) => assert Advances(cfg, s, WorkerLocked(false));
    case ScanPop(h, rest) =>
      PutOne(s.valmap, h, |BookOf(s, h).popped|);
      assert Advances(cfg, s, WorkerPop);
    case Draining => DrainStep(cfg, s);
  }

  lemma DrainStep(cfg: Settings, s: System)
    requires ValidSettings(cfg) && !s.running && s.worker == Draining
    ensures exists step :: Advances(cfg, s, step)
  {
    if s.valmap == map[] {
      assert Advances(cfg, s, WorkerRest);
    } else {
      var h: Handle :| h in s.valmap;
      assert (s.valmap - {h}).Keys == s.valmap.Keys - {h};
      assert |(s.valmap - {h}).Keys| < |s.valmap.Keys|;
      assert Advances(cfg, s, WorkerDeliver(h));
    }
  }

  lemma PutOne(m: map<Handle, nat>, h: Handle, i: nat)
    ensures |m[h := i]| <= |m| + 1
  {
    assert m[h := i].Keys == m.Keys + {h};
    assert |m[h := i].Keys| <= |m.Keys| + 1;
  }

  lemma {:induction false} WorkerExits(cfg: Settings, s: System)
    requires ValidSettings(cfg) && Inv(cfg, s) && s.phase == Joining
    ensures exists end :: Leads(cfg, s, end) && end.phase == Joining && end.worker == Exited
    decreases WorkLeft(s.worker, |s.valmap|)
  {
    if s.worker == Exited {
      LeadsNowhere(cfg, s);
    } else {
      WorkerStep(cfg, s);
      var step :| Advances(cfg, s, step);
      var next := Next(cfg, s, step);
      KeepInv(cfg, s);
      WorkerExits(cfg, next);
      var end :| Leads(cfg, next, end) && end.phase == Joining && end.worker == Exited;
      LeadsBy(cfg, s, step);
      LeadsOn(cfg, s, next, end);
    }
  }

  // ---- Handles are closed ----

  lemma {:induction false} AllClose(cfg: Settings, s: System) returns (end: System)
    requires ValidSettings(cfg) && Inv(cfg, s) && s.phase == Closing
    ensures Leads(cfg, s, end) && end.phase == Closed
    decreases |s.open|
  {
    if s.open == {} {
      LeadsBy(cfg, s, Finish);
      end := Next(cfg, s, Finish);
    } else {
      var h: Handle :| h in s.open;
      KeepInv(cfg, s);
      LeadsBy(cfg, s, CloseHandle(h));
      assert NextOpen(s, CloseHandle(h)) == s.open - {h};
      end := AllClose(cfg, Next(cfg, s, CloseHandle(h)));
      LeadsOn(cfg, s, Next(cfg, s, CloseHandle(h)), end);
    }
  }

  /** No state is stuck: from any reachable one the threads can go home, the worker can exit, every handle can
      be closed. So complete runs exist, and what is proved of them is about something. */
  lemma CanFinish(cfg: Settings, s: System) returns (end: System)
    requires ValidSettings(cfg) && Inv(cfg, s)
    ensures Leads(cfg, s, end) && end.phase == Closed
  {
    match s.phase
    case Open =>
      AllGoHome(cfg, s);
      var idle :| Leads(cfg, s, idle) && idle.phase == s.phase && AllIdle(idle);
      StillInv(cfg, s);
      end := Shutdown(cfg, idle);
      LeadsOn(cfg, s, idle, end);
    case Joining => end := FromJoining(cfg, s);
    case Closing => end := AllClose(cfg, s);
    case Closed =>
      LeadsNowhere(cfg, s);
      end := s;
  }

  lemma Shutdown(cfg: Settings, s: System) returns (end: System)
    requires ValidSettings(cfg) && Inv(cfg, s) && s.phase == Open && AllIdle(s)
    ensures Leads(cfg, s, end) && end.phase == Closed
  {
    KeepInv(cfg, s);
    LeadsBy(cfg, s, Stop);
    end := FromJoining(cfg, Next(cfg, s, Stop));
    LeadsOn(cfg, s, Next(cfg, s, Stop), end);
  }

  lemma FromJoining(cfg: Settings, s: System) returns (end: System)
    requires ValidSettings(cfg) && Inv(cfg, s) && s.phase == Joining
    ensures Leads(cfg, s, end) && end.phase == Closed
  {
    WorkerExits(cfg, s);
    var joined :| Leads(cfg, s, joined) && joined.phase == Joining && joined.worker == Exited;
    StillInv(cfg, s);
    KeepInv(cfg, joined);
    LeadsBy(cfg, joined, Join);
    end := AllClose(cfg, Next(cfg, joined, Join));
    LeadsOn(cfg, joined, Next(cfg, joined, Join), end);
    LeadsOn(cfg, s, joined, end);
  }

  /** After any run of any length, with or without a worker, shutdown can be completed. */
  lemma EveryRunCanFinish(cfg: Settings, withWorker: bool, steps: seq<Step>) returns (more: seq<Step>)
    requires ValidSettings(cfg) && IsRun(cfg, Init(withWorker), steps)
    ensures IsRun(cfg, Init(withWorker), steps + more)
    ensures After(cfg, Init(withWorker), steps + more).phase == Closed
  {
    InitInv(cfg, withWorker);
    RunInv(cfg, Init(withWorker), steps);
    var s := After(cfg, Init(withWorker), steps);
    assert RunTo(cfg, Init(withWorker), steps, s);
    var end := CanFinish(cfg, s);
    more :| RunTo(cfg, s, more, end);
    Chain(cfg, Init(withWorker), steps, s, more, end);
  }
}
