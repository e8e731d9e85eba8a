/** Whole runs of the manager: nothing lost, nothing twice, nothing mixed, and when order is kept. */
module ManagerRuns {
  import opened Bytes
  import opened Wire
  import opened PushSpec
  import opened History
  import opened Manager
  import opened ManagerProofs
  import opened ManagerDelivery

  // ---- Each process's lines are its own chunks, cut and filtered ----

  /** The lines a process should have on a handle by now. */
  function Wanted(cfg: Settings, h: Handle, b: Book, pid: Pid): seq<string>
    requires ValidParams(cfg.par(h))
  {
    AcceptAll(cfg.par(h), RunPid(cfg.par(h), "", ChunksOf(b.events, pid)).lines)
  }

  ghost predicate NobodyAdds(s: System, h: Handle, pid: Pid) {
    forall t :: !AddsFor(PcOf(s, t), h, pid)
  }

  /** A thread that adds for the process is the only one, and still has to add what is missing. */
  ghost predicate Accounted(cfg: Settings, s: System, t: Thread, h: Handle, pid: Pid)
    requires ValidParams(cfg.par(h))
  {
    AddsFor(PcOf(s, t), h, pid) ==>
      && OfPid(BookOf(s, h).stacked, pid) + PcOf(s, t).todo == Wanted(cfg, h, BookOf(s, h), pid)
      && forall u :: AddsFor(PcOf(s, u), h, pid) ==> t == u
  }

  ghost predicate PidOk(cfg: Settings, s: System, h: Handle, pid: Pid)
    requires ValidParams(cfg.par(h))
  {
    var b := BookOf(s, h);
    && Get(b.bufs, pid) == RunPid(cfg.par(h), "", ChunksOf(b.events, pid)).rest
    && (forall t :: Accounted(cfg, s, t, h, pid))
    && (NobodyAdds(s, h, pid) ==> OfPid(b.stacked, pid) == Wanted(cfg, h, b, pid))
  }

  ghost predicate PidInv(cfg: Settings, s: System)
    requires ValidSettings(cfg)
  {
    forall h, pid :: PidOk(cfg, s, h, pid)
  }

  /** A step that leaves the book and the adders of this process alone. */
  lemma Untouched(cfg: Settings, s: System, s': System, h: Handle, pid: Pid)
    requires ValidSettings(cfg) && PidOk(cfg, s, h, pid)
    requires var b, b' := BookOf(s, h), BookOf(s', h);
             && OfPid(b'.stacked, pid) == OfPid(b.stacked, pid)
             && ChunksOf(b'.events, pid) == ChunksOf(b.events, pid)
             && Get(b'.bufs, pid) == Get(b.bufs, pid)
    requires forall t :: AddsFor(PcOf(s', t), h, pid) <==> AddsFor(PcOf(s, t), h, pid)
    requires forall t :: AddsFor(PcOf(s', t), h, pid) ==> PcOf(s', t).todo == PcOf(s, t).todo
    ensures PidOk(cfg, s', h, pid)
  {
    forall t
      ensures Accounted(cfg, s', t, h, pid)
    {
      assert Accounted(cfg, s, t, h, pid);
    }
  }

  lemma BeginOk(cfg: Settings, s: System, step: Step, h: Handle, pid: Client, chunk: string, q: Pid)
    requires ValidSettings(cfg) && Enabled(cfg, s, step) && ChangeOf(cfg, s, step) == Some((h, Began(pid, chunk)))
    requires PidOk(cfg, s, h, q)
    ensures PidOk(cfg, Next(cfg, s, step), h, q)
  {
    if q == pid {
      BeginOwnOk(cfg, s, step, h, pid, chunk);
    } else {
      ChunksSnoc(BookOf(s, h).events, Data(pid, chunk), q);
      assert ChunksOf(BookOf(s, h).events, q) + [] == ChunksOf(BookOf(s, h).events, q);
      Untouched(cfg, s, Next(cfg, s, step), h, q);
    }
  }

  lemma BeginOwnOk(cfg: Settings, s: System, step: Step, h: Handle, pid: Client, chunk: string)
    requires ValidSettings(cfg) && Enabled(cfg, s, step) && ChangeOf(cfg, s, step) == Some((h, Began(pid, chunk)))
    requires PidOk(cfg, s, h, pid)
    ensures PidOk(cfg, Next(cfg, s, step), h, pid)
  {
    var s', t, b := Next(cfg, s, step), step.t, BookOf(s, h);
    ChunksSnoc(b.events, Data(pid, chunk), pid);
    OwnChunk(cfg.par(h), ChunksOf(b.events, pid), chunk);
    assert NobodyAdds(s, h, pid);
    forall u
      ensures AddsFor(PcOf(s', u), h, pid) ==> u == t
    {
      assert u != t ==> PcOf(s', u) == PcOf(s, u);
    }
    assert Accounted(cfg, s', t, h, pid);
    assert AddsFor(PcOf(s', t), h, pid);
  }

  /** One more chunk of a process alone. */
  lemma OwnChunk(par: Params, chunks: seq<string>, chunk: string)
    requires ValidParams(par)
    ensures var own, now := RunPid(par, "", chunks), RunPid(par, "", chunks + [chunk]);
            && now.rest == CutBy(par, own.rest, chunk).rest
            && AcceptAll(par, now.lines) == AcceptAll(par, own.lines)
                + AcceptAll(par, CutBy(par, own.rest, chunk).lines)
  {
    var own := RunPid(par, "", chunks);
    RunPidAppend(par, "", chunks, [chunk]);
    RunPidOne(par, own.rest, chunk);
    AcceptAppend(par, own.lines, CutBy(par, own.rest, chunk).lines);
  }

  lemma StackLineOk(cfg: Settings, s: System, t: Thread, h: Handle, q: Pid)
    requires ValidSettings(cfg) && Enabled(cfg, s, StackOne(t)) && PcOf(s, t).h == h && PidOk(cfg, s, h, q)
    ensures PidOk(cfg, Next(cfg, s, StackOne(t)), h, q)
  {
    var pc, s', b := PcOf(s, t), Next(cfg, s, StackOne(t)), BookOf(s, h);
    var line := Tagged(pc.pid, pc.todo[0]);
    OfPidAppend(b.stacked, [line], q);
    OfPidOne(line, q);
    if q != pc.pid {
      assert OfPid(b.stacked, q) + [] == OfPid(b.stacked, q);
      Untouched(cfg, s, s', h, q);
    } else {
      assert AddsFor(PcOf(s, t), h, q) && AddsFor(PcOf(s', t), h, q);
      assert Accounted(cfg, s, t, h, q);
      MoveOne(OfPid(b.stacked, q), pc.todo);
      forall u
        ensures AddsFor(PcOf(s', u), h, q) ==> u == t
      {
        assert u != t ==> PcOf(s', u) == PcOf(s, u);
      }
      assert Accounted(cfg, s', t, h, q);
    }
  }

  lemma MoveOne(done: seq<string>, todo: seq<string>)
    requires todo != []
    ensures done + [todo[0]] + todo[1..] == done + todo
  {
    assert todo == [todo[0]] + todo[1..];
  }

  lemma OfPidOne(line: Tagged, q: Pid)
    ensures OfPid([line], q) == if line.pid == q then [line.data] else []
  {
    assert [line][1..] == [];
  }

  lemma DoneAddingOk(cfg: Settings, s: System, t: Thread, h: Handle, q: Pid)
    requires ValidSettings(cfg) && Enabled(cfg, s, DoneAdding(t)) && PidOk(cfg, s, h, q)
    ensures PidOk(cfg, Next(cfg, s, DoneAdding(t)), h, q)
  {
    var s' := Next(cfg, s, DoneAdding(t));
    if AddsFor(PcOf(s, t), h, q) {
      assert Accounted(cfg, s, t, h, q);
      assert OfPid(BookOf(s, h).stacked, q) + [] == OfPid(BookOf(s, h).stacked, q);
    }
    forall u
      ensures AddsFor(PcOf(s', u), h, q) <==> u != t && AddsFor(PcOf(s, u), h, q)
    {
    }
    forall u
      ensures Accounted(cfg, s', u, h, q)
    {
      assert Accounted(cfg, s, u, h, q);
    }
    if NobodyAdds(s', h, q) && !AddsFor(PcOf(s, t), h, q) {
      forall u
        ensures !AddsFor(PcOf(s, u), h, q)
      {
        assert !AddsFor(PcOf(s', u), h, q);
      }
      assert NobodyAdds(s, h, q);
    }
  }

  lemma CloseOk(cfg: Settings, s: System, h: Handle, q: Pid)
    requires ValidSettings(cfg) && Enabled(cfg, s, CloseHandle(h)) && AllIdle(s) && PidOk(cfg, s, h, q)
    ensures PidOk(cfg, Next(cfg, s, CloseHandle(h)), h, q)
  {
    var par, b, s' := cfg.par(h), BookOf(s, h), Next(cfg, s, CloseHandle(h));
    ChunksSnoc(b.events, FlushEvery, q);
    OwnChunk(par, ChunksOf(b.events, q), "");
    FlushOfPid(par, b.bufs, q);
    OfPidAppend(b.stacked, FlushAll(par, b.bufs, ""), q);
    forall u
      ensures PcOf(s', u) == Idle && PcOf(s, u) == Idle
    {
      assert PcOf(s', u) == PcOf(s, u);
    }
    assert NobodyAdds(s, h, q);
  }

  lemma KeepPid(cfg: Settings, s: System, step: Step)
    requires ValidSettings(cfg) && Enabled(cfg, s, step) && PidInv(cfg, s) && PhaseInv(s)
    ensures PidInv(cfg, Next(cfg, s, step))
  {
    forall h, q
      ensures PidOk(cfg, Next(cfg, s, step), h, q)
    {
      assert PidOk(cfg, s, h, q);
      KeepPidOk(cfg, s, step, h, q);
    }
  }

  lemma KeepPidOk(cfg: Settings, s: System, step: Step, h: Handle, q: Pid)
    requires ValidSettings(cfg) && Enabled(cfg, s, step) && PidOk(cfg, s, h, q) && PhaseInv(s)
    ensures PidOk(cfg, Next(cfg, s, step), h, q)
  {
    if step.DoneAdding? {
      DoneAddingOk(cfg, s, step.t, h, q);
    } else if Elsewhere(cfg, s, step, h) {
      ElsewhereOk(cfg, s, step, h, q);
    } else {
      match ChangeOf(cfg, s, step).value.1
      case Began(pid, chunk) => BeginOk(cfg, s, step, h, pid, chunk, q);
      case Gained(line) => StackLineOk(cfg, s, step.t, h, q);
      case Flushed => CloseOk(cfg, s, h, q);
    }
  }

  lemma ElsewhereOk(cfg: Settings, s: System, step: Step, h: Handle, q: Pid)
    requires ValidSettings(cfg) && Enabled(cfg, s, step) && Elsewhere(cfg, s, step, h) && PidOk(cfg, s, h, q)
    ensures PidOk(cfg, Next(cfg, s, step), h, q)
  {
    OthersUntouched(cfg, s, step, h, q);
    Untouched(cfg, s, Next(cfg, s, step), h, q);
  }

  /** The step begins, adds or flushes nothing on this handle. */
  ghost predicate Elsewhere(cfg: Settings, s: System, step: Step, h: Handle)
    requires ValidSettings(cfg) && Enabled(cfg, s, step)
  {
    match ChangeOf(cfg, s, step)
    case None => !step.DoneAdding?
    case Some((k, c)) => k != h || c.Popped?
  }

  lemma OthersUntouched(cfg: Settings, s: System, step: Step, h: Handle, q: Pid)
    requires ValidSettings(cfg) && Enabled(cfg, s, step) && Elsewhere(cfg, s, step, h)
    ensures var s' := Next(cfg, s, step);
            && (forall t :: AddsFor(PcOf(s', t), h, q) <==> AddsFor(PcOf(s, t), h, q))
            && (forall t :: AddsFor(PcOf(s', t), h, q) ==> PcOf(s', t).todo == PcOf(s, t).todo)
  {
    var s' := Next(cfg, s, step);
    forall t
      ensures AddsFor(PcOf(s', t), h, q) <==> AddsFor(PcOf(s, t), h, q)
      ensures AddsFor(PcOf(s', t), h, q) ==> PcOf(s', t).todo == PcOf(s, t).todo
    {
    }
  }

  // ---- All invariants, over every run ----

  ghost predicate Inv(cfg: Settings, s: System)
    requires ValidSettings(cfg)
  {
    && BooksBalanced(s) && WorkerInv(s) && PhaseInv(s) && OnOpenHandles(s) && WorkerOnOpen(s)
    && BacklogInv(cfg, s) && OneOwner(s) && DeliveredOnce(s) && NoneLost(s) && PidInv(cfg, s)
  }

  lemma InitInv(cfg: Settings, withWorker: bool)
    requires ValidSettings(cfg)
    ensures Inv(cfg, Init(withWorker))
  {
  }

  /** Every step that can be taken keeps all invariants. */
  lemma KeepInv(cfg: Settings, s: System)
    requires ValidSettings(cfg) && Inv(cfg, s)
    ensures forall step :: Enabled(cfg, s, step) ==> Inv(cfg, Next(cfg, s, step))
  {
    KeepWorker(cfg, s);
    KeepOneOwner(cfg, s);
    forall step | Enabled(cfg, s, step)
      ensures Inv(cfg, Next(cfg, s, step))
    {
      KeepBalance(cfg, s, step);
      KeepPhase(cfg, s, step);
      KeepOnOpen(cfg, s, step);
      KeepBacklog(cfg, s, step);
      KeepDeliveredOnce(cfg, s, step);
      KeepNoneLost(cfg, s, step);
      KeepPid(cfg, s, step);
    }
  }

  /** So does every run: whatever it leads to satisfies them. */
  lemma {:induction false} RunInv(cfg: Settings, s: System, steps: seq<Step>)
    requires ValidSettings(cfg) && Inv(cfg, s)
    ensures forall end :: RunTo(cfg, s, steps, end) ==> Inv(cfg, end)
    decreases |steps|
  {
    if steps != [] && Enabled(cfg, s, steps[0]) {
      var next := Next(cfg, s, steps[0]);
      KeepInv(cfg, s);
      RunInv(cfg, next, steps[1..]);
      forall end | RunTo(cfg, s, steps, end)
        ensures Inv(cfg, end)
      {
        assert RunTo(cfg, next, steps[1..], end);
      }
    }
  }

  /** In every reachable state: popped batches, in pop order, and then the stack are all lines ever
      stacked, in order. */
  lemma PoppedInOrder(cfg: Settings, withWorker: bool, steps: seq<Step>, h: Handle)
    requires ValidSettings(cfg) && IsRun(cfg, Init(withWorker), steps)
    ensures var b := BookOf(After(cfg, Init(withWorker), steps), h); Flatten(b.popped) + b.stack == b.stacked
  {
    InitInv(cfg, withWorker);
    RunInv(cfg, Init(withWorker), steps);
    assert RunTo(cfg, Init(withWorker), steps, After(cfg, Init(withWorker), steps));
  }

  /** In every reachable state where no push or close is under way on a handle, its stack is within
      the limit, whatever the worker is doing. */
  lemma BacklogBound(cfg: Settings, withWorker: bool, steps: seq<Step>, h: Handle)
    requires ValidSettings(cfg) && IsRun(cfg, Init(withWorker), steps)
    requires var s := After(cfg, Init(withWorker), steps); forall t :: !Responsible(PcOf(s, t), h)
    ensures |BookOf(After(cfg, Init(withWorker), steps), h).stack| <= cfg.lineMax
  {
    InitInv(cfg, withWorker);
    RunInv(cfg, Init(withWorker), steps);
    assert RunTo(cfg, Init(withWorker), steps, After(cfg, Init(withWorker), steps));
    assert Bounded(cfg, After(cfg, Init(withWorker), steps), h);
  }

  /** After a complete shutdown: the stack and every buffer of the handle are empty, the popped batches
      are all lines ever stacked, and each process's lines are its own chunks (the final flush
      included), cut and filtered, in order. */
  lemma NothingLeft(cfg: Settings, withWorker: bool, steps: seq<Step>, h: Handle, pid: Pid)
    requires ValidSettings(cfg) && IsRun(cfg, Init(withWorker), steps)
    requires After(cfg, Init(withWorker), steps).phase == Closed
    ensures var b := BookOf(After(cfg, Init(withWorker), steps), h);
            && b.stack == [] && b.bufs == map[]
            && Flatten(b.popped) == b.stacked
            && OfPid(Flatten(b.popped), pid) == Wanted(cfg, h, b, pid)
            && RunPid(cfg.par(h), "", ChunksOf(b.events, pid)).rest == ""
  {
    InitInv(cfg, withWorker);
    RunInv(cfg, Init(withWorker), steps);
    assert RunTo(cfg, Init(withWorker), steps, After(cfg, Init(withWorker), steps));
    var s := After(cfg, Init(withWorker), steps);
    var b := BookOf(s, h);
    assert Flatten(b.popped) + [] == Flatten(b.popped);
    assert PidOk(cfg, s, h, pid);
    assert NobodyAdds(s, h, pid);
  }

  /** After a complete shutdown Processing has got each popped batch exactly once, and nothing else. */
  lemma ExactlyOnce(cfg: Settings, withWorker: bool, steps: seq<Step>, h: Handle, i: nat)
    requires ValidSettings(cfg) && IsRun(cfg, Init(withWorker), steps)
    requires After(cfg, Init(withWorker), steps).phase == Closed
    ensures var s := After(cfg, Init(withWorker), steps);
            && (i < |BookOf(s, h).popped| <==> (h, i) in s.delivered)
            && (forall k, l :: 0 <= k < l < |s.delivered| ==> s.delivered[k] != s.delivered[l])
  {
    InitInv(cfg, withWorker);
    RunInv(cfg, Init(withWorker), steps);
    assert RunTo(cfg, Init(withWorker), steps, After(cfg, Init(withWorker), steps));
    PoppedIsDone(After(cfg, Init(withWorker), steps), h, i);
  }

  /** When everybody has gone home each popped batch has been through Processing. */
  lemma PoppedIsDone(s: System, h: Handle, i: nat)
    requires OneOwner(s) && NoneLost(s) && AllIdle(s) && s.valmap == map[]
    ensures IsPopped(s, h, i) <==> Done(s, h, i)
  {
  }
}
