/** What every step of the manager keeps, and what holds of whole runs. */
module ManagerProofs {
  import opened Bytes
  import opened Manager

  // ---- The worker never overwrites a batch it has popped ----

  ghost predicate Ahead(s: System, order: seq<Handle>) {
    Distinct(order) && forall h :: h in order ==> h !in s.valmap
  }

  ghost predicate WorkerInv(s: System) {
    match s.worker
    case Waiting => s.valmap == map[]
    case Exited => s.valmap == map[]
    case Scanning(rest) => Ahead(s, rest)
    case ScanFast(h, rest) => Ahead(s, [h] + rest)
    case ScanLocked(h, rest) => Ahead(s, [h] + rest)
    case ScanPop(h, rest) => Ahead(s, [h] + rest)
    case Draining => true
  }

  lemma AheadTail(s: System, h: Handle, rest: seq<Handle>, valmap: map<Handle, nat>)
    requires Ahead(s, [h] + rest) && valmap.Keys <= s.valmap.Keys + {h}
    ensures Distinct(rest) && h !in rest && forall k :: k in rest ==> k !in valmap
  {
    var all := [h] + rest;
    assert forall i :: 0 <= i < |rest| ==> rest[i] == all[i + 1];
    assert all[0] == h;
    assert forall k :: k in rest ==> k in all;
  }

  lemma KeepWorker(cfg: Settings, s: System)
    requires ValidSettings(cfg) && WorkerInv(s)
    ensures forall step :: Enabled(cfg, s, step) ==> WorkerInv(Next(cfg, s, step))
  {
    forall step | Enabled(cfg, s, step)
      ensures WorkerInv(Next(cfg, s, step))
    {
      if OfWorker(step) {
        WorkerStepKeeps(cfg, s, step);
      }
    }
  }

  /** A step of the worker. */
  predicate OfWorker(step: Step) {
    step.WorkerWake? || step.WorkerNext? || step.WorkerFast? || step.WorkerLocked?
    || step.WorkerPop? || step.WorkerDeliver? || step.WorkerRest?
  }

  lemma WorkerStepKeeps(cfg: Settings, s: System, step: Step)
    requires ValidSettings(cfg) && Enabled(cfg, s, step) && WorkerInv(s) && OfWorker(step)
    ensures WorkerInv(Next(cfg, s, step))
  {
    match step
    case WorkerNext =>
      var rest := s.worker.rest;
      assert rest != [] ==> [rest[0]] + rest[1..] == rest;
    case WorkerLocked(late) => AheadTail(s, s.worker.h, s.worker.rest, s.valmap);
    case WorkerPop => AheadTail(s, s.worker.h, s.worker.rest, NextValmap(cfg, s, step));
    case _ =>
  }

  // ---- Phases of shutdown ----

  ghost predicate AllIdle(s: System) {
    forall t :: PcOf(s, t) == Idle
  }

  predicate Emptied(b: Book) {
    b.stack == [] && b.bufs == map[]
  }

  ghost predicate PhaseInv(s: System) {
    && s.open <= s.books.Keys
    && (s.phase != Open ==> AllIdle(s) && !s.running)
    && (s.phase == Closing || s.phase == Closed ==> s.worker.Exited?)
    && (s.phase == Closed ==> s.open == {})
    && (forall h :: h in s.books && h !in s.open ==> Emptied(s.books[h]) && (s.phase == Closing || s.phase == Closed))
  }

  /** Inside `Push` or `Close`, before the batch is popped. */
  predicate Busy(pc: Pc) {
    pc.Adding? || pc.FastCheck? || pc.LockedCheck? || pc.Popping?
  }

  ghost predicate OnOpenHandles(s: System) {
    forall t :: Busy(PcOf(s, t)) ==> PcOf(s, t).h in s.open
  }

  ghost predicate WorkerOnOpen(s: System) {
    match s.worker
    case Scanning(rest) => forall k :: k in rest ==> k in s.open
    case ScanFast(h, rest) => h in s.open && forall k :: k in rest ==> k in s.open
    case ScanLocked(h, rest) => h in s.open && forall k :: k in rest ==> k in s.open
    case ScanPop(h, rest) => h in s.open && forall k :: k in rest ==> k in s.open
    case _ => true
  }

  /** One step moves at most one thread, and only while it is allowed to move. */
  lemma OneThreadMoves(cfg: Settings, s: System, step: Step, t: Thread)
    requires ValidSettings(cfg) && Enabled(cfg, s, step)
    ensures var was, now := PcOf(s, t), PcOf(Next(cfg, s, step), t);
            now == was || (was == Idle && s.phase == Open) || (was != Idle && (now == Idle || Busy(was)))
    ensures PcOf(s, t) == Idle && s.phase != Open ==> PcOf(Next(cfg, s, step), t) == Idle
  {
  }

  lemma KeepOnOpen(cfg: Settings, s: System, step: Step)
    requires ValidSettings(cfg) && Enabled(cfg, s, step) && PhaseInv(s) && OnOpenHandles(s) && WorkerOnOpen(s)
    ensures OnOpenHandles(Next(cfg, s, step)) && WorkerOnOpen(Next(cfg, s, step))
  {
    forall t | Busy(PcOf(Next(cfg, s, step), t))
      ensures PcOf(Next(cfg, s, step), t).h in Next(cfg, s, step).open
    {
      ThreadOnOpen(cfg, s, step, t);
    }
    WorkerStaysOnOpen(cfg, s, step);
  }

  lemma ThreadOnOpen(cfg: Settings, s: System, step: Step, t: Thread)
    requires ValidSettings(cfg) && Enabled(cfg, s, step) && PhaseInv(s) && OnOpenHandles(s)
    requires Busy(PcOf(Next(cfg, s, step), t))
    ensures PcOf(Next(cfg, s, step), t).h in NextOpen(s, step)
  {
    var was := PcOf(s, t);
  }

  lemma WorkerStaysOnOpen(cfg: Settings, s: System, step: Step)
    requires ValidSettings(cfg) && Enabled(cfg, s, step) && PhaseInv(s) && WorkerOnOpen(s)
    ensures WorkerOnOpen(Next(cfg, s, step))
  {
  }

  lemma KeepPhase(cfg: Settings, s: System, step: Step)
    requires ValidSettings(cfg) && Enabled(cfg, s, step) && PhaseInv(s) && OnOpenHandles(s) && WorkerOnOpen(s)
    ensures PhaseInv(Next(cfg, s, step))
  {
    var s' := Next(cfg, s, step);
    if s'.phase != Open {
      forall t
        ensures PcOf(s', t) == Idle
      {
        var was := PcOf(s, t);
        OneThreadMoves(cfg, s, step, t);
      }
    }
    KeepEmptied(cfg, s, step);
  }

  lemma KeepEmptied(cfg: Settings, s: System, step: Step)
    requires ValidSettings(cfg) && Enabled(cfg, s, step) && PhaseInv(s) && OnOpenHandles(s) && WorkerOnOpen(s)
    ensures var s' := Next(cfg, s, step);
            && s'.open <= s'.books.Keys
            && (forall h :: h in s'.books && h !in s'.open ==>
                Emptied(s'.books[h]) && (s'.phase == Closing || s'.phase == Closed))
  {
  }

  // ---- Backlog ----

  /** The thread has yet to check the limit after its last line on `h`. */
  predicate Responsible(pc: Pc, h: Handle) {
    Busy(pc) && pc.h == h
  }

  ghost predicate Watched(s: System, h: Handle) {
    exists t :: Responsible(PcOf(s, t), h)
  }

  ghost predicate Bounded(cfg: Settings, s: System, h: Handle) {
    cfg.lineMax < |BookOf(s, h).stack| ==> Watched(s, h)
  }

  ghost predicate BacklogInv(cfg: Settings, s: System) {
    forall h :: Bounded(cfg, s, h)
  }

  lemma KeepBacklog(cfg: Settings, s: System, step: Step)
    requires ValidSettings(cfg) && Enabled(cfg, s, step) && BacklogInv(cfg, s)
    ensures BacklogInv(cfg, Next(cfg, s, step))
  {
    var s' := Next(cfg, s, step);
    forall h
      ensures Bounded(cfg, s', h)
    {
      assert Bounded(cfg, s, h);
      if cfg.lineMax < |BookOf(s', h).stack| {
        KeepWatched(cfg, s, step, h);
      }
    }
  }

  lemma KeepWatched(cfg: Settings, s: System, step: Step, h: Handle)
    requires ValidSettings(cfg) && Enabled(cfg, s, step) && Bounded(cfg, s, h)
    requires cfg.lineMax < |BookOf(Next(cfg, s, step), h).stack|
    ensures Watched(Next(cfg, s, step), h)
  {
    var s' := Next(cfg, s, step);
    if step.StackOne? && PcOf(s, step.t).h == h {
      assert Responsible(PcOf(s', step.t), h);
    } else {
      StackNoLonger(cfg, s, step, h);
      var t :| Responsible(PcOf(s, t), h);
      assert Responsible(PcOf(s', t), h);
    }
  }

  /** Only adding a line makes a stack longer. */
  lemma StackNoLonger(cfg: Settings, s: System, step: Step, h: Handle)
    requires ValidSettings(cfg) && Enabled(cfg, s, step)
    requires !(step.StackOne? && PcOf(s, step.t).h == h)
    ensures BookOf(Next(cfg, s, step), h).stack == BookOf(s, h).stack || BookOf(Next(cfg, s, step), h).stack == []
  {
  }
}
