/** Every popped batch is handed to Processing exactly once, under every interleaving. */
module ManagerDelivery {
  import opened Manager
  import opened ManagerProofs

  predicate IsPopped(s: System, h: Handle, i: nat) {
    i < |BookOf(s, h).popped|
  }

  predicate HeldBy(s: System, t: Thread, h: Handle, i: nat) {
    PcOf(s, t) == Delivering(h, i)
  }

  predicate InValmap(s: System, h: Handle, i: nat) {
    h in s.valmap && s.valmap[h] == i
  }

  predicate Done(s: System, h: Handle, i: nat) {
    (h, i) in s.delivered
  }

  ghost predicate Held(s: System, h: Handle, i: nat) {
    exists t :: HeldBy(s, t, h, i)
  }

  /** One owner at a time: a thread, the worker, or Processing. */
  ghost predicate OneOwner(s: System) {
    && (forall t, h, i :: HeldBy(s, t, h, i) ==> IsPopped(s, h, i) && !Done(s, h, i) && !InValmap(s, h, i))
    && (forall t, u, h, i :: HeldBy(s, t, h, i) && HeldBy(s, u, h, i) ==> t == u)
    && (forall h, i :: InValmap(s, h, i) ==> IsPopped(s, h, i) && !Done(s, h, i))
    && (forall h, i :: Done(s, h, i) ==> IsPopped(s, h, i))
  }

  ghost predicate DeliveredOnce(s: System) {
    forall k, l :: 0 <= k < l < |s.delivered| ==> s.delivered[k] != s.delivered[l]
  }

  /** No batch is lost. */
  ghost predicate NoneLost(s: System) {
    forall h, i :: IsPopped(s, h, i) ==> Done(s, h, i) || InValmap(s, h, i) || Held(s, h, i)
  }

  lemma PoppedGrows(cfg: Settings, s: System, step: Step, h: Handle, i: nat)
    requires ValidSettings(cfg) && Enabled(cfg, s, step) && IsPopped(s, h, i)
    ensures IsPopped(Next(cfg, s, step), h, i)
  {
  }

  lemma DoneGrows(cfg: Settings, s: System, step: Step, h: Handle, i: nat)
    requires ValidSettings(cfg) && Enabled(cfg, s, step) && Done(s, h, i)
    ensures Done(Next(cfg, s, step), h, i)
  {
  }

  lemma KeepHeld(cfg: Settings, s: System, step: Step, t: Thread, h: Handle, i: nat)
    requires ValidSettings(cfg) && Enabled(cfg, s, step) && OneOwner(s) && PhaseInv(s)
    requires HeldBy(Next(cfg, s, step), t, h, i)
    ensures var s' := Next(cfg, s, step); IsPopped(s', h, i) && !Done(s', h, i) && !InValmap(s', h, i)
  {
    var s' := Next(cfg, s, step);
    if HeldBy(s, t, h, i) {
      PoppedGrows(cfg, s, step, h, i);
      if step.Deliver? {
        assert HeldBy(s, step.t, PcOf(s, step.t).h, PcOf(s, step.t).batch);
      }
    } else {
      NewlyHeld(cfg, s, step, t, h, i);
    }
  }

  lemma NewlyHeld(cfg: Settings, s: System, step: Step, t: Thread, h: Handle, i: nat)
    requires ValidSettings(cfg) && Enabled(cfg, s, step) && OneOwner(s) && PhaseInv(s)
    requires HeldBy(Next(cfg, s, step), t, h, i) && !HeldBy(s, t, h, i)
    ensures var s' := Next(cfg, s, step); IsPopped(s', h, i) && !Done(s', h, i) && !InValmap(s', h, i)
  {
    assert step == PopStack(t) && i == |BookOf(s, h).popped|;
    assert !IsPopped(s, h, i);
  }

  lemma KeepOneHolder(cfg: Settings, s: System, step: Step, t: Thread, u: Thread, h: Handle, i: nat)
    requires ValidSettings(cfg) && Enabled(cfg, s, step) && OneOwner(s)
    requires HeldBy(Next(cfg, s, step), t, h, i) && HeldBy(Next(cfg, s, step), u, h, i)
    ensures t == u
  {
    assert HeldBy(s, t, h, i) || (step == PopStack(t) && !IsPopped(s, h, i));
    assert HeldBy(s, u, h, i) || (step == PopStack(u) && !IsPopped(s, h, i));
  }

  lemma KeepInValmap(cfg: Settings, s: System, step: Step, h: Handle, i: nat)
    requires ValidSettings(cfg) && Enabled(cfg, s, step) && OneOwner(s) && PhaseInv(s) && WorkerInv(s)
    requires InValmap(Next(cfg, s, step), h, i)
    ensures var s' := Next(cfg, s, step); IsPopped(s', h, i) && !Done(s', h, i)
  {
    var s' := Next(cfg, s, step);
    if InValmap(s, h, i) {
      PoppedGrows(cfg, s, step, h, i);
      if step.Deliver? {
        assert HeldBy(s, step.t, PcOf(s, step.t).h, PcOf(s, step.t).batch);
      }
    } else {
      assert step.WorkerPop? && i == |BookOf(s, h).popped|;
      assert !IsPopped(s, h, i);
    }
  }

  lemma KeepDone(cfg: Settings, s: System, step: Step, h: Handle, i: nat)
    requires ValidSettings(cfg) && Enabled(cfg, s, step) && OneOwner(s)
    requires Done(Next(cfg, s, step), h, i)
    ensures IsPopped(Next(cfg, s, step), h, i)
  {
    if Done(s, h, i) {
      PoppedGrows(cfg, s, step, h, i);
    } else if step.Deliver? {
      assert HeldBy(s, step.t, h, i);
      PoppedGrows(cfg, s, step, h, i);
    } else if step.WorkerDeliver? {
      assert InValmap(s, h, i);
      PoppedGrows(cfg, s, step, h, i);
    }
  }

  lemma KeepOneOwner(cfg: Settings, s: System)
    requires ValidSettings(cfg) && OneOwner(s) && PhaseInv(s) && WorkerInv(s)
    ensures forall step :: Enabled(cfg, s, step) ==> OneOwner(Next(cfg, s, step))
  {
    forall step | Enabled(cfg, s, step)
      ensures OneOwner(Next(cfg, s, step))
    {
      var s' := Next(cfg, s, step);
      forall t, h, i | HeldBy(s', t, h, i)
        ensures IsPopped(s', h, i) && !Done(s', h, i) && !InValmap(s', h, i)
      {
        KeepHeld(cfg, s, step, t, h, i);
      }
      forall t, u, h, i | HeldBy(s', t, h, i) && HeldBy(s', u, h, i)
        ensures t == u
      {
        KeepOneHolder(cfg, s, step, t, u, h, i);
      }
      forall h, i | InValmap(s', h, i)
        ensures IsPopped(s', h, i) && !Done(s', h, i)
      {
        KeepInValmap(cfg, s, step, h, i);
      }
      forall h, i | Done(s', h, i)
        ensures IsPopped(s', h, i)
      {
        KeepDone(cfg, s, step, h, i);
      }
    }
  }

  lemma KeepDeliveredOnce(cfg: Settings, s: System, step: Step)
    requires ValidSettings(cfg) && Enabled(cfg, s, step) && OneOwner(s) && DeliveredOnce(s)
    ensures DeliveredOnce(Next(cfg, s, step))
  {
    match step
    case Deliver(t) =>
      var h, i := PcOf(s, t).h, PcOf(s, t).batch;
      assert HeldBy(s, t, h, i) && !Done(s, h, i);
    case WorkerDeliver(h) =>
      assert InValmap(s, h, s.valmap[h]) && !Done(s, h, s.valmap[h]);
    case CloseHandle(h) =>
      assert !IsPopped(s, h, |BookOf(s, h).popped|);
      assert !Done(s, h, |BookOf(s, h).popped|);
    case _ =>
  }

  lemma KeepNoneLost(cfg: Settings, s: System, step: Step)
    requires ValidSettings(cfg) && Enabled(cfg, s, step) && NoneLost(s) && WorkerInv(s)
    ensures NoneLost(Next(cfg, s, step))
  {
    var s' := Next(cfg, s, step);
    forall h, i | IsPopped(s', h, i)
      ensures Done(s', h, i) || InValmap(s', h, i) || Held(s', h, i)
    {
      if IsPopped(s, h, i) {
        KeepOwned(cfg, s, step, h, i);
      } else {
        NewlyPopped(cfg, s, step, h, i);
      }
    }
  }

  lemma NewlyPopped(cfg: Settings, s: System, step: Step, h: Handle, i: nat)
    requires ValidSettings(cfg) && Enabled(cfg, s, step)
    requires IsPopped(Next(cfg, s, step), h, i) && !IsPopped(s, h, i)
    ensures var s' := Next(cfg, s, step); Done(s', h, i) || InValmap(s', h, i) || Held(s', h, i)
  {
    var s' := Next(cfg, s, step);
    match step
    case PopStack(t) => assert HeldBy(s', t, h, i);
    case CloseHandle(k) => assert s'.delivered[|s'.delivered| - 1] == (h, i);
    case _ =>
  }

  lemma KeepOwned(cfg: Settings, s: System, step: Step, h: Handle, i: nat)
    requires ValidSettings(cfg) && Enabled(cfg, s, step) && WorkerInv(s)
    requires Done(s, h, i) || InValmap(s, h, i) || Held(s, h, i)
    ensures var s' := Next(cfg, s, step); Done(s', h, i) || InValmap(s', h, i) || Held(s', h, i)
  {
    var s' := Next(cfg, s, step);
    if Done(s, h, i) {
      DoneGrows(cfg, s, step, h, i);
    } else if InValmap(s, h, i) {
      if step == WorkerDeliver(h) {
        assert s'.delivered[|s'.delivered| - 1] == (h, i);
      } else if step.WorkerPop? {
        assert s.worker.h in [s.worker.h] + s.worker.rest;
        assert InValmap(s', h, i);
      } else {
        assert InValmap(s', h, i);
      }
    } else {
      var t :| HeldBy(s, t, h, i);
      if step == Deliver(t) {
        assert s'.delivered[|s'.delivered| - 1] == (h, i);
      } else {
        assert HeldBy(s', t, h, i);
      }
    }
  }
}
