/** Exactly when batches reach Processing in pop order. */
module ManagerOrder {
  import opened Bytes
  import opened Manager
  import opened ManagerProofs
  import opened ManagerDelivery
  import opened ManagerRuns

  /** The batches of one handle, in the order Processing got them. */
  function BatchesOf(delivered: seq<(Handle, nat)>, h: Handle): seq<nat> {
    if delivered == [] then [] else Own(delivered[0], h) + BatchesOf(delivered[1..], h)
  }

  function Own(d: (Handle, nat), h: Handle): seq<nat> {
    if d.0 == h then [d.1] else []
  }

  predicate Ascending(batches: seq<nat>) {
    forall k :: 0 <= k < |batches| ==> batches[k] == k
  }

  /** Processing has got the batches of this handle in pop order, with none left out in between. */
  predicate InOrder(s: System, h: Handle) {
    Ascending(BatchesOf(s.delivered, h))
  }

  /** Popped and not yet through Processing: a thread or the worker has it. */
  ghost predicate InFlight(s: System, h: Handle, i: nat) {
    Held(s, h, i) || InValmap(s, h, i)
  }

  /** No batch popped earlier from this handle is in flight. */
  ghost predicate Oldest(s: System, h: Handle, i: nat) {
    forall j: nat :: j < i ==> !InFlight(s, h, j)
  }

  /** A step that hands over a batch of this handle hands over its oldest one in flight. */
  ghost predicate StepInOrder(cfg: Settings, s: System, step: Step, h: Handle)
    requires ValidSettings(cfg) && Enabled(cfg, s, step)
  {
    match Handed(cfg, s, step)
    case None => true
    case Some((k, i)) => k == h ==> Oldest(s, h, i)
  }

  lemma {:induction false} BatchesSnoc(delivered: seq<(Handle, nat)>, last: (Handle, nat), h: Handle)
    ensures BatchesOf(delivered + [last], h) == BatchesOf(delivered, h) + Own(last, h)
  {
    if delivered == [] {
      assert delivered + [last] == [last] && [last][1..] == [];
      assert BatchesOf([last], h) == Own(last, h) + BatchesOf([], h);
    } else {
      DropOfAppend(delivered, [last], 1);
      BatchesSnoc(delivered[1..], last, h);
      AppendAssoc(Own(delivered[0], h), BatchesOf(delivered[1..], h), Own(last, h));
    }
  }

  lemma {:induction false} InBatches(delivered: seq<(Handle, nat)>, h: Handle, i: nat)
    ensures (h, i) in delivered <==> i in BatchesOf(delivered, h)
  {
    if delivered != [] {
      InBatches(delivered[1..], h, i);
    }
  }

  lemma DeliversNew(cfg: Settings, s: System, step: Step)
    requires ValidSettings(cfg) && Enabled(cfg, s, step) && Inv(cfg, s)
    ensures Handed(cfg, s, step).Some? ==> Handed(cfg, s, step).value !in s.delivered
  {
    if Handed(cfg, s, step).Some? {
      KeepDeliveredOnce(cfg, s, step);
      var d, s' := Handed(cfg, s, step).value, Next(cfg, s, step);
      assert forall k :: 0 <= k < |s.delivered| ==> s'.delivered[k] == s.delivered[k];
      assert s'.delivered[|s.delivered|] == d;
    }
  }

  lemma HandedIsPopped(cfg: Settings, s: System, step: Step)
    requires ValidSettings(cfg) && Enabled(cfg, s, step) && Inv(cfg, s) && Handed(cfg, s, step).Some?
    ensures var (h, i) := Handed(cfg, s, step).value; i <= |BookOf(s, h).popped|
  {
    match step
    case Deliver(t) => assert HeldBy(s, t, PcOf(s, t).h, PcOf(s, t).batch);
    case WorkerDeliver(h) => assert InValmap(s, h, s.valmap[h]);
    case _ =>
  }

  /** What is popped and not in flight has been through Processing, and the other way round. */
  lemma OldestIsRest(cfg: Settings, s: System, h: Handle, i: nat)
    requires ValidSettings(cfg) && Inv(cfg, s) && i <= |BookOf(s, h).popped|
    ensures Oldest(s, h, i) <==> forall j: nat :: j < i ==> (h, j) in s.delivered
  {
    forall j: nat | j < i
      ensures InFlight(s, h, j) <==> (h, j) !in s.delivered
    {
      assert IsPopped(s, h, j);
      assert Done(s, h, j) <==> (h, j) in s.delivered;
    }
  }

  /** One step keeps a handle in pop order iff it was in order and the step hands over no batch before an
      older one in flight. */
  lemma StepKeepsOrder(cfg: Settings, s: System, step: Step, h: Handle)
    requires ValidSettings(cfg) && Enabled(cfg, s, step) && Inv(cfg, s)
    ensures InOrder(Next(cfg, s, step), h) <==> InOrder(s, h) && StepInOrder(cfg, s, step, h)
  {
    DeliversNew(cfg, s, step);
    var d := Handed(cfg, s, step);
    if d.Some? {
      BatchesSnoc(s.delivered, d.value, h);
      if d.value.0 == h {
        HandedIsPopped(cfg, s, step);
        OldestIsRest(cfg, s, h, d.value.1);
        SnocInOrder(s.delivered, h, d.value.1);
      } else {
        assert BatchesOf(s.delivered, h) + [] == BatchesOf(s.delivered, h);
      }
    }
  }

  lemma SnocInOrder(delivered: seq<(Handle, nat)>, h: Handle, i: nat)
    requires (h, i) !in delivered
    ensures Ascending(BatchesOf(delivered, h) + [i]) <==>
              Ascending(BatchesOf(delivered, h)) && forall j: nat :: j < i ==> (h, j) in delivered
  {
    var batches := BatchesOf(delivered, h);
    var n := |batches|;
    InBatches(delivered, h, i);
    InBatches(delivered, h, n);
    if Ascending(batches) {
      AscendingMember(batches, i);
      AscendingMember(batches, n);
      forall j: nat | j < n
        ensures (h, j) in delivered
      {
        InBatches(delivered, h, j);
        AscendingMember(batches, j);
      }
    }
    if Ascending(batches + [i]) {
      assert forall k :: 0 <= k < n ==> (batches + [i])[k] == batches[k];
      assert (batches + [i])[n] == i;
    }
  }

  lemma AscendingMember(batches: seq<nat>, i: nat)
    requires Ascending(batches)
    ensures i in batches <==> i < |batches|
  {
    if i < |batches| {
      assert batches[i] == i;
    }
  }

  ghost predicate RunInOrder(cfg: Settings, s: System, steps: seq<Step>, h: Handle)
    requires ValidSettings(cfg) && IsRun(cfg, s, steps)
    decreases |steps|
  {
    steps == [] || (StepInOrder(cfg, s, steps[0], h) && RunInOrder(cfg, Next(cfg, s, steps[0]), steps[1..], h))
  }

  /** Over any run: Processing gets a handle's batches in pop order iff every delivery takes the oldest
      batch of the handle that is still in flight. */
  lemma {:induction false} InOrderIff(cfg: Settings, s: System, steps: seq<Step>, h: Handle)
    requires ValidSettings(cfg) && Inv(cfg, s) && IsRun(cfg, s, steps)
    ensures InOrder(After(cfg, s, steps), h) <==> InOrder(s, h) && RunInOrder(cfg, s, steps, h)
    decreases |steps|
  {
    if steps != [] {
      StepKeepsOrder(cfg, s, steps[0], h);
      KeepInv(cfg, s);
      InOrderIff(cfg, Next(cfg, s, steps[0]), steps[1..], h);
    }
  }

  // ---- When order is kept ----

  ghost predicate NoneInFlight(s: System, h: Handle) {
    forall i: nat :: !InFlight(s, h, i)
  }

  /** The step takes a batch off this handle's stack, other than at shutdown. */
  ghost predicate Pops(cfg: Settings, s: System, step: Step, h: Handle)
    requires ValidSettings(cfg) && Enabled(cfg, s, step)
  {
    ChangeOf(cfg, s, step) == Some((h, Change.Popped)) && BookOf(s, h).stack != []
  }

  /** The handle is popped only while none of its batches is in flight. */
  ghost predicate PopsAlone(cfg: Settings, s: System, steps: seq<Step>, h: Handle)
    requires ValidSettings(cfg) && IsRun(cfg, s, steps)
    decreases |steps|
  {
    steps == [] || ((Pops(cfg, s, steps[0], h) ==> NoneInFlight(s, h))
        && PopsAlone(cfg, Next(cfg, s, steps[0]), steps[1..], h))
  }

  ghost predicate AtMostOne(s: System, h: Handle) {
    forall i: nat, j: nat :: InFlight(s, h, i) && InFlight(s, h, j) ==> i == j
  }

  /** A batch in flight was so before, or has just been popped. */
  lemma NewInFlight(cfg: Settings, s: System, step: Step, h: Handle, i: nat)
    requires ValidSettings(cfg) && Enabled(cfg, s, step) && InFlight(Next(cfg, s, step), h, i)
    ensures InFlight(s, h, i) || (Pops(cfg, s, step, h) && i == |BookOf(s, h).popped|)
  {
    var s' := Next(cfg, s, step);
    if Held(s', h, i) {
      var t :| HeldBy(s', t, h, i);
      assert HeldBy(s, t, h, i) || step == PopStack(t);
    } else {
      assert InValmap(s', h, i);
      assert InValmap(s, h, i) || step.WorkerPop?;
    }
  }

  lemma KeepAtMostOne(cfg: Settings, s: System, step: Step, h: Handle)
    requires ValidSettings(cfg) && Enabled(cfg, s, step) && AtMostOne(s, h)
    requires Pops(cfg, s, step, h) ==> NoneInFlight(s, h)
    ensures AtMostOne(Next(cfg, s, step), h)
  {
    var s' := Next(cfg, s, step);
    forall i: nat, j: nat | InFlight(s', h, i) && InFlight(s', h, j)
      ensures i == j
    {
      NewInFlight(cfg, s, step, h, i);
      NewInFlight(cfg, s, step, h, j);
    }
  }

  /** With one batch in flight at most, the one handed over is the oldest. */
  lemma OneIsOldest(cfg: Settings, s: System, step: Step, h: Handle)
    requires ValidSettings(cfg) && Enabled(cfg, s, step) && AtMostOne(s, h) && PhaseInv(s) && WorkerInv(s)
    ensures StepInOrder(cfg, s, step, h)
  {
    match step
    case Deliver(t) =>
      assert HeldBy(s, t, PcOf(s, t).h, PcOf(s, t).batch);
      assert InFlight(s, PcOf(s, t).h, PcOf(s, t).batch);
    case WorkerDeliver(k) =>
      assert InValmap(s, k, s.valmap[k]);
      assert InFlight(s, k, s.valmap[k]);
    case CloseHandle(k) =>
      assert AllIdle(s) && s.valmap == map[];
    case _ =>
  }

  /** A run that pops a handle only while none of its batches is in flight keeps the order. */
  lemma {:induction false} PopsAloneInOrder(cfg: Settings, s: System, steps: seq<Step>, h: Handle)
    requires ValidSettings(cfg) && IsRun(cfg, s, steps) && PopsAlone(cfg, s, steps, h)
    requires Inv(cfg, s) && AtMostOne(s, h)
    ensures RunInOrder(cfg, s, steps, h)
    decreases |steps|
  {
    if steps != [] {
      OneIsOldest(cfg, s, steps[0], h);
      KeepAtMostOne(cfg, s, steps[0], h);
      KeepInv(cfg, s);
      PopsAloneInOrder(cfg, Next(cfg, s, steps[0]), steps[1..], h);
    }
  }

  predicate On(pc: Pc, h: Handle) {
    !pc.Idle? && pc.h == h
  }

  /** Writes and closes on the handle begin only when no thread is inside one, its delivery included. */
  ghost predicate Solo(cfg: Settings, s: System, steps: seq<Step>, h: Handle)
    requires ValidSettings(cfg) && IsRun(cfg, s, steps)
    decreases |steps|
  {
    steps == [] ||
    (((steps[0].BeginPush? || steps[0].BeginClose?) && steps[0].h == h ==> forall t :: !On(PcOf(s, t), h)) &&
     Solo(cfg, Next(cfg, s, steps[0]), steps[1..], h))
  }

  /** No worker, and one thread at most on the handle. */
  ghost predicate Quiet(s: System, h: Handle) {
    && s.worker == Exited && s.valmap == map[]
    && forall t, u :: On(PcOf(s, t), h) && On(PcOf(s, u), h) ==> t == u
  }

  lemma NewOn(cfg: Settings, s: System, step: Step, h: Handle, t: Thread)
    requires ValidSettings(cfg) && Enabled(cfg, s, step) && On(PcOf(Next(cfg, s, step), t), h)
    ensures On(PcOf(s, t), h) || ((step.BeginPush? || step.BeginClose?) && step.h == h && step.t == t)
  {
  }

  lemma KeepQuiet(cfg: Settings, s: System, step: Step, h: Handle)
    requires ValidSettings(cfg) && Enabled(cfg, s, step) && Quiet(s, h)
    requires (step.BeginPush? || step.BeginClose?) && step.h == h ==> forall t :: !On(PcOf(s, t), h)
    ensures Quiet(Next(cfg, s, step), h)
    ensures Pops(cfg, s, step, h) ==> NoneInFlight(s, h)
  {
    var s' := Next(cfg, s, step);
    forall t, u | On(PcOf(s', t), h) && On(PcOf(s', u), h)
      ensures t == u
    {
      NewOn(cfg, s, step, h, t);
      NewOn(cfg, s, step, h, u);
    }
    if Pops(cfg, s, step, h) {
      forall i: nat, t
        ensures !HeldBy(s, t, h, i)
      {
        assert On(PcOf(s, step.t), h);
      }
    }
  }

  /** Without a worker and with one thread at a time on a handle, it is popped only while none of its batches
      is in flight. */
  lemma {:induction false} SoloPopsAlone(cfg: Settings, s: System, steps: seq<Step>, h: Handle)
    requires ValidSettings(cfg) && IsRun(cfg, s, steps) && Solo(cfg, s, steps, h) && Quiet(s, h)
    ensures PopsAlone(cfg, s, steps, h)
    decreases |steps|
  {
    if steps != [] {
      KeepQuiet(cfg, s, steps[0], h);
      SoloPopsAlone(cfg, Next(cfg, s, steps[0]), steps[1..], h);
    }
  }
}
