/** Stacks do not wait for ever: what the worker's round, a push and a close take off them. */
module ManagerRound {
  import opened Bytes
  import opened PushSpec
  import opened Manager

  // ---- One check ----

  /** The worker goes on to pop a handle iff its stack is over the limit, or holds lines of which the oldest has
      timed out. */
  lemma WorkerTakesIff(cfg: Settings, s: System, step: Step)
    requires ValidSettings(cfg) && Enabled(cfg, s, step)
    ensures step.WorkerFast? ==>
              var h, rest, n := s.worker.h, s.worker.rest, |BookOf(s, s.worker.h).stack|;
              NextWorker(cfg, s, step) == if n > cfg.lineMax then ScanPop(h, rest) else ScanLocked(h, rest)
    ensures step.WorkerLocked? ==>
              var h, rest, n := s.worker.h, s.worker.rest, |BookOf(s, s.worker.h).stack|;
              NextWorker(cfg, s, step) ==
                if n > cfg.lineMax || (step.late && n > 0) then ScanPop(h, rest) else Scanning(rest)
  {
  }

  /** So does a thread after a push; after a close it pops without a check. */
  lemma ThreadTakesIff(cfg: Settings, s: System, step: Step)
    requires ValidSettings(cfg) && Enabled(cfg, s, step)
    ensures step.DoneAdding? ==>
              var pc := PcOf(s, step.t);
              NextPc(cfg, s, step) == if pc.force then Popping(pc.h) else FastCheck(pc.h)
    ensures step.FastRead? ==>
              var h := PcOf(s, step.t).h;
              NextPc(cfg, s, step) == if |BookOf(s, h).stack| > cfg.lineMax then Popping(h) else LockedCheck(h)
    ensures step.LockedRead? ==>
              var h, n := PcOf(s, step.t).h, |BookOf(s, PcOf(s, step.t).h).stack|;
              NextPc(cfg, s, step) == if n > cfg.lineMax || (step.late && n > 0) then Popping(h) else Idle
  {
  }

  // ---- What has been popped stays popped ----

  /** These lines, stacked on the handle first, have all been popped. */
  predicate Taken(s: System, h: Handle, lines: seq<Tagged>) {
    lines <= Flatten(BookOf(s, h).popped)
  }

  predicate WereStacked(s: System, h: Handle, lines: seq<Tagged>) {
    lines <= BookOf(s, h).stacked
  }

  lemma BookKeeps(par: Params, b: Book, c: Change)
    requires ValidParams(par)
    ensures b.stacked <= ChangedBook(par, b, c).stacked
    ensures Flatten(b.popped) <= Flatten(ChangedBook(par, b, c).popped)
  {
    FlattenSnoc(b.popped, b.stack);
    FlattenSnoc(b.popped, FlushBook(par, b).stack);
  }

  lemma BookChanges(cfg: Settings, s: System, step: Step, h: Handle)
    requires ValidSettings(cfg) && Enabled(cfg, s, step)
    ensures var change := ChangeOf(cfg, s, step);
            BookOf(Next(cfg, s, step), h) ==
              if change.Some? && change.value.0 == h then ChangedBook(cfg.par(h), BookOf(s, h), change.value.1)
              else BookOf(s, h)
  {
    var books := NextBooks(cfg, s, step);
    assert BookOf(Next(cfg, s, step), h) == if h in books then books[h] else NEW_BOOK;
  }

  lemma BookAfter(cfg: Settings, s: System, step: Step, h: Handle)
    requires ValidSettings(cfg) && Enabled(cfg, s, step)
    ensures var b, after := BookOf(s, h), BookOf(Next(cfg, s, step), h);
            b.stacked <= after.stacked && Flatten(b.popped) <= Flatten(after.popped)
  {
    BookChanges(cfg, s, step, h);
    var change := ChangeOf(cfg, s, step);
    if change.Some? {
      BookKeeps(cfg.par(h), BookOf(s, h), change.value.1);
    }
  }

  lemma StepKeeps(cfg: Settings, s: System, step: Step, h: Handle, lines: seq<Tagged>)
    requires ValidSettings(cfg) && Enabled(cfg, s, step)
    ensures WereStacked(s, h, lines) ==> WereStacked(Next(cfg, s, step), h, lines)
    ensures Taken(s, h, lines) ==> Taken(Next(cfg, s, step), h, lines)
  {
    BookAfter(cfg, s, step, h);
  }

  lemma BookBalanced(s: System, h: Handle)
    requires BooksBalanced(s)
    ensures Balanced(BookOf(s, h))
  {
  }

  /** With an empty stack everything has been popped. */
  lemma EmptyIsTaken(s: System, h: Handle, lines: seq<Tagged>)
    requires BooksBalanced(s) && WereStacked(s, h, lines) && BookOf(s, h).stack == []
    ensures Taken(s, h, lines)
  {
    BookBalanced(s, h);
    assert Flatten(BookOf(s, h).popped) + [] == Flatten(BookOf(s, h).popped);
  }

  lemma PopTakes(cfg: Settings, s: System, step: Step, h: Handle, lines: seq<Tagged>)
    requires ValidSettings(cfg) && Enabled(cfg, s, step) && ChangeOf(cfg, s, step) == Some((h, Change.Popped))
    requires BooksBalanced(s) && WereStacked(s, h, lines)
    ensures Taken(Next(cfg, s, step), h, lines)
  {
    KeepBalance(cfg, s, step);
    StepKeeps(cfg, s, step, h, lines);
    EmptyIsTaken(Next(cfg, s, step), h, lines);
  }

  // ---- A round of the worker ----

  /** The handle is still to be checked or popped in this round. */
  predicate Ahead(w: Worker, h: Handle) {
    match w
    case Scanning(rest) => h in rest
    case ScanFast(k, rest) => k == h || h in rest
    case ScanLocked(k, rest) => k == h || h in rest
    case ScanPop(k, rest) => k == h || h in rest
    case _ => false
  }

  /** Whenever the worker looks at this handle under the lock, its oldest line has timed out. */
  ghost predicate FindsLate(cfg: Settings, s: System, steps: seq<Step>, h: Handle)
    requires ValidSettings(cfg) && IsRun(cfg, s, steps)
    decreases |steps|
  {
    steps == [] ||
    ((steps[0].WorkerLocked? && s.worker.h == h ==> steps[0].late)
        && FindsLate(cfg, Next(cfg, s, steps[0]), steps[1..], h))
  }

  lemma AheadOrTaken(cfg: Settings, s: System, step: Step, h: Handle, lines: seq<Tagged>)
    requires ValidSettings(cfg) && Enabled(cfg, s, step) && BooksBalanced(s) && s.running
    requires WereStacked(s, h, lines) && (Ahead(s.worker, h) || Taken(s, h, lines))
    requires step.WorkerLocked? && s.worker.h == h ==> step.late
    ensures Ahead(NextWorker(cfg, s, step), h) || Taken(Next(cfg, s, step), h, lines)
  {
    StepKeeps(cfg, s, step, h, lines);
    WorkerTakesIff(cfg, s, step);
    if Ahead(s.worker, h) && !Taken(s, h, lines) {
      match step
      case WorkerNext =>
        var rest := s.worker.rest;
        assert rest == [rest[0]] + rest[1..];
      case WorkerLocked(late) =>
        if s.worker.h == h && BookOf(s, h).stack == [] {
          EmptyIsTaken(s, h, lines);
        }
      case WorkerPop =>
        if s.worker.h == h {
          PopTakes(cfg, s, step, h, lines);
        }
      case _ =>
    }
  }

  lemma {:induction false} RoundTakesAhead(cfg: Settings, s: System, steps: seq<Step>, h: Handle, lines: seq<Tagged>)
    requires ValidSettings(cfg) && IsRun(cfg, s, steps) && BooksBalanced(s) && After(cfg, s, steps).running
    requires WereStacked(s, h, lines) && (Ahead(s.worker, h) || Taken(s, h, lines)) && FindsLate(cfg, s, steps, h)
    requires !Ahead(After(cfg, s, steps).worker, h)
    ensures Taken(After(cfg, s, steps), h, lines)
    decreases |steps|
  {
    if steps != [] {
      StillRunning(cfg, s, steps);
      AheadOrTaken(cfg, s, steps[0], h, lines);
      StepKeeps(cfg, s, steps[0], h, lines);
      KeepBalance(cfg, s, steps[0]);
      RoundTakesAhead(cfg, Next(cfg, s, steps[0]), steps[1..], h, lines);
    }
  }

  lemma {:induction false} StillRunning(cfg: Settings, s: System, steps: seq<Step>)
    requires ValidSettings(cfg) && IsRun(cfg, s, steps) && After(cfg, s, steps).running
    ensures s.running
    decreases |steps|
  {
    if steps != [] {
      StillRunning(cfg, Next(cfg, s, steps[0]), steps[1..]);
    }
  }

  /** A round leaves nothing behind: when the worker has scanned the open handles, every line that was on a
      handle's stack when it woke has been popped, if the oldest line had timed out whenever it looked, whatever
      the threads do meanwhile and as long as shutdown has not begun. */
  lemma RoundTakes(cfg: Settings, s: System, order: seq<Handle>, steps: seq<Step>, h: Handle)
    requires ValidSettings(cfg) && BooksBalanced(s) && Enabled(cfg, s, WorkerWake(order)) && h in s.open
    requires var woken := Next(cfg, s, WorkerWake(order));
             && IsRun(cfg, woken, steps) && FindsLate(cfg, woken, steps, h)
             && After(cfg, woken, steps).running && After(cfg, woken, steps).worker == Draining
    ensures BookOf(s, h).stacked <= Flatten(BookOf(After(cfg, Next(cfg, s, WorkerWake(order)), steps), h).popped)
  {
    var woken := Next(cfg, s, WorkerWake(order));
    assert h in order;
    RoundTakesAhead(cfg, woken, steps, h, BookOf(s, h).stacked);
  }

  // ---- A close ----

  /** The thread has closed the handle and is still to pop it. */
  predicate Closing(pc: Pc, h: Handle) {
    (pc.Adding? && pc.h == h && pc.force) || pc == Popping(h)
  }

  lemma ClosingOrTaken(cfg: Settings, s: System, step: Step, t: Thread, h: Handle, lines: seq<Tagged>)
    requires ValidSettings(cfg) && Enabled(cfg, s, step) && BooksBalanced(s)
    requires WereStacked(s, h, lines) && (Closing(PcOf(s, t), h) || Taken(s, h, lines))
    ensures Closing(PcOf(Next(cfg, s, step), t), h) || Taken(Next(cfg, s, step), h, lines)
  {
    StepKeeps(cfg, s, step, h, lines);
    if OfThread(step) && step.t == t && !Taken(s, h, lines) {
      ThreadTakesIff(cfg, s, step);
      if step.PopStack? {
        PopTakes(cfg, s, step, h, lines);
      }
    }
  }

  /** A close leaves nothing behind either: once its thread has gone home, every line that was on the stack at
      any moment while it was adding has been popped, its own forced lines among them. */
  lemma {:induction false} CloseTakes(cfg: Settings, s: System, steps: seq<Step>, t: Thread, h: Handle,
                                      lines: seq<Tagged>)
    requires ValidSettings(cfg) && IsRun(cfg, s, steps) && BooksBalanced(s)
    requires WereStacked(s, h, lines) && (Closing(PcOf(s, t), h) || Taken(s, h, lines))
    requires PcOf(After(cfg, s, steps), t) == Idle
    ensures lines <= Flatten(BookOf(After(cfg, s, steps), h).popped)
    decreases |steps|
  {
    if steps != [] {
      ClosingOrTaken(cfg, s, steps[0], t, h, lines);
      StepKeeps(cfg, s, steps[0], h, lines);
      KeepBalance(cfg, s, steps[0]);
      CloseTakes(cfg, Next(cfg, s, steps[0]), steps[1..], t, h, lines);
    }
  }
}
