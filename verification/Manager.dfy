/** K2hFtManage: FUSE threads, the time-up worker and shutdown, one atomic step per lock-held region. */
module Manager {
  import opened Bytes
  import opened Wire
  import opened PushSpec
  import opened History

  type Handle = nat
  type Thread = nat

  /** `par` gives the rule of each file handle; `lineMax` is StackLineMax. */
  datatype Settings = Settings(par: Handle -> Params, lineMax: nat)

  ghost predicate ValidSettings(cfg: Settings) {
    forall h :: ValidParams(cfg.par(h))
  }

  /** One write buffer, with its history: the pushes begun on it, the lines ever stacked, the batches popped. */
  datatype Book = Book(bufs: Bufs, stack: seq<Tagged>, events: seq<Event>, stacked: seq<Tagged>,
      popped: seq<seq<Tagged>>)

  const NEW_BOOK := Book(map[], [], [], [], [])

  /** Where a FUSE thread is inside `Push` or `Close`. */
  datatype Pc =
    | Idle
    | Adding(h: Handle, pid: Client, todo: seq<string>, force: bool)  // inside K2hFtWriteBuff::Push
    | FastCheck(h: Handle)                                         // IsStackLimit, the read without a lock
    | LockedCheck(h: Handle)                                       // IsStackLimit, under the stack lock
    | Popping(h: Handle)
    | Delivering(h: Handle, batch: nat)                            // popped, not yet through Processing

  /** The worker holds the map lock in the four scanning states. */
  datatype Worker =
    | Waiting
    | Scanning(rest: seq<Handle>)
    | ScanFast(h: Handle, rest: seq<Handle>)
    | ScanLocked(h: Handle, rest: seq<Handle>)
    | ScanPop(h: Handle, rest: seq<Handle>)
    | Draining
    | Exited

  datatype Phase = Open | Joining | Closing | Closed

  datatype System = System(
    books: map<Handle, Book>,
    open: set<Handle>,               // the keys of wbstackmap
    pcs: map<Thread, Pc>,
    worker: Worker,
    valmap: map<Handle, nat>,        // batches the worker has popped in this round
    running: bool,                   // run_thread
    phase: Phase,
    delivered: seq<(Handle, nat)>)   // batches in the order Processing got them

  function BookOf(s: System, h: Handle): Book {
    if h in s.books then s.books[h] else NEW_BOOK
  }

  function PcOf(s: System, t: Thread): Pc {
    if t in s.pcs then s.pcs[t] else Idle
  }

  /** Without a worker (time-up 0) it has exited at once. */
  function Init(withWorker: bool): System {
    System(map[], {}, map[], if withWorker then Waiting else Exited, map[], true, Open, [])
  }

  predicate HoldsMapLock(w: Worker) {
    w.Scanning? || w.ScanFast? || w.ScanLocked? || w.ScanPop?
  }

  predicate AddsFor(pc: Pc, h: Handle, pid: Pid) {
    pc.Adding? && pc.h == h && pc.pid == pid
  }

  // ---- Steps ----

  datatype Step =
    | BeginPush(t: Thread, h: Handle, pid: Client, chunk: string)
    | BeginClose(t: Thread, h: Handle, pid: Client)
    | StackOne(t: Thread)
    | DoneAdding(t: Thread)
    | FastRead(t: Thread)
    | LockedRead(t: Thread, late: bool)
    | PopStack(t: Thread)
    | Deliver(t: Thread)
    | WorkerWake(order: seq<Handle>)
    | WorkerNext
    | WorkerFast
    | WorkerLocked(late: bool)
    | WorkerPop
    | WorkerDeliver(h: Handle)
    | WorkerRest
    | Stop
    | Join
    | CloseHandle(h: Handle)
    | Finish

  ghost predicate MayBegin(s: System, t: Thread, h: Handle, pid: Pid) {
    && s.phase == Open && PcOf(s, t) == Idle && !HoldsMapLock(s.worker)
    && (forall u :: !AddsFor(PcOf(s, u), h, pid))
  }

  /** FUSE calls one process's writes on one handle one at a time, and none once shutdown has begun. */
  ghost predicate Enabled(cfg: Settings, s: System, step: Step) {
    match step
    case BeginPush(t, h, pid, chunk) => MayBegin(s, t, h, pid)
    case BeginClose(t, h, pid) => MayBegin(s, t, h, pid)
    case StackOne(t) => PcOf(s, t).Adding? && PcOf(s, t).todo != []
    case DoneAdding(t) => PcOf(s, t).Adding? && PcOf(s, t).todo == []
    case FastRead(t) => PcOf(s, t).FastCheck?
    case LockedRead(t, late) => PcOf(s, t).LockedCheck?
    case PopStack(t) => PcOf(s, t).Popping?
    case Deliver(t) => PcOf(s, t).Delivering?
    case WorkerWake(order) => s.worker.Waiting? && s.running && Lists(order, s.open)
    case WorkerNext => s.worker.Scanning?
    case WorkerFast => s.worker.ScanFast?
    case WorkerLocked(late) => s.worker.ScanLocked?
    case WorkerPop => s.worker.ScanPop?
    case WorkerDeliver(h) => s.worker.Draining? && h in s.valmap
    case WorkerRest => (s.worker.Draining? && s.valmap == map[]) || (s.worker.Waiting? && !s.running)
    case Stop => s.phase == Open && forall u :: PcOf(s, u) == Idle
    case Join => s.phase == Joining && s.worker.Exited?
    case CloseHandle(h) => s.phase == Closing && h in s.open
    case Finish => s.phase == Closing && s.open == {}
  }

  ghost predicate Lists(order: seq<Handle>, open: set<Handle>) {
    Distinct(order) && forall h :: h in order <==> h in open
  }

  // What a step does, field by field.

  /** What happens to one write buffer. */
  datatype Change = Began(pid: Client, chunk: string) | Gained(line: Tagged) | Popped | Flushed

  /** The lines ready to be stacked when a chunk has been cut on the process's own buffer. */
  function CutLines(par: Params, b: Book, pid: Client, chunk: string): seq<string>
    requires ValidParams(par)
  {
    AcceptAll(par, CutBy(par, Get(b.bufs, pid), chunk).lines)
  }

  /** The batch popped from a book, if its stack holds anything. */
  function PopBook(b: Book): Book {
    if b.stack == [] then b else b.(stack := [], popped := b.popped + [b.stack])
  }

  /** Every process flushed onto the stack. */
  ghost function FlushBook(par: Params, b: Book): Book
    requires ValidParams(par)
  {
    var flushed := FlushAll(par, b.bufs, "");
    b.(bufs := map[], stack := b.stack + flushed, stacked := b.stacked + flushed, events := b.events + [FlushEvery])
  }

  ghost function ChangedBook(par: Params, b: Book, c: Change): Book
    requires ValidParams(par)
  {
    match c
    case Began(pid, chunk) =>
      b.(bufs := b.bufs[pid := CutBy(par, Get(b.bufs, pid), chunk).rest], events := b.events + [Data(pid, chunk)])
    case Gained(line) => b.(stack := b.stack + [line], stacked := b.stacked + [line])
    case Popped => PopBook(b)
    case Flushed => PopBook(FlushBook(par, b))
  }

  ghost function ChangeOf(cfg: Settings, s: System, step: Step): Option<(Handle, Change)>
    requires ValidSettings(cfg) && Enabled(cfg, s, step)
  {
    match step
    case BeginPush(t, h, pid, chunk) => Some((h, Began(pid, chunk)))
    case BeginClose(t, h, pid) => if h in s.open then Some((h, Began(pid, ""))) else None
    case StackOne(t) => Some((PcOf(s, t).h, Gained(Tagged(PcOf(s, t).pid, PcOf(s, t).todo[0]))))
    case PopStack(t) => Some((PcOf(s, t).h, Popped))
    case WorkerPop => Some((s.worker.h, Popped))
    case CloseHandle(h) => Some((h, Flushed))
    case _ => None
  }

  ghost function NextBooks(cfg: Settings, s: System, step: Step): map<Handle, Book>
    requires ValidSettings(cfg) && Enabled(cfg, s, step)
  {
    match ChangeOf(cfg, s, step)
    case None => s.books
    case Some((h, c)) => s.books[h := ChangedBook(cfg.par(h), BookOf(s, h), c)]
  }

  /** IsStackLimit under the lock: `late` says whether the oldest line has timed out. */
  predicate OverLimit(cfg: Settings, count: nat, late: bool) {
    if count == 0 then false else if count <= cfg.lineMax then late else true
  }

  /** A step of a FUSE thread. */
  predicate OfThread(step: Step) {
    step.BeginPush? || step.BeginClose? || step.StackOne? || step.DoneAdding?
    || step.FastRead? || step.LockedRead? || step.PopStack? || step.Deliver?
  }

  ghost function NextPc(cfg: Settings, s: System, step: Step): Pc
    requires ValidSettings(cfg) && Enabled(cfg, s, step) && OfThread(step)
  {
    var pc := PcOf(s, step.t);
    match step
    case BeginPush(t, h, pid, chunk) => Adding(h, pid, CutLines(cfg.par(h), BookOf(s, h), pid, chunk), false)
    case BeginClose(t, h, pid) =>
      if h in s.open then Adding(h, pid, CutLines(cfg.par(h), BookOf(s, h), pid, ""), true) else Idle
    case StackOne(t) => pc.(todo := pc.todo[1..])
    case DoneAdding(t) => if pc.force then Popping(pc.h) else FastCheck(pc.h)
    case FastRead(t) => if cfg.lineMax < |BookOf(s, pc.h).stack| then Popping(pc.h) else LockedCheck(pc.h)
    case LockedRead(t, late) => if OverLimit(cfg, |BookOf(s, pc.h).stack|, late) then Popping(pc.h) else Idle
    case PopStack(t) => if BookOf(s, pc.h).stack == [] then Idle else Delivering(pc.h, |BookOf(s, pc.h).popped|)
    case Deliver(t) => Idle
  }

  ghost function NextWorker(cfg: Settings, s: System, step: Step): Worker
    requires ValidSettings(cfg) && Enabled(cfg, s, step)
  {
    var w := s.worker;
    match step
    case WorkerWake(order) => Scanning(order)
    case WorkerNext => if w.rest == [] || !s.running then Draining else ScanFast(w.rest[0], w.rest[1..])
    case WorkerFast => if cfg.lineMax < |BookOf(s, w.h).stack| then ScanPop(w.h, w.rest) else ScanLocked(w.h, w.rest)
    case WorkerLocked(late) =>
      if OverLimit(cfg, |BookOf(s, w.h).stack|, late) then ScanPop(w.h, w.rest) else Scanning(w.rest)
    case WorkerPop => Scanning(w.rest)
    case WorkerRest => if s.running then Waiting else Exited
    case _ => w
  }

  ghost function NextValmap(cfg: Settings, s: System, step: Step): map<Handle, nat>
    requires ValidSettings(cfg) && Enabled(cfg, s, step)
  {
    match step
    case WorkerPop =>
      var h := s.worker.h;
      if BookOf(s, h).stack == [] then s.valmap else s.valmap[h := |BookOf(s, h).popped|]
    case WorkerDeliver(h) => s.valmap - {h}
    case _ => s.valmap
  }

  /** The batch a step hands to Processing. Closing pops and processes in one step: it holds the map lock and
      no other thread is left. */
  ghost function Handed(cfg: Settings, s: System, step: Step): Option<(Handle, nat)>
    requires ValidSettings(cfg) && Enabled(cfg, s, step)
  {
    match step
    case Deliver(t) => Some((PcOf(s, t).h, PcOf(s, t).batch))
    case WorkerDeliver(h) => Some((h, s.valmap[h]))
    case CloseHandle(h) =>
      if FlushBook(cfg.par(h), BookOf(s, h)).stack == [] then None else Some((h, |BookOf(s, h).popped|))
    case _ => None
  }

  function NextOpen(s: System, step: Step): set<Handle> {
    match step
    case BeginPush(t, h, pid, chunk) => s.open + {h}
    case CloseHandle(h) => s.open - {h}
    case _ => s.open
  }

  function NextPhase(s: System, step: Step): Phase {
    match step
    case Stop => Joining
    case Join => Closing
    case Finish => Closed
    case _ => s.phase
  }

  ghost function Next(cfg: Settings, s: System, step: Step): System
    requires ValidSettings(cfg) && Enabled(cfg, s, step)
  {
    System(
      NextBooks(cfg, s, step),
      NextOpen(s, step),
      if OfThread(step) then s.pcs[step.t := NextPc(cfg, s, step)] else s.pcs,
      NextWorker(cfg, s, step),
      NextValmap(cfg, s, step),
      s.running && !step.Stop?,
      NextPhase(s, step),
      match Handed(cfg, s, step) case None => s.delivered case Some(d) => s.delivered + [d])
  }

  // ---- Runs ----

  ghost predicate IsRun(cfg: Settings, s: System, steps: seq<Step>)
    requires ValidSettings(cfg)
    decreases |steps|
  {
    steps == [] || (Enabled(cfg, s, steps[0]) && IsRun(cfg, Next(cfg, s, steps[0]), steps[1..]))
  }

  ghost function After(cfg: Settings, s: System, steps: seq<Step>): System
    requires ValidSettings(cfg) && IsRun(cfg, s, steps)
    decreases |steps|
  {
    if steps == [] then s else After(cfg, Next(cfg, s, steps[0]), steps[1..])
  }

  /** The steps lead from `s` to `end`. */
  ghost predicate RunTo(cfg: Settings, s: System, steps: seq<Step>, end: System)
    requires ValidSettings(cfg)
  {
    IsRun(cfg, s, steps) && After(cfg, s, steps) == end
  }

  lemma {:induction false} Chain(cfg: Settings, s: System, a: seq<Step>, middle: System, b: seq<Step>, end: System)
    requires ValidSettings(cfg) && RunTo(cfg, s, a, middle) && RunTo(cfg, middle, b, end)
    ensures RunTo(cfg, s, a + b, end)
    decreases |a|
  {
    if a == [] {
      assert a + b == b;
    } else {
      DropOfAppend(a, b, 1);
      Chain(cfg, Next(cfg, s, a[0]), a[1..], middle, b, end);
    }
  }

  /** Some run leads from `s` to `end`. */
  ghost predicate Leads(cfg: Settings, s: System, end: System)
    requires ValidSettings(cfg)
  {
    exists steps :: RunTo(cfg, s, steps, end)
  }

  lemma LeadsNowhere(cfg: Settings, s: System)
    requires ValidSettings(cfg)
    ensures Leads(cfg, s, s)
  {
    assert RunTo(cfg, s, [], s);
  }

  lemma LeadsBy(cfg: Settings, s: System, step: Step)
    requires ValidSettings(cfg) && Enabled(cfg, s, step)
    ensures Leads(cfg, s, Next(cfg, s, step))
  {
    var steps, next := [step], Next(cfg, s, step);
    assert steps[0] == step && steps[1..] == [];
    assert IsRun(cfg, next, []) && After(cfg, next, []) == next;
    assert IsRun(cfg, s, steps);
    assert RunTo(cfg, s, steps, next);
  }

  lemma LeadsOn(cfg: Settings, s: System, middle: System, end: System)
    requires ValidSettings(cfg) && Leads(cfg, s, middle) && Leads(cfg, middle, end)
    ensures Leads(cfg, s, end)
  {
    var a :| RunTo(cfg, s, a, middle);
    var b :| RunTo(cfg, middle, b, end);
    Chain(cfg, s, a, middle, b, end);
  }

  // ---- Invariant 1: popped batches and the stack make up all lines ever stacked, in order ----

  predicate Balanced(b: Book) {
    Flatten(b.popped) + b.stack == b.stacked
  }

  ghost predicate BooksBalanced(s: System) {
    forall h :: h in s.books ==> Balanced(s.books[h])
  }

  lemma PopKeepsBalance(b: Book)
    requires Balanced(b)
    ensures Balanced(PopBook(b))
  {
    FlattenSnoc(b.popped, b.stack);
    assert b.stacked + [] == b.stacked;
  }

  lemma AddKeepsBalance(b: Book, lines: seq<Tagged>)
    requires Balanced(b)
    ensures Balanced(b.(stack := b.stack + lines, stacked := b.stacked + lines))
  {
    AppendAssoc(Flatten(b.popped), b.stack, lines);
  }

  lemma ChangeKeepsBalance(par: Params, b: Book, c: Change)
    requires ValidParams(par) && Balanced(b)
    ensures Balanced(ChangedBook(par, b, c))
  {
    match c
    case Gained(line) => AddKeepsBalance(b, [line]);
    case Popped => PopKeepsBalance(b);
    case Flushed =>
      AddKeepsBalance(b, FlushAll(par, b.bufs, ""));
      PopKeepsBalance(FlushBook(par, b));
    case _ =>
  }

  lemma KeepBalance(cfg: Settings, s: System, step: Step)
    requires ValidSettings(cfg) && Enabled(cfg, s, step) && BooksBalanced(s)
    ensures BooksBalanced(Next(cfg, s, step))
  {
    forall h | h in NextBooks(cfg, s, step)
      ensures Balanced(NextBooks(cfg, s, step)[h])
    {
      match ChangeOf(cfg, s, step)
      case None =>
      case Some((k, c)) =>
        if h == k {
          ChangeKeepsBalance(cfg.par(h), BookOf(s, h), c);
        }
    }
  }
}
