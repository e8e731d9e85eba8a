/** A run in which a handle's batches reach Processing out of pop order, state by state. */
module ManagerExample {
  import opened Bytes
  import opened Splitter
  import opened PushSpec
  import opened History
  import opened Manager
  import opened ManagerOrder

  const RULE := Params(false, 81920, 0, l => Some(l))
  const DEMO := Settings((h: Handle) => RULE, 1)
  const FIRST := Tagged(10, "a\n\0")
  const SECOND := Tagged(10, "b\n\0")
  const THIRD := Tagged(10, "c\n\0")

  const ONE := [Data(10, "a\n")]
  const BOTH := [Data(10, "a\n"), Data(10, "b\nc\n")]

  /** The one handle's buffer; its process has nothing left unfinished. */
  function Buffer(stack: seq<Tagged>, events: seq<Event>, stacked: seq<Tagged>, popped: seq<seq<Tagged>>): Book {
    Book(map[10 := ""], stack, events, stacked, popped)
  }

  /** One handle, one process, one thread. */
  function State(b: Book, pc: Pc, worker: Worker, valmap: map<Handle, nat>, delivered: seq<(Handle, nat)>): System {
    System(map[1 := b], {1}, map[0 := pc], worker, valmap, true, Open, delivered)
  }

  /** Some run leads to this state. */
  ghost predicate Reached(s: System) {
    Leads(DEMO, Init(true), s)
  }

  lemma Do(s: System, step: Step, next: System)
    requires Reached(s) && Enabled(DEMO, s, step) && Next(DEMO, s, step) == next
    ensures Reached(next)
  {
    LeadsBy(DEMO, s, step);
    LeadsOn(DEMO, Init(true), s, next);
  }

  /** The buffer after a step, if the step changes it. */
  ghost function BufferAfter(s: System, step: Step): Book
    requires Enabled(DEMO, s, step)
  {
    match ChangeOf(DEMO, s, step)
    case None => BookOf(s, 1)
    case Some((h, c)) => ChangedBook(RULE, BookOf(s, 1), c)
  }

  /** A step of the thread leads from `s` to `next`. */
  ghost predicate ByThread(s: System, step: Step, next: System) {
    && Enabled(DEMO, s, step) && OfThread(step) && step.t == 0
    && s.books.Keys <= {1} && s.pcs.Keys <= {0} && NextOpen(s, step) == {1} && s.running && s.phase == Open
    && (if ChangeOf(DEMO, s, step).Some? then ChangeOf(DEMO, s, step).value.0 == 1 else 1 in s.books)
    && next == State(BufferAfter(s, step), NextPc(DEMO, s, step), s.worker, s.valmap, Next(DEMO, s, step).delivered)
  }

  lemma BooksAfter(s: System, step: Step)
    requires Enabled(DEMO, s, step) && s.books.Keys <= {1}
    requires if ChangeOf(DEMO, s, step).Some? then ChangeOf(DEMO, s, step).value.0 == 1 else 1 in s.books
    ensures NextBooks(DEMO, s, step) == map[1 := BufferAfter(s, step)]
  {
  }

  lemma ThreadStep(s: System, step: Step, next: System)
    requires ByThread(s, step, next)
    ensures Next(DEMO, s, step) == next
  {
    BooksAfter(s, step);
    assert s.pcs[0 := NextPc(DEMO, s, step)] == map[0 := NextPc(DEMO, s, step)];
  }

  lemma DoThread(s: System, step: Step, next: System)
    requires Reached(s) && ByThread(s, step, next)
    ensures Reached(next)
  {
    ThreadStep(s, step, next);
    Do(s, step, next);
  }

  /** The thread begins a push of lines with nothing unfinished at either end. */
  lemma DoBegin(s: System, chunk: string, lines: seq<string>, next: System)
    requires Reached(s) && MayBegin(s, 0, 1, 10) && s.running
    requires s.books.Keys <= {1} && s.pcs.Keys <= {0} && s.open <= {1} && Get(BookOf(s, 1).bufs, 10) == ""
    requires CutBy(RULE, "", chunk) == Split(lines, "") && AcceptAll(RULE, lines) == lines
    requires var b := BookOf(s, 1);
             next == State(b.(bufs := b.bufs[10 := ""], events := b.events + [Data(10, chunk)]),
                 Adding(1, 10, lines, false),
                           s.worker, s.valmap, s.delivered)
    ensures Reached(next)
  {
    DoThread(s, BeginPush(0, 1, 10, chunk), next);
  }

  lemma CutOne(c: char, rest: string)
    requires !IsEol(c)
    ensures Cut("", [c, '\n'] + rest) == Prepend([[c, '\n', '\0']], Cut("", rest))
  {
    var data := [c, '\n'] + rest;
    assert data[..1] == [c] && data[1] == '\n' && data[..2] == [c, '\n'];
    CutAtFirst("", data, 1);
    assert data[1..][0] == '\n' && data[2..] == rest;
    assert Terminate("" + data[..2]) == [c, '\n', '\0'];
  }

  // ---- The process writes its first line ----

  const ONE_STACKED := Buffer([FIRST], ONE, [FIRST], [])

  lemma FirstLine()
    ensures Reached(State(ONE_STACKED, Idle, Waiting, map[], []))
  {
    CutDemo();
    assert [] + ONE == ONE;
    LeadsNowhere(DEMO, Init(true));
    DoBegin(Init(true), "a\n", ["a\n\0"],
                     State(Buffer([], ONE, [], []), Adding(1, 10, ["a\n\0"], false), Waiting, map[], []));
    FirstAdded();
    WithinLimit();
  }

  lemma FirstAdded()
    requires Reached(State(Buffer([], ONE, [], []), Adding(1, 10, ["a\n\0"], false), Waiting, map[], []))
    ensures Reached(State(ONE_STACKED, Adding(1, 10, [], false), Waiting, map[], []))
  {
    var begun := State(Buffer([], ONE, [], []), Adding(1, 10, ["a\n\0"], false), Waiting, map[], []);
    assert ["a\n\0"][1..] == [] && [] + [FIRST] == [FIRST];
    DoThread(begun, StackOne(0), State(ONE_STACKED, Adding(1, 10, [], false), Waiting, map[], []));
  }

  lemma WithinLimit()
    requires Reached(State(ONE_STACKED, Adding(1, 10, [], false), Waiting, map[], []))
    ensures Reached(State(ONE_STACKED, Idle, Waiting, map[], []))
  {
    var added := State(ONE_STACKED, Adding(1, 10, [], false), Waiting, map[], []);
    var first := State(ONE_STACKED, FastCheck(1), Waiting, map[], []);
    var second := State(ONE_STACKED, LockedCheck(1), Waiting, map[], []);
    DoThread(added, DoneAdding(0), first);
    DoThread(first, FastRead(0), second);
    DoThread(second, LockedRead(0, false), State(ONE_STACKED, Idle, Waiting, map[], []));
  }

  // ---- The worker pops it and gives up the lock ----

  const ONE_POPPED := Buffer([], ONE, [FIRST], [[FIRST]])

  lemma WorkerScans()
    requires Reached(State(ONE_STACKED, Idle, Waiting, map[], []))
    ensures Reached(State(ONE_STACKED, Idle, ScanPop(1, []), map[], []))
  {
    var s := State(ONE_STACKED, Idle, Waiting, map[], []);
    assert Lists([1], s.open) && [1][1..] == [];
    Do(s, WorkerWake([1]), State(ONE_STACKED, Idle, Scanning([1]), map[], []));
    Do(State(ONE_STACKED, Idle, Scanning([1]), map[], []), WorkerNext,
               State(ONE_STACKED, Idle, ScanFast(1, []), map[], []));
    WorkerChecks();
  }

  lemma WorkerChecks()
    requires Reached(State(ONE_STACKED, Idle, ScanFast(1, []), map[], []))
    ensures Reached(State(ONE_STACKED, Idle, ScanPop(1, []), map[], []))
  {
    Do(State(ONE_STACKED, Idle, ScanFast(1, []), map[], []), WorkerFast,
               State(ONE_STACKED, Idle, ScanLocked(1, []), map[], []));
    Do(State(ONE_STACKED, Idle, ScanLocked(1, []), map[], []), WorkerLocked(true),
               State(ONE_STACKED, Idle, ScanPop(1, []), map[], []));
  }

  lemma WorkerPops()
    requires Reached(State(ONE_STACKED, Idle, ScanPop(1, []), map[], []))
    ensures Reached(State(ONE_POPPED, Idle, Draining, map[1 := 0], []))
  {
    var s := State(ONE_STACKED, Idle, ScanPop(1, []), map[], []);
    var popped := State(ONE_POPPED, Idle, Scanning([]), map[1 := 0], []);
    assert [] + [[FIRST]] == [[FIRST]] && Next(DEMO, s, WorkerPop) == popped;
    Do(s, WorkerPop, popped);
    Do(popped, WorkerNext, State(ONE_POPPED, Idle, Draining, map[1 := 0], []));
  }

  // ---- The next two lines overtake it ----

  const TWO_BEGUN := Buffer([], BOTH, [FIRST], [[FIRST]])
  const TWO_ADDED := Buffer([SECOND], BOTH, [FIRST, SECOND], [[FIRST]])
  const TWO_STACKED := Buffer([SECOND, THIRD], BOTH, [FIRST, SECOND, THIRD], [[FIRST]])
  const TWO_POPPED := Buffer([], BOTH, [FIRST, SECOND, THIRD], [[FIRST], [SECOND, THIRD]])

  lemma TwoLines()
    requires Reached(State(ONE_POPPED, Idle, Draining, map[1 := 0], []))
    ensures Reached(State(TWO_STACKED, Adding(1, 10, [], false), Draining, map[1 := 0], []))
  {
    CutDemo();
    var s := State(ONE_POPPED, Idle, Draining, map[1 := 0], []);
    var begun := State(TWO_BEGUN, Adding(1, 10, ["b\n\0", "c\n\0"], false), Draining, map[1 := 0], []);
    assert ONE + [Data(10, "b\nc\n")] == BOTH && map[10 := ""][10 := ""] == map[10 := ""];
    DoBegin(s, "b\nc\n", ["b\n\0", "c\n\0"], begun);
    MiddleLine();
    LastLine();
  }

  lemma MiddleLine()
    requires Reached(State(TWO_BEGUN, Adding(1, 10, ["b\n\0", "c\n\0"], false), Draining, map[1 := 0], []))
    ensures Reached(State(TWO_ADDED, Adding(1, 10, ["c\n\0"], false), Draining, map[1 := 0], []))
  {
    var begun := State(TWO_BEGUN, Adding(1, 10, ["b\n\0", "c\n\0"], false), Draining, map[1 := 0], []);
    var added := State(TWO_ADDED, Adding(1, 10, ["c\n\0"], false), Draining, map[1 := 0], []);
    assert [FIRST] + [SECOND] == [FIRST, SECOND] && [] + [SECOND] == [SECOND];
    assert ["b\n\0", "c\n\0"][1..] == ["c\n\0"] && BufferAfter(begun, StackOne(0)) == TWO_ADDED;
    DoThread(begun, StackOne(0), added);
  }

  lemma LastLine()
    requires Reached(State(TWO_ADDED, Adding(1, 10, ["c\n\0"], false), Draining, map[1 := 0],
              []))
    ensures Reached(State(TWO_STACKED, Adding(1, 10, [], false), Draining, map[1 := 0], []))
  {
    var added := State(TWO_ADDED, Adding(1, 10, ["c\n\0"], false), Draining, map[1 := 0], []);
    var done := State(TWO_STACKED, Adding(1, 10, [], false), Draining, map[1 := 0], []);
    assert [FIRST, SECOND] + [THIRD] == [FIRST, SECOND, THIRD] && [SECOND] + [THIRD] == [SECOND, THIRD];
    assert ["c\n\0"][1..] == [] && BufferAfter(added, StackOne(0)) == TWO_STACKED;
    DoThread(added, StackOne(0), done);
  }

  lemma Overtakes()
    requires Reached(State(TWO_STACKED, Adding(1, 10, [], false), Draining, map[1 := 0], []))
    ensures Reached(State(TWO_POPPED, Idle, Draining, map[1 := 0], [(1, 1)]))
  {
    var done := State(TWO_STACKED, Adding(1, 10, [], false), Draining, map[1 := 0], []);
    var check := State(TWO_STACKED, FastCheck(1), Draining, map[1 := 0], []);
    var over := State(TWO_STACKED, Popping(1), Draining, map[1 := 0], []);
    DoThread(done, DoneAdding(0), check);
    DoThread(check, FastRead(0), over);
    PopsAndDelivers();
  }

  lemma PopsAndDelivers()
    requires Reached(State(TWO_STACKED, Popping(1), Draining, map[1 := 0], []))
    ensures Reached(State(TWO_POPPED, Idle, Draining, map[1 := 0], [(1, 1)]))
  {
    var over := State(TWO_STACKED, Popping(1), Draining, map[1 := 0], []);
    var popped := State(TWO_POPPED, Delivering(1, 1), Draining, map[1 := 0], []);
    assert [[FIRST]] + [[SECOND, THIRD]] == [[FIRST], [SECOND, THIRD]];
    assert BufferAfter(over, PopStack(0)) == TWO_POPPED;
    DoThread(over, PopStack(0), popped);
    assert [] + [(1, 1)] == [(1, 1)];
    DoThread(popped, Deliver(0), State(TWO_POPPED, Idle, Draining, map[1 := 0], [(1, 1)]));
  }

  /** Pop order is not kept by every run: a process's first line is popped by the worker; its next two
      go over the limit and through Processing while the worker still holds the first. */
  lemma OrderCanBreak() returns (steps: seq<Step>, s: System)
    ensures RunTo(DEMO, Init(true), steps, s)
    ensures BookOf(s, 1).popped == [[FIRST], [SECOND, THIRD]]
    ensures s.delivered == [(1, 1), (1, 0)] && !InOrder(s, 1)
  {
    FirstLine();
    WorkerScans();
    WorkerPops();
    TwoLines();
    Overtakes();
    var late := State(TWO_POPPED, Idle, Draining, map[1 := 0], [(1, 1)]);
    s := Next(DEMO, late, WorkerDeliver(1));
    Do(late, WorkerDeliver(1), s);
    assert s.delivered == [(1, 1), (1, 0)];
    SecondFirst();
    assert BatchesOf(s.delivered, 1)[0] == 1;
    steps :| RunTo(DEMO, Init(true), steps, s);
  }

  lemma SecondFirst()
    ensures BatchesOf([(1, 1), (1, 0)], 1) == [1, 0]
  {
    assert [(1, 1), (1, 0)][1..] == [(1, 0)] && [(1, 0)][1..] == [];
    assert BatchesOf([(1, 0)], 1) == Own((1, 0), 1) + BatchesOf([], 1) == [0];
  }

  lemma CutDemo()
    ensures CutBy(RULE, "", "a\n") == Split(["a\n\0"], "")
    ensures CutBy(RULE, "", "b\nc\n") == Split(["b\n\0", "c\n\0"], "")
    ensures AcceptAll(RULE, ["a\n\0"]) == ["a\n\0"]
    ensures AcceptAll(RULE, ["b\n\0", "c\n\0"]) == ["b\n\0", "c\n\0"]
  {
    CutOne('a', "");
    CutOne('b', "c\n");
    CutOne('c', "");
    assert "a\n" == ['a', '\n'] + "";
    assert "b\nc\n" == ['b', '\n'] + "c\n" && "c\n" == ['c', '\n'] + "";
    assert Prepend(["b\n\0"], Prepend(["c\n\0"], Split([], ""))).lines == ["b\n\0", "c\n\0"];
    AcceptDemo();
  }

  lemma AcceptDemo()
    ensures AcceptAll(RULE, ["a\n\0"]) == ["a\n\0"]
    ensures AcceptAll(RULE, ["b\n\0", "c\n\0"]) == ["b\n\0", "c\n\0"]
  {
    assert ["a\n\0"][1..] == [] && ["c\n\0"][1..] == [];
    assert ["b\n\0", "c\n\0"][1..] == ["c\n\0"];
  }
}
