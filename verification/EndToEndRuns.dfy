/** From client writes to the server's file, over every complete run of the manager. */
module EndToEndRuns {
  import opened Bytes
  import opened Splitter
  import opened Wire
  import opened WriteBuff
  import opened PushSpec
  import opened History
  import opened Server
  import opened EndToEnd
  import opened Manager
  import opened ManagerRuns
  import opened ManagerOrder

  /** The chunks one process writes to one handle, in the order of the run. */
  function Writes(steps: seq<Step>, h: Handle, pid: Pid): seq<string> {
    if steps == [] then [] else WriteOf(steps[0], h, pid) + Writes(steps[1..], h, pid)
  }

  function WriteOf(step: Step, h: Handle, pid: Pid): seq<string> {
    if step.BeginPush? && step.h == h && step.pid == pid then [step.chunk] else []
  }

  /** The bytes a handle has seen of a process so far. */
  function Seen(binary: bool, s: System, h: Handle, pid: Pid): string {
    Raw(binary, ChunksOf(BookOf(s, h).events, pid))
  }

  /** The chunk an event brings for one process; a forced push brings none. */
  function Brings(e: Event, pid: Pid): string {
    match e
    case Data(p, chunk) => if p == pid then chunk else ""
    case FlushEvery => ""
  }

  lemma OneMore(binary: bool, events: seq<Event>, e: Event, pid: Pid)
    ensures Raw(binary, ChunksOf(events + [e], pid))
              == Raw(binary, ChunksOf(events, pid)) + Raw(binary, [Brings(e, pid)])
  {
    ChunksSnoc(events, e, pid);
    RawAppend(binary, ChunksOf(events, pid), ChunkOf(e, pid));
    RawOfForce(binary);
  }

  lemma SeenStep(binary: bool, cfg: Settings, s: System, step: Step, h: Handle, pid: Pid)
    requires ValidSettings(cfg) && Enabled(cfg, s, step)
    ensures Seen(binary, Next(cfg, s, step), h, pid) == Seen(binary, s, h, pid) + Raw(binary, WriteOf(step, h, pid))
  {
    EventsStep(cfg, s, step, h);
    var e := if step.BeginPush? then Data(step.pid, step.chunk)
             else if step.BeginClose? then Data(step.pid, "")
             else FlushEvery;
    OneMore(binary, BookOf(s, h).events, e, pid);
    RawOfForce(binary);
    assert Seen(binary, s, h, pid) + "" == Seen(binary, s, h, pid);
  }

  lemma EventsStep(cfg: Settings, s: System, step: Step, h: Handle)
    requires ValidSettings(cfg) && Enabled(cfg, s, step)
    ensures var events, events' := BookOf(s, h).events, BookOf(Next(cfg, s, step), h).events;
            match step
            case BeginPush(t, k, pid, chunk) => events' == if k == h then events + [Data(pid, chunk)] else events
            case BeginClose(t, k, pid) => events' == if k == h && h in s.open then events + [Data(pid, "")] else events
            case CloseHandle(k) => events' == if k == h then events + [FlushEvery] else events
            case _ => events' == events
  {
  }

  lemma {:induction false} SeenAfter(binary: bool, cfg: Settings, s: System, steps: seq<Step>, h: Handle, pid: Pid)
    requires ValidSettings(cfg) && IsRun(cfg, s, steps)
    ensures Seen(binary, After(cfg, s, steps), h, pid) == Seen(binary, s, h, pid) + Raw(binary, Writes(steps, h, pid))
    decreases |steps|
  {
    if steps == [] {
      assert Seen(binary, s, h, pid) + "" == Seen(binary, s, h, pid);
    } else {
      var now, later := WriteOf(steps[0], h, pid), Writes(steps[1..], h, pid);
      SeenStep(binary, cfg, s, steps[0], h, pid);
      SeenAfter(binary, cfg, Next(cfg, s, steps[0]), steps[1..], h, pid);
      RawAppend(binary, now, later);
      AppendAssoc(Seen(binary, s, h, pid), Raw(binary, now), Raw(binary, later));
    }
  }

  lemma SeenFromStart(binary: bool, cfg: Settings, withWorker: bool, steps: seq<Step>, h: Handle, pid: Pid)
    requires ValidSettings(cfg) && IsRun(cfg, Init(withWorker), steps)
    ensures Seen(binary, After(cfg, Init(withWorker), steps), h, pid) == Raw(binary, Writes(steps, h, pid))
  {
    SeenAfter(binary, cfg, Init(withWorker), steps, h, pid);
    assert Seen(binary, Init(withWorker), h, pid) == "";
    assert "" + Raw(binary, Writes(steps, h, pid)) == Raw(binary, Writes(steps, h, pid));
  }

  /** A complete run of the manager. */
  ghost predicate Complete(cfg: Settings, withWorker: bool, steps: seq<Step>) {
    && ValidSettings(cfg) && IsRun(cfg, Init(withWorker), steps)
    && After(cfg, Init(withWorker), steps).phase == Closed
  }

  /** What the run leaves of a handle. */
  ghost function Final(cfg: Settings, withWorker: bool, steps: seq<Step>, h: Handle): Book
    requires Complete(cfg, withWorker, steps)
  {
    BookOf(After(cfg, Init(withWorker), steps), h)
  }

  /** The order in which Processing got the handle's batches. */
  ghost function Order(cfg: Settings, withWorker: bool, steps: seq<Step>, h: Handle): seq<nat>
    requires Complete(cfg, withWorker, steps)
  {
    BatchesOf(After(cfg, Init(withWorker), steps).delivered, h)
  }

  /** Every complete run, whatever the interleaving of threads, worker and shutdown: the popped lines of a
      process carry its written chunks; in text mode without NULs and without each '\n' right after a '\r' in
      its chunk, in binary mode every byte. */
  lemma EveryRunConserves(cfg: Settings, withWorker: bool, steps: seq<Step>, h: Handle, pid: Pid)
    requires Complete(cfg, withWorker, steps) && PassThrough(cfg.par(h))
    ensures var binary := cfg.par(h).binary;
            Received(binary, OfPid(Flatten(Final(cfg, withWorker, steps, h).popped), pid))
              == Carried(binary, Writes(steps, h, pid))
  {
    NothingLeft(cfg, withWorker, steps, h, pid);
    AloneConserves(cfg.par(h), ChunksOf(Final(cfg, withWorker, steps, h).events, pid));
    SeenFromStart(cfg.par(h).binary, cfg, withWorker, steps, h, pid);
  }

  // ---- In delivery order ----

  /** The lines of these batches, one batch after the other. */
  function LinesOf(batches: seq<nat>, popped: seq<seq<Tagged>>): seq<Tagged>
    requires forall k :: 0 <= k < |batches| ==> batches[k] < |popped|
  {
    if batches == [] then [] else popped[batches[0]] + LinesOf(batches[1..], popped)
  }

  lemma {:induction false} LinesInOrder(batches: seq<nat>, popped: seq<seq<Tagged>>, from: nat)
    requires from + |batches| == |popped| && forall k :: 0 <= k < |batches| ==> batches[k] == from + k
    ensures LinesOf(batches, popped) == Flatten(popped[from..])
    decreases |batches|
  {
    if batches != [] {
      LinesInOrder(batches[1..], popped, from + 1);
      assert popped[from..][1..] == popped[from + 1..];
    }
  }

  /** After a complete run in pop order Processing has got the batches 0, 1, 2, ... up to the last. */
  lemma AllBatches(cfg: Settings, withWorker: bool, steps: seq<Step>, h: Handle)
    requires ValidSettings(cfg) && IsRun(cfg, Init(withWorker), steps)
    requires After(cfg, Init(withWorker), steps).phase == Closed
    requires InOrder(After(cfg, Init(withWorker), steps), h)
    ensures var s := After(cfg, Init(withWorker), steps); |BatchesOf(s.delivered, h)| == |BookOf(s, h).popped|
  {
    var s := After(cfg, Init(withWorker), steps);
    var batches, count := BatchesOf(s.delivered, h), |BookOf(s, h).popped|;
    ExactlyOnce(cfg, withWorker, steps, h, |batches|);
    ExactlyOnce(cfg, withWorker, steps, h, count);
    InBatches(s.delivered, h, |batches|);
    InBatches(s.delivered, h, count);
    AscendingMember(batches, |batches|);
    AscendingMember(batches, count);
  }

  /** The client side: in every complete run that pops a handle only while none of its batches is in flight,
      Processing gets all lines in stacking order, and what it gets for one process is the bytes that this
      process has written, in order. */
  lemma WritesReachProcessing(cfg: Settings, withWorker: bool, steps: seq<Step>, h: Handle, pid: Pid)
    requires Complete(cfg, withWorker, steps) && PassThrough(cfg.par(h))
    requires PopsAlone(cfg, Init(withWorker), steps, h)
    ensures InPopOrder(cfg, withWorker, steps, h)
    ensures LinesOf(Order(cfg, withWorker, steps, h), Final(cfg, withWorker, steps, h).popped)
              == Final(cfg, withWorker, steps, h).stacked
    ensures Received(cfg.par(h).binary, OfPid(Final(cfg, withWorker, steps, h).stacked, pid))
              == Carried(cfg.par(h).binary, Writes(steps, h, pid))
  {
    ReachedInOrder(cfg, withWorker, steps, h);
    LinesInOrder(Order(cfg, withWorker, steps, h), Final(cfg, withWorker, steps, h).popped, 0);
    var popped := Final(cfg, withWorker, steps, h).popped;
    assert popped[0..] == popped;
    NothingLeft(cfg, withWorker, steps, h, pid);
    EveryRunConserves(cfg, withWorker, steps, h, pid);
  }

  /** Processing has got the batches 0, 1, 2, ... up to the last one popped. */
  ghost predicate InPopOrder(cfg: Settings, withWorker: bool, steps: seq<Step>, h: Handle)
    requires Complete(cfg, withWorker, steps)
  {
    Order(cfg, withWorker, steps, h) == UpTo(|Final(cfg, withWorker, steps, h).popped|)
  }

  function UpTo(n: nat): (r: seq<nat>)
    ensures |r| == n && forall k :: 0 <= k < n ==> r[k] == k
  {
    if n == 0 then [] else UpTo(n - 1) + [n - 1]
  }

  lemma ReachedInOrder(cfg: Settings, withWorker: bool, steps: seq<Step>, h: Handle)
    requires Complete(cfg, withWorker, steps) && PopsAlone(cfg, Init(withWorker), steps, h)
    ensures InPopOrder(cfg, withWorker, steps, h)
  {
    InitInv(cfg, withWorker);
    PopsAloneInOrder(cfg, Init(withWorker), steps, h);
    InOrderIff(cfg, Init(withWorker), steps, h);
    AllBatches(cfg, withWorker, steps, h);
  }

  /** The same for every complete run without a worker, as the program runs by default, in which a handle is
      written and closed by one thread at a time. */
  lemma SoloWritesReachProcessing(cfg: Settings, steps: seq<Step>, h: Handle, pid: Pid)
    requires Complete(cfg, false, steps) && PassThrough(cfg.par(h))
    requires Solo(cfg, Init(false), steps, h)
    ensures InPopOrder(cfg, false, steps, h)
    ensures LinesOf(Order(cfg, false, steps, h), Final(cfg, false, steps, h).popped)
              == Final(cfg, false, steps, h).stacked
    ensures Received(cfg.par(h).binary, OfPid(Final(cfg, false, steps, h).stacked, pid))
              == Carried(cfg.par(h).binary, Writes(steps, h, pid))
  {
    SoloPopsAlone(cfg, Init(false), steps, h);
    WritesReachProcessing(cfg, false, steps, h, pid);
  }

  // ---- What the clients' writes say about the run ----

  /** No write to the handle holds a NUL. */
  predicate NulFreeWrites(steps: seq<Step>, h: Handle) {
    forall i :: 0 <= i < |steps| && steps[i].BeginPush? && steps[i].h == h ==> '\0' !in steps[i].chunk
  }

  lemma {:induction false} EventsNulFree(cfg: Settings, s: System, steps: seq<Step>, h: Handle)
    requires ValidSettings(cfg) && IsRun(cfg, s, steps) && NulFreeWrites(steps, h) && NulFree(BookOf(s, h).events)
    ensures NulFree(BookOf(After(cfg, s, steps), h).events)
    decreases |steps|
  {
    if steps != [] {
      EventsStep(cfg, s, steps[0], h);
      EventsNulFree(cfg, Next(cfg, s, steps[0]), steps[1..], h);
    }
  }

  /** Only this process writes to the handle and closes it. */
  predicate OnlyWriter(steps: seq<Step>, h: Handle, pid: Pid) {
    forall i :: 0 <= i < |steps| && (steps[i].BeginPush? || steps[i].BeginClose?) && steps[i].h == h ==>
        steps[i].pid == pid
  }

  lemma {:induction false} EventsAlone(cfg: Settings, s: System, steps: seq<Step>, h: Handle, pid: Pid)
    requires ValidSettings(cfg) && IsRun(cfg, s, steps) && OnlyWriter(steps, h, pid) && Alone(BookOf(s, h).events, pid)
    ensures Alone(BookOf(After(cfg, s, steps), h).events, pid)
    decreases |steps|
  {
    if steps != [] {
      EventsStep(cfg, s, steps[0], h);
      EventsAlone(cfg, Next(cfg, s, steps[0]), steps[1..], h, pid);
    }
  }

  lemma {:induction false} SilentChunks(events: seq<Event>, pid: Pid, q: Pid)
    requires Alone(events, pid) && q != pid
    ensures forall c :: c in ChunksOf(events, q) ==> c == ""
  {
    if events != [] {
      SilentChunks(events[1..], pid, q);
    }
  }

  lemma {:induction false} SilentRun(par: Params, chunks: seq<string>)
    requires ValidParams(par) && forall c :: c in chunks ==> c == ""
    ensures RunPid(par, "", chunks) == Split([], "")
    decreases |chunks|
  {
    if chunks != [] {
      assert chunks[0] in chunks && forall c :: c in chunks[1..] ==> c in chunks;
      SilentRun(par, chunks[1..]);
    }
  }

  /** Then all lines are its own. */
  lemma AllItsOwn(cfg: Settings, withWorker: bool, steps: seq<Step>, h: Handle, pid: Pid)
    requires Complete(cfg, withWorker, steps) && OnlyWriter(steps, h, pid)
    ensures AllOf(Final(cfg, withWorker, steps, h).stacked, pid)
  {
    var b := Final(cfg, withWorker, steps, h);
    EventsAlone(cfg, Init(withWorker), steps, h, pid);
    forall i | 0 <= i < |b.stacked|
      ensures b.stacked[i].pid == pid
    {
      var q := b.stacked[i].pid;
      InOfPid(b.stacked, i);
      NothingLeft(cfg, withWorker, steps, h, q);
      if q != pid {
        SilentChunks(b.events, pid, q);
        SilentRun(cfg.par(h), ChunksOf(b.events, q));
      }
    }
  }

  /** If no write holds a NUL, and in binary mode always, no batch begins with two lines that are just a NUL. */
  lemma NoEmptyBatchStart(cfg: Settings, withWorker: bool, steps: seq<Step>, h: Handle)
    requires Complete(cfg, withWorker, steps) && PassThrough(cfg.par(h))
    requires cfg.par(h).binary || NulFreeWrites(steps, h)
    ensures NoEmptyStart(cfg.par(h).binary, Final(cfg, withWorker, steps, h).popped)
  {
    var b := Final(cfg, withWorker, steps, h);
    forall pid | !cfg.par(h).binary
      ensures "\0" !in OfPid(Flatten(b.popped), pid)
    {
      NothingLeft(cfg, withWorker, steps, h, pid);
      EventsNulFree(cfg, Init(withWorker), steps, h);
      ChunksNulFree(b.events, pid);
      OwnNoLoneNul(cfg.par(h), ChunksOf(b.events, pid));
    }
    NoLoneNulStart(cfg.par(h).binary, b.popped);
  }

  // ---- On to the server ----

  /** The values that Processing gets for a handle, in that order: the lines of each are those of its batch. */
  predicate Sent(order: seq<nat>, popped: seq<seq<Tagged>>, values: seq<seq<Line>>) {
    && |values| == |order| && AllValid(values)
    && (forall k :: 0 <= k < |order| ==> order[k] < |popped| && Tags(values[k]) == popped[order[k]])
  }

  function AsLines(batch: seq<Tagged>, host: HostName): (r: seq<Line>)
    ensures |r| == |batch| && forall i :: 0 <= i < |r| ==> r[i] == Line(0, 0, batch[i].pid, host, batch[i].data)
  {
    if batch == [] then [] else [Line(0, 0, batch[0].pid, host, batch[0].data)] + AsLines(batch[1..], host)
  }

  lemma PoppedNonEmpty(cfg: Settings, withWorker: bool, steps: seq<Step>, h: Handle, i: nat, j: nat)
    requires Complete(cfg, withWorker, steps)
    requires i < |Final(cfg, withWorker, steps, h).popped| && j < |Final(cfg, withWorker, steps, h).popped[i]|
    ensures Final(cfg, withWorker, steps, h).popped[i][j].data != ""
  {
    var b := Final(cfg, withWorker, steps, h);
    InFlatten(b.popped, i, j);
    var all := Flatten(b.popped);
    var k :| 0 <= k < |all| && all[k] == b.popped[i][j];
    InOfPid(all, k);
    NothingLeft(cfg, withWorker, steps, h, all[k].pid);
    AcceptedNonEmpty(cfg.par(h), RunPid(cfg.par(h), "", ChunksOf(b.events, all[k].pid)).lines);
  }

  /** Every complete run has such values: what it pops can be packed. */
  lemma ValuesExist(cfg: Settings, withWorker: bool, steps: seq<Step>, h: Handle, host: HostName)
    returns (values: seq<seq<Line>>)
    requires Complete(cfg, withWorker, steps)
    ensures Sent(Order(cfg, withWorker, steps, h), Final(cfg, withWorker, steps, h).popped, values)
  {
    var order, popped := Order(cfg, withWorker, steps, h), Final(cfg, withWorker, steps, h).popped;
    forall k | 0 <= k < |order|
      ensures order[k] < |popped|
    {
      InBatches(After(cfg, Init(withWorker), steps).delivered, h, order[k]);
      ExactlyOnce(cfg, withWorker, steps, h, order[k]);
    }
    values := seq(|order|, k requires 0 <= k < |order| => AsLines(popped[order[k]], host));
    forall k | 0 <= k < |order|
      ensures ValidLines(values[k]) && Tags(values[k]) == popped[order[k]]
    {
      forall j | 0 <= j < |values[k]|
        ensures ValidLine(values[k][j])
      {
        PoppedNonEmpty(cfg, withWorker, steps, h, order[k], j);
      }
    }
  }

  lemma SentInOrder(order: seq<nat>, popped: seq<seq<Tagged>>, values: seq<seq<Line>>)
    requires Sent(order, popped, values) && Ascending(order) && |order| == |popped|
    ensures TagsOf(values) == popped
  {
  }

  /** From the clients of a concurrent run to the server's file: with the values of the batches in the order
      Processing got them, the file is defined iff no batch begins with two text-mode lines that are just a
      NUL, and then it holds the bytes of all lines ever stacked, in order; it is defined whenever no write
      holds a NUL, and in binary mode always; if only one process has written, it is that process's bytes. */
  lemma WritesReachServer(cfg: Settings, withWorker: bool, steps: seq<Step>, h: Handle,
                          server: Config, values: seq<seq<Line>>)
    requires Complete(cfg, withWorker, steps) && PassThrough(cfg.par(h))
    requires server.convert.None? && server.binary == cfg.par(h).binary
    requires PopsAlone(cfg, Init(withWorker), steps, h)
    requires Sent(Order(cfg, withWorker, steps, h), Final(cfg, withWorker, steps, h).popped, values)
    ensures ServerOutput(server, values) == Output(server.binary, Final(cfg, withWorker, steps, h).popped)
    ensures server.binary || NulFreeWrites(steps, h) ==>
              ServerOutput(server, values) == Some(Received(server.binary,
                  DataOf(Final(cfg, withWorker, steps, h).stacked)))
    ensures forall pid :: OnlyWriter(steps, h, pid) && ServerOutput(server, values).Some? ==>
              ServerOutput(server, values).value == Carried(server.binary, Writes(steps, h, pid))
  {
    var b := Final(cfg, withWorker, steps, h);
    ReachedInOrder(cfg, withWorker, steps, h);
    SentInOrder(Order(cfg, withWorker, steps, h), b.popped, values);
    OutputOfBatches(server, values);
    NothingLeft(cfg, withWorker, steps, h, 0);
    if server.binary || NulFreeWrites(steps, h) {
      NoEmptyBatchStart(cfg, withWorker, steps, h);
    }
    forall pid | OnlyWriter(steps, h, pid)
      ensures Received(server.binary, DataOf(b.stacked)) == Carried(server.binary, Writes(steps, h, pid))
    {
      AllItsOwn(cfg, withWorker, steps, h, pid);
      DatasAreTags(b.stacked, pid);
      EveryRunConserves(cfg, withWorker, steps, h, pid);
    }
  }
}
