/** Whole histories of pushes on one file handle: each process gets what it would get alone. */
module History {
  import opened Bytes
  import opened Splitter
  import opened Rechunk
  import opened Wire
  import opened PushSpec

  /** `Data` with an empty chunk is the forced push of a close; `FlushEvery` is the one at shutdown, the only push
      with the pid for "all". */
  datatype Event = Data(pid: Client, chunk: string) | FlushEvery

  datatype State = State(bufs: Bufs, stack: seq<Tagged>)

  ghost function Apply(par: Params, s: State, e: Event): State
    requires ValidParams(par)
  {
    match e
    case Data(pid, chunk) =>
      var cut := CutBy(par, Get(s.bufs, pid), chunk);
      State(s.bufs[pid := cut.rest], s.stack + Added(par, pid, cut.lines))
    case FlushEvery =>
      State(map[], s.stack + FlushAll(par, s.bufs, ""))
  }

  ghost function Run(par: Params, s: State, events: seq<Event>): State
    requires ValidParams(par)
    decreases |events|
  {
    if events == [] then s else Run(par, Apply(par, s, events[0]), events[1..])
  }

  const EMPTY := State(map[], [])

  /** The lines of one process, in stack order. */
  function OfPid(stack: seq<Tagged>, pid: Pid): seq<string> {
    if stack == [] then []
    else (if stack[0].pid == pid then [stack[0].data] else []) + OfPid(stack[1..], pid)
  }

  /** What an event means to one process; a flush of every buffer is a forced push of its own. */
  function ChunkOf(e: Event, pid: Pid): seq<string> {
    match e
    case Data(p, chunk) => if p == pid then [chunk] else []
    case FlushEvery => [""]
  }

  function ChunksOf(events: seq<Event>, pid: Pid): seq<string> {
    if events == [] then [] else ChunkOf(events[0], pid) + ChunksOf(events[1..], pid)
  }

  lemma {:induction false} ChunksAppend(a: seq<Event>, b: seq<Event>, pid: Pid)
    ensures ChunksOf(a + b, pid) == ChunksOf(a, pid) + ChunksOf(b, pid)
  {
    if a == [] {
      assert a + b == b;
    } else {
      DropOfAppend(a, b, 1);
      ChunksAppend(a[1..], b, pid);
      AppendAssoc(ChunkOf(a[0], pid), ChunksOf(a[1..], pid), ChunksOf(b, pid));
    }
  }

  lemma ChunksSnoc(events: seq<Event>, e: Event, pid: Pid)
    ensures ChunksOf(events + [e], pid) == ChunksOf(events, pid) + ChunkOf(e, pid)
  {
    ChunksAppend(events, [e], pid);
    assert [e][1..] == [];
    assert ChunkOf(e, pid) + [] == ChunkOf(e, pid);
  }

  /** One process alone on the handle. */
  function RunPid(par: Params, buf: string, chunks: seq<string>): Split
    requires ValidParams(par)
    decreases |chunks|
  {
    if chunks == [] then Split([], buf)
    else
      var cut := CutBy(par, buf, chunks[0]);
      Prepend(cut.lines, RunPid(par, cut.rest, chunks[1..]))
  }

  lemma {:induction false} OfPidAppend(a: seq<Tagged>, b: seq<Tagged>, pid: Pid)
    ensures OfPid(a + b, pid) == OfPid(a, pid) + OfPid(b, pid)
  {
    if a == [] {
      assert a + b == b;
    } else {
      DropOfAppend(a, b, 1);
      OfPidAppend(a[1..], b, pid);
    }
  }

  lemma {:induction false} OfPidTag(owner: Pid, datas: seq<string>, pid: Pid)
    ensures OfPid(Tag(owner, datas), pid) == if owner == pid then datas else []
  {
    if datas != [] {
      var tagged := Tag(owner, datas);
      assert tagged[0] == Tagged(owner, datas[0]) && tagged[1..] == Tag(owner, datas[1..]);
      OfPidTag(owner, datas[1..], pid);
    }
  }

  /** The final flush gives each process exactly its own forced push, once. */
  lemma {:induction false} FlushOfPid(par: Params, bufs: Bufs, pid: Pid)
    requires ValidParams(par)
    ensures OfPid(FlushAll(par, bufs, ""), pid) == AcceptAll(par, CutBy(par, Get(bufs, pid), "").lines)
    decreases |bufs|
  {
    if bufs != map[] {
      var least := MinPid(bufs.Keys);
      var lines := CutBy(par, bufs[least], "").lines;
      SmallerMap(bufs, least);
      FlushOfPid(par, Without(bufs, least), pid);
      OfPidTag(least, AcceptAll(par, lines), pid);
      OfPidAppend(Added(par, least, lines), FlushAll(par, Without(bufs, least), ""), pid);
    }
  }

  lemma RunPidOne(par: Params, buf: string, chunk: string)
    requires ValidParams(par)
    ensures RunPid(par, buf, [chunk]) == CutBy(par, buf, chunk)
  {
    var cut := CutBy(par, buf, chunk);
    assert [chunk][1..] == [];
    assert cut.lines + [] == cut.lines;
  }

  lemma ApplyOfPid(par: Params, s: State, e: Event, pid: Pid)
    requires ValidParams(par)
    ensures var own := RunPid(par, Get(s.bufs, pid), ChunkOf(e, pid));
            && OfPid(Apply(par, s, e).stack, pid) == OfPid(s.stack, pid) + AcceptAll(par, own.lines)
            && Get(Apply(par, s, e).bufs, pid) == own.rest
  {
    match e
    case Data(p, chunk) =>
      var cut := CutBy(par, Get(s.bufs, p), chunk);
      RunPidOne(par, Get(s.bufs, p), chunk);
      OfPidAppend(s.stack, Added(par, p, cut.lines), pid);
      OfPidTag(p, AcceptAll(par, cut.lines), pid);
    case FlushEvery =>
      RunPidOne(par, Get(s.bufs, pid), "");
      OfPidAppend(s.stack, FlushAll(par, s.bufs, ""), pid);
      FlushOfPid(par, s.bufs, pid);
  }

  lemma {:induction false} RunPidAppend(par: Params, buf: string, a: seq<string>, b: seq<string>)
    requires ValidParams(par)
    ensures var first := RunPid(par, buf, a);
            RunPid(par, buf, a + b) == Prepend(first.lines, RunPid(par, first.rest, b))
    decreases |a|
  {
    if a == [] {
      assert a + b == b;
      assert [] + RunPid(par, buf, b).lines == RunPid(par, buf, b).lines;
    } else {
      var cut := CutBy(par, buf, a[0]);
      DropOfAppend(a, b, 1);
      RunPidAppend(par, cut.rest, a[1..], b);
      var first := RunPid(par, cut.rest, a[1..]);
      AppendAssoc(cut.lines, first.lines, RunPid(par, first.rest, b).lines);
    }
  }

  /** Isolation: in every interleaved history the stack restricted to one process is the order-preserving
      filter-map (rule decision, rewrite, byte limit) of the splitter run on that process's chunks alone,
      and its buffer is what that run leaves. */
  lemma {:induction false} PerPidIsolation(par: Params, s: State, events: seq<Event>, pid: Pid)
    requires ValidParams(par)
    ensures var own := RunPid(par, Get(s.bufs, pid), ChunksOf(events, pid));
            && OfPid(Run(par, s, events).stack, pid) == OfPid(s.stack, pid) + AcceptAll(par, own.lines)
            && Get(Run(par, s, events).bufs, pid) == own.rest
    decreases |events|
  {
    if events == [] {
      assert OfPid(s.stack, pid) + [] == OfPid(s.stack, pid);
    } else {
      var next, now, later := Apply(par, s, events[0]), ChunkOf(events[0], pid), ChunksOf(events[1..], pid);
      ApplyOfPid(par, s, events[0], pid);
      PerPidIsolation(par, next, events[1..], pid);
      RunPidAppend(par, Get(s.bufs, pid), now, later);
      var first := RunPid(par, Get(s.bufs, pid), now);
      AcceptAppend(par, first.lines, RunPid(par, first.rest, later).lines);
      AppendAssoc(OfPid(s.stack, pid), AcceptAll(par, first.lines),
          AcceptAll(par, RunPid(par, first.rest, later).lines));
    }
  }

  // ---- Conservation for one process ----

  lemma {:induction false} RunPidText(par: Params, buf: string, chunks: seq<string>)
    requires ValidParams(par) && !par.binary
    ensures RunPid(par, buf, chunks) == PushAll(buf, chunks)
    decreases |chunks|
  {
    if chunks != [] {
      RunPidText(par, CutBy(par, buf, chunks[0]).rest, chunks[1..]);
    }
  }

  lemma {:induction false} RunPidBinary(par: Params, buf: string, chunks: seq<string>)
    requires ValidParams(par) && par.binary
    ensures RunPid(par, buf, chunks) == PushAllBinary(par.binaryLimit, buf, chunks)
    decreases |chunks|
  {
    if chunks != [] {
      RunPidBinary(par, CutBy(par, buf, chunks[0]).rest, chunks[1..]);
    }
  }

  lemma TextConservation(par: Params, buf: string, chunks: seq<string>)
    requires ValidParams(par) && !par.binary && NoEol(buf)
    ensures var own := RunPid(par, buf, chunks);
            && NoEol(own.rest)
            && Payload(own.lines) + own.rest == buf + WithoutNul(Survivors(chunks))
  {
    RunPidText(par, buf, chunks);
    PushAllConserves(buf, chunks);
  }

  lemma BytesConservation(par: Params, buf: string, chunks: seq<string>)
    requires ValidParams(par) && par.binary && |buf| < par.binaryLimit
    ensures var own := RunPid(par, buf, chunks);
            && |own.rest| < par.binaryLimit
            && Flatten(own.lines) + own.rest == buf + Flatten(chunks)
  {
    RunPidBinary(par, buf, chunks);
    BinaryConservation(par.binaryLimit, buf, chunks);
  }
}
