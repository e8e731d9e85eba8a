/** The write buffer and the server put together: one thread pushes, pops and processes. */
module Pipeline {
  import opened Bytes
  import opened Wire
  import opened PushSpec
  import opened History
  import opened Server
  import opened EndToEnd
  import W = WriteBuff

  /** What the thread does next: a push, or popping the stack and handing the value to the server. */
  datatype Act = Push(event: Event) | Drain

  function EventsOf(acts: seq<Act>): seq<Event> {
    if acts == [] then []
    else (if acts[0].Push? then [acts[0].event] else []) + EventsOf(acts[1..])
  }

  lemma {:induction false} EventsAppend(a: seq<Act>, b: seq<Act>)
    ensures EventsOf(a + b) == EventsOf(a) + EventsOf(b)
  {
    if a == [] {
      assert a + b == b;
    } else {
      DropOfAppend(a, b, 1);
      EventsAppend(a[1..], b);
    }
  }

  // ---- The batches served, as a function of the acts ----

  ghost function ServedFrom(par: Params, s: State, acts: seq<Act>): seq<seq<Tagged>>
    requires ValidParams(par)
    decreases |acts|
  {
    if acts == [] then []
    else
      match acts[0]
      case Push(event) => ServedFrom(par, Apply(par, s, event), acts[1..])
      case Drain => [s.stack] + ServedFrom(par, State(s.bufs, []), acts[1..])
  }

  const LAST_ACTS := [Push(FlushEvery), Drain]

  /** From a new write buffer, with the flush of every buffer and a last pop at the end. */
  ghost function Served(par: Params, acts: seq<Act>): seq<seq<Tagged>>
    requires ValidParams(par)
  {
    ServedFrom(par, EMPTY, acts + LAST_ACTS)
  }

  /** What was on the stack stays at its bottom. */
  lemma {:induction false} RunShift(par: Params, bufs: Bufs, stack: seq<Tagged>, events: seq<Event>)
    requires ValidParams(par)
    ensures Run(par, State(bufs, stack), events).stack == stack + Run(par, State(bufs, []), events).stack
    decreases |events|
  {
    if events == [] {
      assert stack + [] == stack;
    } else {
      var low, high := Apply(par, State(bufs, []), events[0]), Apply(par, State(bufs, stack), events[0]);
      assert high == State(low.bufs, stack + low.stack);
      RunShift(par, low.bufs, low.stack, events[1..]);
      RunShift(par, low.bufs, high.stack, events[1..]);
      AppendAssoc(stack, low.stack, Run(par, State(low.bufs, []), events[1..]).stack);
    }
  }

  lemma {:induction false} ServedIsRun(par: Params, s: State, acts: seq<Act>)
    requires ValidParams(par) && acts != [] && acts[|acts| - 1].Drain?
    ensures Flatten(ServedFrom(par, s, acts)) == Run(par, s, EventsOf(acts)).stack
    decreases |acts|
  {
    var rest := acts[1..];
    assert rest != [] ==> rest[|rest| - 1] == acts[|acts| - 1];
    match acts[0]
    case Push(event) =>
      ServedIsRun(par, Apply(par, s, event), rest);
      assert EventsOf(acts)[1..] == EventsOf(rest);
    case Drain =>
      if rest != [] {
        ServedIsRun(par, State(s.bufs, []), rest);
      }
      RunShift(par, s.bufs, s.stack, EventsOf(rest));
      FlattenCons(s.stack, ServedFrom(par, State(s.bufs, []), rest));
      assert [] + EventsOf(rest) == EventsOf(rest);
  }

  /** All batches together are the stack of the history. */
  lemma ServedIsHistory(par: Params, acts: seq<Act>)
    requires ValidParams(par)
    ensures Flatten(Served(par, acts)) == Run(par, EMPTY, EventsOf(acts) + [FlushEvery]).stack
  {
    ServedIsRun(par, EMPTY, acts + LAST_ACTS);
    EventsAppend(acts, LAST_ACTS);
    assert LAST_ACTS[1..] == [Drain] && [Drain][1..] == [];
    assert EventsOf(LAST_ACTS) == [FlushEvery];
  }

  // ---- The length of a value ----

  function ValueSize(stack: seq<Tagged>): nat {
    if stack == [] then 0 else LINE_HEAD + |stack[0].data| + ValueSize(stack[1..])
  }

  lemma {:induction false} SizeAppend(a: seq<Tagged>, b: seq<Tagged>)
    ensures ValueSize(a + b) == ValueSize(a) + ValueSize(b)
  {
    if a == [] {
      assert a + b == b;
    } else {
      DropOfAppend(a, b, 1);
      SizeAppend(a[1..], b);
    }
  }

  lemma {:induction false} SizeOfLines(ls: seq<Line>)
    requires ValidLines(ls)
    ensures |EncodeLines(ls)| == ValueSize(W.Tags(ls))
  {
    if ls != [] {
      assert ValidLine(ls[0]);
      SizeOfLines(ls[1..]);
      assert W.Tags(ls)[1..] == W.Tags(ls[1..]);
    }
  }

  /** Each batch fits the length field of its value. */
  predicate AllFit(batches: seq<seq<Tagged>>) {
    forall k :: 0 <= k < |batches| ==> ValueSize(batches[k]) < WORD
  }

  // ---- Outputs one after the other ----

  function Joined(a: Option<string>, b: Option<string>): Option<string> {
    if a.Some? && b.Some? then Some(a.value + b.value) else None
  }

  lemma {:induction false} OutputSnoc(cfg: Config, batches: seq<seq<Line>>, last: seq<Line>)
    ensures ServerOutput(cfg, batches + [last]) == Joined(ServerOutput(cfg, batches), FileOutput(cfg, last))
  {
    if batches == [] {
      assert batches + [last] == [last] && [last][1..] == [];
      assert FileOutput(cfg, last).Some? ==> "" + FileOutput(cfg, last).value == FileOutput(cfg, last).value + "";
    } else {
      DropOfAppend(batches, [last], 1);
      OutputSnoc(cfg, batches[1..], last);
      if FileOutput(cfg, batches[0]).Some? && ServerOutput(cfg, batches[1..]).Some? && FileOutput(cfg, last).Some? {
        AppendAssoc(FileOutput(cfg, batches[0]).value, ServerOutput(cfg, batches[1..]).value,
            FileOutput(cfg, last).value);
      }
    }
  }

  lemma TagsOfSnoc(batches: seq<seq<Line>>, last: seq<Line>)
    ensures W.TagsOf(batches + [last]) == W.TagsOf(batches) + [W.Tags(last)]
  {
  }

  // ---- One session ----

  method PushEvent(wb: W.WriteBuff, e: Event)
    requires wb.Valid()
    modifies wb, wb.repr
    ensures wb.Valid() && fresh(wb.repr - old(wb.repr))
    ensures State(wb.bufs, W.Tags(wb.stack)) == Apply(wb.par, old(State(wb.bufs, W.Tags(wb.stack))), e)
  {
    match e
    case Data(pid, chunk) => wb.Push(chunk, pid);
    case FlushEvery => wb.Push("", ALL_PIDS);
  }

  /** Pops the stack and has the server process the value. */
  method PopAndProcess(wb: W.WriteBuff, cfg: Config) returns (text: Option<string>)
    requires wb.Valid() && |EncodeLines(wb.stack)| < WORD
    modifies wb`stack
    ensures wb.Valid() && wb.stack == []
    ensures text == FileOutput(cfg, old(wb.stack))
  {
    ghost var batch := wb.stack;
    var block := wb.Pop();
    if block == null {
      text := Some("");
    } else {
      text := Processing(cfg, block[..], batch);
    }
  }

  ghost function Now(wb: W.WriteBuff): State
    reads wb
  {
    State(wb.bufs, W.Tags(wb.stack))
  }

  /** The server has put out these batches, and serving the rest of the acts gives `all`. */
  ghost predicate OnTheWay(wb: W.WriteBuff, todo: seq<Act>, cfg: Config, all: seq<seq<Tagged>>,
                           batches: seq<seq<Line>>, output: Option<string>)
    reads wb, wb.repr
  {
    && wb.Valid() && AllValid(batches) && output == ServerOutput(cfg, batches)
    && W.TagsOf(batches) + ServedFrom(wb.par, Now(wb), todo) == all
  }

  /** One act of a session. */
  method Do(wb: W.WriteBuff, cfg: Config, output: Option<string>,
            ghost todo: seq<Act>, act: Act, ghost all: seq<seq<Tagged>>, ghost batches: seq<seq<Line>>)
    returns (output': Option<string>, ghost batches': seq<seq<Line>>)
    requires todo != [] && todo[0] == act && AllFit(all) && OnTheWay(wb, todo, cfg, all, batches, output)
    modifies wb, wb.repr
    ensures fresh(wb.repr - old(wb.repr)) && OnTheWay(wb, todo[1..], cfg, all, batches', output')
  {
    match act
    case Push(event) =>
      PushEvent(wb, event);
      output', batches' := output, batches;
    case Drain =>
      NextFits(wb.par, Now(wb), todo, W.TagsOf(batches), wb.stack, all);
      OutputSnoc(cfg, batches, wb.stack);
      TagsOfSnoc(batches, wb.stack);
      batches' := batches + [wb.stack];
      var text := PopAndProcess(wb, cfg);
      output' := Joined(output, text);
  }

  lemma NextFits(par: Params, s: State, todo: seq<Act>, front: seq<seq<Tagged>>, stack: seq<Line>,
                 all: seq<seq<Tagged>>)
    requires ValidParams(par) && todo != [] && todo[0].Drain? && ValidLines(stack) && W.Tags(stack) == s.stack
    requires AllFit(all) && front + ServedFrom(par, s, todo) == all
    ensures |EncodeLines(stack)| < WORD
    ensures front + [s.stack] + ServedFrom(par, State(s.bufs, []), todo[1..]) == all
  {
    assert all[|front|] == s.stack;
    SizeOfLines(stack);
    AppendAssoc(front, [s.stack], ServedFrom(par, State(s.bufs, []), todo[1..]));
  }

  /** A whole session on a new write buffer: any acts, then the flush of every buffer and a last pop. The
      batches served are those of the acts, and the output is the server's for them. */
  method Session(par: Params, hostname: HostName, acts: seq<Act>, cfg: Config)
    returns (output: Option<string>, ghost batches: seq<seq<Line>>)
    requires ValidParams(par) && AllFit(Served(par, acts))
    ensures AllValid(batches) && W.TagsOf(batches) == Served(par, acts)
    ensures output == ServerOutput(cfg, batches)
  {
    var wb := new W.WriteBuff(par, hostname);
    var todo := acts + LAST_ACTS;
    ghost var all := Served(par, acts);
    output, batches := Some(""), [];
    assert [] + all == all;
    while todo != []
      invariant wb.par == par && fresh(wb) && fresh(wb.repr)
      invariant OnTheWay(wb, todo, cfg, all, batches, output)
      decreases |todo|
    {
      output, batches := Do(wb, cfg, output, todo, todo[0], all, batches);
      todo := todo[1..];
    }
    assert W.TagsOf(batches) + [] == W.TagsOf(batches);
  }

  /** End to end through the program's own buffers, bytes and pointer walk, with a pass-through rule and no
      conversion: the file is defined iff no batch of the acts begins with two text-mode lines that are just
      a NUL, and then it holds the bytes of all lines of the history, in order. It is defined whenever no
      write holds a NUL, and in binary mode always; if only one process has written, it is that process's
      bytes. */
  method PassThroughSession(par: Params, hostname: HostName, acts: seq<Act>, cfg: Config)
    returns (output: Option<string>)
    requires ValidParams(par) && PassThrough(par) && cfg.convert.None? && cfg.binary == par.binary
    requires AllFit(Served(par, acts))
    ensures output == Output(par.binary, Served(par, acts))
    ensures par.binary || NulFree(EventsOf(acts)) ==>
              output == Some(Received(par.binary, DataOf(Run(par, EMPTY, EventsOf(acts) + [FlushEvery]).stack)))
    ensures forall pid :: output.Some? && Alone(EventsOf(acts), pid) ==>
              output.value == Carried(par.binary, ChunksOf(EventsOf(acts), pid))
  {
    ghost var batches;
    output, batches := Session(par, hostname, acts, cfg);
    OutputOfBatches(cfg, batches);
    ServedIsHistory(par, acts);
    AlwaysDefined(par, EventsOf(acts), Served(par, acts));
    forall pid | Alone(EventsOf(acts), pid)
      ensures Received(par.binary, DataOf(Flatten(Served(par, acts))))
                == Carried(par.binary, ChunksOf(EventsOf(acts), pid))
    {
      OwnBytes(par, EventsOf(acts), pid);
    }
  }

  lemma OwnBytes(par: Params, events: seq<Event>, pid: Pid)
    requires ValidParams(par) && PassThrough(par) && Alone(events, pid)
    ensures Received(par.binary, DataOf(Run(par, EMPTY, events + [FlushEvery]).stack))
              == Carried(par.binary, ChunksOf(events, pid))
  {
    RunAllOf(par, EMPTY, events + [FlushEvery], pid);
    DatasAreTags(Run(par, EMPTY, events + [FlushEvery]).stack, pid);
    StackedBytes(par, events, pid);
  }
}
