/** From client writes to server bytes when nothing is filtered or converted, on values. */
module EndToEnd {
  import opened Bytes
  import opened Splitter
  import opened Rechunk
  import opened Wire
  import opened PushSpec
  import opened WriteBuff
  import opened History
  import opened Server

  /** A rule that lets every line through as it is, and no byte limit. */
  ghost predicate PassThrough(par: Params) {
    par.lineLimit == 0 && forall l :: par.convert(l) == Some(l)
  }

  lemma {:induction false} AcceptEverything(par: Params, lines: seq<string>)
    requires PassThrough(par) && forall l :: l in lines ==> l != ""
    ensures AcceptAll(par, lines) == lines
  {
    if lines != [] {
      assert lines[0] in lines && forall l :: l in lines[1..] ==> l in lines;
      AcceptEverything(par, lines[1..]);
      assert [lines[0]] + lines[1..] == lines;
    }
  }

  lemma {:induction false} RunPidLines(par: Params, buf: string, chunks: seq<string>)
    requires ValidParams(par) && !par.binary && NoEol(buf)
    ensures forall l :: l in RunPid(par, buf, chunks).lines ==> IsStackLine(l)
    decreases |chunks|
  {
    if chunks != [] {
      CutShape(buf, chunks[0]);
      RunPidLines(par, CutBy(par, buf, chunks[0]).rest, chunks[1..]);
    }
  }

  lemma RunPidNonEmpty(par: Params, chunks: seq<string>)
    requires ValidParams(par)
    ensures "" !in RunPid(par, "", chunks).lines
  {
    if par.binary {
      RunPidBinary(par, "", chunks);
      BinaryConservation(par.binaryLimit, "", chunks);
    } else {
      RunPidLines(par, "", chunks);
    }
  }

  /** The bytes of the chunks that the cutter keeps: all in binary mode; in text mode those that survive. */
  function Raw(binary: bool, chunks: seq<string>): string {
    if binary then Flatten(chunks) else Survivors(chunks)
  }

  /** The bytes of the chunks that the file is to receive: in text mode without NULs and without each '\n' that
      directly follows a '\r' in its chunk. */
  function Carried(binary: bool, chunks: seq<string>): string {
    if binary then Raw(binary, chunks) else WithoutNul(Raw(binary, chunks))
  }

  lemma RawAppend(binary: bool, a: seq<string>, b: seq<string>)
    ensures Raw(binary, a + b) == Raw(binary, a) + Raw(binary, b)
  {
    FlattenAppend(a, b);
    SurvivorsAppend(a, b);
  }

  lemma RawOfForce(binary: bool)
    ensures Raw(binary, [""]) == ""
  {
    FlattenCons("", []);
    assert [""] == [""] + [] && [""][1..] == [];
  }

  /** One process alone, once nothing is left in its buffer. */
  lemma AloneConserves(par: Params, chunks: seq<string>)
    requires ValidParams(par) && PassThrough(par) && RunPid(par, "", chunks).rest == ""
    ensures Received(par.binary, AcceptAll(par, RunPid(par, "", chunks).lines)) == Carried(par.binary, chunks)
  {
    var own := RunPid(par, "", chunks);
    RunPidNonEmpty(par, chunks);
    AcceptEverything(par, own.lines);
    assert Received(par.binary, own.lines) + "" == Received(par.binary, own.lines);
    if par.binary {
      BytesConservation(par, "", chunks);
      assert "" + Flatten(chunks) == Flatten(chunks);
    } else {
      TextConservation(par, "", chunks);
    }
  }

  // ---- The server's file ----

  /** What the server writes for the values of these batches, one after the other. */
  function ServerOutput(cfg: Config, batches: seq<seq<Line>>): Option<string> {
    if batches == [] then Some("")
    else
      match (FileOutput(cfg, batches[0]), ServerOutput(cfg, batches[1..]))
      case (Some(text), Some(rest)) => Some(text + rest)
      case _ => None
  }

  /** No value begins with two text-mode lines that are just a NUL. */
  predicate NoEmptyStart(binary: bool, batches: seq<seq<Tagged>>) {
    forall i :: 0 <= i < |batches| ==> !EmptyStart(binary, DataOf(batches[i]))
  }

  /** The file for these batches: the bytes of all lines in order, as far as it is defined. */
  function Output(binary: bool, batches: seq<seq<Tagged>>): Option<string> {
    if NoEmptyStart(binary, batches) then Some(Received(binary, DataOf(Flatten(batches)))) else None
  }

  predicate AllValid(batches: seq<seq<Line>>) {
    forall i :: 0 <= i < |batches| ==> ValidLines(batches[i])
  }

  lemma OutputCons(binary: bool, first: seq<Tagged>, rest: seq<seq<Tagged>>)
    ensures NoEmptyStart(binary, [first] + rest) <==> !EmptyStart(binary, DataOf(first)) && NoEmptyStart(binary, rest)
    ensures Received(binary, DataOf(Flatten([first] + rest)))
              == Received(binary, DataOf(first)) + Received(binary, DataOf(Flatten(rest)))
  {
    var all := [first] + rest;
    assert all[0] == first && forall i :: 0 <= i < |rest| ==> all[i + 1] == rest[i];
    assert forall i :: 0 < i < |all| ==> all[i] == rest[i - 1];
    FlattenCons(first, rest);
    assert DataOf(first + Flatten(rest)) == DataOf(first) + DataOf(Flatten(rest));
    ReceivedAppend(binary, DataOf(first), DataOf(Flatten(rest)));
  }

  /** Without conversion the file receives all lines' bytes in order; its output is defined iff no value
      begins with two text-mode lines that are just a NUL. */
  lemma {:induction false} OutputOfBatches(cfg: Config, batches: seq<seq<Line>>)
    requires cfg.convert.None? && AllValid(batches)
    ensures ServerOutput(cfg, batches) == Output(cfg.binary, TagsOf(batches))
  {
    if batches != [] {
      var first, rest := batches[0], batches[1..];
      assert ValidLines(first);
      OutputOfBatches(cfg, rest);
      PassThroughOutput(cfg, first);
      PassThroughAllocates(cfg, first);
      assert Datas(first) == DataOf(Tags(first));
      OutputCons(cfg.binary, Tags(first), TagsOf(rest));
    }
  }

  // ---- Clients that write no NULs ----

  predicate NulFree(events: seq<Event>) {
    forall i :: 0 <= i < |events| && events[i].Data? ==> '\0' !in events[i].chunk
  }

  lemma {:induction false} ChunksNulFree(events: seq<Event>, pid: Pid)
    requires NulFree(events)
    ensures forall c :: c in ChunksOf(events, pid) ==> '\0' !in c
  {
    if events != [] {
      ChunksNulFree(events[1..], pid);
    }
  }

  lemma {:induction false} InOfPid(stack: seq<Tagged>, i: nat)
    requires i < |stack|
    ensures stack[i].data in OfPid(stack, stack[i].pid)
  {
    if i > 0 {
      InOfPid(stack[1..], i - 1);
    }
  }

  lemma {:induction false} InFlatten<T>(pieces: seq<seq<T>>, i: nat, j: nat)
    requires i < |pieces| && j < |pieces[i]|
    ensures pieces[i][j] in Flatten(pieces)
  {
    if i > 0 {
      InFlatten(pieces[1..], i - 1, j);
    }
  }

  /** If no process has stacked a line that is just a NUL, no cut into batches begins with two. */
  lemma NoLoneNulStart(binary: bool, batches: seq<seq<Tagged>>)
    requires binary || forall pid :: "\0" !in OfPid(Flatten(batches), pid)
    ensures NoEmptyStart(binary, batches)
  {
    forall i | 0 <= i < |batches|
      ensures !EmptyStart(binary, DataOf(batches[i]))
    {
      if !binary && |batches[i]| > 0 {
        InFlatten(batches, i, 0);
        var k :| 0 <= k < |Flatten(batches)| && Flatten(batches)[k] == batches[i][0];
        InOfPid(Flatten(batches), k);
        assert DataOf(batches[i])[0] == batches[i][0].data;
      }
    }
  }

  /** A process that writes no NULs stacks no line that is just a NUL. */
  lemma OwnNoLoneNul(par: Params, chunks: seq<string>)
    requires ValidParams(par) && !par.binary && PassThrough(par) && forall c :: c in chunks ==> '\0' !in c
    ensures "\0" !in AcceptAll(par, RunPid(par, "", chunks).lines)
  {
    RunPidNonEmpty(par, chunks);
    AcceptEverything(par, RunPid(par, "", chunks).lines);
    RunPidText(par, "", chunks);
    NoLoneNul("", chunks);
  }

  lemma StackNoLoneNul(par: Params, events: seq<Event>, pid: Pid)
    requires ValidParams(par) && !par.binary && PassThrough(par) && NulFree(events)
    ensures "\0" !in OfPid(Run(par, EMPTY, events).stack, pid)
  {
    PerPidIsolation(par, EMPTY, events, pid);
    ChunksNulFree(events, pid);
    OwnNoLoneNul(par, ChunksOf(events, pid));
    var lines := RunPid(par, "", ChunksOf(events, pid)).lines;
    assert [] + AcceptAll(par, lines) == AcceptAll(par, lines);
  }

  // ---- End to end ----

  /** End to end on values: whatever the processes push, in any interleaving, forced or not, once everything
      has been flushed the bytes the server stacks for a process are those its chunks carry; however the stack
      was cut into batches, the server's output is the bytes of all lines in stack order; and it is defined
      whenever no chunk holds a NUL, and in binary mode always. */
  lemma ClientToServer(par: Params, events: seq<Event>, batches: seq<seq<Line>>, cfg: Config, pid: Pid)
    requires ValidParams(par) && PassThrough(par) && cfg.convert.None? && cfg.binary == par.binary
    requires AllValid(batches) && Flatten(TagsOf(batches)) == Run(par, EMPTY, events + [FlushEvery]).stack
    ensures ServerOutput(cfg, batches) == Output(cfg.binary, TagsOf(batches))
    ensures Received(par.binary, OfPid(Flatten(TagsOf(batches)), pid)) == Carried(par.binary, ChunksOf(events, pid))
    ensures par.binary || NulFree(events) ==>
              ServerOutput(cfg, batches) == Some(Received(par.binary, DataOf(Flatten(TagsOf(batches)))))
  {
    OutputOfBatches(cfg, batches);
    StackedBytes(par, events, pid);
    AlwaysDefined(par, events, TagsOf(batches));
  }

  lemma AlwaysDefined(par: Params, events: seq<Event>, batches: seq<seq<Tagged>>)
    requires ValidParams(par) && PassThrough(par)
    requires Flatten(batches) == Run(par, EMPTY, events + [FlushEvery]).stack
    ensures par.binary || NulFree(events) ==> NoEmptyStart(par.binary, batches)
  {
    if par.binary || NulFree(events) {
      forall q | !par.binary
        ensures "\0" !in OfPid(Flatten(batches), q)
      {
        StackNoLoneNul(par, events + [FlushEvery], q);
      }
      NoLoneNulStart(par.binary, batches);
    }
  }

  /** After the last flush a process's lines on the stack carry all its bytes. */
  lemma StackedBytes(par: Params, events: seq<Event>, pid: Pid)
    requires ValidParams(par) && PassThrough(par)
    ensures Received(par.binary, OfPid(Run(par, EMPTY, events + [FlushEvery]).stack, pid))
              == Carried(par.binary, ChunksOf(events, pid))
  {
    PerPidIsolation(par, EMPTY, events + [FlushEvery], pid);
    var chunks := ChunksOf(events, pid);
    ChunksSnoc(events, FlushEvery, pid);
    NothingAfterForce(par, chunks);
    AloneConserves(par, chunks + [""]);
    var lines := RunPid(par, "", chunks + [""]).lines;
    assert [] + AcceptAll(par, lines) == AcceptAll(par, lines);
    RawAppend(par.binary, chunks, [""]);
    RawOfForce(par.binary);
    assert Raw(par.binary, chunks) + "" == Raw(par.binary, chunks);
  }

  lemma NothingAfterForce(par: Params, chunks: seq<string>)
    requires ValidParams(par)
    ensures RunPid(par, "", chunks + [""]).rest == ""
  {
    RunPidAppend(par, "", chunks, [""]);
    RunPidOne(par, RunPid(par, "", chunks).rest, "");
  }

  /** Only this process has written. */
  predicate Alone(events: seq<Event>, pid: Pid) {
    forall i :: 0 <= i < |events| && events[i].Data? ==> events[i].pid == pid
  }

  predicate AllOf(stack: seq<Tagged>, pid: Pid) {
    forall i :: 0 <= i < |stack| ==> stack[i].pid == pid
  }

  lemma {:induction false} OfPidAll(stack: seq<Tagged>, pid: Pid)
    requires AllOf(stack, pid)
    ensures |OfPid(stack, pid)| == |stack| && forall i :: 0 <= i < |stack| ==> OfPid(stack, pid)[i] == stack[i].data
  {
    if stack != [] {
      OfPidAll(stack[1..], pid);
    }
  }

  lemma {:induction false} FlushAllOf(par: Params, bufs: Bufs, pid: Pid)
    requires ValidParams(par) && bufs.Keys <= {pid}
    ensures AllOf(FlushAll(par, bufs, ""), pid)
  {
    if bufs != map[] {
      var least := MinPid(bufs.Keys);
      assert least == pid && Without(bufs, least) == map[];
    }
  }

  lemma {:induction false} RunAllOf(par: Params, s: State, events: seq<Event>, pid: Pid)
    requires ValidParams(par) && Alone(events, pid) && AllOf(s.stack, pid) && s.bufs.Keys <= {pid}
    ensures AllOf(Run(par, s, events).stack, pid)
    decreases |events|
  {
    if events != [] {
      FlushAllOf(par, s.bufs, pid);
      RunAllOf(par, Apply(par, s, events[0]), events[1..], pid);
    }
  }

  lemma DatasAreTags(stack: seq<Tagged>, pid: Pid)
    requires AllOf(stack, pid)
    ensures OfPid(stack, pid) == DataOf(stack)
  {
    OfPidAll(stack, pid);
  }

  // ---- An output that is not defined ----

  /** Two NULs pushed by one process make a value whose output is not defined. */
  lemma TwoNulsLoseOutput(par: Params, cfg: Config, l: Line)
    requires ValidParams(par) && !par.binary && PassThrough(par) && cfg.convert.None? && !cfg.binary
    requires ValidLine(l) && l.pid == 7 && l.data == "\0"
    ensures Flatten(TagsOf([[l, l]])) == Run(par, EMPTY, [Data(7, "\0\0")] + [FlushEvery]).stack
    ensures ServerOutput(cfg, [[l, l]]) == None
  {
    var line := Tagged(7, "\0");
    TwoNuls(par);
    assert Tags([l, l]) == [line, line];
    assert TagsOf([[l, l]]) == [[line, line]];
    assert Flatten([[line, line]]) == [line, line] + Flatten([[line, line]][1..]) == [line, line];
    OutputOfBatches(cfg, [[l, l]]);
    assert DataOf([line, line]) == ["\0", "\0"];
    assert EmptyStart(false, DataOf(TagsOf([[l, l]])[0]));
  }

  lemma TwoNuls(par: Params)
    requires ValidParams(par) && !par.binary && PassThrough(par)
    ensures Run(par, EMPTY, [Data(7, "\0\0")] + [FlushEvery]).stack == [Tagged(7, "\0"), Tagged(7, "\0")]
  {
    assert "\0\0"[1..] == "\0" && "\0"[1..] == "" && "" + ['\0'] == "\0" && Terminate("\0") == "\0";
    assert Cut("", "\0") == Prepend(["\0"], Cut("", ""));
    assert Cut("", "\0\0") == Split(["\0", "\0"], "");
    AcceptEverything(par, ["\0", "\0"]);
    var after := Apply(par, EMPTY, Data(7, "\0\0"));
    assert after.bufs == map[7 := ""] && after.stack == [Tagged(7, "\0"), Tagged(7, "\0")];
    FlushOfEmpty(par, 7);
    var events := [Data(7, "\0\0")] + [FlushEvery];
    assert events[1..] == [FlushEvery] && [FlushEvery][1..] == [];
  }

  lemma FlushOfEmpty(par: Params, pid: Pid)
    requires ValidParams(par)
    ensures FlushAll(par, map[pid := ""], "") == []
  {
    var bufs: Bufs := map[pid := ""];
    assert pid in bufs.Keys;
    assert MinPid(bufs.Keys) == pid && Without(bufs, pid) == map[];
  }
}
