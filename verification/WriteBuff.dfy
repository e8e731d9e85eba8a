/** The write buffer of one file handle: one byte buffer per client process and the stack they share. */
module WriteBuff {
  import opened Bytes
  import opened Splitter
  import opened Rechunk
  import opened BinBuff
  import opened Wire
  import opened PushSpec

  /** A stack as the pushing side sees it: who wrote what. */
  function Tags(stack: seq<Line>): (r: seq<Tagged>)
    ensures |r| == |stack| && forall i :: 0 <= i < |r| ==> r[i] == Tagged(stack[i].pid, stack[i].data)
  {
    if stack == [] then [] else [Tagged(stack[0].pid, stack[0].data)] + Tags(stack[1..])
  }

  lemma {:induction false} TagsAppend(a: seq<Line>, b: seq<Line>)
    ensures Tags(a + b) == Tags(a) + Tags(b)
  {
  }

  function TagsOf(batches: seq<seq<Line>>): (r: seq<seq<Tagged>>)
    ensures |r| == |batches| && forall i :: 0 <= i < |r| ==> r[i] == Tags(batches[i])
  {
    if batches == [] then [] else [Tags(batches[0])] + TagsOf(batches[1..])
  }

  lemma {:induction false} TagsOfFlatten(batches: seq<seq<Line>>)
    ensures Tags(Flatten(batches)) == Flatten(TagsOf(batches))
  {
    if batches != [] {
      TagsOfFlatten(batches[1..]);
      TagsAppend(batches[0], Flatten(batches[1..]));
      assert TagsOf(batches)[1..] == TagsOf(batches[1..]);
    }
  }

  /** `after` is `before` with valid lines for `added` put on top, each with this host's name. */
  predicate Pushed(before: seq<Line>, after: seq<Line>, added: seq<Tagged>, hostname: HostName) {
    && before <= after
    && Tags(after) == Tags(before) + added
    && (forall i :: |before| <= i < |after| ==> after[i].hostname == hostname && ValidLine(after[i]))
  }

  lemma PushedValid(before: seq<Line>, after: seq<Line>, added: seq<Tagged>, hostname: HostName)
    requires ValidLines(before) && Pushed(before, after, added, hostname)
    ensures ValidLines(after)
  {
    assert forall i :: 0 <= i < |before| ==> after[i] == before[i];
  }

  lemma {:induction false} PushedTwice(a: seq<Line>, b: seq<Line>, c: seq<Line>, x: seq<Tagged>, y: seq<Tagged>,
                                       hostname: HostName)
    requires Pushed(a, b, x, hostname) && Pushed(b, c, y, hostname)
    ensures Pushed(a, c, x + y, hostname)
  {
    AppendAssoc(Tags(a), x, y);
    assert forall i :: 0 <= i < |b| ==> c[i] == b[i];
  }

  lemma FlushLeast(par: Params, bufs: Bufs, data: string, pid: Pid)
    requires ValidParams(par) && bufs != map[] && IsMin(bufs.Keys, pid)
    ensures FlushAll(par, bufs, data) == Added(par, pid, CutBy(par, bufs[pid], data).lines)
              + FlushAll(par, Without(bufs, pid), data)
  {
    assert MinPid(bufs.Keys) == pid;
  }

  /** The clock: any time that fits its fields. */
  method Now() returns (sec: int, nsec: int)
    ensures IsTime(sec, nsec)
  {
    sec, nsec :| IsTime(sec, nsec);
  }

  class WriteBuff {
    const par: Params
    const hostname: HostName
    var inputBuffMap: map<Pid, BinBuff>
    var stack: seq<Line>

    /** The buffered bytes of each process. */
    ghost var bufs: Bufs

    /** The buffers and blocks a push may change. */
    ghost var repr: set<object>

    /** The process's buffer is well formed, owned by this object, and holds its bytes. */
    ghost predicate Holds(p: Pid)
      reads this, repr
      requires p in inputBuffMap && p in bufs
    {
      var buf := inputBuffMap[p];
      && buf in repr && (buf.cacheBuff != null ==> buf.cacheBuff in repr)
      && buf.Valid() && buf.Contents() == bufs[p] && ValidRest(par, bufs[p])
    }

    /** Two processes share no buffer and no block. */
    ghost predicate Apart(p: Pid, q: Pid)
      reads this, repr
      requires p in inputBuffMap && q in inputBuffMap && inputBuffMap[p] in repr && inputBuffMap[q] in repr
    {
      && inputBuffMap[p] != inputBuffMap[q]
      && (inputBuffMap[p].cacheBuff != null ==> inputBuffMap[p].cacheBuff != inputBuffMap[q].cacheBuff)
    }

    ghost predicate Valid()
      reads this, repr
    {
      && ValidParams(par) && ValidLines(stack) && this !in repr
      && bufs.Keys == inputBuffMap.Keys
      && (forall p :: p in inputBuffMap ==> Holds(p))
      && (forall p, q :: p in inputBuffMap && q in inputBuffMap && p != q ==> Apart(p, q))
    }

    constructor (par: Params, hostname: HostName)
      requires ValidParams(par)
      ensures this.par == par && this.hostname == hostname
      ensures Valid() && bufs == map[] && stack == [] && repr == {}
    {
      this.par, this.hostname := par, hostname;
      inputBuffMap, stack, bufs, repr := map[], [], map[], {};
    }

    /** The taken-out bytes are converted, limited and stacked. */
    method StackPush(block: array?<char>, length: nat, pid: Pid)
      requires block != null ==> length <= block.Length
      requires block == null ==> length == 0
      modifies this`stack
      ensures Pushed(old(stack), stack, Added(par, pid, [if block == null then "" else block[..length]]), hostname)
      ensures var text := if length == 0 then None else par.convert(block[..length]);
              if text.Some? && text.value != "" && (par.lineLimit == 0 || |text.value| <= par.lineLimit) then
                |stack| == |old(stack)| + 1 && stack[|old(stack)|].pid == pid && stack[|old(stack)|].data == text.value
              else
                stack == old(stack)
    {
      var piece := if block == null then "" else block[..length];
      assert AcceptAll(par, [piece]) == Accept(par, piece) + AcceptAll(par, []);
      if piece == "" {
        return;
      }
      var converted := par.convert(piece);
      if converted.None? || (par.lineLimit != NO_LIMIT && par.lineLimit < |converted.value|) {
        return;
      }
      var sec, nsec := Now();
      var line := BuildLine(converted.value, pid, hostname, sec, nsec);
      if line.Some? {
        stack := stack + [line.value];
      }
    }

    /** The block changes owner: `buf` keeps its own or gets a new one, never another buffer's. */
    twostate predicate OwnBlock(buf: BinBuff)
      reads buf
    {
      buf.cacheBuff == null || buf.cacheBuff == old(buf.cacheBuff) || fresh(buf.cacheBuff)
    }

    /** Takes the buffer out and stacks it. */
    method StackBuffer(buf: BinBuff, pid: Pid)
      requires buf.Valid()
      modifies this`stack, buf
      ensures buf.Valid() && buf.Contents() == "" && buf.cacheBuff == null
      ensures Pushed(old(stack), stack, Added(par, pid, [old(buf.Contents())]), hostname)
    {
      var block, length := buf.TakeoutBuff();
      StackPush(block, length, pid);
    }

    /** Appends the end of a line with the last-byte check, then stacks the buffer. */
    method StackLine(buf: BinBuff, data: string, pid: Pid)
      requires buf.Valid() && buf.Contents() + data != ""
      modifies this`stack, buf, buf.cacheBuff
      ensures buf.Valid() && buf.Contents() == "" && buf.cacheBuff == null
      ensures Pushed(old(stack), stack, Added(par, pid, [Terminate(old(buf.Contents()) + data)]), hostname)
    {
      buf.AppendStringBuff(data, true);
      StackBuffer(buf, pid);
    }

    /** Text mode. Empty data forces the buffered bytes out. */
    method StringPush(buf: BinBuff, data: string, pid: Pid)
      requires ValidParams(par) && !par.binary
      requires buf.Valid() && ValidRest(par, buf.Contents())
      modifies this`stack, buf, buf.cacheBuff
      ensures buf.Valid() && ValidRest(par, buf.Contents()) && OwnBlock(buf)
      ensures var cut := CutBy(par, old(buf.Contents()), data);
              buf.Contents() == cut.rest && Pushed(old(stack), stack, Added(par, pid, cut.lines), hostname)
    {
      ghost var cut := CutBy(par, buf.Contents(), data);
      CutShape(buf.Contents(), data);
      if data == "" {
        if !buf.IsEmpty() {
          assert buf.Contents() + "" == buf.Contents();
          StackLine(buf, "", pid);
        }
        return;
      }
      var start := CutLines(buf, data, pid);
      if start < |data| {
        CutNoEol(buf.Contents(), data[start..]);
        buf.AppendStringBuff(data[start..], false);
      } else {
        assert buf.Contents() + data[start..] == buf.Contents();
      }
    }

    /** One line ends at the break byte `pos`; of "\r\n" the '\n' is skipped. Then cutting goes on at `next`. */
    method EndLine(buf: BinBuff, data: string, start: nat, pos: nat, pid: Pid,
                   ghost lines: seq<string>, ghost whole: Split, ghost bottom: seq<Line>)
      returns (next: nat, ghost more: seq<string>)
      requires start <= pos < |data| && NoEol(data[start..pos]) && IsEol(data[pos])
      requires buf.Valid() && whole == Prepend(lines, Cut(buf.Contents(), data[start..]))
      requires Pushed(bottom, stack, Added(par, pid, lines), hostname)
      modifies this`stack, buf, buf.cacheBuff
      ensures buf.Valid() && buf.Contents() == "" && buf.cacheBuff == null
      ensures pos < next <= |data| && whole == Prepend(more, Cut("", data[next..]))
      ensures Pushed(bottom, stack, Added(par, pid, more), hostname)
    {
      var addcr := if data[pos] == '\r' && pos + 1 < |data| && data[pos + 1] == '\n' then 1 else 0;
      next := pos + addcr + 1;
      NextBreak(buf.Contents(), data, start, pos, lines, whole);
      ghost var line := Terminate(buf.Contents() + data[start..pos + 1]);
      ghost var before := stack;
      more := lines + [line];
      StackLine(buf, data[start..pos + 1], pid);
      PushedTwice(bottom, before, stack, Added(par, pid, lines), Added(par, pid, [line]), hostname);
      AddedAppend(par, pid, lines, [line]);
    }

    /** The loop over the chunk: every break byte ends a line; `start` is where the unfinished end begins. */
    method CutLines(buf: BinBuff, data: string, pid: Pid) returns (start: nat)
      requires buf.Valid()
      modifies this`stack, buf, buf.cacheBuff
      ensures buf.Valid() && OwnBlock(buf)
      ensures start <= |data| && NoEol(data[start..])
      ensures var cut := Cut(old(buf.Contents()), data);
              && cut.rest == buf.Contents() + data[start..]
              && Pushed(old(stack), stack, Added(par, pid, cut.lines), hostname)
    {
      start := 0;
      var pos := 0;
      ghost var lines: seq<string> := [];
      ghost var whole := Cut(buf.Contents(), data);
      assert data[0..] == data;
      while pos < |data|
        invariant start <= pos <= |data| && NoEol(data[start..pos])
        invariant buf.Valid() && OwnBlock(buf)
        invariant whole == Prepend(lines, Cut(buf.Contents(), data[start..]))
        invariant Pushed(old(stack), stack, Added(par, pid, lines), hostname)
        decreases |data| - pos
      {
        if IsEol(data[pos]) {
          pos, lines := EndLine(buf, data, start, pos, pid, lines, whole, old(stack));
          start := pos;
        } else {
          NoEolGrows(data, start, pos);
          pos := pos + 1;
        }
      }
      LastPiece(buf.Contents(), data, start, lines, whole);
    }

    /** Binary mode. Empty data forces the buffered bytes out. */
    method BinaryPush(buf: BinBuff, data: string, pid: Pid)
      requires ValidParams(par) && par.binary
      requires buf.Valid() && ValidRest(par, buf.Contents())
      modifies this`stack, buf, buf.cacheBuff
      ensures buf.Valid() && ValidRest(par, buf.Contents()) && OwnBlock(buf)
      ensures var cut := CutBy(par, old(buf.Contents()), data);
              buf.Contents() == cut.rest && Pushed(old(stack), stack, Added(par, pid, cut.lines), hostname)
    {
      if data == "" {
        if !buf.IsEmpty() {
          StackBuffer(buf, pid);
        }
        return;
      }
      var pos := 0;
      ghost var pieces: seq<string> := [];
      ghost var whole := Pieces(par.binaryLimit, buf.Contents() + data);
      assert data[0..] == data;
      while pos < |data|
        invariant 0 <= pos <= |data|
        invariant buf.Valid() && |buf.Contents()| < par.binaryLimit && OwnBlock(buf)
        invariant whole == Prepend(pieces, Pieces(par.binaryLimit, buf.Contents() + data[pos..]))
        invariant Pushed(old(stack), stack, Added(par, pid, pieces), hostname)
        decreases |data| - pos
      {
        pos, pieces := FillOnce(buf, data, pos, pid, pieces, whole, old(stack));
      }
      assert buf.Contents() + data[pos..] == buf.Contents();
      assert pieces + [] == pieces;
    }

    /** One turn: as many bytes as fit; a full buffer is stacked. */
    method FillOnce(buf: BinBuff, data: string, pos: nat, pid: Pid,
                    ghost pieces: seq<string>, ghost whole: Split, ghost bottom: seq<Line>)
      returns (next: nat, ghost more: seq<string>)
      requires pos < |data| && buf.Valid() && |buf.Contents()| < par.binaryLimit
      requires whole == Prepend(pieces, Pieces(par.binaryLimit, buf.Contents() + data[pos..]))
      requires Pushed(bottom, stack, Added(par, pid, pieces), hostname)
      modifies this`stack, buf, buf.cacheBuff
      ensures buf.Valid() && |buf.Contents()| < par.binaryLimit && OwnBlock(buf)
      ensures pos < next <= |data|
      ensures whole == Prepend(more, Pieces(par.binaryLimit, buf.Contents() + data[next..]))
      ensures Pushed(bottom, stack, Added(par, pid, more), hostname)
    {
      var maxsize := par.binaryLimit - buf.Size();
      var setsize := if maxsize < |data| - pos then maxsize else |data| - pos;
      next := pos + setsize;
      more := pieces;
      PieceStep(par.binaryLimit, buf.Contents(), data, pos, next, pieces, whole);
      buf.AppendStringBuff(data[pos..next], false);
      if par.binaryLimit <= buf.Size() {
        ghost var before, piece := stack, buf.Contents();
        StackBuffer(buf, pid);
        PushedTwice(bottom, before, stack, Added(par, pid, pieces), Added(par, pid, [piece]), hostname);
        AddedAppend(par, pid, pieces, [piece]);
        more := pieces + [piece];
        assert "" + data[next..] == data[next..];
      }
    }

    method OnePush(buf: BinBuff, data: string, pid: Pid)
      requires ValidParams(par) && buf.Valid() && ValidRest(par, buf.Contents())
      modifies this`stack, buf, buf.cacheBuff
      ensures buf.Valid() && ValidRest(par, buf.Contents()) && OwnBlock(buf)
      ensures var cut := CutBy(par, old(buf.Contents()), data);
              buf.Contents() == cut.rest && Pushed(old(stack), stack, Added(par, pid, cut.lines), hostname)
    {
      if par.binary {
        BinaryPush(buf, data, pid);
      } else {
        StringPush(buf, data, pid);
      }
    }

    /** Finds the buffer of a process, or makes an empty one. */
    method GetBinBuff(pid: Pid) returns (buf: BinBuff)
      requires Valid()
      modifies this`inputBuffMap, this`bufs, this`repr
      ensures Valid() && inputBuffMap == old(inputBuffMap)[pid := buf]
      ensures pid in old(inputBuffMap) ==> buf == old(inputBuffMap[pid])
      ensures pid !in old(inputBuffMap) ==> fresh(buf) && buf.cacheBuff == null
      ensures old(repr) <= repr && fresh(repr - old(repr))
      ensures bufs == old(bufs)[pid := Get(old(bufs), pid)]
    {
      if pid in inputBuffMap {
        buf := inputBuffMap[pid];
        assert inputBuffMap[pid := buf] == inputBuffMap;
      } else {
        buf := MakeBinBuff(pid);
      }
    }

    method MakeBinBuff(pid: Pid) returns (buf: BinBuff)
      requires Valid() && pid !in inputBuffMap
      modifies this`inputBuffMap, this`bufs, this`repr
      ensures Valid() && inputBuffMap == old(inputBuffMap)[pid := buf] && bufs == old(bufs)[pid := ""]
      ensures fresh(buf) && buf.cacheBuff == null && repr == old(repr) + {buf}
    {
      buf := new BinBuff();
      inputBuffMap := inputBuffMap[pid := buf];
      bufs, repr := bufs[pid := ""], repr + {buf};
      forall p | p in inputBuffMap
        ensures Holds(p)
      {
        assert p != pid ==> old(Holds(p));
      }
      forall p, q | p in inputBuffMap && q in inputBuffMap && p != q
        ensures Apart(p, q)
      {
        assert p != pid ==> old(Holds(p));
        assert q != pid ==> old(Holds(q));
        assert p != pid && q != pid ==> old(Apart(p, q));
      }
    }

    /** Pushing on one process's buffer leaves every other buffer as it is. */
    method PushKey(data: string, pid: Pid)
      requires Valid() && pid in inputBuffMap
      modifies this`stack, this`bufs, this`repr, inputBuffMap[pid], inputBuffMap[pid].cacheBuff
      ensures Valid() && old(repr) <= repr && fresh(repr - old(repr))
      ensures var cut := CutBy(par, old(bufs[pid]), data);
              bufs == old(bufs)[pid := cut.rest] && Pushed(old(stack), stack, Added(par, pid, cut.lines), hostname)
    {
      var buf := inputBuffMap[pid];
      ghost var before := stack;
      OnePush(buf, data, pid);
      PushedValid(before, stack, Added(par, pid, CutBy(par, bufs[pid], data).lines), hostname);
      bufs := bufs[pid := buf.Contents()];
      repr := repr + if buf.cacheBuff == null then {} else {buf.cacheBuff};
      OthersStay(pid);
    }

    /** Frame: a changed buffer with a block of its own does not touch the others. */
    twostate lemma OthersStay(pid: Pid)
      requires old(Valid()) && inputBuffMap == old(inputBuffMap) && pid in inputBuffMap && ValidLines(stack)
      requires inputBuffMap[pid].Valid() && ValidRest(par, inputBuffMap[pid].Contents()) && OwnBlock(inputBuffMap[pid])
      requires bufs == old(bufs)[pid := inputBuffMap[pid].Contents()]
      requires old(repr) <= repr && this !in repr
      requires inputBuffMap[pid].cacheBuff != null ==> inputBuffMap[pid].cacheBuff in repr
      requires forall o :: o in old(repr) && o != inputBuffMap[pid] && o != old(inputBuffMap[pid].cacheBuff) ==>
                unchanged(o)
      ensures Valid()
    {
      forall p | p in inputBuffMap && p != pid
        ensures unchanged(inputBuffMap[p]) && Holds(p)
      {
        assert old(Holds(p)) && old(Apart(p, pid)) && old(Apart(pid, p));
        assert unchanged(inputBuffMap[p]);
        assert inputBuffMap[p].cacheBuff != null ==> unchanged(inputBuffMap[p].cacheBuff);
      }
      assert Holds(pid);
      forall p, q | p in inputBuffMap && q in inputBuffMap && p != q
        ensures Apart(p, q)
      {
        assert old(Apart(p, q)) && old(Apart(q, p)) && old(Holds(p)) && old(Holds(q));
      }
    }

    /** Push with one process's pid: its buffer and the stack change, no other buffer does. */
    method PushPid(data: string, pid: Pid)
      requires Valid()
      modifies this, repr
      ensures Valid() && fresh(repr - old(repr))
      ensures var cut := CutBy(par, Get(old(bufs), pid), data);
              bufs == old(bufs)[pid := cut.rest] && Pushed(old(stack), stack, Added(par, pid, cut.lines), hostname)
    {
      ghost var before := bufs;
      var buf := GetBinBuff(pid);
      PushKey(data, pid);
      UpdateTwice(before, pid, Get(before, pid), bufs[pid]);
    }

    /** Push with the pid for "all": every buffer is pushed in ascending order and thrown away. */
    method PushEvery(data: string)
      requires Valid()
      modifies this, repr
      ensures Valid() && fresh(repr - old(repr)) && bufs == map[]
      ensures Pushed(old(stack), stack, FlushAll(par, old(bufs), data), hostname)
    {
      ghost var added: seq<Tagged> := [];
      ghost var all := FlushAll(par, bufs, data);
      assert [] + all == all;
      while inputBuffMap != map[]
        invariant Valid() && old(repr) <= repr && fresh(repr - old(repr))
        invariant Pushed(old(stack), stack, added, hostname)
        invariant all == added + FlushAll(par, bufs, data)
        decreases |inputBuffMap|
      {
        added := PushLeast(data, added, all, old(stack));
      }
      assert added + [] == added;
    }

    /** The first process in the map is pushed and thrown away. */
    method PushLeast(data: string, ghost added: seq<Tagged>, ghost all: seq<Tagged>, ghost bottom: seq<Line>)
      returns (ghost more: seq<Tagged>)
      requires Valid() && inputBuffMap != map[]
      requires Pushed(bottom, stack, added, hostname) && all == added + FlushAll(par, bufs, data)
      modifies this, repr
      ensures Valid() && old(repr) <= repr && fresh(repr - old(repr))
      ensures |inputBuffMap| < |old(inputBuffMap)|
      ensures Pushed(bottom, stack, more, hostname) && all == more + FlushAll(par, bufs, data)
    {
      MinExists(inputBuffMap.Keys);
      var pid: Pid :| IsMin(inputBuffMap.Keys, pid);
      ghost var lines := Added(par, pid, CutBy(par, bufs[pid], data).lines);
      FlushLeast(par, bufs, data, pid);
      AppendAssoc(added, lines, FlushAll(par, Without(bufs, pid), data));
      SmallerMap(inputBuffMap, pid);
      PushAndDiscard(data, pid, added, bottom);
      more := added + lines;
    }

    method PushAndDiscard(data: string, pid: Pid, ghost added: seq<Tagged>, ghost bottom: seq<Line>)
      requires Valid() && pid in inputBuffMap
      requires Pushed(bottom, stack, added, hostname)
      modifies this, repr
      ensures Valid() && inputBuffMap == Without(old(inputBuffMap), pid)
      ensures old(repr) <= repr && fresh(repr - old(repr))
      ensures bufs == Without(old(bufs), pid)
      ensures Pushed(bottom, stack, added + Added(par, pid, CutBy(par, old(bufs[pid]), data).lines), hostname)
    {
      ghost var before, was := stack, bufs;
      ghost var lines := Added(par, pid, CutBy(par, bufs[pid], data).lines);
      PushKey(data, pid);
      PushedTwice(bottom, before, stack, added, lines, hostname);
      WithoutUpdated(was, pid, bufs[pid]);
      Discard(pid);
    }

    method Discard(pid: Pid)
      requires Valid() && pid in inputBuffMap
      modifies this`inputBuffMap, this`bufs
      ensures Valid() && inputBuffMap == Without(old(inputBuffMap), pid)
      ensures bufs == Without(old(bufs), pid)
    {
      inputBuffMap, bufs := Without(inputBuffMap, pid), Without(bufs, pid);
      forall p | p in inputBuffMap
        ensures Holds(p)
      {
        assert old(Holds(p));
      }
      forall p, q | p in inputBuffMap && q in inputBuffMap && p != q
        ensures Apart(p, q)
      {
        assert old(Apart(p, q));
      }
    }

    /** Push: -1 is "all", any other pid is one process. */
    method Push(data: string, pid: Pid)
      requires Valid()
      modifies this, repr
      ensures Valid() && fresh(repr - old(repr))
      ensures bufs == if pid == -1 then map[] else old(bufs)[pid := CutBy(par, Get(old(bufs), pid), data).rest]
      ensures Pushed(old(stack), stack, if pid == -1 then FlushAll(par, old(bufs), data)
                                        else Added(par, pid, CutBy(par, Get(old(bufs), pid), data).lines), hostname)
    {
      if pid == ALL_PIDS {
        PushEvery(data);
      } else {
        PushPid(data, pid);
      }
    }

    /** Moves all lines off the stack, one after the other. */
    method TakeStack() returns (tmpStack: seq<Line>)
      modifies this`stack
      ensures tmpStack == old(stack) && stack == []
    {
      tmpStack := [];
      while stack != []
        invariant tmpStack + stack == old(stack)
        decreases |stack|
      {
        var line := stack[0];
        stack := stack[1..];
        tmpStack := tmpStack + [line];
      }
      assert tmpStack + [] == tmpStack;
    }

    /** Packs the whole batch as one value and leaves the stack empty. */
    method Pop() returns (block: array?<char>)
      requires Valid()
      modifies this`stack
      ensures Valid() && stack == []
      ensures old(stack) == [] ==> block == null
      ensures old(stack) != [] ==> block != null && fresh(block) && block[..] == EncodeValue(old(stack))
    {
      var tmpStack := TakeStack();
      block := BuildValue(tmpStack);
    }
  }

  /** Bytes up to the limit join the buffer; at the limit the buffer is the next piece. */
  lemma PieceStep(limit: nat, b: string, data: string, pos: nat, next: nat, pieces: seq<string>, whole: Split)
    requires |b| < limit && pos < next <= |data| && |b| + (next - pos) <= limit
    requires whole == Prepend(pieces, Pieces(limit, b + data[pos..]))
    ensures var filled := b + data[pos..next];
            whole == if |filled| < limit then Prepend(pieces, Pieces(limit, filled + data[next..]))
                     else Prepend(pieces + [filled], Pieces(limit, data[next..]))
  {
    var filled, all := b + data[pos..next], b + data[pos..];
    assert all == filled + data[next..];
    if |filled| == limit {
      assert all[..limit] == filled && all[limit..] == data[next..];
      var rest := Pieces(limit, data[next..]);
      assert pieces + ([filled] + rest.lines) == pieces + [filled] + rest.lines;
    }
  }

  lemma NoEolGrows(data: string, start: nat, pos: nat)
    requires start <= pos < |data| && NoEol(data[start..pos]) && !IsEol(data[pos])
    ensures NoEol(data[start..pos + 1])
  {
    assert data[start..pos + 1] == data[start..pos] + [data[pos]];
  }

  /** No break byte from `start` on: the rest of the chunk joins the buffer. */
  lemma LastPiece(b: string, data: string, start: nat, lines: seq<string>, whole: Split)
    requires start <= |data| && NoEol(data[start..|data|])
    requires whole == Prepend(lines, Cut(b, data[start..]))
    ensures NoEol(data[start..]) && whole == Split(lines, b + data[start..])
  {
    assert data[start..|data|] == data[start..];
    CutNoEol(b, data[start..]);
    assert lines + [] == lines;
  }

  /** The first break byte from `start` on is at `pos`. */
  lemma NextBreak(b: string, data: string, start: nat, pos: nat, lines: seq<string>, whole: Split)
    requires start <= pos < |data| && NoEol(data[start..pos]) && IsEol(data[pos])
    requires whole == Prepend(lines, Cut(b, data[start..]))
    ensures b + data[start..pos + 1] != ""
    ensures var next := pos + (if data[pos] == '\r' && pos + 1 < |data| && data[pos + 1] == '\n' then 2 else 1);
            && next <= |data|
            && whole == Prepend(lines + [Terminate(b + data[start..pos + 1])], Cut("", data[next..]))
  {
    var tail, k := data[start..], pos - start;
    assert tail[..k] == data[start..pos] && tail[..k + 1] == data[start..pos + 1];
    assert tail[k..] == data[pos..];
    CutAtFirst(b, tail, k);
    assert tail[k + EolWidth(tail[k..])..] == data[pos + EolWidth(data[pos..])..];
    var line := Terminate(b + data[start..pos + 1]);
    var rest := Cut("", tail[k + EolWidth(tail[k..])..]);
    assert lines + ([line] + rest.lines) == lines + [line] + rest.lines;
  }
}
