/** Text mode: how a stream of chunks is cut into NUL-terminated lines. */
module Splitter {
  import opened Bytes

  /** Finished lines, and the unfinished bytes that stay in the buffer. */
  datatype Split = Split(lines: seq<string>, rest: string)

  predicate IsEol(c: char) {
    c == '\n' || c == '\r' || c == '\0'
  }

  predicate NoEol(s: string) {
    forall i :: 0 <= i < |s| ==> !IsEol(s[i])
  }

  /** A NUL is appended unless the piece already ends in one. */
  function Terminate(piece: string): string
    requires piece != ""
  {
    if piece[|piece| - 1] == '\0' then piece else piece + ['\0']
  }

  /** A line break is one byte, except that "\r\n" inside one chunk counts as one break. */
  function EolWidth(data: string): (w: nat)
    requires data != ""
    ensures 1 <= w <= |data|
  {
    if |data| > 1 && data[0] == '\r' && data[1] == '\n' then 2 else 1
  }

  function Prepend(lines: seq<string>, s: Split): Split {
    Split(lines + s.lines, s.rest)
  }

  /** One chunk pushed on a buffer that holds `buf`. Of "\r\n" only the '\r' is kept. */
  function Cut(buf: string, data: string): Split
    decreases |data|
  {
    if data == "" then Split([], buf)
    else if IsEol(data[0]) then
      Prepend([Terminate(buf + [data[0]])], Cut("", data[EolWidth(data)..]))
    else
      Cut(buf + [data[0]], data[1..])
  }

  /** The forced push: whatever is buffered becomes a line. */
  function ForceCut(buf: string): Split {
    if buf == "" then Split([], "") else Split([Terminate(buf)], "")
  }

  /** One push on one buffer; empty data means force. */
  function Push(buf: string, data: string): Split {
    if data == "" then ForceCut(buf) else Cut(buf, data)
  }

  function PushAll(buf: string, chunks: seq<string>): Split
    decreases |chunks|
  {
    if chunks == [] then Split([], buf)
    else
      var first := Push(buf, chunks[0]);
      Prepend(first.lines, PushAll(first.rest, chunks[1..]))
  }

  // ---- An equivalent cutter that looks at one byte at a time ----

  /** Every break byte ends a line of its own; no look-ahead. */
  function CutPlain(buf: string, data: string): Split
    decreases |data|
  {
    if data == "" then Split([], buf)
    else if IsEol(data[0]) then Prepend([Terminate(buf + [data[0]])], CutPlain("", data[1..]))
    else CutPlain(buf + [data[0]], data[1..])
  }

  /** A chunk without the '\n's that directly follow a '\r' in it. */
  function DropLf(data: string): string
    decreases |data|
  {
    if data == "" then "" else [data[0]] + DropLf(data[EolWidth(data)..])
  }

  function Survivors(chunks: seq<string>): string {
    if chunks == [] then "" else DropLf(chunks[0]) + Survivors(chunks[1..])
  }

  lemma {:induction false} CutIsPlain(buf: string, data: string)
    ensures Cut(buf, data) == CutPlain(buf, DropLf(data))
    decreases |data|
  {
    if data != "" {
      var tail := data[EolWidth(data)..];
      assert DropLf(data)[1..] == DropLf(tail);
      CutIsPlain(if IsEol(data[0]) then "" else buf + [data[0]], tail);
    }
  }

  lemma {:induction false} CutPlainAppend(buf: string, a: string, b: string)
    ensures var first := CutPlain(buf, a);
            CutPlain(buf, a + b) == Prepend(first.lines, CutPlain(first.rest, b))
    decreases |a|
  {
    if a == "" {
      assert a + b == b;
      assert [] + CutPlain(buf, b).lines == CutPlain(buf, b).lines;
    } else {
      assert (a + b)[1..] == a[1..] + b;
      if IsEol(a[0]) {
        CutPlainAppend("", a[1..], b);
        var head := [Terminate(buf + [a[0]])];
        var first := CutPlain("", a[1..]);
        assert head + (first.lines + CutPlain(first.rest, b).lines) == head + first.lines
            + CutPlain(first.rest, b).lines;
      } else {
        CutPlainAppend(buf + [a[0]], a[1..], b);
      }
    }
  }

  predicate SplitsCrLf(a: string, b: string) {
    a != "" && b != "" && a[|a| - 1] == '\r' && b[0] == '\n'
  }

  /** Dropping the '\n's of `a + b`: the first byte of `b` goes too when the boundary cuts a "\r\n". */
  lemma {:induction false} DropLfAppend(a: string, b: string)
    ensures DropLf(a + b) == DropLf(a) + (if SplitsCrLf(a, b) then DropLf(b)[1..] else DropLf(b))
    decreases |a|
  {
    if a == "" {
      assert a + b == b;
    } else if |a| == 1 && SplitsCrLf(a, b) {
      assert (a + b)[2..] == b[1..];
      DropLfHead(a + b, 2);
      DropLfHead(a, 1);
      DropLfHead(b, 1);
    } else {
      var w := EolWidth(a);
      DropOfAppend(a, b, w);
      DropLfAppend(a[w..], b);
      assert SplitsCrLf(a[w..], b) == SplitsCrLf(a, b) by {
        assert w < |a| ==> a[w..][|a[w..]| - 1] == a[|a| - 1];
      }
      DropLfGlue(a, b, if SplitsCrLf(a, b) then DropLf(b)[1..] else DropLf(b));
    }
  }

  lemma DropLfGlue(a: string, b: string, tail: string)
    requires a != "" && !(|a| == 1 && SplitsCrLf(a, b))
    requires DropLf((a + b)[EolWidth(a)..]) == DropLf(a[EolWidth(a)..]) + tail
    ensures DropLf(a + b) == DropLf(a) + tail
  {
    DropLfHead(a, EolWidth(a));
    DropLfHead(a + b, EolWidth(a));
  }

  lemma DropLfHead(data: string, w: nat)
    requires data != "" && w == EolWidth(data)
    ensures DropLf(data) == [data[0]] + DropLf(data[w..])
  {
  }

  // ---- Chunking independence ----

  /** Two pushes leave what one push of both chunks leaves, unless the boundary cuts a "\r\n" in
      two; then exactly one extra line "\n\0" appears, first among the lines of the second push. */
  lemma {:induction false} PushTwice(buf: string, a: string, b: string)
    requires a != "" && b != ""
    ensures var first := Push(buf, a);
            var second := Push(first.rest, b);
            if SplitsCrLf(a, b) then
              && second.lines != [] && second.lines[0] == "\n\0"
              && Push(buf, a + b) == Split(first.lines + second.lines[1..], second.rest)
              && |first.lines + second.lines| == |Push(buf, a + b).lines| + 1
            else
              Push(buf, a + b) == Prepend(first.lines, second)
  {
    var first := Cut(buf, a);
    var second := Cut(first.rest, b);
    CutIsPlain(buf, a);
    CutIsPlain(first.rest, b);
    CutIsPlain(buf, a + b);
    DropLfAppend(a, b);
    if SplitsCrLf(a, b) {
      EndsAtEol(buf, a);
      assert second.lines[0] == Terminate("" + ['\n']) == "\n\0";
      var tail := DropLf(b)[1..];
      CutPlainAppend(buf, DropLf(a), tail);
      assert CutPlain("", DropLf(b)) == Prepend(["\n\0"], CutPlain("", tail));
      assert second.lines[1..] == CutPlain("", tail).lines;
    } else {
      CutPlainAppend(buf, DropLf(a), DropLf(b));
    }
  }

  /** A chunk that ends in a break byte leaves nothing in the buffer. */
  lemma {:induction false} EndsAtEol(buf: string, a: string)
    requires a != "" && IsEol(a[|a| - 1])
    ensures Cut(buf, a).rest == ""
    decreases |a|
  {
    var w := EolWidth(a);
    if w < |a| {
      assert a[w..][|a[w..]| - 1] == a[|a| - 1];
      EndsAtEol(if IsEol(a[0]) then "" else buf + [a[0]], a[w..]);
    }
  }

  /** What one push amounts to for the cutter of single bytes: a forced push is a NUL after buffered
      bytes, and nothing on an empty buffer. */
  function Amount(buf: string, data: string): string {
    if data != "" then DropLf(data) else if buf == "" then "" else "\0"
  }

  /** What all pushes amount to, one after the other. */
  function Stream(buf: string, chunks: seq<string>): string
    decreases |chunks|
  {
    if chunks == [] then "" else Amount(buf, chunks[0]) + Stream(Push(buf, chunks[0]).rest, chunks[1..])
  }

  lemma PushIsPlain(buf: string, data: string)
    requires NoEol(buf)
    ensures Push(buf, data) == CutPlain(buf, Amount(buf, data)) && NoEol(Push(buf, data).rest)
  {
    CutIsPlain(buf, data);
    CutPlainShape(buf, DropLf(data));
    if data == "" && buf != "" {
      assert "\0"[1..] == "";
      assert CutPlain(buf, "\0") == Prepend([Terminate(buf + ['\0'])], CutPlain("", ""));
    }
  }

  lemma {:induction false} PushAllIsPlain(buf: string, chunks: seq<string>)
    requires NoEol(buf)
    ensures PushAll(buf, chunks) == CutPlain(buf, Stream(buf, chunks))
    decreases |chunks|
  {
    if chunks != [] {
      PushIsPlain(buf, chunks[0]);
      PushAllIsPlain(Push(buf, chunks[0]).rest, chunks[1..]);
      CutPlainAppend(buf, Amount(buf, chunks[0]), Stream(Push(buf, chunks[0]).rest, chunks[1..]));
    }
  }

  /** Without forced pushes that is what survives of the chunks. */
  lemma {:induction false} StreamOfChunks(buf: string, chunks: seq<string>)
    requires "" !in chunks
    ensures Stream(buf, chunks) == Survivors(chunks)
    decreases |chunks|
  {
    if chunks != [] {
      assert chunks[0] in chunks && forall c :: c in chunks[1..] ==> c in chunks;
      StreamOfChunks(Push(buf, chunks[0]).rest, chunks[1..]);
    }
  }

  /** Forced pushes bring no bytes. */
  lemma {:induction false} StreamKeepsBytes(buf: string, chunks: seq<string>)
    ensures WithoutNul(Stream(buf, chunks)) == WithoutNul(Survivors(chunks))
    decreases |chunks|
  {
    if chunks != [] {
      var rest := Push(buf, chunks[0]).rest;
      StreamKeepsBytes(rest, chunks[1..]);
      WithoutNulAppend(Amount(buf, chunks[0]), Stream(rest, chunks[1..]));
      WithoutNulAppend(DropLf(chunks[0]), Survivors(chunks[1..]));
      assert WithoutNul("\0") == WithoutNul("\0"[1..]) == "";
    }
  }

  // ---- Nothing else is lost, added or reordered ----

  /** The source bytes of one line: its NUL was appended by the cutter iff a '\n' or '\r' precedes it. */
  function LineSource(line: string): string {
    if |line| >= 2 && (line[|line| - 2] == '\n' || line[|line| - 2] == '\r') then line[..|line| - 1] else line
  }

  function Source(s: Split): string
    decreases |s.lines|
  {
    if s.lines == [] then s.rest else LineSource(s.lines[0]) + Source(Split(s.lines[1..], s.rest))
  }

  lemma {:induction false} SourceOfCutPlain(buf: string, data: string)
    requires NoEol(buf)
    ensures Source(CutPlain(buf, data)) == buf + data
    decreases |data|
  {
    if data != "" {
      var c := data[0];
      assert [c] + data[1..] == data;
      if IsEol(c) {
        SourceOfCutPlain("", data[1..]);
        var line := Terminate(buf + [c]);
        assert LineSource(line) == buf + [c] by {
          if c == '\0' && |line| >= 2 {
            assert line[|line| - 2] == buf[|buf| - 1];
          }
        }
        assert CutPlain(buf, data).lines[0] == line;
        assert CutPlain(buf, data).lines[1..] == CutPlain("", data[1..]).lines;
        assert buf + data == buf + [c] + data[1..];
      } else {
        SourceOfCutPlain(buf + [c], data[1..]);
        assert buf + data == buf + [c] + data[1..];
      }
    }
  }

  /** Two series of pushes, forced ones among them, leave the same lines and the same buffer iff they amount
      to the same bytes; without forced pushes, iff the same bytes survive, that is, iff they agree once
      each '\n' that follows a '\r' in its own chunk is gone. */
  lemma SameSplitIffSameStream(buf: string, cs: seq<string>, ds: seq<string>)
    requires NoEol(buf)
    ensures PushAll(buf, cs) == PushAll(buf, ds) <==> Stream(buf, cs) == Stream(buf, ds)
    ensures "" !in cs && "" !in ds ==> (PushAll(buf, cs) == PushAll(buf, ds) <==> Survivors(cs) == Survivors(ds))
  {
    PushAllIsPlain(buf, cs);
    PushAllIsPlain(buf, ds);
    SourceOfCutPlain(buf, Stream(buf, cs));
    SourceOfCutPlain(buf, Stream(buf, ds));
    assert (buf + Stream(buf, cs))[|buf|..] == Stream(buf, cs);
    assert (buf + Stream(buf, ds))[|buf|..] == Stream(buf, ds);
    if "" !in cs && "" !in ds {
      StreamOfChunks(buf, cs);
      StreamOfChunks(buf, ds);
    }
  }

  /** No boundary between two chunks falls inside a "\r\n". */
  predicate KeepsCrLf(chunks: seq<string>) {
    |chunks| >= 2 ==> !SplitsCrLf(chunks[0], chunks[1]) && KeepsCrLf(chunks[1..])
  }

  /** The chunks between two forced pushes, glued together. */
  function Merged(chunks: seq<string>): seq<string>
    decreases |chunks|
  {
    if |chunks| < 2 then chunks
    else if chunks[0] == "" || chunks[1] == "" then [chunks[0]] + Merged(chunks[1..])
    else Merged([chunks[0] + chunks[1]] + chunks[2..])
  }

  lemma PushHead(buf: string, head: string, tail: seq<string>)
    ensures var first := Push(buf, head);
            PushAll(buf, [head] + tail) == Prepend(first.lines, PushAll(first.rest, tail))
  {
    assert ([head] + tail)[1..] == tail;
  }

  lemma GluePair(buf: string, a: string, b: string, tail: seq<string>)
    requires a != "" && b != "" && !SplitsCrLf(a, b)
    ensures PushAll(buf, [a] + ([b] + tail)) == PushAll(buf, [a + b] + tail)
  {
    var first := Push(buf, a);
    var second := Push(first.rest, b);
    PushTwice(buf, a, b);
    PushHead(buf, a, [b] + tail);
    PushHead(first.rest, b, tail);
    PushHead(buf, a + b, tail);
    AppendAssoc(first.lines, second.lines, PushAll(second.rest, tail).lines);
  }

  /** Gluing changes nothing as long as every "\r\n" is kept together. */
  lemma {:induction false} PushMerged(buf: string, chunks: seq<string>)
    requires KeepsCrLf(chunks)
    ensures PushAll(buf, Merged(chunks)) == PushAll(buf, chunks)
    decreases |chunks|
  {
    if |chunks| >= 2 {
      var a, b, tail := chunks[0], chunks[1], chunks[2..];
      assert chunks[1..] == [b] + tail && chunks == [a] + ([b] + tail);
      if a == "" || b == "" {
        PushMerged(Push(buf, a).rest, chunks[1..]);
        PushHead(buf, a, chunks[1..]);
        PushHead(buf, a, Merged(chunks[1..]));
      } else {
        var glued := [a + b] + tail;
        assert glued[1..] == tail && chunks[1..][1..] == tail;
        assert tail != [] ==> chunks[1..][1] == tail[0] == glued[1] && (a + b)[|a + b| - 1] == b[|b| - 1];
        GluePair(buf, a, b, tail);
        PushMerged(buf, glued);
      }
    }
  }

  lemma {:induction false} MergedOfChunks(chunks: seq<string>)
    requires chunks != [] && "" !in chunks
    ensures Merged(chunks) == [Flatten(chunks)]
    decreases |chunks|
  {
    var a := chunks[0];
    if |chunks| == 1 {
      FlattenCons(a, []);
      assert chunks == [a] + [] && a + "" == a;
    } else {
      var b, tail := chunks[1], chunks[2..];
      assert a in chunks && b in chunks && forall c :: c in tail ==> c in chunks;
      var glued := [a + b] + tail;
      MergedOfChunks(glued);
      assert glued[1..] == tail && chunks[1..][1..] == tail;
      AppendAssoc(a, b, Flatten(tail));
    }
  }

  /** Between forced pushes only the bytes matter: two series of pushes that keep every "\r\n" together and
      glue to the same chunks agree; without forced pushes, any two chunkings of one stream do. */
  lemma ChunkingIndependence(buf: string, cs: seq<string>, ds: seq<string>)
    requires KeepsCrLf(cs) && KeepsCrLf(ds)
    requires Merged(cs) == Merged(ds) || (cs != [] && ds != [] && "" !in cs && "" !in ds && Flatten(cs) == Flatten(ds))
    ensures PushAll(buf, cs) == PushAll(buf, ds)
  {
    PushMerged(buf, cs);
    PushMerged(buf, ds);
    if cs != [] && ds != [] && "" !in cs && "" !in ds {
      MergedOfChunks(cs);
      MergedOfChunks(ds);
    }
  }

  // ---- Shape of the lines ----

  /** What the cutter stacks: a NUL at the end and nowhere else, and '\n' or '\r' only just before it. */
  predicate IsStackLine(line: string) {
    && line != "" && line[|line| - 1] == '\0'
    && (forall i :: 0 <= i < |line| - 1 ==> line[i] != '\0')
    && (forall i :: 0 <= i < |line| - 2 ==> !IsEol(line[i]))
  }

  lemma {:induction false} CutPlainShape(buf: string, data: string)
    requires NoEol(buf)
    ensures NoEol(CutPlain(buf, data).rest)
    ensures forall l :: l in CutPlain(buf, data).lines ==> IsStackLine(l)
    decreases |data|
  {
    if data != "" {
      if IsEol(data[0]) {
        CutPlainShape("", data[1..]);
        assert IsStackLine(Terminate(buf + [data[0]]));
      } else {
        CutPlainShape(buf + [data[0]], data[1..]);
      }
    }
  }

  lemma CutShape(buf: string, data: string)
    requires NoEol(buf)
    ensures NoEol(Cut(buf, data).rest) && forall l :: l in Cut(buf, data).lines ==> IsStackLine(l)
    ensures forall l :: l in ForceCut(buf).lines ==> IsStackLine(l)
  {
    CutIsPlain(buf, data);
    CutPlainShape(buf, DropLf(data));
  }

  // ---- Chunks without NULs ----

  lemma {:induction false} DropLfNulFree(data: string)
    requires '\0' !in data
    ensures '\0' !in DropLf(data)
    decreases |data|
  {
    if data != "" {
      assert data[0] in data && forall c :: c in data[EolWidth(data)..] ==> c in data;
      DropLfNulFree(data[EolWidth(data)..]);
    }
  }

  lemma {:induction false} CutPlainNoLoneNul(buf: string, data: string)
    requires '\0' !in data
    ensures "\0" !in CutPlain(buf, data).lines
    decreases |data|
  {
    if data != "" {
      assert data[0] in data && forall c :: c in data[1..] ==> c in data;
      CutPlainNoLoneNul(if IsEol(data[0]) then "" else buf + [data[0]], data[1..]);
    }
  }

  /** Pushes without NULs, forced ones among them, never stack a line that is just a NUL. */
  lemma {:induction false} NoLoneNul(buf: string, chunks: seq<string>)
    requires NoEol(buf) && forall c :: c in chunks ==> '\0' !in c
    ensures "\0" !in PushAll(buf, chunks).lines
    decreases |chunks|
  {
    if chunks != [] {
      assert chunks[0] in chunks && forall c :: c in chunks[1..] ==> c in chunks;
      CutIsPlain(buf, chunks[0]);
      DropLfNulFree(chunks[0]);
      CutPlainNoLoneNul(buf, DropLf(chunks[0]));
      PushIsPlain(buf, chunks[0]);
      NoLoneNul(Push(buf, chunks[0]).rest, chunks[1..]);
    }
  }

  // ---- What the receiver writes for the lines ----

  /** Text-mode output of one line: without its terminating NUL. */
  function Strip(line: string): string {
    if line != "" && line[|line| - 1] == '\0' then line[..|line| - 1] else line
  }

  function Payload(lines: seq<string>): string {
    if lines == [] then "" else Strip(lines[0]) + Payload(lines[1..])
  }

  lemma {:induction false} PayloadAppend(a: seq<string>, b: seq<string>)
    ensures Payload(a + b) == Payload(a) + Payload(b)
  {
    if a == [] {
      assert a + b == b;
    } else {
      DropOfAppend(a, b, 1);
      PayloadAppend(a[1..], b);
    }
  }

  lemma StripTerminated(buf: string, c: char)
    requires NoEol(buf) && IsEol(c)
    ensures Strip(Terminate(buf + [c])) == WithoutNul(buf + [c])
  {
    WithoutNulAppend(buf, [c]);
    WithoutNulIdentity(buf);
  }

  lemma {:induction false} PayloadOfCutPlain(buf: string, data: string)
    requires NoEol(buf)
    ensures Payload(CutPlain(buf, data).lines) + CutPlain(buf, data).rest == WithoutNul(buf + data)
    decreases |data|
  {
    if data == "" {
      assert buf + data == buf;
      WithoutNulIdentity(buf);
    } else {
      var head := buf + [data[0]];
      assert buf + data == head + data[1..];
      if IsEol(data[0]) {
        PayloadOfCutPlain("", data[1..]);
        assert "" + data[1..] == data[1..];
        WithoutNulAppend(head, data[1..]);
        StripTerminated(buf, data[0]);
        PayloadAppend([Terminate(head)], CutPlain("", data[1..]).lines);
        assert Payload([Terminate(head)]) == Strip(Terminate(head));
        AppendAssoc(Strip(Terminate(head)), Payload(CutPlain("", data[1..]).lines), CutPlain("", data[1..]).rest);
      } else {
        PayloadOfCutPlain(head, data[1..]);
      }
    }
  }

  /** Conservation in text mode, forced pushes included: the lines, without their final NULs, and the buffer
      carry the surviving bytes without NULs, in order. */
  lemma PushAllConserves(buf: string, chunks: seq<string>)
    requires NoEol(buf)
    ensures var s := PushAll(buf, chunks);
            NoEol(s.rest) && Payload(s.lines) + s.rest == buf + WithoutNul(Survivors(chunks))
  {
    PushAllIsPlain(buf, chunks);
    CutPlainShape(buf, Stream(buf, chunks));
    PayloadOfCutPlain(buf, Stream(buf, chunks));
    WithoutNulAppend(buf, Stream(buf, chunks));
    WithoutNulIdentity(buf);
    StreamKeepsBytes(buf, chunks);
  }

  lemma {:induction false} SurvivorsAppend(a: seq<string>, b: seq<string>)
    ensures Survivors(a + b) == Survivors(a) + Survivors(b)
  {
    if a == [] {
      assert a + b == b;
    } else {
      DropOfAppend(a, b, 1);
      SurvivorsAppend(a[1..], b);
      AppendAssoc(DropLf(a[0]), Survivors(a[1..]), Survivors(b));
    }
  }

  lemma SurvivorsSnoc(chunks: seq<string>)
    ensures Survivors(chunks + [""]) == Survivors(chunks)
  {
    SurvivorsAppend(chunks, [""]);
    assert Survivors([""]) == DropLf("") + Survivors([]);
  }

  lemma {:induction false} RestAfterForce(buf: string, chunks: seq<string>)
    ensures PushAll(buf, chunks + [""]).rest == ""
    decreases |chunks|
  {
    if chunks == [] {
      assert chunks + [""] == [""] + [];
      PushHead(buf, "", []);
    } else {
      assert chunks + [""] == [chunks[0]] + (chunks[1..] + [""]);
      PushHead(buf, chunks[0], chunks[1..] + [""]);
      RestAfterForce(Push(buf, chunks[0]).rest, chunks[1..]);
    }
  }

  /** After any pushes and a last forced one the receiver's bytes are the surviving bytes without NULs. */
  lemma PayloadAfterForce(chunks: seq<string>)
    ensures Payload(PushAll("", chunks + [""]).lines) == WithoutNul(Survivors(chunks))
  {
    PushAllConserves("", chunks + [""]);
    RestAfterForce("", chunks);
    SurvivorsSnoc(chunks);
    var lines := PushAll("", chunks + [""]).lines;
    assert Payload(lines) + "" == Payload(lines);
  }

  // ---- Finding the next break ----

  /** The first break byte of `data` is at `k`: one line comes out, and cutting goes on after it. */
  lemma {:induction false} CutAtFirst(buf: string, data: string, k: nat)
    requires k < |data| && NoEol(data[..k]) && IsEol(data[k])
    ensures Cut(buf, data) == Prepend([Terminate(buf + data[..k + 1])], Cut("", data[k + EolWidth(data[k..])..]))
    decreases k
  {
    if k == 0 {
      assert data[..1] == [data[0]];
      assert data[0..] == data;
    } else {
      assert !IsEol(data[..k][0]);
      assert data[1..][..k - 1] == data[..k][1..];
      CutAtFirst(buf + [data[0]], data[1..], k - 1);
      assert data[1..][k - 1..] == data[k..];
      assert buf + [data[0]] + data[1..][..k] == buf + data[..k + 1];
      var w := EolWidth(data[k..]);
      assert data[1..][k - 1 + w..] == data[k + w..];
    }
  }

  lemma {:induction false} CutNoEol(buf: string, data: string)
    requires NoEol(data)
    ensures Cut(buf, data) == Split([], buf + data)
    decreases |data|
  {
    if data == "" {
      assert buf + data == buf;
    } else {
      CutNoEol(buf + [data[0]], data[1..]);
      assert buf + [data[0]] + data[1..] == buf + data;
    }
  }

  // ---- A split break ----

  /** A "\r\n" pushed in one chunk, and cut in two. */
  lemma SplitBreak()
    ensures PushAll("", ["a\r\nb"]) == Split(["a\r\0"], "b")
    ensures PushAll("", ["a\r", "\nb"]) == Split(["a\r\0", "\n\0"], "b")
  {
    WholeBreak();
    HalfBreaks();
    PushHead("", "a\r\nb", []);
    PushHead("", "\nb", []);
    PushHead("", "a\r", ["\nb"]);
    assert ["a\r\nb"] == ["a\r\nb"] + [] && ["\nb"] == ["\nb"] + [] && ["a\r", "\nb"] == ["a\r"] + ["\nb"];
  }

  lemma WholeBreak()
    ensures Cut("", "a\r\nb") == Split(["a\r\0"], "b")
  {
    CutIsPlain("", "a\r\nb");
    assert "a\r\nb"[1..] == "\r\nb" && "\r\nb"[2..] == "b" && "b"[1..] == "";
    assert DropLf("a\r\nb") == "a\rb";
    PlainExample();
  }

  lemma HalfBreaks()
    ensures Cut("", "a\r") == Split(["a\r\0"], "") && Cut("", "\nb") == Split(["\n\0"], "b")
  {
    CutIsPlain("", "a\r");
    CutIsPlain("", "\nb");
    assert "a\r"[1..] == "\r" && "\r"[1..] == "" && "\nb"[1..] == "b" && "b"[1..] == "";
    PlainExample();
  }

  lemma PlainExample()
    ensures CutPlain("", "a\rb") == Split(["a\r\0"], "b")
    ensures CutPlain("", "a\r") == Split(["a\r\0"], "")
    ensures CutPlain("", "\nb") == Split(["\n\0"], "b")
  {
    assert "a\rb"[1..] == "\rb" && "\rb"[1..] == "b" && "a\r"[1..] == "\r" && "\r"[1..] == "";
    assert "\nb"[1..] == "b" && "b"[1..] == "" && "" + ['a'] == "a" && "" + ['b'] == "b" && "" + ['\n'] == "\n";
    assert Terminate("a" + ['\r']) == "a\r\0" && Terminate("\n") == "\n\0";
    assert CutPlain("", "b") == CutPlain("b", "") == Split([], "b");
    assert CutPlain("a", "\rb") == Prepend(["a\r\0"], CutPlain("", "b"));
    assert CutPlain("a", "\r") == Prepend(["a\r\0"], CutPlain("", ""));
  }
}
