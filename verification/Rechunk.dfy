/** Binary mode: re-cutting a stream of chunks into pieces of one fixed size. */
module Rechunk {
  import opened Bytes
  import opened Splitter

  /** Full pieces off the front, until less than one piece is left. */
  function Pieces(limit: nat, s: string): (r: Split)
    requires limit > 0
    ensures |r.rest| < limit
    decreases |s|
  {
    if |s| < limit then Split([], s) else Prepend([s[..limit]], Pieces(limit, s[limit..]))
  }

  /** The forced push: the buffered bytes go out as they are. */
  function ForcePiece(buf: string): Split {
    if buf == "" then Split([], "") else Split([buf], "")
  }

  /** One push on one buffer; empty data means force. */
  function PushBinary(limit: nat, buf: string, data: string): Split
    requires limit > 0
  {
    if data == "" then ForcePiece(buf) else Pieces(limit, buf + data)
  }

  function PushAllBinary(limit: nat, buf: string, chunks: seq<string>): Split
    requires limit > 0
    decreases |chunks|
  {
    if chunks == [] then Split([], buf)
    else
      var first := PushBinary(limit, buf, chunks[0]);
      Prepend(first.lines, PushAllBinary(limit, first.rest, chunks[1..]))
  }

  predicate IsRechunked(limit: nat, s: string, r: Split) {
    && Flatten(r.lines) + r.rest == s
    && (forall p :: p in r.lines ==> |p| == limit)
    && |r.rest| < limit
  }

  /** A split of `s` into pieces of exactly `limit` bytes and a shorter rest exists and is unique:
      it is what the pushing loop computes. */
  lemma PiecesUnique(limit: nat, s: string, r: Split)
    requires limit > 0
    ensures IsRechunked(limit, s, r) <==> r == Pieces(limit, s)
  {
    PiecesAreRechunked(limit, s);
    if IsRechunked(limit, s, r) {
      RechunkedIsPieces(limit, s, r);
    }
  }

  lemma {:induction false} PiecesAreRechunked(limit: nat, s: string)
    requires limit > 0
    ensures IsRechunked(limit, s, Pieces(limit, s))
    decreases |s|
  {
    if |s| < limit {
      assert Flatten([]) + s == s;
    } else {
      PiecesAreRechunked(limit, s[limit..]);
      PrependPiece(limit, s[..limit], s[limit..], Pieces(limit, s[limit..]));
      assert s == s[..limit] + s[limit..];
    }
  }

  lemma PrependPiece(limit: nat, head: string, s: string, r: Split)
    requires IsRechunked(limit, s, r) && |head| == limit
    ensures IsRechunked(limit, head + s, Prepend([head], r))
  {
    FlattenCons(head, r.lines);
    assert head + Flatten(r.lines) + r.rest == head + (Flatten(r.lines) + r.rest);
  }

  lemma {:induction false} RechunkedIsPieces(limit: nat, s: string, r: Split)
    requires limit > 0 && IsRechunked(limit, s, r)
    ensures r == Pieces(limit, s)
    decreases |s|
  {
    if r.lines == [] {
      assert Flatten([]) + r.rest == r.rest;
    } else {
      var head, tail := r.lines[0], Split(r.lines[1..], r.rest);
      assert head in r.lines;
      assert r.lines == [head] + tail.lines;
      FlattenCons(head, tail.lines);
      assert s == head + (Flatten(tail.lines) + tail.rest);
      assert s[..limit] == head && s[limit..] == Flatten(tail.lines) + tail.rest;
      RechunkedIsPieces(limit, s[limit..], tail);
    }
  }

  /** Pushing in two parts or at once cuts the same pieces. */
  lemma {:induction false} PiecesAppend(limit: nat, a: string, b: string)
    requires limit > 0
    ensures var first := Pieces(limit, a);
            Pieces(limit, a + b) == Prepend(first.lines, Pieces(limit, first.rest + b))
    decreases |a|
  {
    if |a| < limit {
      assert [] + Pieces(limit, a + b).lines == Pieces(limit, a + b).lines;
    } else {
      DropOfAppend(a, b, limit);
      PiecesAppend(limit, a[limit..], b);
      assert (a + b)[..limit] == a[..limit];
      var first := Pieces(limit, a[limit..]);
      var second := Pieces(limit, first.rest + b);
      assert [a[..limit]] + (first.lines + second.lines) == [a[..limit]] + first.lines + second.lines;
    }
  }

  lemma PushHeadBinary(limit: nat, buf: string, head: string, tail: seq<string>)
    requires limit > 0
    ensures var first := PushBinary(limit, buf, head);
            PushAllBinary(limit, buf, [head] + tail) == Prepend(first.lines, PushAllBinary(limit, first.rest, tail))
  {
    assert ([head] + tail)[1..] == tail;
  }

  lemma GluePairBinary(limit: nat, buf: string, a: string, b: string, tail: seq<string>)
    requires limit > 0 && a != "" && b != ""
    ensures PushAllBinary(limit, buf, [a] + ([b] + tail)) == PushAllBinary(limit, buf, [a + b] + tail)
  {
    var first := PushBinary(limit, buf, a);
    var second := PushBinary(limit, first.rest, b);
    PiecesAppend(limit, buf + a, b);
    AppendAssoc(buf, a, b);
    PushHeadBinary(limit, buf, a, [b] + tail);
    PushHeadBinary(limit, first.rest, b, tail);
    PushHeadBinary(limit, buf, a + b, tail);
    AppendAssoc(first.lines, second.lines, PushAllBinary(limit, second.rest, tail).lines);
  }

  /** Only the bytes between two forced pushes matter, not their chunks. */
  lemma {:induction false} PushMergedBinary(limit: nat, buf: string, chunks: seq<string>)
    requires limit > 0
    ensures PushAllBinary(limit, buf, Merged(chunks)) == PushAllBinary(limit, buf, chunks)
    decreases |chunks|
  {
    if |chunks| >= 2 {
      var a, b, tail := chunks[0], chunks[1], chunks[2..];
      assert chunks[1..] == [b] + tail && chunks == [a] + ([b] + tail);
      if a == "" || b == "" {
        PushMergedBinary(limit, PushBinary(limit, buf, a).rest, chunks[1..]);
        PushHeadBinary(limit, buf, a, chunks[1..]);
        PushHeadBinary(limit, buf, a, Merged(chunks[1..]));
      } else {
        GluePairBinary(limit, buf, a, b, tail);
        PushMergedBinary(limit, buf, [a + b] + tail);
      }
    }
  }

  /** Two series of pushes that glue to the same chunks between their forced pushes agree; any chunking of a
      stream without forced pushes gives the pieces and the rest of the whole stream. */
  lemma BinaryChunkingIndependence(limit: nat, buf: string, cs: seq<string>, ds: seq<string>)
    requires |buf| < limit
    ensures Merged(cs) == Merged(ds) ==> PushAllBinary(limit, buf, cs) == PushAllBinary(limit, buf, ds)
    ensures "" !in cs ==> PushAllBinary(limit, buf, cs) == Pieces(limit, buf + Flatten(cs))
  {
    PushMergedBinary(limit, buf, cs);
    PushMergedBinary(limit, buf, ds);
    if cs == [] {
      assert buf + Flatten(cs) == buf;
    } else if "" !in cs {
      MergedOfChunks(cs);
      assert |Flatten(cs)| > 0 by {
        assert cs[0] in cs;
      }
      assert [Flatten(cs)] == [Flatten(cs)] + [];
      PushHeadBinary(limit, buf, Flatten(cs), []);
      var whole := Pieces(limit, buf + Flatten(cs));
      assert whole.lines + [] == whole.lines;
    }
  }

  /** How many pieces are shorter than the limit. */
  function Short(limit: nat, pieces: seq<string>): nat {
    if pieces == [] then 0 else (if |pieces[0]| < limit then 1 else 0) + Short(limit, pieces[1..])
  }

  function Forces(chunks: seq<string>): nat {
    if chunks == [] then 0 else (if chunks[0] == "" then 1 else 0) + Forces(chunks[1..])
  }

  lemma {:induction false} ShortAppend(limit: nat, a: seq<string>, b: seq<string>)
    ensures Short(limit, a + b) == Short(limit, a) + Short(limit, b)
  {
    if a == [] {
      assert a + b == b;
    } else {
      DropOfAppend(a, b, 1);
      ShortAppend(limit, a[1..], b);
    }
  }

  lemma {:induction false} FullPieces(limit: nat, pieces: seq<string>)
    requires forall p :: p in pieces ==> |p| == limit
    ensures Short(limit, pieces) == 0
  {
    if pieces != [] {
      assert pieces[0] in pieces && forall p :: p in pieces[1..] ==> p in pieces;
      FullPieces(limit, pieces[1..]);
    }
  }

  /** One push: what goes in comes out, and only a forced push stacks a short piece, at most one. */
  lemma PushConserves(limit: nat, buf: string, data: string)
    requires |buf| < limit
    ensures var s := PushBinary(limit, buf, data);
            && Flatten(s.lines) + s.rest == buf + data && |s.rest| < limit
            && (forall p :: p in s.lines ==> 0 < |p| <= limit)
            && Short(limit, s.lines) <= if data == "" then 1 else 0
  {
    if data == "" {
      FlattenCons(buf, []);
      assert buf + "" == buf;
      assert Flatten([]) + "" == "";
      assert buf != "" ==> [buf] + [] == [buf] && [buf][1..] == [];
    } else {
      var s := Pieces(limit, buf + data);
      PiecesAreRechunked(limit, buf + data);
      FullPieces(limit, s.lines);
    }
  }

  /** Conservation in binary mode: pieces and residue concatenate to the buffer and the chunks; the residue is
      shorter than the limit, no piece is longer, and there are at most as many shorter ones as forced pushes. */
  lemma {:induction false} BinaryConservation(limit: nat, buf: string, chunks: seq<string>)
    requires |buf| < limit
    ensures var s := PushAllBinary(limit, buf, chunks);
            && Flatten(s.lines) + s.rest == buf + Flatten(chunks) && |s.rest| < limit
            && (forall p :: p in s.lines ==> 0 < |p| <= limit)
            && Short(limit, s.lines) <= Forces(chunks)
    decreases |chunks|
  {
    if chunks == [] {
      assert Flatten([]) + buf == buf && buf + Flatten(chunks) == buf;
    } else {
      var first := PushBinary(limit, buf, chunks[0]);
      var later := PushAllBinary(limit, first.rest, chunks[1..]);
      PushConserves(limit, buf, chunks[0]);
      BinaryConservation(limit, first.rest, chunks[1..]);
      FlattenAppend(first.lines, later.lines);
      ShortAppend(limit, first.lines, later.lines);
      AppendAssoc(Flatten(first.lines), Flatten(later.lines), later.rest);
      AppendAssoc(Flatten(first.lines), first.rest, Flatten(chunks[1..]));
      AppendAssoc(buf, chunks[0], Flatten(chunks[1..]));
    }
  }
}
