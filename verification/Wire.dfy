/** The packed value that carries stacked lines (k2hftstructure.h), byte by byte. */
module Wire {
  import opened Bytes

  const HOST_SIZE := 72             // HOST_NAME_MAX + 8
  const LINE_HEAD := 8 + 16 + 4 + HOST_SIZE
  const VALUE_HEAD := 8 + 8
  const WORD := 0x1_0000_0000_0000_0000
  const HALF_WORD := 0x1_0000_0000

  /** pid_t */
  type Pid = p: int | -(HALF_WORD / 2) <= p < HALF_WORD / 2

  /** The host field of a line header. */
  type HostName = s: string | |s| == HOST_SIZE witness seq(HOST_SIZE, _ => '\0')

  /** One stacked line: the client's data under a packed header. */
  datatype Line = Line(sec: int, nsec: int, pid: Pid, hostname: HostName, data: string)

  predicate IsTime(sec: int, nsec: int) {
    -(WORD / 2) <= sec < WORD / 2 && -(WORD / 2) <= nsec < WORD / 2
  }

  /** What the program puts on a stack. */
  predicate ValidLine(l: Line) {
    IsTime(l.sec, l.nsec) && l.data != ""
  }

  predicate ValidLines(ls: seq<Line>) {
    forall i :: 0 <= i < |ls| ==> ValidLine(ls[i])
  }

  // ---- Integers as little-endian bytes ----

  function Le(size: nat, n: nat): (r: string)
    ensures |r| == size
  {
    if size == 0 then "" else [(n % 256) as char] + Le(size - 1, n / 256)
  }

  function FromLe(bytes: string): nat {
    if bytes == "" then 0 else bytes[0] as nat + 256 * FromLe(bytes[1..])
  }

  function Power256(size: nat): (r: nat)
    ensures r > 0
  {
    if size == 0 then 1 else 256 * Power256(size - 1)
  }

  lemma {:induction false} LeRoundTrip(size: nat, n: nat)
    requires n < Power256(size)
    ensures FromLe(Le(size, n)) == n
  {
    if size > 0 {
      LeRoundTrip(size - 1, n / 256);
    }
  }

  /** Two's complement of the given modulus. */
  function Wrap(modulus: nat, n: int): (r: nat)
    requires -(modulus / 2) <= n < modulus / 2
    ensures r < modulus
  {
    if n < 0 then n + modulus else n
  }

  function Unwrap(modulus: nat, n: nat): int {
    if n < modulus / 2 then n else n - modulus
  }

  lemma WrapRoundTrip(modulus: nat, n: int)
    requires -(modulus / 2) <= n < modulus / 2
    ensures Unwrap(modulus, Wrap(modulus, n)) == n
  {
  }

  function Word(n: int): string
    requires -(WORD / 2) <= n < WORD / 2
  {
    Le(8, Wrap(WORD, n))
  }

  function HalfWord(n: Pid): string
  {
    Le(4, Wrap(HALF_WORD, n))
  }

  function ReadWord(bytes: string): int {
    Unwrap(WORD, FromLe(bytes))
  }

  function ReadSize(bytes: string): nat {
    FromLe(bytes)
  }

  function ReadHalfWord(bytes: string): Pid {
    Unwrap(HALF_WORD, FromLe(bytes) % HALF_WORD)
  }

  lemma WordRoundTrip(n: int)
    requires -(WORD / 2) <= n < WORD / 2
    ensures ReadWord(Word(n)) == n
  {
    assert Power256(8) == 256 * Power256(7) == 256 * 256 * Power256(6) == WORD;
    LeRoundTrip(8, Wrap(WORD, n));
    WrapRoundTrip(WORD, n);
  }

  lemma HalfWordRoundTrip(n: Pid)
    ensures ReadHalfWord(HalfWord(n)) == n
  {
    LeRoundTrip(4, Wrap(HALF_WORD, n));
    WrapRoundTrip(HALF_WORD, n);
  }

  lemma SizeRoundTrip(n: nat)
    requires n < WORD
    ensures ReadSize(Le(8, n)) == n
  {
    assert Power256(8) == 256 * Power256(7) == 256 * 256 * Power256(6) == WORD;
    LeRoundTrip(8, n);
  }

  // ---- Layout ----

  function EncodeLine(l: Line): (r: string)
    requires ValidLine(l)
    ensures |r| == LINE_HEAD + |l.data|
  {
    Le(8, |l.data|) + Word(l.sec) + Word(l.nsec) + HalfWord(l.pid) + l.hostname + l.data
  }

  function EncodeLines(ls: seq<Line>): string
    requires ValidLines(ls)
  {
    if ls == [] then "" else EncodeLine(ls[0]) + EncodeLines(ls[1..])
  }

  function EncodeValue(ls: seq<Line>): string
    requires ValidLines(ls)
  {
    Le(8, |EncodeLines(ls)|) + Le(8, |ls|) + EncodeLines(ls)
  }

  lemma {:induction false} EncodeSnoc(ls: seq<Line>, l: Line)
    requires ValidLines(ls) && ValidLine(l)
    ensures ValidLines(ls + [l]) && EncodeLines(ls + [l]) == EncodeLines(ls) + EncodeLine(l)
  {
    if ls == [] {
      assert ls + [l] == [l];
      assert EncodeLines([l]) == EncodeLine(l) + "";
    } else {
      assert ValidLine(ls[0]);
      DropOfAppend(ls, [l], 1);
      EncodeSnoc(ls[1..], l);
      assert EncodeLine(ls[0]) + EncodeLines(ls[1..]) + EncodeLine(l) == EncodeLine(ls[0])
          + (EncodeLines(ls[1..]) + EncodeLine(l));
    }
  }

  // ---- Pointer walk ----

  function ReadAt(mem: string, at: nat, size: nat): string
    requires at + size <= |mem|
  {
    mem[at..at + size]
  }

  function LineLength(mem: string, at: nat): nat
    requires at + LINE_HEAD <= |mem|
  {
    ReadSize(ReadAt(mem, at, 8))
  }

  /** GetNextK2hFtLine: the address right after this line. */
  function NextLine(mem: string, at: nat): (next: nat)
    requires at + LINE_HEAD <= |mem|
    ensures next >= at + LINE_HEAD
  {
    at + (LineLength(mem, at) + LINE_HEAD)
  }

  /** ParseK2hFtLine: the header fields and the bytes after them. */
  function ParseLine(mem: string, at: nat): Line
    requires at + LINE_HEAD <= |mem| && NextLine(mem, at) <= |mem|
  {
    Line(ReadWord(ReadAt(mem, at + 8, 8)),
         ReadWord(ReadAt(mem, at + 16, 8)),
         ReadHalfWord(ReadAt(mem, at + 24, 4)),
         ReadAt(mem, at + 28, HOST_SIZE),
         ReadAt(mem, at + LINE_HEAD, LineLength(mem, at)))
  }

  /** `count` steps of the walk from `at`: the lines and where it ends; None once a read leaves the block. */
  function Walk(mem: string, at: nat, count: nat): Option<(seq<Line>, nat)>
    decreases count
  {
    if count == 0 then Some(([], at))
    else if |mem| < at + LINE_HEAD || |mem| < NextLine(mem, at) then None
    else
      match Walk(mem, NextLine(mem, at), count - 1)
      case None => None
      case Some((lines, end)) => Some(([ParseLine(mem, at)] + lines, end))
  }

  /** Where one encoded line lies in a block, the walk reads back exactly that line. */
  lemma ParseEncoded(pre: string, l: Line, post: string)
    requires ValidLine(l) && |l.data| < WORD
    ensures var mem := pre + EncodeLine(l) + post;
            && NextLine(mem, |pre|) == |pre| + |EncodeLine(l)|
            && ParseLine(mem, |pre|) == l
  {
    var mem, at := pre + EncodeLine(l) + post, |pre|;
    assert ReadAt(mem, at, 8) == Le(8, |l.data|);
    SizeRoundTrip(|l.data|);
    assert ReadAt(mem, at + 8, 8) == Word(l.sec);
    assert ReadAt(mem, at + 16, 8) == Word(l.nsec);
    assert ReadAt(mem, at + 24, 4) == HalfWord(l.pid);
    WordRoundTrip(l.sec);
    WordRoundTrip(l.nsec);
    HalfWordRoundTrip(l.pid);
    assert ReadAt(mem, at + 28, HOST_SIZE) == l.hostname;
    assert ReadAt(mem, at + LINE_HEAD, |l.data|) == l.data;
  }

  /** From `at` on the block holds exactly these lines. */
  ghost predicate Holds(mem: string, at: nat, ls: seq<Line>) {
    at <= |mem| && ValidLines(ls) && mem[at..] == EncodeLines(ls) && |EncodeLines(ls)| < WORD
  }

  lemma NextStays(mem: string, at: nat, ls: seq<Line>)
    requires ls != [] && Holds(mem, at, ls)
    ensures at + LINE_HEAD <= |mem| && NextLine(mem, at) <= |mem|
    ensures ParseLine(mem, at) == ls[0] && Holds(mem, NextLine(mem, at), ls[1..])
  {
    assert ValidLine(ls[0]);
    SplitLine(mem, at, EncodeLine(ls[0]), EncodeLines(ls[1..]));
    assert |EncodeLines(ls)| == |EncodeLine(ls[0])| + |EncodeLines(ls[1..])|;
    ParseEncoded(mem[..at], ls[0], EncodeLines(ls[1..]));
  }

  lemma SplitLine(mem: string, at: nat, line: string, tail: string)
    requires at <= |mem| && mem[at..] == line + tail
    ensures mem == mem[..at] + line + tail && mem[at + |line|..] == tail
  {
    assert mem == mem[..at] + mem[at..];
    assert mem[at + |line|..] == mem[at..][|line|..];
  }

  lemma WalkStep(mem: string, at: nat, l: Line, count: nat, rest: (seq<Line>, nat))
    requires at + LINE_HEAD <= |mem| && NextLine(mem, at) <= |mem| && ParseLine(mem, at) == l
    requires Walk(mem, NextLine(mem, at), count) == Some(rest)
    ensures Walk(mem, at, count + 1) == Some(([l] + rest.0, rest.1))
  {
  }

  lemma {:induction false} WalkEncoded(mem: string, at: nat, ls: seq<Line>)
    requires Holds(mem, at, ls)
    ensures Walk(mem, at, |ls|) == Some((ls, |mem|))
    decreases |ls|
  {
    if ls != [] {
      NextStays(mem, at, ls);
      WalkEncoded(mem, NextLine(mem, at), ls[1..]);
      WalkStep(mem, at, ls[0], |ls| - 1, (ls[1..], |mem|));
      assert [ls[0]] + ls[1..] == ls;
    }
  }

  lemma {:induction false} LinesHaveHeads(ls: seq<Line>)
    requires ValidLines(ls)
    ensures LINE_HEAD * |ls| <= |EncodeLines(ls)|
  {
    if ls != [] {
      assert ValidLine(ls[0]);
      LinesHaveHeads(ls[1..]);
    }
  }

  lemma ReadHeads(bodylength: string, linecount: string, body: string)
    requires |bodylength| == |linecount| == 8
    ensures var value := bodylength + linecount + body;
            ReadAt(value, 0, 8) == bodylength && ReadAt(value, 8, 8) == linecount && value[VALUE_HEAD..] == body
  {
  }

  /** Round trip of the whole value: the header fields come back, and `linecount` steps from the end of
      the header return every line in order, stay inside, and end at header + `bodylength`. */
  lemma {:induction false} ValueRoundTrip(ls: seq<Line>)
    requires ValidLines(ls) && |EncodeLines(ls)| < WORD
    ensures var value := EncodeValue(ls);
            && ReadSize(ReadAt(value, 0, 8)) == |EncodeLines(ls)| == |value| - VALUE_HEAD
            && ReadSize(ReadAt(value, 8, 8)) == |ls|
            && Walk(value, VALUE_HEAD, |ls|) == Some((ls, VALUE_HEAD + |EncodeLines(ls)|))
  {
    var value := EncodeValue(ls);
    ReadHeads(Le(8, |EncodeLines(ls)|), Le(8, |ls|), EncodeLines(ls));
    SizeRoundTrip(|EncodeLines(ls)|);
    LinesHaveHeads(ls);
    SizeRoundTrip(|ls|);
    WalkEncoded(value, VALUE_HEAD, ls);
  }

  // ---- Building ----

  /** BuildK2hFtLine: no line for empty data; from the bytes of a line that fits into memory the receiver
      reads exactly the data, the process, the host name and the time. The clock and the host name come from outside. */
  method BuildLine(data: string, pid: Pid, hostname: HostName, sec: int, nsec: int) returns (r: Option<Line>)
    requires IsTime(sec, nsec)
    ensures r.None? <==> data == ""
    ensures r.Some? ==> ValidLine(r.value) && r.value.data == data && r.value.pid == pid && r.value.hostname == hostname
    ensures r.Some? && |data| < WORD ==>
              Walk(EncodeLine(r.value), 0, 1) == Some(([Line(sec, nsec, pid, hostname, data)], LINE_HEAD + |data|))
  {
    if data == "" {
      return None;
    }
    var line := Line(sec, nsec, pid, hostname, data);
    if |data| < WORD {
      ReadBack(line);
    }
    return Some(line);
  }

  lemma ReadBack(l: Line)
    requires ValidLine(l) && |l.data| < WORD
    ensures Walk(EncodeLine(l), 0, 1) == Some(([l], LINE_HEAD + |l.data|))
  {
    ParseEncoded("", l, "");
    assert "" + EncodeLine(l) + "" == EncodeLine(l);
    WalkStep(EncodeLine(l), 0, l, 0, ([], |EncodeLine(l)|));
    assert [l] + [] == [l];
  }

  lemma EncodeStep(ls: seq<Line>, i: nat)
    requires ValidLines(ls) && i < |ls|
    ensures ValidLine(ls[i])
    ensures EncodeLines(ls[..i + 1]) == EncodeLines(ls[..i]) + EncodeLine(ls[i])
    ensures |EncodeLines(ls[i..])| == |EncodeLine(ls[i])| + |EncodeLines(ls[i + 1..])|
  {
    EncodeSnoc(ls[..i], ls[i]);
    assert ls[..i + 1] == ls[..i] + [ls[i]];
    assert ls[i..][1..] == ls[i + 1..];
  }

  method TotalLength(ls: seq<Line>) returns (total: nat)
    requires ValidLines(ls)
    ensures total == |EncodeLines(ls)|
  {
    total := 0;
    for i := 0 to |ls|
      invariant total == |EncodeLines(ls[..i])|
    {
      EncodeStep(ls, i);
      total := total + (LINE_HEAD + |ls[i].data|);
    }
    assert ls[..|ls|] == ls;
  }

  method CopyLine(buf: array<char>, at: nat, ls: seq<Line>, i: nat, ghost head: string) returns (next: nat)
    requires ValidLines(ls) && i < |ls|
    requires at + |EncodeLines(ls[i..])| == buf.Length
    requires buf[..at] == head + EncodeLines(ls[..i])
    modifies buf
    ensures next + |EncodeLines(ls[i + 1..])| == buf.Length
    ensures buf[..next] == head + EncodeLines(ls[..i + 1])
  {
    EncodeStep(ls, i);
    Memcpy(buf, at, EncodeLine(ls[i]));
    next := at + (LINE_HEAD + |ls[i].data|);
    AppendAssoc(head, EncodeLines(ls[..i]), EncodeLine(ls[i]));
  }

  /** Copies the lines one after the other, from `start` to exactly the end of the block. */
  method CopyLines(buf: array<char>, start: nat, ls: seq<Line>)
    requires ValidLines(ls) && buf.Length == start + |EncodeLines(ls)|
    modifies buf
    ensures buf[..] == old(buf[..start]) + EncodeLines(ls)
  {
    var at: nat := start;
    ghost var head := buf[..start];
    assert head + "" == head;
    assert ls[0..] == ls;
    for i := 0 to |ls|
      invariant at + |EncodeLines(ls[i..])| == buf.Length
      invariant buf[..at] == head + EncodeLines(ls[..i])
    {
      at := CopyLine(buf, at, ls, i, head);
    }
    assert ls[..|ls|] == ls && buf[..at] == buf[..];
  }

  /** Writes `bodylength` and `linecount`. */
  method WriteHead(buf: array<char>, total: nat, count: nat)
    requires VALUE_HEAD <= buf.Length
    modifies buf
    ensures buf[..VALUE_HEAD] == Le(8, total) + Le(8, count)
  {
    var a, b := Le(8, total), Le(8, count);
    Memcpy(buf, 0, a);
    assert buf[..8] == a;
    Memcpy(buf, 8, b);
  }

  /** BuildK2hFtValue: one pass sums the lengths, a second copies the lines into the block. */
  method BuildValue(ls: seq<Line>) returns (block: array?<char>)
    requires ValidLines(ls)
    ensures block == null <==> ls == []
    ensures block != null ==> fresh(block) && block[..] == EncodeValue(ls)
  {
    if ls == [] {
      return null;
    }
    var total := TotalLength(ls);
    var buf := new char[total + VALUE_HEAD];
    WriteHead(buf, total, |ls|);
    CopyLines(buf, VALUE_HEAD, ls);
    block := buf;
  }

  // ---- Where each field lies ----

  /** Byte k of an integer field is its digit k to the base 256. */
  lemma {:induction false} LePlaces(size: nat, n: nat, k: nat)
    requires k < size
    ensures Le(size, n)[k] as nat == n / Power256(k) % 256
    decreases k
  {
    if k == 0 {
      assert n / 1 == n;
    } else {
      LePlaces(size - 1, n / 256, k - 1);
      DivTwice(n, Power256(k - 1));
    }
  }

  lemma DivTwice(n: nat, p: nat)
    requires p > 0
    ensures n / 256 / p == n / (256 * p)
  {
    var q, r := n / 256 / p, n / 256 % p;
    var low := r * 256 + n % 256;
    assert n / 256 == q * p + r;
    assert n == (q * p + r) * 256 + n % 256;
    assert (q * p) * 256 == q * (256 * p);
    assert low < 256 * p;
    DivUnique(n, 256 * p, q, low);
  }

  lemma DivUnique(n: nat, d: nat, q: nat, r: nat)
    requires n == q * d + r && r < d
    ensures n / d == q
  {
    var k := n / d;
    assert n == k * d + n % d;
    if k < q {
      Multiples(k, q, d);
    } else if q < k {
      Multiples(q, k, d);
    }
  }

  lemma {:induction false} Multiples(a: nat, b: nat, d: nat)
    requires a < b
    ensures a * d + d <= b * d
    decreases b
  {
    assert b * d == (b - 1) * d + d;
    if a < b - 1 {
      Multiples(a, b - 1, d);
    }
  }

  /** The packed line header: length, seconds and nanoseconds of eight bytes each, four bytes of pid, the host
      name in 72 bytes, then the data. */
  lemma LineLayout(l: Line)
    requires ValidLine(l)
    ensures var e := EncodeLine(l);
            && |e| == 100 + |l.data|
            && e[..8] == Le(8, |l.data|) && e[8..16] == Word(l.sec) && e[16..24] == Word(l.nsec)
            && e[24..28] == HalfWord(l.pid) && e[28..100] == l.hostname && e[100..] == l.data
  {
  }

  /** The packed value header: the length of the body and the count of lines, of eight bytes each. */
  lemma ValueLayout(ls: seq<Line>)
    requires ValidLines(ls)
    ensures var e := EncodeValue(ls);
            |e| == 16 + |EncodeLines(ls)| && e[..8] == Le(8, |EncodeLines(ls)|) && e[8..16] == Le(8, |ls|)
            && e[16..] == EncodeLines(ls)
  {
  }

  /** Negative numbers are written as their two's complement. */
  lemma SignedFields(n: int)
    requires 0 < n <= 0x8000_0000
    ensures HalfWord(-n) == Le(4, 0x1_0000_0000 - n) && Word(-n) == Le(8, 0x1_0000_0000_0000_0000 - n)
    ensures n < 0x8000_0000 ==> HalfWord(n) == Le(4, n) && Word(n) == Le(8, n)
  {
  }
}
