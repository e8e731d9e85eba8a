/** What one push does to the per-process buffers and to the shared stack, on values. */
module PushSpec {
  import opened Bytes
  import opened Splitter
  import opened Rechunk
  import opened Wire

  /** Settings that are fixed once the configuration is loaded. `convert` is the rule of the file handle. */
  datatype Params = Params(binary: bool, binaryLimit: nat, lineLimit: nat, convert: string -> Option<string>)

  datatype Tagged = Tagged(pid: Pid, data: string)

  const ALL_PIDS: Pid := -1
  /** DEFAULT_LINE_LIMIT */
  const NO_LIMIT := 0

  /** A process that writes: any pid but the one for "all". */
  type Client = p: Pid | p != ALL_PIDS

  predicate ValidParams(par: Params) {
    par.binaryLimit > 0
  }

  /** What a buffer may hold between pushes. */
  predicate ValidRest(par: Params, buf: string) {
    if par.binary then |buf| < par.binaryLimit else NoEol(buf)
  }

  /** One push on one buffer; empty data means force. */
  function CutBy(par: Params, buf: string, data: string): Split
    requires ValidParams(par)
  {
    if par.binary then PushBinary(par.binaryLimit, buf, data) else Push(buf, data)
  }

  /** The line stacked for a piece, if any: the rule may drop or rewrite it, the byte limit may drop it. */
  function Accept(par: Params, piece: string): seq<string> {
    if piece == "" then []
    else
      match par.convert(piece)
      case None => []
      case Some(text) => if (par.lineLimit != NO_LIMIT && par.lineLimit < |text|) || text == "" then [] else [text]
  }

  /** A byte limit of 0 lets every converted line through; any other those of at most as many bytes. */
  lemma AcceptedWithin(par: Params, piece: string)
    requires piece != "" && par.convert(piece).Some? && par.convert(piece).value != ""
    ensures var text := par.convert(piece).value;
            Accept(par, piece) == if par.lineLimit == 0 || |text| <= par.lineLimit then [text] else []
  {
  }

  function AcceptAll(par: Params, pieces: seq<string>): seq<string> {
    if pieces == [] then [] else Accept(par, pieces[0]) + AcceptAll(par, pieces[1..])
  }

  lemma {:induction false} AcceptAppend(par: Params, a: seq<string>, b: seq<string>)
    ensures AcceptAll(par, a + b) == AcceptAll(par, a) + AcceptAll(par, b)
  {
    if a == [] {
      assert a + b == b;
    } else {
      DropOfAppend(a, b, 1);
      AcceptAppend(par, a[1..], b);
    }
  }

  /** Nothing empty is stacked. */
  lemma {:induction false} AcceptedNonEmpty(par: Params, pieces: seq<string>)
    ensures "" !in AcceptAll(par, pieces)
  {
    if pieces != [] {
      AcceptedNonEmpty(par, pieces[1..]);
    }
  }

  function Tag(pid: Pid, datas: seq<string>): (r: seq<Tagged>)
    ensures |r| == |datas| && forall i :: 0 <= i < |r| ==> r[i] == Tagged(pid, datas[i])
  {
    if datas == [] then [] else [Tagged(pid, datas[0])] + Tag(pid, datas[1..])
  }

  /** The lines' bytes, without who wrote them. */
  function DataOf(stack: seq<Tagged>): (r: seq<string>)
    ensures |r| == |stack| && forall i :: 0 <= i < |r| ==> r[i] == stack[i].data
  {
    if stack == [] then [] else [stack[0].data] + DataOf(stack[1..])
  }

  lemma TagAppend(pid: Pid, a: seq<string>, b: seq<string>)
    ensures Tag(pid, a + b) == Tag(pid, a) + Tag(pid, b)
  {
  }

  /** What a push of these pieces adds to the stack. */
  function Added(par: Params, pid: Pid, pieces: seq<string>): seq<Tagged> {
    Tag(pid, AcceptAll(par, pieces))
  }

  lemma AddedAppend(par: Params, pid: Pid, a: seq<string>, b: seq<string>)
    ensures Added(par, pid, a + b) == Added(par, pid, a) + Added(par, pid, b)
  {
    AcceptAppend(par, a, b);
    TagAppend(pid, AcceptAll(par, a), AcceptAll(par, b));
  }

  type Bufs = map<Pid, string>

  function Get(bufs: Bufs, pid: Pid): string {
    if pid in bufs then bufs[pid] else ""
  }

  // ---- Ascending order over the process map ----

  predicate IsMin(pids: set<Pid>, k: Pid) {
    k in pids && forall j :: j in pids ==> k <= j
  }

  lemma {:induction false} MinExists(pids: set<Pid>)
    requires pids != {}
    ensures exists k :: IsMin(pids, k)
    decreases |pids|
  {
    var k: Pid :| k in pids;
    var others := pids - {k};
    assert pids == others + {k};
    if others == {} {
      assert IsMin(pids, k);
    } else {
      MinExists(others);
      var m :| IsMin(others, m);
      assert IsMin(pids, if k < m then k else m);
    }
  }

  ghost function MinPid(pids: set<Pid>): (k: Pid)
    requires pids != {}
    ensures IsMin(pids, k)
  {
    MinExists(pids);
    var k :| IsMin(pids, k);
    k
  }

  /** The lines a push with the pid for "all" stacks: every buffer in turn, by ascending pid. */
  ghost function FlushAll(par: Params, bufs: Bufs, data: string): seq<Tagged>
    requires ValidParams(par)
    decreases |bufs|
  {
    if bufs == map[] then []
    else
      var pid := MinPid(bufs.Keys);
      assert |Without(bufs, pid)| < |bufs| by { SmallerMap(bufs, pid); }
      Added(par, pid, CutBy(par, bufs[pid], data).lines) + FlushAll(par, Without(bufs, pid), data)
  }

  /** The flush of all buffers stacks the processes by ascending pid. */
  lemma {:induction false} FlushAscends(par: Params, bufs: Bufs, data: string)
    requires ValidParams(par)
    ensures forall i :: 0 <= i < |FlushAll(par, bufs, data)| ==> FlushAll(par, bufs, data)[i].pid in bufs
    ensures forall i, j :: 0 <= i < j < |FlushAll(par, bufs, data)| ==>
              FlushAll(par, bufs, data)[i].pid <= FlushAll(par, bufs, data)[j].pid
    decreases |bufs|
  {
    if bufs != map[] {
      var pid := MinPid(bufs.Keys);
      SmallerMap(bufs, pid);
      FlushAscends(par, Without(bufs, pid), data);
    }
  }

  lemma UpdateTwice(bufs: Bufs, pid: Pid, a: string, b: string)
    ensures bufs[pid := a][pid := b] == bufs[pid := b]
  {
  }

  /** `erase`: the map without one key. */
  function Without<V>(m: map<Pid, V>, k: Pid): (r: map<Pid, V>)
    ensures r.Keys == m.Keys - {k} && forall p :: p in r ==> r[p] == m[p]
  {
    map p | p in m && p != k :: m[p]
  }

  lemma WithoutUpdated<V>(m: map<Pid, V>, k: Pid, v: V)
    ensures Without(m[k := v], k) == Without(m, k)
  {
  }

  lemma SmallerMap<V>(m: map<Pid, V>, k: Pid)
    requires k in m
    ensures |Without(m, k)| < |m|
  {
    assert |Without(m, k).Keys| < |m.Keys|;
  }
}
