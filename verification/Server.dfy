/** The receiver's walk over one value, in output-file mode without plugins (Processing of k2hftfusesvr). */
module Server {
  import opened Bytes
  import opened Wire
  import opened Splitter

  /** `convert` is FORMAT rendering; None when no conversion is configured. */
  datatype Config = Config(binary: bool, convert: Option<Line -> Option<string>>)

  function Trimmed(binary: bool, data: string): string {
    if binary then data else Strip(data)
  }

  /** What one line adds to the output; None when the loop takes its `continue`. */
  function LineOutput(cfg: Config, l: Line): Option<string> {
    if l.data == "" then None
    else
      match cfg.convert
      case None => Some(Trimmed(cfg.binary, l.data))
      case Some(f) =>
        match f(l)
        case None => None
        case Some(text) => if text == "" then None else Some(Trimmed(cfg.binary, text))
  }

  /** The `continue` does not step to the next line: after the first failing line nothing more is output. */
  function Stacked(cfg: Config, ls: seq<Line>): string {
    if ls == [] then ""
    else
      match LineOutput(cfg, ls[0])
      case None => ""
      case Some(text) => text + Stacked(cfg, ls[1..])
  }

  /** Skipping just the failing lines, as the message beside the `continue` says. */
  function Skipping(cfg: Config, ls: seq<Line>): string {
    if ls == [] then "" else TextOf(cfg, ls[0]) + Skipping(cfg, ls[1..])
  }

  function TextOf(cfg: Config, l: Line): string {
    match LineOutput(cfg, l)
    case None => ""
    case Some(text) => text
  }

  predicate NothingAfterFailure(cfg: Config, ls: seq<Line>) {
    forall i, j :: 0 <= i < j < |ls| && LineOutput(cfg, ls[i]).None? ==> TextOf(cfg, ls[j]) == ""
  }

  /** Every line's output reaches the file iff nothing with output follows a failing line. */
  lemma {:induction false} AllOutputIff(cfg: Config, ls: seq<Line>)
    ensures Stacked(cfg, ls) == Skipping(cfg, ls) <==> NothingAfterFailure(cfg, ls)
  {
    if ls != [] {
      AllOutputIff(cfg, ls[1..]);
      SkippingEmpty(cfg, ls[1..]);
      NothingAfterFailureCons(cfg, ls);
      var text := TextOf(cfg, ls[0]);
      assert (text + Stacked(cfg, ls[1..]))[|text|..] == Stacked(cfg, ls[1..]);
      assert (text + Skipping(cfg, ls[1..]))[|text|..] == Skipping(cfg, ls[1..]);
    }
  }

  lemma NothingAfterFailureCons(cfg: Config, ls: seq<Line>)
    requires ls != []
    ensures NothingAfterFailure(cfg, ls) <==>
              && NothingAfterFailure(cfg, ls[1..])
              && (LineOutput(cfg, ls[0]).None? ==> forall j :: 0 <= j < |ls[1..]| ==> TextOf(cfg, ls[1..][j]) == "")
  {
    if NothingAfterFailure(cfg, ls) {
      forall i, j | 0 <= i < j < |ls[1..]| && LineOutput(cfg, ls[1..][i]).None?
        ensures TextOf(cfg, ls[1..][j]) == ""
      {
        assert ls[1..][i] == ls[i + 1] && ls[1..][j] == ls[j + 1];
      }
    } else {
      var i, j :| 0 <= i < j < |ls| && LineOutput(cfg, ls[i]).None? && TextOf(cfg, ls[j]) != "";
      assert ls[j] == ls[1..][j - 1];
      assert i > 0 ==> ls[i] == ls[1..][i - 1];
    }
  }

  lemma {:induction false} SkippingEmpty(cfg: Config, ls: seq<Line>)
    ensures Skipping(cfg, ls) == "" <==> forall j :: 0 <= j < |ls| ==> TextOf(cfg, ls[j]) == ""
  {
    if ls != [] {
      SkippingEmpty(cfg, ls[1..]);
      assert forall j :: 0 < j < |ls| ==> ls[j] == ls[1..][j - 1];
    }
  }

  /** No block is resized to nothing: the first two texts are not both empty. */
  predicate Allocates(cfg: Config, ls: seq<Line>) {
    !(|ls| >= 2 && LineOutput(cfg, ls[0]) == Some("") && LineOutput(cfg, ls[1]) == Some(""))
  }

  /** What the file receives for one value. None: the block is given back while the loop still holds it,
      and nothing more is defined. */
  function FileOutput(cfg: Config, ls: seq<Line>): Option<string> {
    if Allocates(cfg, ls) then Some(Stacked(cfg, ls)) else None
  }

  /** GetK2hFtLines on an encoded value: the lines lie at the first address, as many as counted; no address,
      and the caller's count of 0, iff there are none. */
  method GetLines(value: string, ghost ls: seq<Line>) returns (first: Option<nat>, count: nat)
    requires ValidLines(ls) && |EncodeLines(ls)| < WORD && value == EncodeValue(ls)
    ensures first.None? <==> ls == []
    ensures first.Some? ==> Holds(value, first.value, ls)
    ensures count == |ls|
  {
    ValueRoundTrip(ls);
    RoomForLine(ls);
    var allLength := ReadSize(ReadAt(value, 0, 8)) + VALUE_HEAD;
    if allLength < LINE_HEAD {
      return None, 0;
    }
    return Some(VALUE_HEAD), ReadSize(ReadAt(value, 8, 8));
  }

  lemma RoomForLine(ls: seq<Line>)
    requires ValidLines(ls)
    ensures ls == [] || LINE_HEAD <= |EncodeLines(ls)|
  {
    if ls != [] {
      assert ValidLine(ls[0]);
    }
  }

  /** The loop over `linecount` turns: only a line that was put out moves the walk to the next one. */
  method Processing(cfg: Config, value: string, ghost ls: seq<Line>) returns (output: Option<string>)
    requires ValidLines(ls) && |EncodeLines(ls)| < WORD
    requires value == EncodeValue(ls)
    ensures output == FileOutput(cfg, ls)
  {
    var lines, count := GetLines(value, ls);
    if lines.None? {
      return Some("");
    }
    output := WalkLines(cfg, value, lines.value, count, ls);
  }

  /** What the loop has done after putting out `put` lines. */
  ghost predicate Put(cfg: Config, ls: seq<Line>, put: nat, fileOutput: array?<char>)
    requires put <= |ls|
    reads fileOutput
  {
    && (fileOutput == null <==> put == 0)
    && (put == 1 ==> LineOutput(cfg, ls[0]) == Some(Written(fileOutput)))
    && (put >= 2 ==> fileOutput.Length > 0 && Allocates(cfg, ls))
    && Stacked(cfg, ls) == Written(fileOutput) + Stacked(cfg, ls[put..])
  }

  method WalkLines(cfg: Config, value: string, first: nat, count: nat, ghost ls: seq<Line>)
    returns (output: Option<string>)
    requires count == |ls| && Holds(value, first, ls)
    ensures output == FileOutput(cfg, ls)
  {
    var fileOutput: array?<char> := null;
    var at: nat := first;
    ghost var put := 0;
    ghost var stuck := false;
    assert "" + Stacked(cfg, ls) == Stacked(cfg, ls) && ls[0..] == ls;
    for cnt := 0 to count
      invariant fileOutput != null ==> fresh(fileOutput)
      invariant put <= |ls| && Put(cfg, ls, put, fileOutput)
      invariant Holds(value, at, ls[put..])
      invariant if stuck then put < |ls| && LineOutput(cfg, ls[put]).None? else put == cnt
    {
      var text, next := OneLine(cfg, value, at, ls[put..]);
      if text.None? {
        stuck := true;
      } else {
        if fileOutput != null && fileOutput.Length + |text.value| == 0 {
          return None;
        }
        PutOne(cfg, ls, put, fileOutput, text.value);
        fileOutput := Grow(fileOutput, text.value);
        at, put := next, put + 1;
      }
    }
    assert Stacked(cfg, ls[put..]) == "";
    output := Some(if fileOutput == null then "" else fileOutput[..]);
    assert Written(fileOutput) + "" == Written(fileOutput);
  }

  lemma PutOne(cfg: Config, ls: seq<Line>, put: nat, fileOutput: array?<char>, text: string)
    requires put < |ls| && Put(cfg, ls, put, fileOutput) && LineOutput(cfg, ls[put]) == Some(text)
    requires fileOutput != null ==> fileOutput.Length + |text| > 0
    ensures put + 1 >= 2 ==> Allocates(cfg, ls)
    ensures put == 0 ==> Written(fileOutput) + text == text
    ensures Stacked(cfg, ls) == Written(fileOutput) + text + Stacked(cfg, ls[put + 1..])
  {
    assert ls[put..][0] == ls[put] && ls[put..][1..] == ls[put + 1..];
    AppendAssoc(Written(fileOutput), text, Stacked(cfg, ls[put + 1..]));
  }

  /** One turn: the next address is taken first, then the line is parsed and converted. */
  method OneLine(cfg: Config, value: string, at: nat, ghost todo: seq<Line>) returns (text: Option<string>, next: nat)
    requires todo != [] && Holds(value, at, todo)
    ensures text == LineOutput(cfg, todo[0]) && Holds(value, next, todo[1..])
  {
    NextStays(value, at, todo);
    next := NextLine(value, at);
    text := LineText(cfg, ParseLine(value, at));
  }

  /** The file output grows by `text`. */
  method Grow(fileOutput: array?<char>, text: string) returns (grown: array<char>)
    requires fileOutput != null ==> 0 < fileOutput.Length + |text|
    ensures fresh(grown) && grown[..] == Written(fileOutput) + text
  {
    var filePutSize := if fileOutput == null then 0 else fileOutput.Length;
    grown := Realloc(fileOutput, filePutSize + |text|);
    assert grown[..filePutSize] == Written(fileOutput);
    Memcpy(grown, filePutSize, text);
    assert grown[..] == grown[..filePutSize + |text|];
  }

  ghost function Written(block: array?<char>): string
    reads block
  {
    if block == null then "" else block[..]
  }

  /** Conversion, then the NUL cut of text mode. */
  method LineText(cfg: Config, l: Line) returns (text: Option<string>)
    ensures text == LineOutput(cfg, l)
  {
    var data := l.data;
    if data == "" {
      return None;
    }
    if cfg.convert.Some? {
      var converted := cfg.convert.value(l);
      if converted.None? || converted.value == "" {
        return None;
      }
      data := converted.value;
    }
    assert data[..|data|] == data;
    return Some(data[..if !cfg.binary && data[|data| - 1] == '\0' then |data| - 1 else |data|]);
  }

  /** What the file receives for lines with these bytes when nothing is converted. */
  function Received(binary: bool, datas: seq<string>): string {
    if binary then Flatten(datas) else Payload(datas)
  }

  lemma {:induction false} ReceivedAppend(binary: bool, a: seq<string>, b: seq<string>)
    ensures Received(binary, a + b) == Received(binary, a) + Received(binary, b)
  {
    FlattenAppend(a, b);
    PayloadAppend(a, b);
  }

  /** In text mode, the two lines that make the loop resize a block to nothing: just a NUL, twice. */
  predicate EmptyStart(binary: bool, datas: seq<string>) {
    !binary && |datas| >= 2 && datas[0] == "\0" == datas[1]
  }

  /** Without conversion, lines with data all get through: the file receives each line's bytes in order. */
  lemma {:induction false} PassThroughOutput(cfg: Config, ls: seq<Line>)
    requires cfg.convert.None? && ValidLines(ls)
    ensures Stacked(cfg, ls) == Received(cfg.binary, Datas(ls))
  {
    if ls != [] {
      assert ValidLine(ls[0]);
      PassThroughOutput(cfg, ls[1..]);
      assert Datas(ls)[0] == ls[0].data && Datas(ls)[1..] == Datas(ls[1..]);
    }
  }

  /** Without conversion the output is defined iff the value does not begin with two text-mode lines that are
      just a NUL. */
  lemma {:induction false} PassThroughAllocates(cfg: Config, ls: seq<Line>)
    requires cfg.convert.None? && ValidLines(ls)
    ensures FileOutput(cfg, ls).Some? <==> !EmptyStart(cfg.binary, Datas(ls))
  {
    forall i | 0 <= i < |ls|
      ensures LineOutput(cfg, ls[i]) == Some("") <==> !cfg.binary && ls[i].data == "\0"
    {
      assert ValidLine(ls[i]);
      StripsToNothing(ls[i].data);
    }
  }

  lemma StripsToNothing(data: string)
    requires data != ""
    ensures Strip(data) == "" <==> data == "\0"
  {
    if Strip(data) == "" {
      assert data == [data[0]];
    }
  }

  function Datas(ls: seq<Line>): (r: seq<string>)
    ensures |r| == |ls| && forall i :: 0 <= i < |ls| ==> r[i] == ls[i].data
  {
    if ls == [] then [] else [ls[0].data] + Datas(ls[1..])
  }
}
