/** The server's FORMAT string: compiled to a part list, then rendered for each line. */
module FormParts {
  import opened Bytes
  import opened Paths

  datatype PartType = STRING | CONTENTS | TRIM_CONTENTS | TIME | FILENAME | FILEPATH | PID | HOSTNAME

  /** K2HFTSVRFORMPART: `form` is used by STRING parts only. */
  datatype Part = Part(kind: PartType, form: string)

  // ---- One token of the string ----

  /** What the front of a format string means: a byte, a part, nothing, or the end. `rest` is what follows. */
  datatype Token =
    | Text(c: char, rest: string)
    | Code(kind: PartType, rest: string)
    | Skip(rest: string)
    | End

  predicate IsHex(c: char) {
    '0' <= c <= '9' || 'a' <= c <= 'f' || 'A' <= c <= 'F'
  }

  function HexValue(c: char): (n: nat)
    requires IsHex(c)
    ensures n < 16
  {
    if '0' <= c <= '9' then (c - '0') as nat
    else if 'a' <= c <= 'f' then (c - 'a') as nat + 10
    else (c - 'A') as nat + 10
  }

  function CodeOf(c: char): Option<PartType> {
    if c == 'L' then Some(CONTENTS)
    else if c == 'l' then Some(TRIM_CONTENTS)
    else if c == 'T' || c == 't' then Some(TIME)
    else if c == 'f' then Some(FILENAME)
    else if c == 'F' then Some(FILEPATH)
    else if c == 'P' || c == 'p' then Some(PID)
    else if c == 'H' || c == 'h' then Some(HOSTNAME)
    else None
  }

  function EscapeOf(c: char): Option<char> {
    if c == '\\' || c == '\"' || c == '\'' || c == '?' then Some(c)
    else if c == 'a' then Some(7 as char)
    else if c == 'b' then Some(8 as char)
    else if c == 'f' then Some(12 as char)
    else if c == 'n' then Some('\n')
    else if c == 'r' then Some('\r')
    else if c == 't' then Some('\t')
    else None
  }

  /** The bytes after "\x": one or two hex digits make a byte; one other byte is swallowed. */
  function HexToken(s: string): Token {
    if s == "" then End
    else if !IsHex(s[0]) then Skip(s[1..])
    else if |s| > 1 && IsHex(s[1]) then Text((HexValue(s[0]) * 16 + HexValue(s[1])) as char, s[2..])
    else Text(HexValue(s[0]) as char, s[1..])
  }

  function NextToken(s: string): (t: Token)
    requires s != ""
    ensures !t.End? ==> |t.rest| < |s|
  {
    if s[0] == '%' then
      if |s| == 1 then End
      else if CodeOf(s[1]).Some? then Code(CodeOf(s[1]).value, s[2..])
      else Text(s[1], s[2..])
    else if s[0] == '\\' then
      if |s| == 1 || s[1] == '0' then End
      else if EscapeOf(s[1]).Some? then Text(EscapeOf(s[1]).value, s[2..])
      else if s[1] == 'x' then HexToken(s[2..])
      else if '0' < s[1] <= '8' then Text((s[1] - '0'), s[2..])
      else Skip(s[2..])
    else Text(s[0], s[1..])
  }

  // ---- Direct meaning, without a part list ----

  /** What a part stands for when one line is rendered. Absent strings print nothing. */
  datatype Env = Env(content: Option<string>, trim: string -> string, time: string, filepath: Option<string>,
                     pid: string, hostname: Option<string>)

  function OrEmpty(s: Option<string>): string {
    if s.Some? then s.value else ""
  }

  function Value(kind: PartType, env: Env): string {
    match kind
    case STRING => ""
    case CONTENTS => OrEmpty(env.content)
    case TRIM_CONTENTS => if env.content.Some? then env.trim(env.content.value) else ""
    case TIME => env.time
    case FILENAME => if env.filepath.Some? then OrEmpty(FileName(env.filepath.value)) else ""
    case FILEPATH => OrEmpty(env.filepath)
    case PID => env.pid
    case HOSTNAME => OrEmpty(env.hostname)
  }

  /** One pass over the string, each token printed as it is met. */
  function Direct(s: string, env: Env): string
    decreases |s|
  {
    if s == "" then ""
    else
      match NextToken(s)
      case Text(c, rest) => [c] + Direct(rest, env)
      case Code(kind, rest) => Value(kind, env) + Direct(rest, env)
      case Skip(rest) => Direct(rest, env)
      case End => ""
  }

  // ---- Compilation ----

  function Static(form: string): seq<Part> {
    if form == "" then [] else [Part(STRING, form)]
  }

  /** The part list, given the static text collected so far. */
  function Compile(form: string, s: string): seq<Part>
    decreases |s|
  {
    if s == "" then Static(form)
    else
      match NextToken(s)
      case Text(c, rest) => Compile(form + [c], rest)
      case Code(kind, rest) => Static(form) + [Part(kind, "")] + Compile("", rest)
      case Skip(rest) => Compile(form, rest)
      case End => Static(form)
  }

  function PartText(p: Part, env: Env): string {
    if p.kind == STRING then p.form else Value(p.kind, env)
  }

  function Render(parts: seq<Part>, env: Env): string {
    if parts == [] then "" else PartText(parts[0], env) + Render(parts[1..], env)
  }

  lemma {:induction false} RenderAppend(a: seq<Part>, b: seq<Part>, env: Env)
    ensures Render(a + b, env) == Render(a, env) + Render(b, env)
  {
    if a == [] {
      assert a + b == b;
    } else {
      DropOfAppend(a, b, 1);
      RenderAppend(a[1..], b, env);
    }
  }

  lemma RenderStatic(form: string, env: Env)
    ensures Render(Static(form), env) == form
  {
    if form != "" {
      RenderOne(Part(STRING, form), env);
    }
  }

  lemma RenderOne(p: Part, env: Env)
    ensures Render([p], env) == PartText(p, env)
  {
    assert [p][1..] == [];
    assert PartText(p, env) + "" == PartText(p, env);
  }

  /** The compiled list renders to the direct meaning of the string, in every environment. */
  lemma {:induction false} CompileThenRender(form: string, s: string, env: Env)
    ensures Render(Compile(form, s), env) == form + Direct(s, env)
    decreases |s|
  {
    RenderStatic(form, env);
    if s == "" {
      assert form + "" == form;
    } else {
      match NextToken(s)
      case Text(c, rest) =>
        CompileThenRender(form + [c], rest, env);
        AppendAssoc(form, [c], Direct(rest, env));
      case Code(kind, rest) =>
        CompileThenRender("", rest, env);
        RenderAppend(Static(form) + [Part(kind, "")], Compile("", rest), env);
        RenderAppend(Static(form), [Part(kind, "")], env);
        RenderOne(Part(kind, ""), env);
        assert "" + Direct(rest, env) == Direct(rest, env);
        AppendAssoc(form, Value(kind, env), Direct(rest, env));
      case Skip(rest) => CompileThenRender(form, rest, env);
      case End => assert form + "" == form;
    }
  }

  /** No empty STRING part, no two STRING parts side by side, and no text on other parts. */
  predicate Canonical(parts: seq<Part>) {
    && (forall i :: 0 <= i < |parts| ==> (parts[i].kind == STRING <==> parts[i].form != ""))
    && (forall i :: 0 < i < |parts| ==> parts[i - 1].kind != STRING || parts[i].kind != STRING)
  }

  lemma TokenKinds(s: string)
    requires s != ""
    ensures NextToken(s).Code? ==> NextToken(s).kind != STRING
  {
  }

  lemma {:induction false} CompileIsCanonical(form: string, s: string)
    ensures Canonical(Compile(form, s))
    decreases |s|
  {
    if s != "" {
      TokenKinds(s);
      match NextToken(s)
      case Text(c, rest) => CompileIsCanonical(form + [c], rest);
      case Code(kind, rest) => CompileIsCanonical("", rest);
      case Skip(rest) => CompileIsCanonical(form, rest);
      case End =>
    }
  }

  // ---- The compiling loop ----

  /** Ends the static text collected so far. */
  method PushStatic(list: seq<Part>, form: string) returns (r: seq<Part>)
    ensures r == list + Static(form)
  {
    r := if form == "" then list else list + [Part(STRING, form)];
    assert list + [] == list;
  }

  /** convert_hex_to_char on the C string from `cur` on; on success `last` is the last digit used. */
  method HexToChar(s: string, cur: nat) returns (ok: bool, data: char, last: nat)
    requires cur <= |s|
    ensures last == cur || last == cur + 1
    ensures ok ==> last < |s| && HexToken(s[cur..]) == Text(data, s[last + 1..])
    ensures !ok ==> last == cur && HexToken(s[cur..]) == if cur == |s| then End else Skip(s[cur + 1..])
  {
    last := cur;
    if cur == |s| || !IsHex(s[cur]) {
      assert cur < |s| ==> s[cur..][0] == s[cur] && s[cur..][1..] == s[cur + 1..];
      return false, '\0', cur;
    }
    assert s[cur..][0] == s[cur] && s[cur..][1..] == s[cur + 1..];
    var n := HexValue(s[cur]);
    if cur + 1 < |s| && IsHex(s[cur + 1]) {
      assert s[cur..][1] == s[cur + 1] && s[cur..][2..] == s[cur + 2..];
      n := n * 16 + HexValue(s[cur + 1]);
      last := cur + 1;
    }
    return true, n as char, last;
  }

  lemma Tail(s: string, cur: nat)
    requires cur < |s|
    ensures s[cur..][0] == s[cur] && s[cur..][1..] == s[cur + 1..]
    ensures cur + 1 < |s| ==> s[cur..][1] == s[cur + 1] && s[cur..][2..] == s[cur + 2..]
  {
  }

  /** A turn at '%': a code ends the static text and adds its part; any other byte is text. */
  method PercentTurn(s: string, cur: nat, form: string, list: seq<Part>)
    returns (stop: bool, next: nat, form': string, list': seq<Part>)
    requires cur < |s| && s[cur] == '%'
    ensures !stop ==> cur < next <= |s| && list' + Compile(form', s[next..]) == list + Compile(form, s[cur..])
    ensures stop ==> list' + Static(form') == list + Compile(form, s[cur..])
  {
    Tail(s, cur);
    next := cur + 1;
    if next == |s| {
      list' := PushStatic(list, form);
      assert list' + [] == list';
      return true, next, "", list';
    }
    var code := CodeOf(s[next]);
    if code.Some? {
      list' := PushStatic(list, form);
      list' := list' + [Part(code.value, "")];
      form' := "";
      ghost var rest := Compile("", s[next + 1..]);
      assert list + (Static(form) + [Part(code.value, "")] + rest) == list' + rest;
    } else {
      form', list' := form + [s[next]], list;
    }
    return false, next + 1, form', list';
  }

  /** A turn at '\\': escapes, hex, one octal digit; anything else is dropped. At "\\0" or the end it stops. */
  method BackslashTurn(s: string, cur: nat, form: string) returns (stop: bool, next: nat, form': string)
    requires cur < |s| && s[cur] == '\\'
    ensures !stop ==> cur < next <= |s| && Compile(form', s[next..]) == Compile(form, s[cur..])
    ensures stop ==> Static(form') == Compile(form, s[cur..])
  {
    Tail(s, cur);
    next, form' := cur + 1, form;
    if next == |s| || s[next] == '0' {
      return true, next, form;
    }
    var escape := EscapeOf(s[next]);
    if escape.Some? {
      form' := form + [escape.value];
    } else if s[next] == 'x' {
      var ok, data, last := HexToChar(s, cur + 2);
      if ok {
        return false, last + 1, form + [data];
      }
      if last == |s| {
        return true, last, form;
      }
      next := last;
    } else if '0' < s[next] <= '8' {
      form' := form + [s[next] - '0'];
    }
    return false, next + 1, form';
  }

  /** build_form_part_list on a C string: one cursor, one text being collected, early `break`s. */
  method BuildFormPartList(value: string) returns (list: seq<Part>)
    requires '\0' !in value
    ensures list == Compile("", StringContent(value))
    ensures Canonical(list)
    ensures forall env :: Render(list, env) == Direct(StringContent(value), env)
  {
    list := [];
    var strform := if value == "" then "" else StringContent(value);
    var form := "";
    var cur: nat := 0;
    assert strform[0..] == strform;
    assert [] + Compile("", strform) == Compile("", strform);
    while cur < |strform|
      invariant cur <= |strform|
      invariant list + Compile(form, strform[cur..]) == Compile("", strform)
      decreases |strform| - cur
    {
      var stop;
      if strform[cur] == '%' {
        stop, cur, form, list := PercentTurn(strform, cur, form, list);
      } else if strform[cur] == '\\' {
        stop, cur, form := BackslashTurn(strform, cur, form);
      } else {
        Tail(strform, cur);
        stop, cur, form := false, cur + 1, form + [strform[cur]];
      }
      if stop {
        break;
      }
    }
    list := PushStatic(list, form);
    CompileIsCanonical("", strform);
    forall env
      ensures Render(list, env) == Direct(strform, env)
    {
      CompileThenRender("", strform, env);
      assert "" + Direct(strform, env) == Direct(strform, env);
    }
  }

  /** make_form_output_string: the output grows part by part. */
  method MakeFormOutput(parts: seq<Part>, env: Env) returns (output: string)
    ensures output == Render(parts, env)
  {
    output := "";
    for i := 0 to |parts|
      invariant output == Render(parts[..i], env)
    {
      RenderAppend(parts[..i], [parts[i]], env);
      RenderOne(parts[i], env);
      assert parts[..i + 1] == parts[..i] + [parts[i]];
      var text := "";
      match parts[i].kind {
        case CONTENTS =>
          if env.content.Some? {
            text := env.content.value;
          }
        case TRIM_CONTENTS =>
          if env.content.Some? {
            text := env.trim(env.content.value);
          }
        case TIME => text := env.time;
        case FILENAME =>
          if env.filepath.Some? {
            var name := FileName(env.filepath.value);
            if name.Some? {
              text := name.value;
            }
          }
        case FILEPATH =>
          if env.filepath.Some? {
            text := env.filepath.value;
          }
        case PID => text := env.pid;
        case HOSTNAME =>
          if env.hostname.Some? {
            text := env.hostname.value;
          }
        case STRING => text := parts[i].form;
      }
      output := output + text;
    }
    assert parts[..|parts|] == parts;
  }

  // ---- Printing a list back ----

  /** The text Dump prints for one part; it has no case for trimmed contents. */
  function DumpPart(p: Part): string {
    match p.kind
    case CONTENTS => "%L"
    case TIME => "%T"
    case FILENAME => "%f"
    case FILEPATH => "%F"
    case PID => "%P"
    case HOSTNAME => "%H"
    case TRIM_CONTENTS => p.form
    case STRING => p.form
  }

  function DumpForm(parts: seq<Part>): string {
    if parts == [] then "" else DumpPart(parts[0]) + DumpForm(parts[1..])
  }

  predicate PlainText(s: string) {
    '%' !in s && '\\' !in s
  }

  /** Nothing in the list prints as something else: no trimmed contents, no '%' or backslash in text. */
  predicate Printable(parts: seq<Part>) {
    forall i :: 0 <= i < |parts| ==> parts[i].kind != TRIM_CONTENTS && PlainText(parts[i].form)
  }

  function Weight(parts: seq<Part>): nat {
    if parts == [] then 0 else (if parts[0].kind == STRING then |parts[0].form| else 2) + Weight(parts[1..])
  }

  /** Every token of the string is a plain byte or a code other than trimmed contents. */
  predicate PlainTokens(s: string)
    decreases |s|
  {
    s == "" ||
    match NextToken(s)
    case Text(c, rest) => s[0] != '%' && s[0] != '\\' && PlainTokens(rest)
    case Code(kind, rest) => PlainTokens(rest)
    case Skip(rest) => false
    case End => false
  }

  lemma {:induction false} WeightAppend(a: seq<Part>, b: seq<Part>)
    ensures Weight(a + b) == Weight(a) + Weight(b)
  {
    if a == [] {
      assert a + b == b;
    } else {
      DropOfAppend(a, b, 1);
      WeightAppend(a[1..], b);
    }
  }

  lemma WeightStatic(form: string)
    ensures Weight(Static(form)) == |form|
  {
    if form != "" {
      assert Static(form)[1..] == [];
    }
  }

  lemma WeightEntry(form: string, kind: PartType, tail: seq<Part>)
    requires kind != STRING
    ensures Weight(Static(form) + [Part(kind, "")] + tail) == |form| + 2 + Weight(tail)
  {
    var part := [Part(kind, "")];
    assert part[1..] == [];
    WeightStatic(form);
    WeightAppend(Static(form), part);
    WeightAppend(Static(form) + part, tail);
  }

  /** Escapes shrink: the list weighs as much as the string iff every token is plain. */
  lemma {:induction false} CompileWeight(form: string, s: string)
    ensures Weight(Compile(form, s)) <= |form| + |s|
    ensures Weight(Compile(form, s)) == |form| + |s| <==> PlainTokens(s)
    decreases |s|
  {
    WeightStatic(form);
    if s != "" {
      TokenKinds(s);
      match NextToken(s)
      case Text(c, rest) => CompileWeight(form + [c], rest);
      case Code(kind, rest) =>
        CompileWeight("", rest);
        WeightEntry(form, kind, Compile("", rest));
      case Skip(rest) => CompileWeight(form, rest);
      case End =>
    }
  }

  lemma {:induction false} DumpWeight(parts: seq<Part>)
    requires Canonical(parts)
    ensures |DumpForm(parts)| <= Weight(parts)
    ensures |DumpForm(parts)| == Weight(parts) <==> forall i :: 0 <= i < |parts| ==> parts[i].kind != TRIM_CONTENTS
  {
    if parts != [] {
      CanonicalTail(parts);
      DumpWeight(parts[1..]);
      assert forall i :: 0 < i < |parts| ==> parts[i] == parts[1..][i - 1];
    }
  }

  lemma CanonicalTail(parts: seq<Part>)
    requires Canonical(parts) && parts != []
    ensures Canonical(parts[1..]) && (parts[0].kind == STRING <==> parts[0].form != "")
    ensures parts[0].kind == STRING && parts[1..] != [] ==> parts[1..][0].kind != STRING
  {
  }

  /** Plain tokens leave no '%' and no backslash in the texts. */
  lemma {:induction false} PlainTexts(form: string, s: string)
    requires PlainTokens(s) && PlainText(form)
    ensures forall i :: 0 <= i < |Compile(form, s)| ==> PlainText(Compile(form, s)[i].form)
    decreases |s|
  {
    if s != "" {
      match NextToken(s)
      case Text(c, rest) => PlainTexts(form + [c], rest);
      case Code(kind, rest) => PlainTexts("", rest);
    }
  }

  lemma {:induction false} CompileText(form: string, text: string, s: string)
    requires PlainText(text)
    ensures Compile(form, text + s) == Compile(form + text, s)
    decreases |text|
  {
    if text == "" {
      assert text + s == s && form + text == form;
    } else {
      DropOfAppend(text, s, 1);
      assert (text + s)[0] == text[0];
      CompileText(form + [text[0]], text[1..], s);
      assert form + [text[0]] + text[1..] == form + text;
    }
  }

  lemma CompileCode(form: string, p: Part, s: string)
    requires p.kind != STRING && p.kind != TRIM_CONTENTS && p.form == ""
    ensures Compile(form, DumpPart(p) + s) == Static(form) + [p] + Compile("", s)
  {
    var all := DumpPart(p) + s;
    assert all[0] == '%' && all[2..] == s;
    assert NextToken(all) == Code(p.kind, s);
  }

  lemma {:induction false} CompileDump(form: string, parts: seq<Part>)
    requires Canonical(parts) && Printable(parts)
    requires form == "" || parts == [] || parts[0].kind != STRING
    ensures Compile(form, DumpForm(parts)) == Static(form) + parts
    decreases |parts|
  {
    if parts == [] {
      assert Static(form) + parts == Static(form);
    } else {
      CanonicalTail(parts);
      assert PlainText(parts[0].form) && parts[0].kind != TRIM_CONTENTS;
      assert Printable(parts[1..]);
      assert parts == [parts[0]] + parts[1..];
      if parts[0].kind == STRING {
        CompileDump(parts[0].form, parts[1..]);
        CompileText("", parts[0].form, DumpForm(parts[1..]));
        assert "" + parts[0].form == parts[0].form && Static("") + parts == parts;
      } else {
        CompileDump("", parts[1..]);
        CompileCode(form, parts[0], DumpForm(parts[1..]));
        assert Static("") + parts[1..] == parts[1..];
        AppendAssoc(Static(form), [parts[0]], parts[1..]);
      }
    }
  }

  /** Reading back the quoted text that Dump prints gives a compiled list again iff the list holds no
      trimmed contents and no text with '%' or a backslash. */
  lemma DumpRoundTripIff(parts: seq<Part>)
    requires Canonical(parts)
    ensures Compile("", StringContent(['\"'] + DumpForm(parts) + ['\"'])) == parts <==> Printable(parts)
  {
    QuotedContent(DumpForm(parts));
    if Printable(parts) {
      CompileDump("", parts);
      assert Static("") + parts == parts;
    }
    if Compile("", DumpForm(parts)) == parts {
      CompileWeight("", DumpForm(parts));
      DumpWeight(parts);
      PlainTexts("", DumpForm(parts));
    }
  }

  /** The list of FORMAT "%l" is printed as nothing, and read back as the empty list. */
  lemma TrimmedIsLost()
    ensures Compile("", "%l") == [Part(TRIM_CONTENTS, "")]
    ensures DumpForm([Part(TRIM_CONTENTS, "")]) == "" && Compile("", StringContent("\"\"")) == []
  {
    assert NextToken("%l") == Code(TRIM_CONTENTS, "");
    assert [Part(TRIM_CONTENTS, "")][1..] == [];
    QuotedContent("");
    assert ['\"'] + "" + ['\"'] == "\"\"";
  }
}
