/** Writing text as a FORMAT string, with a table of its own, and what each code and escape compiles to. */
module FormWriter {
  import opened Bytes
  import opened Paths
  import opened FormParts

  const LOWER_HEX := "0123456789abcdef"
  const UPPER_HEX := "0123456789ABCDEF"

  /** Bytes with an escape letter, and the letter of each. */
  const LETTERS: seq<(char, char)> := [
    (7 as char, 'a'), (8 as char, 'b'), (9 as char, 't'), (10 as char, 'n'), (12 as char, 'f'), (13 as char, 'r'),
    ('\\', '\\'), ('\"', '\"'), ('\'', '\''), ('?', '?')]

  /** The codes of a FORMAT string. */
  const CODES: seq<(char, PartType)> := [
    ('L', CONTENTS), ('l', TRIM_CONTENTS), ('T', TIME), ('t', TIME), ('f', FILENAME), ('F', FILEPATH),
    ('P', PID), ('p', PID), ('H', HOSTNAME), ('h', HOSTNAME)]

  /** How one byte is written: as itself, by an escape letter, or by two hex digits. */
  datatype Written = Plain(c: char) | Letter(i: nat) | Lower(c: char) | Upper(c: char)

  predicate CanWrite(w: Written) {
    match w
    case Plain(c) => c != '%' && c != '\\' && c != '\0'
    case Letter(i) => i < |LETTERS|
    case Lower(c) => c as int < 256
    case Upper(c) => c as int < 256
  }

  function ByteOf(w: Written): char
    requires CanWrite(w)
  {
    match w
    case Plain(c) => c
    case Letter(i) => LETTERS[i].0
    case Lower(c) => c
    case Upper(c) => c
  }

  function TextOf(w: Written): string
    requires CanWrite(w)
  {
    match w
    case Plain(c) => [c]
    case Letter(i) => ['\\', LETTERS[i].1]
    case Lower(c) => ['\\', 'x', LOWER_HEX[c as int / 16], LOWER_HEX[c as int % 16]]
    case Upper(c) => ['\\', 'x', UPPER_HEX[c as int / 16], UPPER_HEX[c as int % 16]]
  }

  predicate AllWrite(ws: seq<Written>) {
    forall i :: 0 <= i < |ws| ==> CanWrite(ws[i])
  }

  function Meant(ws: seq<Written>): string
    requires AllWrite(ws)
  {
    if ws == [] then "" else [ByteOf(ws[0])] + Meant(ws[1..])
  }

  function Format(ws: seq<Written>): string
    requires AllWrite(ws)
  {
    if ws == [] then "" else TextOf(ws[0]) + Format(ws[1..])
  }

  lemma HexDigits(n: nat)
    requires n < 16
    ensures IsHex(LOWER_HEX[n]) && HexValue(LOWER_HEX[n]) == n
    ensures IsHex(UPPER_HEX[n]) && HexValue(UPPER_HEX[n]) == n
  {
  }

  lemma OneByte(form: string, w: Written, s: string)
    requires CanWrite(w)
    ensures Compile(form, TextOf(w) + s) == Compile(form + [ByteOf(w)], s)
  {
    if w.Lower? || w.Upper? {
      TwoHexDigits(w, s);
    } else {
      assert (TextOf(w) + s)[|TextOf(w)|..] == s;
    }
  }

  lemma TwoHexDigits(w: Written, s: string)
    requires CanWrite(w) && (w.Lower? || w.Upper?)
    ensures NextToken(TextOf(w) + s) == Text(w.c, s)
  {
    var all, n := TextOf(w) + s, w.c as int;
    HexDigits(n / 16);
    HexDigits(n % 16);
    var pair := [all[2], all[3]];
    assert all[2..] == pair + s;
    assert (pair + s)[2..] == s;
  }

  /** Whatever the bytes, and however each is written, the FORMAT compiles to exactly that text. */
  lemma {:induction false} WrittenText(form: string, ws: seq<Written>)
    requires AllWrite(ws)
    ensures Compile(form, Format(ws)) == Static(form + Meant(ws))
    decreases |ws|
  {
    if ws == [] {
      assert form + "" == form;
    } else {
      OneByte(form, ws[0], Format(ws[1..]));
      WrittenText(form + [ByteOf(ws[0])], ws[1..]);
      AppendAssoc(form, [ByteOf(ws[0])], Meant(ws[1..]));
    }
  }

  /** '%' and a code letter end the text and give the part of that code; any other byte after '%' is text. */
  lemma CodeIsPart(form: string, i: nat, c: char, s: string)
    ensures i < |CODES| ==>
              Compile(form, ['%', CODES[i].0] + s) == Static(form) + [Part(CODES[i].1, "")] + Compile("", s)
    ensures (forall k :: 0 <= k < |CODES| ==> CODES[k].0 != c) ==> Compile(form, ['%', c] + s) == Compile(form + [c], s)
  {
    if i < |CODES| {
      var all := ['%', CODES[i].0] + s;
      assert all[2..] == s;
    }
    var all := ['%', c] + s;
    assert all[2..] == s;
    if CodeOf(c).Some? {
      KnownCode(c);
    }
  }

  lemma KnownCode(c: char)
    requires CodeOf(c).Some?
    ensures exists k :: 0 <= k < |CODES| && CODES[k].0 == c
  {
    assert CODES[0].0 == 'L' && CODES[1].0 == 'l' && CODES[2].0 == 'T' && CODES[3].0 == 't' && CODES[4].0 == 'f';
    assert CODES[5].0 == 'F' && CODES[6].0 == 'P' && CODES[7].0 == 'p' && CODES[8].0 == 'H' && CODES[9].0 == 'h';
  }

  /** A backslash and one of the digits 1 to 8 make the byte of that value, and "\\0" ends the format. */
  lemma OctalEscape(form: string, n: nat, s: string)
    requires n <= 8
    ensures Compile(form, ['\\', '0' + n as char] + s) == if n == 0 then Static(form)
              else Compile(form + [n as char], s)
  {
    assert (['\\', '0' + n as char] + s)[2..] == s;
  }

  /** One hex digit makes a byte when no second follows. */
  lemma OneHexDigit(form: string, n: nat, s: string)
    requires n < 16 && (s == "" || (s[0] !in LOWER_HEX && s[0] !in UPPER_HEX))
    ensures Compile(form, ['\\', 'x', LOWER_HEX[n]] + s) == Compile(form + [n as char], s)
  {
    HexDigits(n);
    var all := ['\\', 'x', LOWER_HEX[n]] + s;
    assert all[2..] == [LOWER_HEX[n]] + s && all[2..][1..] == s;
    if s != "" && IsHex(s[0]) {
      HexIsDigit(s[0]);
    }
  }

  /** A backslash and any other byte are dropped. */
  lemma UnknownEscape(form: string, c: char, s: string)
    requires !('0' <= c <= '8') && c != 'x' && forall k :: 0 <= k < |LETTERS| ==> LETTERS[k].1 != c
    ensures Compile(form, ['\\', c] + s) == Compile(form, s)
  {
    assert (['\\', c] + s)[2..] == s;
    if EscapeOf(c).Some? {
      KnownEscape(c);
    }
  }

  lemma KnownEscape(c: char)
    requires EscapeOf(c).Some?
    ensures exists k :: 0 <= k < |LETTERS| && LETTERS[k].1 == c
  {
    assert LETTERS[0].1 == 'a' && LETTERS[1].1 == 'b' && LETTERS[2].1 == 't' && LETTERS[3].1 == 'n';
    assert LETTERS[4].1 == 'f' && LETTERS[5].1 == 'r' && LETTERS[6].1 == '\\' && LETTERS[7].1 == '\"';
    assert LETTERS[8].1 == '\'' && LETTERS[9].1 == '?';
  }

  lemma HexIsDigit(c: char)
    requires IsHex(c)
    ensures c in LOWER_HEX || c in UPPER_HEX
  {
    assert if c <= '9' then LOWER_HEX[HexValue(c)] == c else if 'a' <= c then LOWER_HEX[HexValue(c)] == c
        else UPPER_HEX[HexValue(c)] == c;
  }

  /** What each code puts out for a line. */
  lemma CodeMeanings(env: Env)
    ensures Direct("%L", env) == if env.content.Some? then env.content.value else ""
    ensures Direct("%l", env) == if env.content.Some? then env.trim(env.content.value) else ""
    ensures Direct("%T", env) == env.time && Direct("%t", env) == env.time
    ensures Direct("%F", env) == if env.filepath.Some? then env.filepath.value else ""
    ensures Direct("%P", env) == env.pid && Direct("%p", env) == env.pid
    ensures Direct("%H", env) == if env.hostname.Some? then env.hostname.value else ""
    ensures Direct("%h", env) == Direct("%H", env)
  {
    OneCode("%L", CONTENTS, env);
    OneCode("%l", TRIM_CONTENTS, env);
    OneCode("%T", TIME, env);
    OneCode("%t", TIME, env);
    OneCode("%F", FILEPATH, env);
    OneCode("%P", PID, env);
    OneCode("%p", PID, env);
    OneCode("%H", HOSTNAME, env);
    OneCode("%h", HOSTNAME, env);
  }

  lemma OneCode(s: string, kind: PartType, env: Env)
    requires |s| == 2 && s[0] == '%' && CodeOf(s[1]) == Some(kind)
    ensures Direct(s, env) == Value(kind, env)
  {
    assert s[2..] == "" && Direct("", env) == "" && Value(kind, env) + "" == Value(kind, env);
  }

  lemma EndsInName(front: string, name: string)
    requires '/' !in name && name != ""
    ensures var path := front + name; path != "/" && path[|path| - 1] != '/'
  {
    assert (front + name)[|front + name| - 1] == name[|name| - 1] && name[|name| - 1] in name;
  }

  lemma NameAfterSlash(front: string, name: string)
    requires '/' !in name && name != ""
    ensures FileName(front + "/" + name) == Some(name)
  {
    EndsInName(front + "/", name);
    assert (front + "/" + name)[|front| + 1..] == name;
    LastIndexUnique(front + "/" + name, '/', |front|);
  }

  lemma PlainName(name: string)
    requires '/' !in name && name != ""
    ensures FileName(name) == Some(name)
  {
    assert name[|name| - 1] in name && name[0] in name;
  }

  /** "%f" puts out the part of the path after its last '/'. */
  lemma FileNameMeaning(env: Env, front: string, name: string)
    requires '/' !in name && name != ""
    ensures env.filepath == Some(front + "/" + name) || env.filepath == Some(name) ==> Direct("%f", env) == name
  {
    OneCode("%f", FILENAME, env);
    NameAfterSlash(front, name);
    PlainName(name);
  }
}
