/** The replacement string of a regular-expression rule: parsed in place, over one array. */
module ReplaceParse {
  import opened Bytes

  const MAX_REPLACE_NUMBER := 9

  /** `matchno` -1 is static text, 0 the whole match, 1.. a group (K2HFTREPPTN). */
  datatype Item = Item(matchno: int, substring: string)

  function Static(text: string): seq<Item> {
    if text == "" then [] else [Item(-1, text)]
  }

  predicate IsSpecial(c: char) {
    c == '\"' || c == '&' || c == '$'
  }

  predicate IsDigit(c: char) {
    '0' <= c <= '9'
  }

  /** How many digits `s` starts with. */
  function DigitRun(s: string): (n: nat)
    ensures n <= |s|
  {
    if s == "" || !IsDigit(s[0]) then 0 else 1 + DigitRun(s[1..])
  }

  function AfterDigits(s: string): (r: string)
    ensures |r| <= |s| && forall c :: c in r ==> c in s
  {
    if s == "" || !IsDigit(s[0]) then s else AfterDigits(s[1..])
  }

  /** `atoi`: the decimal number at the front of the string, after the digits read so far. */
  function Atoi(acc: nat, s: string): nat
    decreases |s|
  {
    if s == "" || !IsDigit(s[0]) then acc else Atoi(acc * 10 + (s[0] - '0') as int, s[1..])
  }

  /** The number the program reads after '$': at each digit it adds `atoi` of ALL that follows. */
  function GroupNumber(number: int, s: string): int
    decreases |s|
  {
    if s == "" || !IsDigit(s[0]) then number
    else GroupNumber((if number == -1 then 0 else number) * 10 + Atoi(0, s), s[1..])
  }

  function Join(front: seq<Item>, back: Option<seq<Item>>): Option<seq<Item>> {
    if back.None? then None else Some(front + back.value)
  }

  /** The bytes after the opening '"', with the static text read so far and the pending-backslash flag. */
  function Parse(lit: string, escaped: bool, s: string): Option<seq<Item>>
    decreases |s|
  {
    if s == "" then None
    else if s[0] == '\\' then
      if escaped then Parse(lit + [s[0]], false, s[1..]) else Parse(lit, true, s[1..])
    else if escaped || !IsSpecial(s[0]) then
      Parse(lit + [s[0]], false, s[1..])
    else if s[0] == '\"' then
      if |s| == 1 then Some(Static(lit)) else None
    else if s[0] == '&' then
      Join(Static(lit) + [Item(0, "")], Parse("", false, s[1..]))
    else
      var n := GroupNumber(-1, s[1..]);
      if n == -1 || MAX_REPLACE_NUMBER < n then None
      else Join(Static(lit) + [Item(n, "")], Parse("", false, AfterDigits(s[1..])))
  }

  /** An empty replacement means the whole match; any other must be quoted. */
  function ReplaceList(replaceptn: string): Option<seq<Item>> {
    if replaceptn == "" then Some([Item(0, "")])
    else if replaceptn[0] == '\"' then Parse("", false, replaceptn[1..])
    else None
  }

  // ---- The in-place parser ----

  /** The bytes from `at` on are `unread` and the terminating NUL. */
  ghost predicate Unread(buf: array<char>, at: nat, unread: string)
    reads buf
  {
    && at + |unread| + 1 == buf.Length
    && '\0' !in unread
    && (forall i :: at <= i < buf.Length - 1 ==> buf[i] == unread[i - at])
    && buf[buf.Length - 1] == '\0'
  }

  lemma UnreadHead(buf: array<char>, at: nat, unread: string)
    requires Unread(buf, at, unread)
    ensures buf[at] == '\0' <==> unread == ""
    ensures unread != "" ==> buf[at] == unread[0] && Unread(buf, at + 1, unread[1..])
  {
    assert unread != "" ==> buf[at] == unread[0];
  }

  lemma UnreadString(buf: array<char>, at: nat, unread: string)
    requires Unread(buf, at, unread)
    ensures CString(buf[at..]) == unread
  {
    assert buf[at..] == unread + ['\0'] + "";
    CStringOf(unread, "");
  }

  /** One digit of the number at `at`. */
  method AddDigit(buf: array<char>, at: nat, number: int, ghost unread: string) returns (next: int)
    requires Unread(buf, at, unread) && IsDigit(buf[at])
    ensures unread != "" && Unread(buf, at + 1, unread[1..])
    ensures GroupNumber(next, unread[1..]) == GroupNumber(number, unread)
    ensures AfterDigits(unread[1..]) == AfterDigits(unread)
  {
    UnreadHead(buf, at, unread);
    UnreadString(buf, at, unread);
    next := if number == -1 then 0 else number;
    next := next * 10 + Atoi(0, CString(buf[at..]));
  }

  /** The number after a '$' at `at`; `next` is the last digit read. */
  method ReadGroupNumber(buf: array<char>, at: nat, ghost unread: string) returns (number: int, next: nat)
    requires Unread(buf, at + 1, unread)
    ensures number == GroupNumber(-1, unread)
    ensures at <= next && Unread(buf, next + 1, AfterDigits(unread))
  {
    number, next := -1, at;
    ghost var tail := unread;
    while buf[next + 1] != '\0' && IsDigit(buf[next + 1])
      invariant at <= next && Unread(buf, next + 1, tail)
      invariant AfterDigits(tail) == AfterDigits(unread)
      invariant GroupNumber(number, tail) == GroupNumber(-1, unread)
      decreases |tail|
    {
      number := AddDigit(buf, next + 1, number, tail);
      next := next + 1;
      tail := tail[1..];
    }
    UnreadHead(buf, next + 1, tail);
  }

  /** The NUL is written at the write cursor and the static text before it read back as a string. */
  method TakeStatic(buf: array<char>, psetpos: nat) returns (found: seq<Item>)
    requires psetpos < buf.Length
    requires '\0' !in buf[..psetpos]
    modifies buf
    ensures forall i :: psetpos < i < buf.Length ==> buf[i] == old(buf[i])
    ensures found == Static(old(buf[..psetpos]))
  {
    ghost var lit := buf[..psetpos];
    buf[psetpos] := '\0';
    assert buf[..] == lit + ['\0'] + buf[psetpos + 1..];
    CStringOf(lit, buf[psetpos + 1..]);
    var text := CString(buf[..]);
    found := if 0 < |text| then [Item(-1, text)] else [];
  }

  /** The loop over one duplicated string: the write cursor stays behind the read cursor, so no unread
      byte is overwritten, and the list is the one of the pure parse. */
  method BuildReplaceList(replaceptn: string) returns (r: Option<seq<Item>>)
    requires '\0' !in replaceptn
    ensures r == ReplaceList(replaceptn)
  {
    if replaceptn == "" {
      return Some([Item(0, "")]);
    }
    if replaceptn[0] != '\"' {
      return None;
    }
    var n := |replaceptn|;
    var buf := new char[n + 1](i requires 0 <= i => if i < n then replaceptn[i] else '\0');
    r := ParseInPlace(buf, replaceptn[1..]);
  }

  method ParseInPlace(buf: array<char>, ghost s: string) returns (r: Option<seq<Item>>)
    requires Unread(buf, 1, s)
    modifies buf
    ensures r == Parse("", false, s)
  {
    var psetpos, preadpos, escaped := 0, 1, false;
    var list: seq<Item> := [];
    ghost var unread := s;
    JoinNone(Parse("", false, s));
    assert buf[..psetpos] == "";
    while buf[preadpos] != '\0'
      invariant psetpos < preadpos && Unread(buf, preadpos, unread)
      invariant '\0' !in buf[..psetpos]
      invariant Join(list, Parse(buf[..psetpos], escaped, unread)) == Parse("", false, s)
      decreases |unread|
    {
      ghost var lit := buf[..psetpos];
      UnreadHead(buf, preadpos, unread);
      unread := unread[1..];
      var c := buf[preadpos];
      if c == '\\' && !escaped {
        escaped := true;
      } else if escaped || !IsSpecial(c) {
        buf[psetpos] := c;
        psetpos := psetpos + 1;
        escaped := false;
        assert buf[..psetpos] == lit + [c];
      } else if c == '\"' {
        UnreadHead(buf, preadpos + 1, unread);
        if buf[preadpos + 1] != '\0' {
          return None;
        }
        var found := TakeStatic(buf, psetpos);
        return Some(list + found);
      } else {
        var number, next := 0, preadpos;
        if c == '$' {
          number, next := ReadGroupNumber(buf, preadpos, unread);
          if number == -1 || MAX_REPLACE_NUMBER < number {
            return None;
          }
          unread := AfterDigits(unread);
        }
        var found := TakeStatic(buf, psetpos);
        JoinTwice(list, Static(lit) + [Item(number, "")], Parse("", false, unread));
        list := list + (found + [Item(number, "")]);
        psetpos, preadpos := 0, next;
        assert buf[..psetpos] == "";
      }
      preadpos := preadpos + 1;
    }
    UnreadHead(buf, preadpos, unread);
    return None;
  }

  lemma JoinNone(c: Option<seq<Item>>)
    ensures Join([], c) == c
  {
    if c.Some? {
      assert [] + c.value == c.value;
    }
  }

  lemma JoinTwice(a: seq<Item>, b: seq<Item>, c: Option<seq<Item>>)
    ensures Join(a, Join(b, c)) == Join(a + b, c)
  {
    if c.Some? {
      assert a + (b + c.value) == a + b + c.value;
    }
  }

  // ---- What the parser accepts and means ----

  predicate ZeroRun(s: string) {
    forall i :: 0 <= i < DigitRun(s) ==> s[i] == '0'
  }

  /** What follows '$' is accepted iff it is one digit, or zeros only: any other run of digits is
      read as a number over 9. */
  lemma GroupNumberRange(s: string)
    ensures -1 <= GroupNumber(-1, s) && (GroupNumber(-1, s) == -1 <==> DigitRun(s) == 0)
    ensures 0 <= GroupNumber(-1, s) <= 9 <==> DigitRun(s) == 1 || (DigitRun(s) > 1 && ZeroRun(s))
    ensures DigitRun(s) == 1 ==> GroupNumber(-1, s) == (s[0] - '0') as int
    ensures DigitRun(s) > 1 && ZeroRun(s) ==> GroupNumber(-1, s) == 0
  {
    if DigitRun(s) > 0 {
      var first := Atoi(0, s);
      AtoiGrows(0, s);
      GroupNumberGrows(first, s[1..]);
      if DigitRun(s) == 1 {
        assert first == (s[0] - '0') as int;
      } else if first > 0 {
        GroupNumberGrows(first * 10 + Atoi(0, s[1..]), s[2..]);
      } else {
        ZeroRunTail(s);
        GroupNumberZeros(s[1..]);
      }
    }
  }

  lemma ZeroRunTail(s: string)
    requires DigitRun(s) > 0
    ensures ZeroRun(s) <==> s[0] == '0' && ZeroRun(s[1..])
  {
    assert forall i :: 0 < i < DigitRun(s) ==> s[i] == s[1..][i - 1];
  }

  lemma {:induction false} AtoiGrows(acc: nat, s: string)
    ensures Atoi(acc, s) >= acc
    ensures Atoi(acc, s) == 0 <==> acc == 0 && ZeroRun(s)
    decreases |s|
  {
    if s != "" && IsDigit(s[0]) {
      AtoiGrows(acc * 10 + (s[0] - '0') as int, s[1..]);
      ZeroRunTail(s);
    }
  }

  lemma {:induction false} GroupNumberGrows(number: nat, s: string)
    ensures GroupNumber(number, s) >= number
    decreases |s|
  {
    if s != "" && IsDigit(s[0]) {
      GroupNumberGrows(number * 10 + Atoi(0, s), s[1..]);
    }
  }

  lemma {:induction false} GroupNumberZeros(s: string)
    requires ZeroRun(s)
    ensures GroupNumber(0, s) == 0
    decreases |s|
  {
    if s != "" && IsDigit(s[0]) {
      AtoiGrows(0, s);
      ZeroRunTail(s);
      GroupNumberZeros(s[1..]);
    }
  }

  /** No empty static text, no two static texts side by side, groups 0 to 9. */
  predicate Canonical(items: seq<Item>) {
    && AllItems(items)
    && (forall i :: 0 < i < |items| ==> items[i].matchno != -1 || items[i - 1].matchno != -1)
  }

  predicate AllItems(items: seq<Item>) {
    forall i :: 0 <= i < |items| ==> IsItem(items[i])
  }

  predicate IsItem(item: Item) {
    && -1 <= item.matchno <= MAX_REPLACE_NUMBER
    && (item.matchno == -1 <==> item.substring != "")
    && '\0' !in item.substring
  }

  lemma {:induction false} ParseIsCanonical(lit: string, escaped: bool, s: string)
    requires '\0' !in lit && '\0' !in s
    ensures Parse(lit, escaped, s).Some? ==> Canonical(Parse(lit, escaped, s).value)
    decreases |s|
  {
    if Parse(lit, escaped, s).Some? {
      var c, tail := s[0], s[1..];
      if c == '\\' && !escaped {
        ParseIsCanonical(lit, true, tail);
      } else if escaped || !IsSpecial(c) {
        ParseIsCanonical(lit + [c], false, tail);
      } else if c == '&' {
        ParseIsCanonical("", false, tail);
      } else if c == '$' {
        GroupNumberRange(tail);
        ParseIsCanonical("", false, AfterDigits(tail));
        assert IsItem(Item(GroupNumber(-1, tail), ""));
      }
    }
  }

  /** Writes an item list as a replacement string, every static byte behind a backslash. */
  function Quote(items: seq<Item>): string
    requires AllItems(items)
  {
    if items == [] then "\"" else QuoteItem(items[0]) + Quote(items[1..])
  }

  function QuoteItem(item: Item): string
    requires IsItem(item)
  {
    if item.matchno == -1 then Escape(item.substring) else ['$', Digit(item.matchno)]
  }

  function Digit(n: int): char
    requires 0 <= n <= MAX_REPLACE_NUMBER
  {
    ('0' as int + n) as char
  }

  function Escape(text: string): string {
    if text == "" then "" else ['\\', text[0]] + Escape(text[1..])
  }

  /** Parsing undoes quoting: every canonical list is the parse of some replacement string. */
  lemma {:induction false} QuoteRoundTrip(lit: string, items: seq<Item>)
    requires Canonical(items)
    requires lit == "" || items == [] || items[0].matchno != -1
    ensures Parse(lit, false, Quote(items)) == Join(Static(lit), Some(items))
    decreases |items|
  {
    if items == [] {
      assert Static(lit) + items == Static(lit);
    } else {
      assert IsItem(items[0]);
      assert items == [items[0]] + items[1..];
      if items[0].matchno == -1 {
        QuoteRoundTrip(items[0].substring, items[1..]);
        ParseEscaped("", items[0].substring, Quote(items[1..]));
        assert "" + items[0].substring == items[0].substring;
        JoinNone(Some(items));
      } else {
        QuoteRoundTrip("", items[1..]);
        QuoteHead(items[1..]);
        ParseGroup(lit, items[0].matchno, Quote(items[1..]));
        JoinNone(Some(items[1..]));
        JoinTwice(Static(lit), [items[0]], Some(items[1..]));
      }
    }
  }

  lemma QuoteHead(items: seq<Item>)
    requires AllItems(items)
    ensures Quote(items) != "" && !IsDigit(Quote(items)[0])
  {
    if items != [] {
      assert IsItem(items[0]);
    }
  }

  lemma {:induction false} ParseEscaped(lit: string, text: string, s: string)
    ensures Parse(lit, false, Escape(text) + s) == Parse(lit + text, false, s)
    decreases |text|
  {
    if text == "" {
      assert Escape(text) + s == s && lit + text == lit;
    } else {
      var all := Escape(text) + s;
      assert all[1..][1..] == Escape(text[1..]) + s;
      ParseEscaped(lit + [text[0]], text[1..], s);
      assert lit + [text[0]] + text[1..] == lit + text;
    }
  }

  lemma ParseGroup(lit: string, n: int, s: string)
    requires 0 <= n <= MAX_REPLACE_NUMBER
    requires s != "" && !IsDigit(s[0])
    ensures Parse(lit, false, ['$', Digit(n)] + s) == Join(Static(lit) + [Item(n, "")], Parse("", false, s))
  {
    var all := ['$', Digit(n)] + s;
    var digits := all[1..];
    assert digits[1..] == s;
    assert DigitRun(digits) == 1 && AfterDigits(digits) == s;
    GroupNumberRange(digits);
  }

  /** A group number of two digits: "$12" is read as 12 * 10 + 2 and rejected. */
  lemma TwoDigitsRejected()
    ensures ReplaceList("\"$12\"") == None
  {
    var s := "\"$12\"";
    assert s[1..] == "$12\"" && "$12\""[1..] == "12\"" && "12\""[1..] == "2\"" && "2\""[1..] == "\"";
    assert DigitRun("12\"") == 1 + DigitRun("2\"") == 2 + DigitRun("\"");
    GroupNumberRange("12\"");
  }
}
