/** Expanding a parsed replacement for one matched line, into a growing buffer. */
module ReplaceExpand {
  import opened Bytes
  import opened Splitter
  import opened ReplaceParse

  const MAX_REG_MATCH := MAX_REPLACE_NUMBER + 1

  /** regmatch_t: start and end offset of one group; an end of -1 means the group took no part. */
  datatype Span = Span(so: int, eo: int)

  /** What `regexec` fills in: one span per group, an end never before its start. */
  predicate Spans(matches: seq<Span>) {
    && |matches| == MAX_REG_MATCH
    && (forall i :: 0 <= i < MAX_REG_MATCH ==> matches[i].eo == -1 || 0 <= matches[i].so <= matches[i].eo)
  }

  /** Spans that also lie inside the text. */
  predicate InRange(matches: seq<Span>, length: nat) {
    Spans(matches) && forall i :: 0 <= i < MAX_REG_MATCH ==> matches[i].eo <= length
  }

  function Group(data: string, m: Span): string
    requires m.eo == -1 || 0 <= m.so <= m.eo <= |data|
  {
    if m.eo == -1 then "" else data[m.so..m.eo]
  }

  /** Text `t` is the bytes of the data from the group's start up to its end, or empty when it took no part. */
  predicate IsSlice(t: string, data: string, m: Span) {
    if m.eo == -1 then t == ""
    else 0 <= m.so <= m.eo <= |data| && |t| == m.eo - m.so && forall i :: 0 <= i < |t| ==> t[i] == data[m.so + i]
  }

  lemma GroupBytes(data: string, m: Span)
    requires m.eo == -1 || 0 <= m.so <= m.eo <= |data|
    ensures IsSlice(Group(data, m), data, m)
  {
  }

  /** The item names no group past the last one and no bytes past the data. */
  predicate ItemFits(item: Item, data: string, matches: seq<Span>)
    requires Spans(matches)
  {
    item.matchno < MAX_REG_MATCH && (0 <= item.matchno ==> matches[item.matchno].eo <= |data|)
  }

  predicate Fits(items: seq<Item>, data: string, matches: seq<Span>)
    requires Spans(matches)
  {
    forall i :: 0 <= i < |items| ==> ItemFits(items[i], data, matches)
  }

  function ExpandItem(item: Item, data: string, matches: seq<Span>): string
    requires Spans(matches) && ItemFits(item, data, matches)
  {
    if item.matchno < 0 then item.substring else Group(data, matches[item.matchno])
  }

  function Expand(items: seq<Item>, data: string, matches: seq<Span>): string
    requires Spans(matches) && Fits(items, data, matches)
  {
    if items == [] then "" else ExpandItem(items[0], data, matches) + Expand(items[1..], data, matches)
  }

  lemma ExpandCons(item: Item, rest: seq<Item>, data: string, matches: seq<Span>)
    requires Spans(matches) && ItemFits(item, data, matches) && Fits(rest, data, matches)
    ensures Fits([item] + rest, data, matches)
    ensures Expand([item] + rest, data, matches) == ExpandItem(item, data, matches) + Expand(rest, data, matches)
  {
    assert ([item] + rest)[1..] == rest;
  }

  lemma {:induction false} ExpandSnoc(items: seq<Item>, item: Item, data: string, matches: seq<Span>)
    requires Spans(matches) && ItemFits(item, data, matches) && Fits(items, data, matches)
    ensures Fits(items + [item], data, matches)
    ensures Expand(items + [item], data, matches) == Expand(items, data, matches) + ExpandItem(item, data, matches)
  {
    if items == [] {
      ExpandCons(item, [], data, matches);
      assert items + [item] == [item] + [];
    } else {
      var head, tail := items[0], items[1..];
      assert ItemFits(items[0], data, matches);
      ExpandSnoc(tail, item, data, matches);
      ExpandCons(head, tail, data, matches);
      ExpandCons(head, tail + [item], data, matches);
      assert items == [head] + tail && items + [item] == [head] + (tail + [item]);
    }
  }

  // ---- Compile, then expand ----

  /** One left-to-right pass over the replacement string itself, with no item list in between. */
  function Direct(escaped: bool, s: string, data: string, matches: seq<Span>): string
    requires InRange(matches, |data|)
    decreases |s|
  {
    if s == "" then ""
    else if s[0] == '\\' && !escaped then Direct(true, s[1..], data, matches)
    else if escaped || !IsSpecial(s[0]) then [s[0]] + Direct(false, s[1..], data, matches)
    else if s[0] == '\"' then ""
    else if s[0] == '&' then Group(data, matches[0]) + Direct(false, s[1..], data, matches)
    else
      var n := GroupNumber(-1, s[1..]);
      (if 0 <= n < MAX_REG_MATCH then Group(data, matches[n]) else "")
          + Direct(false, AfterDigits(s[1..]), data, matches)
  }

  /** Whenever there is a list, expanding it never fails and gives `text`. */
  predicate Means(list: Option<seq<Item>>, text: string, data: string, matches: seq<Span>)
    requires Spans(matches)
  {
    list.Some? ==> Fits(list.value, data, matches) && Expand(list.value, data, matches) == text
  }

  /** The item list of an accepted replacement string means what the string means. */
  lemma {:induction false} CompileThenExpand(lit: string, escaped: bool, s: string, data: string, matches: seq<Span>)
    requires InRange(matches, |data|)
    ensures Means(Parse(lit, escaped, s), lit + Direct(escaped, s, data, matches), data, matches)
    decreases |s|
  {
    if s != "" {
      var c, tail := s[0], s[1..];
      if c == '\\' && !escaped {
        CompileThenExpand(lit, true, tail, data, matches);
      } else if escaped || !IsSpecial(c) {
        CompileThenExpand(lit + [c], false, tail, data, matches);
        assert lit + [c] + Direct(false, tail, data, matches) == lit + ([c] + Direct(false, tail, data, matches));
      } else if c == '\"' {
        MeansStatic(lit, data, matches);
        assert lit + "" == lit;
      } else {
        var n := if c == '&' then 0 else GroupNumber(-1, tail);
        var after := if c == '&' then tail else AfterDigits(tail);
        if 0 <= n < MAX_REG_MATCH {
          CompileThenExpand("", false, after, data, matches);
          assert "" + Direct(false, after, data, matches) == Direct(false, after, data, matches);
          MeansEntry(lit, n, Parse("", false, after), Direct(false, after, data, matches), data, matches);
        } else {
          GroupNumberRange(tail);
        }
      }
    }
  }

  function Meaning(replaceptn: string, data: string, matches: seq<Span>): string
    requires InRange(matches, |data|)
  {
    if replaceptn == "" then Group(data, matches[0]) else Direct(false, replaceptn[1..], data, matches)
  }

  /** Every accepted replacement: its list never fails on in-range matches and expands to the string's meaning. */
  lemma AcceptedReplacement(replaceptn: string, data: string, matches: seq<Span>)
    requires ReplaceList(replaceptn).Some? && InRange(matches, |data|)
    ensures Fits(ReplaceList(replaceptn).value, data, matches)
    ensures Expand(ReplaceList(replaceptn).value, data, matches) == Meaning(replaceptn, data, matches)
  {
    if replaceptn == "" {
      ExpandCons(Item(0, ""), [], data, matches);
      assert [Item(0, "")] + [] == [Item(0, "")];
    } else {
      CompileThenExpand("", false, replaceptn[1..], data, matches);
      assert "" + Meaning(replaceptn, data, matches) == Meaning(replaceptn, data, matches);
    }
  }

  /** The replacement strings that name just one group. */
  function NamesOf(n: nat): set<string>
    requires n <= 9
  {
    {['\"', '$', '0' + n as char, '\"']} + if n == 0 then {"\"&\"", ""} else {}
  }

  /** "$0" to "$9" mean the bytes of that group, and "&" and an empty replacement those of the whole match. */
  lemma GroupMeaning(n: nat, data: string, matches: seq<Span>)
    requires n <= 9 && InRange(matches, |data|)
    ensures forall r :: r in NamesOf(n) ==>
              ReplaceList(r).Some? && IsSlice(Meaning(r, data, matches), data, matches[n])
  {
    GroupBytes(data, matches[n]);
    NumberMeaning(n, data, matches);
    WholeMeaning(data, matches);
  }

  lemma WholeMeaning(data: string, matches: seq<Span>)
    requires InRange(matches, |data|)
    ensures ReplaceList("\"&\"").Some? && Meaning("\"&\"", data, matches) == Group(data, matches[0])
    ensures ReplaceList("").Some? && Meaning("", data, matches) == Group(data, matches[0])
  {
    assert "\"&\""[1..] == "&\"" && "&\""[1..] == "\"";
    assert Group(data, matches[0]) + "" == Group(data, matches[0]);
    assert Direct(false, "\"", data, matches) == "";
  }

  lemma NumberMeaning(n: nat, data: string, matches: seq<Span>)
    requires n <= 9 && InRange(matches, |data|)
    ensures var replaceptn := ['\"', '$', '0' + n as char, '\"'];
            ReplaceList(replaceptn).Some? && Meaning(replaceptn, data, matches) == Group(data, matches[n])
  {
    var replaceptn := ['\"', '$', '0' + n as char, '\"'];
    var s, digits := replaceptn[1..], replaceptn[2..];
    assert s == ['$', Digit(n)] + "\"" && s[1..] == digits && digits[1..] == "\"";
    ParseGroup("", n, "\"");
    assert DigitRun(digits) == 1 && AfterDigits(digits) == "\"";
    GroupNumberRange(digits);
    assert Direct(false, "\"", data, matches) == "";
    assert Group(data, matches[n]) + "" == Group(data, matches[n]);
  }

  /** Text without '\\', '"', '&' and '$' means itself, and so does any text with a backslash before each byte. */
  lemma TextMeaning(text: string, data: string, matches: seq<Span>)
    requires InRange(matches, |data|)
    ensures (forall c :: c in text ==> c != '\\' && c != '\"' && c != '&' && c != '$') ==>
              Meaning(['\"'] + text + ['\"'], data, matches) == text
    ensures Meaning(['\"'] + Escape(text) + ['\"'], data, matches) == text
  {
    var end := ['\"'];
    assert Direct(false, end, data, matches) == "" && text + "" == text;
    assert (['\"'] + text + end)[1..] == text + end && (['\"'] + Escape(text) + end)[1..] == Escape(text) + end;
    if forall c :: c in text ==> c != '\\' && c != '\"' && c != '&' && c != '$' {
      DirectText(text, end, data, matches);
    }
    DirectEscape(text, end, data, matches);
  }

  lemma {:induction false} DirectText(text: string, s: string, data: string, matches: seq<Span>)
    requires InRange(matches, |data|)
    requires forall c :: c in text ==> c != '\\' && c != '\"' && c != '&' && c != '$'
    ensures Direct(false, text + s, data, matches) == text + Direct(false, s, data, matches)
    decreases |text|
  {
    if text == "" {
      assert text + s == s;
    } else {
      DropOfAppend(text, s, 1);
      assert text[0] in text && forall c :: c in text[1..] ==> c in text;
      DirectText(text[1..], s, data, matches);
      assert [text[0]] + text[1..] == text;
    }
  }

  lemma {:induction false} DirectEscape(text: string, s: string, data: string, matches: seq<Span>)
    requires InRange(matches, |data|)
    ensures Direct(false, Escape(text) + s, data, matches) == text + Direct(false, s, data, matches)
    decreases |text|
  {
    if text == "" {
      assert Escape(text) + s == s;
    } else {
      var tail := Escape(text[1..]) + s;
      assert Escape(text) + s == ['\\', text[0]] + tail;
      EscapedByte(text[0], tail, data, matches);
      DirectEscape(text[1..], s, data, matches);
      AppendAssoc([text[0]], text[1..], Direct(false, s, data, matches));
      assert [text[0]] + text[1..] == text;
    }
  }

  lemma EscapedByte(c: char, s: string, data: string, matches: seq<Span>)
    requires InRange(matches, |data|)
    ensures Direct(false, ['\\', c] + s, data, matches) == [c] + Direct(false, s, data, matches)
  {
    var all := ['\\', c] + s;
    assert all[1..] == [c] + s && all[1..][1..] == s;
  }

  lemma MeansStatic(lit: string, data: string, matches: seq<Span>)
    requires Spans(matches)
    ensures Means(Some(Static(lit)), lit, data, matches)
  {
    if lit != "" {
      ExpandCons(Item(-1, lit), [], data, matches);
      assert Static(lit) == [Item(-1, lit)] + [];
    }
  }

  lemma MeansEntry(lit: string, n: int, list: Option<seq<Item>>, text: string, data: string, matches: seq<Span>)
    requires 0 <= n < MAX_REG_MATCH && InRange(matches, |data|) && Means(list, text, data, matches)
    ensures Means(Join(Static(lit) + [Item(n, "")], list), lit + (Group(data, matches[n]) + text), data, matches)
  {
    if list.Some? {
      var group := Item(n, "");
      ExpandCons(group, list.value, data, matches);
      if lit == "" {
        assert Static(lit) + [group] + list.value == [group] + list.value;
      } else {
        ExpandCons(Item(-1, lit), [group] + list.value, data, matches);
        assert Static(lit) + [group] + list.value == [Item(-1, lit)] + ([group] + list.value);
      }
    }
  }

  // ---- The line ending ----

  /** The memory around a line, by offset from its start. The program reads there in two places. */
  type Memory = int -> char

  function At(line: string, mem: Memory, i: int): char {
    if 0 <= i < |line| then line[i] else mem(i)
  }

  /** How many of `n` bytes from the start of the line are left when the NULs before offset `n` are cut off. */
  function Kept(line: string, mem: Memory, n: nat): (k: nat)
    ensures k <= n && (forall i :: k <= i < n ==> At(line, mem, i) == '\0')
    ensures k > 0 ==> At(line, mem, k - 1) != '\0'
  {
    if n > 0 && At(line, mem, n - 1) == '\0' then Kept(line, mem, n - 1) else n
  }

  /** The line's own ending, '\n' when it has none. */
  function Ending(line: string, mem: Memory): string {
    var k := Kept(line, mem, |line|);
    if k == 0 || line[k - 1] != '\r' then "\n"
    else if 2 < |line| && At(line, mem, k - 2) == '\n' then "\r\n"
    else "\r"
  }

  /** Replaced line: the expansion, cut where the LINE has NULs just before the same offset, then the ending. */
  function Finish(expansion: string, line: string, mem: Memory): string {
    expansion[..Kept(line, mem, |expansion|)] + Ending(line, mem) + ['\0']
  }

  /** The program looks at the byte before a final '\r' in every line of more than two bytes; here there is one. */
  predicate EndReadable(line: string) {
    2 < |line| && line[0] == '\r' ==> exists i :: 0 < i < |line| && line[i] != '\0'
  }

  /** A text-mode line gets back the break byte it had, and '\n' when it had none. */
  lemma EndingOfStackLine(line: string, mem: Memory)
    requires IsStackLine(line)
    ensures EndReadable(line)
    ensures Ending(line, mem) == if 2 <= |line| && line[|line| - 2] == '\r' then "\r" else "\n"
  {
    assert Kept(line, mem, |line|) == |line| - 1;
    if 2 < |line| {
      assert line[|line| - 2] != '\0';
    }
  }

  /** The cut leaves the expansion whole iff the line has no NUL just before the same offset. */
  lemma FinishKeepsExpansion(expansion: string, line: string, mem: Memory)
    ensures Finish(expansion, line, mem) == expansion + Ending(line, mem) + ['\0'] <==>
              expansion == "" || At(line, mem, |expansion| - 1) != '\0'
  {
    var k := Kept(line, mem, |expansion|);
    assert expansion[..|expansion|] == expansion;
    assert |Finish(expansion, line, mem)| == k + |Ending(line, mem)| + 1;
  }

  /** The result is the same whatever lies around the line iff the expansion is not longer than the line and
      the byte before a final '\r' is in it. */
  lemma DefinedIff(expansion: string, line: string)
    ensures (forall a, b :: Finish(expansion, line, a) == Finish(expansion, line, b)) <==>
              |expansion| <= |line| && EndReadable(line)
  {
    if |expansion| <= |line| && EndReadable(line) {
      forall a, b
        ensures Finish(expansion, line, a) == Finish(expansion, line, b)
      {
        KeptInside(line, a, b, |expansion|);
        KeptInside(line, a, b, |line|);
        EndingInside(line, a, b);
      }
    } else {
      var a, b := OutsideMatters(expansion, line);
    }
  }

  lemma {:induction false} KeptInside(line: string, a: Memory, b: Memory, n: nat)
    requires n <= |line|
    ensures Kept(line, a, n) == Kept(line, b, n)
  {
    if n > 0 {
      KeptInside(line, a, b, n - 1);
    }
  }

  lemma EndingInside(line: string, a: Memory, b: Memory)
    requires EndReadable(line)
    ensures Ending(line, a) == Ending(line, b)
  {
    KeptInside(line, a, b, |line|);
    if 2 < |line| && line[0] == '\r' {
      var i :| 0 < i < |line| && line[i] != '\0';
      KeptMore(line, a, i);
    }
  }

  lemma KeptMore(line: string, mem: Memory, i: nat)
    requires i < |line| && line[i] != '\0'
    ensures Kept(line, mem, |line|) > i
  {
    assert At(line, mem, i) == line[i];
  }

  /** Otherwise two memories give results of different lengths. */
  lemma OutsideMatters(expansion: string, line: string) returns (a: Memory, b: Memory)
    requires !(|expansion| <= |line| && EndReadable(line))
    ensures |Finish(expansion, line, a)| != |Finish(expansion, line, b)|
  {
    KeptFirst(line);
    if |expansion| <= |line| {
      a, b := _ => '\n', _ => 'x';
      KeptInside(line, a, b, |expansion|);
    } else {
      a, b := _ => '\0', _ => 'x';
      KeptInside(line, a, b, |line|);
      assert At(line, a, |expansion| - 1) == '\0' && At(line, b, |expansion| - 1) == 'x';
    }
    assert |Finish(expansion, line, a)| == Kept(line, a, |expansion|) + |Ending(line, a)| + 1;
    assert |Finish(expansion, line, b)| == Kept(line, b, |expansion|) + |Ending(line, b)| + 1;
  }

  lemma KeptFirst(line: string)
    ensures !EndReadable(line) ==> forall mem :: Kept(line, mem, |line|) == 1
  {
    if !EndReadable(line) {
      forall mem: Memory
        ensures Kept(line, mem, |line|) == 1
      {
        KeptMore(line, mem, 0);
      }
    }
  }

  /** The whole replacement of a text-mode line: the meaning of an accepted replacement string, the line's own
      break byte and a NUL, iff the memory at the meaning's last offset in the line is not a NUL. That holds of
      every meaning shorter than the line and of none just as long: it loses its last byte. */
  lemma ReplacedLine(replaceptn: string, line: string, matches: seq<Span>, mem: Memory)
    requires ReplaceList(replaceptn).Some? && InRange(matches, |line|) && IsStackLine(line)
    ensures var list, meaning := ReplaceList(replaceptn).value, Meaning(replaceptn, line, matches);
            && Fits(list, line, matches)
            && (Finish(Expand(list, line, matches), line, mem)
                  == meaning + (if 2 <= |line| && line[|line| - 2] == '\r' then "\r" else "\n") + ['\0']
                <==> meaning == "" || At(line, mem, |meaning| - 1) != '\0')
            && (|meaning| < |line| ==> meaning == "" || At(line, mem, |meaning| - 1) != '\0')
            && (|meaning| == |line| ==>
                  At(line, mem, |meaning| - 1) == '\0' && Kept(line, mem, |meaning|) == |meaning| - 1)
  {
    AcceptedReplacement(replaceptn, line, matches);
    EndingOfStackLine(line, mem);
    FinishKeepsExpansion(Expand(ReplaceList(replaceptn).value, line, matches), line, mem);
    assert Kept(line, mem, |line|) == |line| - 1;
  }

  /** An input that loses a byte: the line "ab" and the replacement "wxyz". */
  lemma ReplacementLosesByte(matches: seq<Span>, mem: Memory)
    requires InRange(matches, 4)
    ensures ReplaceList("\"wxyz\"") == Some([Item(-1, "wxyz")])
    ensures Finish(Expand([Item(-1, "wxyz")], "ab\n\0", matches), "ab\n\0", mem) == "wxy\n\0"
  {
    WordIsText();
    var line, list := "ab\n\0", [Item(-1, "wxyz")];
    assert list == [Item(-1, "wxyz")] + [];
    ExpandCons(Item(-1, "wxyz"), [], line, matches);
    assert IsStackLine(line);
    EndingOfStackLine(line, mem);
    assert Kept(line, mem, 4) == 3;
    assert "wxyz"[..3] == "wxy";
  }

  lemma WordIsText()
    ensures ReplaceList("\"wxyz\"") == Some([Item(-1, "wxyz")])
  {
    ParseText("", "wxyz", "\"");
    assert "\"wxyz\""[1..] == "wxyz" + "\"" && "" + "wxyz" == "wxyz";
  }

  lemma {:induction false} ParseText(lit: string, text: string, s: string)
    requires forall c :: c in text ==> c != '\\' && !IsSpecial(c)
    ensures Parse(lit, false, text + s) == Parse(lit + text, false, s)
    decreases |text|
  {
    if text == "" {
      assert text + s == s && lit + text == lit;
    } else {
      DropOfAppend(text, s, 1);
      assert text[0] in text && forall c :: c in text[1..] ==> c in text;
      ParseText(lit + [text[0]], text[1..], s);
      assert lit + [text[0]] + text[1..] == lit + text;
    }
  }

  // ---- The growing-buffer loop ----

  class Target {
    var buf: array<char>
    var offset: nat

    ghost predicate Valid()
      reads this, buf
    {
      offset <= buf.Length
    }

    ghost function Written(): string
      reads this, buf
      requires Valid()
    {
      buf[..offset]
    }

    constructor (size: nat)
      ensures Valid() && fresh(buf) && Written() == ""
    {
      buf := new char[size];
      offset := 0;
    }

    /** Room for `extra` more bytes; the block moves only when it is too small. */
    method Ensure(extra: nat)
      requires Valid()
      modifies this
      ensures Valid() && Written() == old(Written()) && offset == old(offset)
      ensures offset + extra <= buf.Length && (buf != old(buf) ==> fresh(buf))
    {
      if buf.Length < offset + extra {
        buf := Realloc(buf, offset + extra);
      }
    }

    method Append(bytes: string)
      requires Valid()
      modifies this, buf
      ensures Valid() && Written() == old(Written()) + bytes
      ensures buf != old(buf) ==> fresh(buf)
    {
      Ensure(|bytes|);
      Memcpy(buf, offset, bytes);
      offset := offset + |bytes|;
    }

    /** append_substring: nothing for a group without a match, an error for offsets past the data. */
    method AppendSubstring(data: string, m: Span) returns (ok: bool)
      requires Valid()
      requires m.eo == -1 || 0 <= m.so <= m.eo
      modifies this, buf
      ensures Valid() && (buf != old(buf) ==> fresh(buf))
      ensures ok <==> m.eo <= |data|
      ensures Written() == old(Written()) + if ok then Group(data, m) else ""
      ensures ok ==> old(Written()) <= Written() && IsSlice(Written()[|old(Written())|..], data, m)
    {
      if m.eo == -1 {
        assert Written() == Written() + "";
        return true;
      }
      if |data| < m.so || |data| < m.eo {
        assert Written() == Written() + "";
        return false;
      }
      Append(data[m.so..m.eo]);
      return true;
    }

    /** One turn of the loop; an item that does not fit is an error. */
    method AppendItem(item: Item, line: string, matches: seq<Span>) returns (ok: bool)
      requires Valid() && Spans(matches)
      modifies this, buf
      ensures Valid() && (buf != old(buf) ==> fresh(buf))
      ensures ok <==> ItemFits(item, line, matches)
      ensures ok ==> Written() == old(Written()) + ExpandItem(item, line, matches)
    {
      if MAX_REG_MATCH <= item.matchno {
        return false;
      }
      if item.matchno < 0 {
        ok := AppendSubstring(item.substring, Span(0, |item.substring|));
      } else {
        ok := AppendSubstring(line, matches[item.matchno]);
      }
    }

    /** append_lastword. The second scan looks at the line's bytes, not at the target's. */
    method AppendLastWord(line: string, mem: Memory)
      requires Valid()
      modifies this, buf
      ensures Valid() && (buf != old(buf) ==> fresh(buf))
      ensures Written() == Finish(old(Written()), line, mem)
    {
      var last := LastWords(line, mem);
      ghost var expansion := Written();
      var k := ScanNul(line, mem, offset);
      offset := if offset < k then 0 else offset - (k - 1);
      assert Written() == expansion[..offset];
      Append(last + ['\0']);
      AppendAssoc(expansion[..Kept(line, mem, |expansion|)], last, ['\0']);
    }
  }

  /** The loop that steps back over NULs from `length`; `k - 1` of them are there. */
  method ScanNul(line: string, mem: Memory, length: nat) returns (k: nat)
    ensures 1 <= k <= length + 1 && Kept(line, mem, length) == length - (k - 1)
  {
    k := 1;
    while k <= length && At(line, mem, length - k) == '\0'
      invariant 1 <= k <= length + 1
      invariant Kept(line, mem, length) == Kept(line, mem, length - (k - 1))
    {
      k := k + 1;
    }
  }

  /** The words that will end the replaced line. */
  method LastWords(line: string, mem: Memory) returns (last: string)
    ensures last == Ending(line, mem)
  {
    var k := ScanNul(line, mem, |line|);
    last := "\n";
    if k <= |line| && line[|line| - k] == '\r' {
      last := if 2 < |line| && At(line, mem, |line| - k - 1) == '\n' then "\r\n" else "\r";
    }
  }

  /** build_replace_result_data: the loop writes the expansion, then the ending; an item that does not
      fit is an error. */
  method BuildReplaceResult(items: seq<Item>, line: string, matches: seq<Span>, mem: Memory)
    returns (result: Option<string>)
    requires Spans(matches)
    ensures result == if Fits(items, line, matches) then Some(Finish(Expand(items, line, matches), line, mem)) else None
  {
    var target := new Target(|line| * 2);
    for i := 0 to |items|
      invariant fresh(target) && fresh(target.buf) && target.Valid()
      invariant Fits(items[..i], line, matches) && target.Written() == Expand(items[..i], line, matches)
    {
      var ok := target.AppendItem(items[i], line, matches);
      if !ok {
        return None;
      }
      ExpandSnoc(items[..i], items[i], line, matches);
      assert items[..i + 1] == items[..i] + [items[i]];
    }
    assert items[..|items|] == items;
    target.AppendLastWord(line, mem);
    result := Some(target.buf[..target.offset]);
  }
}
