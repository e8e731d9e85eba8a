/** The allow/deny and rewrite decision of one rule on one line. */
module Rules {
  import opened Bytes
  import opened ReplaceParse
  import opened ReplaceExpand

  /** K2HFTMATCHPTN. The compiled regular expression is a function of its source text. */
  datatype MatchPattern = MatchPattern(isRegex: bool, baseString: string, replaceList: seq<Item>)

  /** The part of a rule that decides about lines. */
  datatype Acl = Acl(defaultDenyAll: bool, matchingList: seq<MatchPattern>)

  /** `regexec` on a pattern source and a C string: the spans of a match, if any. */
  type Regexec = (string, string) -> Option<seq<Span>>

  ghost predicate GoodRegexec(regexec: Regexec) {
    forall p, t :: regexec(p, t).Some? ==> InRange(regexec(p, t).value, |t|)
  }

  /** `strstr` */
  predicate Contains(text: string, word: string) {
    exists i :: 0 <= i <= |text| - |word| && IsAt(text, i, word)
  }

  predicate IsAt(text: string, i: nat, word: string)
    requires i + |word| <= |text|
  {
    text[i..i + |word|] == word
  }

  /** A pattern is a plain word, or a quoted regular expression that compiles with a replacement that parses. */
  predicate IsPattern(p: MatchPattern, compptn: string, replaceptn: string, compiles: string -> bool) {
    if p.isRegex then
      && compptn == ['\"'] + p.baseString + ['\"'] && p.baseString != "" && compiles(p.baseString)
      && ReplaceList(replaceptn) == Some(p.replaceList)
    else
      compptn == p.baseString && compptn != "" && compptn[0] != '\"' && p.replaceList == []
  }

  /** Accepts exactly the entries that are a pattern, and gives that pattern; its replacement never names a
      group out of range. */
  method BuildMatchPattern(compptn: string, replaceptn: string, compiles: string -> bool)
    returns (r: Option<MatchPattern>)
    requires '\0' !in compptn && '\0' !in replaceptn
    ensures forall p :: r == Some(p) <==> IsPattern(p, compptn, replaceptn, compiles)
    ensures r.Some? ==> Canonical(r.value.replaceList)
  {
    if compptn == "" {
      return None;
    }
    if compptn[0] != '\"' {
      return Some(MatchPattern(false, compptn, []));
    }
    if |compptn| < 3 || compptn[|compptn| - 1] != '\"' {
      return None;
    }
    var tmp := compptn[1..];
    var base := tmp[..|tmp| - 1];
    QuotedBase(compptn, base);
    if !compiles(base) {
      return None;
    }
    var list := BuildReplaceList(replaceptn);
    if list.None? {
      return None;
    }
    ListIsCanonical(replaceptn);
    return Some(MatchPattern(true, base, list.value));
  }

  lemma QuotedBase(compptn: string, base: string)
    requires |compptn| >= 3 && compptn[0] == '\"' == compptn[|compptn| - 1] && base == compptn[1..][..|compptn| - 2]
    ensures forall s: string :: compptn == ['\"'] + s + ['\"'] <==> s == base
  {
    assert compptn == ['\"'] + base + ['\"'];
    forall s: string | compptn == ['\"'] + s + ['\"']
      ensures s == base
    {
      assert (['\"'] + s + ['\"'])[1..|s| + 1] == s;
    }
  }

  lemma ListIsCanonical(replaceptn: string)
    requires '\0' !in replaceptn
    ensures ReplaceList(replaceptn).Some? ==> Canonical(ReplaceList(replaceptn).value)
  {
    if replaceptn == "" {
      assert IsItem(Item(0, ""));
    } else {
      ParseIsCanonical("", false, replaceptn[1..]);
    }
  }

  predicate Hits(p: MatchPattern, line: string, regexec: Regexec) {
    if p.isRegex then regexec(p.baseString, CString(line)).Some?
    else p.baseString == "" || Contains(CString(line), p.baseString)
  }

  /** The first pattern that hits, or the length of the list. */
  function FirstHit(list: seq<MatchPattern>, line: string, regexec: Regexec): (k: nat)
    ensures k <= |list| && (forall i :: 0 <= i < k ==> !Hits(list[i], line, regexec))
    ensures k < |list| ==> Hits(list[k], line, regexec)
  {
    if list == [] || Hits(list[0], line, regexec) then 0
    else
      var k := FirstHit(list[1..], line, regexec);
      assert forall i :: 0 < i < 1 + k ==> list[i] == list[1..][i - 1];
      1 + k
  }

  lemma CStringInside(line: string, matches: seq<Span>)
    requires InRange(matches, |CString(line)|)
    ensures InRange(matches, |line|)
  {
  }

  /** No expansion that is used outgrows its line, and the line's end can be read. */
  ghost predicate Defined(acl: Acl, line: string, regexec: Regexec)
    requires GoodRegexec(regexec)
  {
    var k := FirstHit(acl.matchingList, line, regexec);
    acl.defaultDenyAll && k < |acl.matchingList| && acl.matchingList[k].isRegex ==>
      var matches := regexec(acl.matchingList[k].baseString, CString(line)).value;
      Fits(acl.matchingList[k].replaceList, line, matches) ==>
        |Expand(acl.matchingList[k].replaceList, line, matches)| <= |line| && EndReadable(line)
  }

  /** None: the line is dropped. Deny-all rules pass or rewrite by their first hit; allow-all rules
      drop on any hit and never rewrite. */
  ghost function Convert(acl: Acl, line: string, regexec: Regexec, mem: Memory): Option<string>
    requires GoodRegexec(regexec)
  {
    var k := FirstHit(acl.matchingList, line, regexec);
    if !acl.defaultDenyAll then
      if k < |acl.matchingList| then None else Some(line)
    else if k == |acl.matchingList| then None
    else if !acl.matchingList[k].isRegex then Some(line)
    else
      var list := acl.matchingList[k].replaceList;
      var matches := regexec(acl.matchingList[k].baseString, CString(line)).value;
      if Fits(list, line, matches) then Some(Finish(Expand(list, line, matches), line, mem)) else None
  }

  /** convert_to_output: two loops with early exit. */
  method ConvertToOutput(acl: Acl, line: string, regexec: Regexec, mem: Memory) returns (r: Option<string>)
    requires GoodRegexec(regexec)
    ensures r == Convert(acl, line, regexec, mem)
  {
    var list := acl.matchingList;
    if acl.defaultDenyAll {
      for i := 0 to |list|
        invariant forall j :: 0 <= j < i ==> !Hits(list[j], line, regexec)
      {
        if list[i].isRegex {
          var matches := regexec(list[i].baseString, CString(line));
          if matches.Some? {
            assert i == FirstHit(list, line, regexec);
            CStringInside(line, matches.value);
            r := BuildReplaceResult(list[i].replaceList, line, matches.value, mem);
            return;
          }
        } else if list[i].baseString == "" || Contains(CString(line), list[i].baseString) {
          assert i == FirstHit(list, line, regexec);
          return Some(line);
        }
      }
      return None;
    }
    for i := 0 to |list|
      invariant forall j :: 0 <= j < i ==> !Hits(list[j], line, regexec)
    {
      if list[i].isRegex {
        if regexec(list[i].baseString, CString(line)).Some? {
          return None;
        }
      } else if list[i].baseString == "" || Contains(CString(line), list[i].baseString) {
        return None;
      }
    }
    return Some(line);
  }

  /** The decision is the same whatever lies in memory around the line iff it is defined. */
  lemma ConvertDefinedIff(acl: Acl, line: string, regexec: Regexec)
    requires GoodRegexec(regexec)
    ensures (forall a, b :: Convert(acl, line, regexec, a) == Convert(acl, line, regexec, b)) <==>
              Defined(acl, line, regexec)
  {
    var k := FirstHit(acl.matchingList, line, regexec);
    if acl.defaultDenyAll && k < |acl.matchingList| && acl.matchingList[k].isRegex {
      var list := acl.matchingList[k].replaceList;
      var matches := regexec(acl.matchingList[k].baseString, CString(line)).value;
      if Fits(list, line, matches) {
        var e := Expand(list, line, matches);
        DefinedIff(e, line);
        forall a, b
          ensures Convert(acl, line, regexec, a) == Convert(acl, line, regexec, b) <==>
                    Finish(e, line, a) == Finish(e, line, b)
        {
        }
      }
    }
  }

  /** A line that passes is never empty, and one that passes an allow-all rule is untouched; a pattern
      built from an accepted replacement never turns its match into a drop. */
  lemma ConvertShape(acl: Acl, line: string, regexec: Regexec, mem: Memory)
    requires GoodRegexec(regexec) && line != ""
    ensures Convert(acl, line, regexec, mem).Some? ==> Convert(acl, line, regexec, mem).value != ""
    ensures !acl.defaultDenyAll ==>
              (Convert(acl, line, regexec, mem) == Some(line) <==>
                 forall p :: p in acl.matchingList ==> !Hits(p, line, regexec))
    ensures acl.defaultDenyAll && (forall p :: p in acl.matchingList && p.isRegex ==> Canonical(p.replaceList)) ==>
              (Convert(acl, line, regexec, mem).None? <==>
                 forall p :: p in acl.matchingList ==> !Hits(p, line, regexec))
  {
    var k := FirstHit(acl.matchingList, line, regexec);
    if k < |acl.matchingList| {
      var p := acl.matchingList[k];
      assert p in acl.matchingList && Hits(p, line, regexec);
      if p.isRegex && Canonical(p.replaceList) {
        var matches := regexec(p.baseString, CString(line)).value;
        CStringInside(line, matches);
        CanonicalFits(p.replaceList, line, matches);
      }
    }
  }

  lemma CanonicalFits(items: seq<Item>, line: string, matches: seq<Span>)
    requires Canonical(items) && InRange(matches, |line|)
    ensures Fits(items, line, matches)
  {
    forall i | 0 <= i < |items|
      ensures ItemFits(items[i], line, matches)
    {
      assert IsItem(items[i]);
    }
  }

  // ---- What a rule does, told of words and matches ----

  /** The word stands somewhere in the text. */
  ghost predicate Occurs(text: string, word: string) {
    exists a, b :: Around(text, a, word, b)
  }

  predicate Around(text: string, a: string, word: string, b: string) {
    text == a + word + b
  }

  lemma ContainsIff(text: string, word: string)
    ensures Contains(text, word) <==> Occurs(text, word)
  {
    if Contains(text, word) {
      var i :| 0 <= i <= |text| - |word| && IsAt(text, i, word);
      assert Around(text, text[..i], word, text[i + |word|..]);
    }
    if Occurs(text, word) {
      var a, b :| Around(text, a, word, b);
      assert text[|a|..|a| + |word|] == word;
      assert IsAt(text, |a|, word);
    }
  }

  /** A word hits the lines in which it occurs; a regular expression those on which matching gives spans. */
  lemma HitsIff(p: MatchPattern, line: string, regexec: Regexec)
    ensures Hits(p, line, regexec) <==>
              if p.isRegex then regexec(p.baseString, CString(line)) != None else Occurs(CString(line), p.baseString)
  {
    ContainsIff(CString(line), p.baseString);
    if p.baseString == "" {
      assert Around(CString(line), CString(line), "", "");
    }
  }

  /** A rule of one word: allow-all drops exactly the lines in which it occurs, deny-all drops all others. */
  lemma OneWord(word: string, line: string, regexec: Regexec, mem: Memory)
    requires GoodRegexec(regexec)
    ensures var list := [MatchPattern(false, word, [])];
            && Convert(Acl(false, list), line, regexec, mem) == (if Occurs(CString(line), word) then None
                else Some(line))
            && Convert(Acl(true, list), line, regexec, mem) == (if Occurs(CString(line), word) then Some(line)
                else None)
  {
    HitsIff(MatchPattern(false, word, []), line, regexec);
  }

  /** A rule of one regular expression: allow-all drops exactly the lines on which it matches, deny-all the
      others, and rewrites a matching line with a parsed replacement. */
  lemma OneRegex(p: MatchPattern, line: string, regexec: Regexec, mem: Memory)
    requires GoodRegexec(regexec) && p.isRegex && Canonical(p.replaceList)
    ensures var matches := regexec(p.baseString, CString(line));
            && Convert(Acl(false, [p]), line, regexec, mem) == (if matches.Some? then None else Some(line))
            && (Convert(Acl(true, [p]), line, regexec, mem).None? <==> matches.None?)
            && (matches.Some? ==>
                  && Fits(p.replaceList, line, matches.value)
                  && Convert(Acl(true, [p]), line, regexec, mem)
                       == Some(Finish(Expand(p.replaceList, line, matches.value), line, mem)))
  {
    HitsIff(p, line, regexec);
    var matches := regexec(p.baseString, CString(line));
    if matches.Some? {
      CStringInside(line, matches.value);
      CanonicalFits(p.replaceList, line, matches.value);
    }
  }
}
