/** Whole histories on a handle with a rule: which lines are stacked, and as what. */
module RuleHistory {
  import opened Bytes
  import opened Splitter
  import opened Wire
  import opened PushSpec
  import opened History
  import opened ReplaceParse
  import opened ReplaceExpand
  import opened Rules
  import opened EndToEnd

  /** The handle's conversion is its rule's decision, wherever the program defines one. */
  ghost predicate Follows(par: Params, acl: Acl, regexec: Regexec)
    requires GoodRegexec(regexec)
  {
    forall l, mem :: Defined(acl, l, regexec) ==> par.convert(l) == Convert(acl, l, regexec, mem)
  }

  predicate Passes(par: Params, acl: Acl, line: string, regexec: Regexec) {
    && (forall i :: 0 <= i < |acl.matchingList| ==> !Hits(acl.matchingList[i], line, regexec))
    && (par.lineLimit == 0 || |line| <= par.lineLimit)
  }

  function Passing(par: Params, acl: Acl, lines: seq<string>, regexec: Regexec): seq<string> {
    if lines == [] then []
    else (if Passes(par, acl, lines[0], regexec) then [lines[0]] else []) + Passing(par, acl, lines[1..], regexec)
  }

  lemma {:induction false} AcceptPassing(par: Params, acl: Acl, lines: seq<string>, regexec: Regexec)
    requires GoodRegexec(regexec) && Follows(par, acl, regexec) && !acl.defaultDenyAll
    requires forall l :: l in lines ==> l != ""
    ensures AcceptAll(par, lines) == Passing(par, acl, lines, regexec)
  {
    if lines != [] {
      assert lines[0] in lines && forall l :: l in lines[1..] ==> l in lines;
      AcceptPassing(par, acl, lines[1..], regexec);
      assert Defined(acl, lines[0], regexec);
      assert par.convert(lines[0]) == Convert(acl, lines[0], regexec, _ => '\0');
    }
  }

  /** Under an allow-all rule the stacked lines of a process are its own lines, untouched and in order,
      without those that a pattern hits and those over the byte limit. */
  lemma AllowAllHistory(par: Params, acl: Acl, regexec: Regexec, events: seq<Event>, pid: Pid)
    requires ValidParams(par) && !par.binary && GoodRegexec(regexec) && Follows(par, acl, regexec)
              && !acl.defaultDenyAll
    ensures OfPid(Run(par, EMPTY, events).stack, pid)
              == Passing(par, acl, RunPid(par, "", ChunksOf(events, pid)).lines, regexec)
  {
    PerPidIsolation(par, EMPTY, events, pid);
    RunPidLines(par, "", ChunksOf(events, pid));
    var lines := RunPid(par, "", ChunksOf(events, pid)).lines;
    AcceptPassing(par, acl, lines, regexec);
    assert [] + AcceptAll(par, lines) == AcceptAll(par, lines);
  }

  // ---- A deny-all rule ----

  /** A comparison pattern and its replacement, as the configuration gives them. */
  datatype AclEntry = AclEntry(compptn: string, replaceptn: string)

  /** Every pattern of the rule was built from its entry. */
  predicate BuiltFrom(acl: Acl, entries: seq<AclEntry>, compiles: string -> bool) {
    && |entries| == |acl.matchingList|
    && (forall i :: 0 <= i < |entries| ==> IsPattern(acl.matchingList[i], entries[i].compptn, entries[i].replaceptn,
        compiles))
  }

  function OwnBreak(line: string): string {
    if 2 <= |line| && line[|line| - 2] == '\r' then "\r" else "\n"
  }

  lemma MatchInside(pattern: string, line: string, regexec: Regexec)
    requires GoodRegexec(regexec) && regexec(pattern, CString(line)).Some?
    ensures InRange(regexec(pattern, CString(line)).value, |line|)
  {
    CStringInside(line, regexec(pattern, CString(line)).value);
  }

  /** What a regular-expression entry makes of a line that it hits: the meaning of its replacement with the
      line's own break byte; a meaning as long as the line loses its last byte. */
  ghost function Replaced(replaceptn: string, pattern: string, line: string, regexec: Regexec): string
    requires GoodRegexec(regexec) && regexec(pattern, CString(line)).Some? && line != ""
  {
    MatchInside(pattern, line, regexec);
    var meaning := Meaning(replaceptn, line, regexec(pattern, CString(line)).value);
    (if |meaning| < |line| then meaning else meaning[..|line| - 1]) + OwnBreak(line) + ['\0']
  }

  /** What the configured entries say about a line: dropped without a hit, else by the first hit untouched by a
      word and replaced by a regular expression. */
  ghost function Rewritten(acl: Acl, entries: seq<AclEntry>, line: string, regexec: Regexec): Option<string>
    requires GoodRegexec(regexec) && |entries| == |acl.matchingList| && line != ""
  {
    var k := FirstHit(acl.matchingList, line, regexec);
    if k == |entries| then None
    else if !acl.matchingList[k].isRegex then Some(line)
    else Some(Replaced(entries[k].replaceptn, acl.matchingList[k].baseString, line, regexec))
  }

  /** The rule's decision is what its entries say. */
  lemma ConvertIsRewritten(acl: Acl, entries: seq<AclEntry>, compiles: string -> bool, line: string,
                           regexec: Regexec, mem: Memory)
    requires GoodRegexec(regexec) && acl.defaultDenyAll && BuiltFrom(acl, entries, compiles)
    requires IsStackLine(line) && Defined(acl, line, regexec)
    ensures Convert(acl, line, regexec, mem) == Rewritten(acl, entries, line, regexec)
  {
    var k := FirstHit(acl.matchingList, line, regexec);
    if k < |entries| && acl.matchingList[k].isRegex {
      var pattern, replaceptn := acl.matchingList[k].baseString, entries[k].replaceptn;
      assert IsPattern(acl.matchingList[k], entries[k].compptn, replaceptn, compiles);
      MatchInside(pattern, line, regexec);
      FinishedMeaning(replaceptn, line, regexec(pattern, CString(line)).value, mem);
    }
  }

  lemma FinishedMeaning(replaceptn: string, line: string, matches: seq<Span>, mem: Memory)
    requires ReplaceList(replaceptn).Some? && InRange(matches, |line|) && IsStackLine(line)
    ensures var list, meaning := ReplaceList(replaceptn).value, Meaning(replaceptn, line, matches);
            && Fits(list, line, matches) && Expand(list, line, matches) == meaning
            && (|meaning| <= |line| ==>
                  Finish(meaning, line, mem)
                    == (if |meaning| < |line| then meaning else meaning[..|line| - 1]) + OwnBreak(line) + ['\0'])
  {
    AcceptedReplacement(replaceptn, line, matches);
    ReplacedLine(replaceptn, line, matches, mem);
    EndingOfStackLine(line, mem);
  }

  /** The lines that are stacked for these: what the entries say, within the byte limit. */
  ghost function Rewrites(par: Params, acl: Acl, entries: seq<AclEntry>, lines: seq<string>,
                          regexec: Regexec): seq<string>
    requires GoodRegexec(regexec) && |entries| == |acl.matchingList| && "" !in lines
  {
    if lines == [] then []
    else
      assert lines[0] in lines && forall l :: l in lines[1..] ==> l in lines;
      Within(par, Rewritten(acl, entries, lines[0], regexec)) + Rewrites(par, acl, entries, lines[1..], regexec)
  }

  function Within(par: Params, text: Option<string>): seq<string> {
    if text.Some? && (par.lineLimit == 0 || |text.value| <= par.lineLimit) then [text.value] else []
  }

  lemma {:induction false} AcceptRewrites(par: Params, acl: Acl, entries: seq<AclEntry>, compiles: string -> bool,
                                          lines: seq<string>, regexec: Regexec)
    requires GoodRegexec(regexec) && Follows(par, acl, regexec) && acl.defaultDenyAll
              && BuiltFrom(acl, entries, compiles)
    requires "" !in lines && forall l :: l in lines ==> IsStackLine(l) && Defined(acl, l, regexec)
    ensures AcceptAll(par, lines) == Rewrites(par, acl, entries, lines, regexec)
  {
    if lines != [] {
      assert lines[0] in lines && forall l :: l in lines[1..] ==> l in lines;
      AcceptRewrites(par, acl, entries, compiles, lines[1..], regexec);
      AcceptOne(par, acl, entries, compiles, lines[0], regexec);
    }
  }

  lemma AcceptOne(par: Params, acl: Acl, entries: seq<AclEntry>, compiles: string -> bool, line: string,
                  regexec: Regexec)
    requires GoodRegexec(regexec) && Follows(par, acl, regexec) && acl.defaultDenyAll
              && BuiltFrom(acl, entries, compiles)
    requires line != "" && IsStackLine(line) && Defined(acl, line, regexec)
    ensures Accept(par, line) == Within(par, Rewritten(acl, entries, line, regexec))
  {
    var mem: Memory := _ => '\0';
    ConvertIsRewritten(acl, entries, compiles, line, regexec, mem);
    assert par.convert(line) == Convert(acl, line, regexec, mem);
  }

  /** Under a deny-all rule the stacked lines of a process are, in order, its lines that some entry hits: by
      their first hit untouched, or rewritten as its replacement string says, within the byte limit. It holds
      as long as the program's decision about each of its lines is defined. */
  lemma DenyAllHistory(par: Params, acl: Acl, entries: seq<AclEntry>, compiles: string -> bool, regexec: Regexec,
                       events: seq<Event>, pid: Pid)
    requires ValidParams(par) && !par.binary && GoodRegexec(regexec) && Follows(par, acl, regexec)
    requires acl.defaultDenyAll && BuiltFrom(acl, entries, compiles)
    requires forall l :: l in RunPid(par, "", ChunksOf(events, pid)).lines ==> Defined(acl, l, regexec)
    ensures "" !in RunPid(par, "", ChunksOf(events, pid)).lines
    ensures OfPid(Run(par, EMPTY, events).stack, pid)
              == Rewrites(par, acl, entries, RunPid(par, "", ChunksOf(events, pid)).lines, regexec)
  {
    PerPidIsolation(par, EMPTY, events, pid);
    RunPidLines(par, "", ChunksOf(events, pid));
    var lines := RunPid(par, "", ChunksOf(events, pid)).lines;
    AcceptRewrites(par, acl, entries, compiles, lines, regexec);
    assert [] + AcceptAll(par, lines) == AcceptAll(par, lines);
  }
}
