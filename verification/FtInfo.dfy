/** K2hFtInfo: the rule table under its lock. */
module FtInfo {
  import opened Bytes
  import opened Paths
  import opened ReplaceExpand
  import opened Rules
  import opened Tree
  import opened FileTable

  // ---- Adding one file ----

  /** `RuleMap[key] = rule` for a key that is not there: the order of the map is kept. */
  function Insert(m: Table, e: Entry): Table {
    if m == [] || Less(e.key, m[0].key) then [e] + m else [m[0]] + Insert(m[1..], e)
  }

  lemma {:induction false} InsertHas(m: Table, e: Entry, x: Entry)
    ensures x in Insert(m, e) <==> x == e || x in m
    ensures |Insert(m, e)| == |m| + 1
  {
    if m != [] && !Less(e.key, m[0].key) {
      InsertHas(m[1..], e, x);
      assert x in m <==> x == m[0] || x in m[1..];
    }
  }

  lemma {:induction false} InsertSorted(m: Table, e: Entry)
    requires Sorted(m) && !HasKey(m, e.key)
    ensures Sorted(Insert(m, e))
  {
    if m == [] {
    } else if Less(e.key, m[0].key) {
      forall j | 0 <= j < |m|
        ensures Less(e.key, m[j].key)
      {
        if j > 0 {
          LessTransitive(e.key, m[0].key, m[j].key);
        }
      }
    } else {
      assert m[0].key != e.key;
      LessTotal(e.key, m[0].key);
      assert !HasKey(m[1..], e.key) by {
        assert forall i :: 0 <= i < |m[1..]| ==> m[1..][i] == m[i + 1];
      }
      InsertSorted(m[1..], e);
      forall x | x in Insert(m[1..], e)
        ensures Less(m[0].key, x.key)
      {
        InsertHas(m[1..], e, x);
      }
      var tail := Insert(m[1..], e);
      assert forall i :: 0 <= i < |tail| ==> tail[i] in tail;
    }
  }

  lemma KeysAfterInsert(m: Table, e: Entry, path: string)
    ensures HasKey(Insert(m, e), path) <==> path == e.key || HasKey(m, path)
    ensures HasBelow(Insert(m, e), path) <==> Extends(e.key, path) || HasBelow(m, path)
  {
    var m' := Insert(m, e);
    InsertHas(m, e, e);
    var at :| 0 <= at < |m'| && m'[at] == e;
    forall i | 0 <= i < |m|
      ensures exists j :: 0 <= j < |m'| && m'[j] == m[i]
    {
      InsertHas(m, e, m[i]);
    }
    forall j | 0 <= j < |m'|
      ensures m'[j] == e || exists i :: 0 <= i < |m| && m[i] == m'[j]
    {
      InsertHas(m, e, m'[j]);
    }
  }

  /** The new path is its own rule; every other path keeps its meaning, provided the directories above
      the new one were directories before. */
  lemma InsertChangesOnePath(m: Table, e: Entry, path: string)
    requires Sorted(m) && !HasKey(m, e.key)
    requires Extends(e.key, path) ==> HasKey(m, path) || HasBelow(m, path)
    ensures NodeOf(Insert(m, e), path) == if path == e.key then Exact(e.rule) else NodeOf(m, path)
  {
    var m' := Insert(m, e);
    InsertSorted(m, e);
    KeysAfterInsert(m, e, path);
    if path == e.key {
      InsertHas(m, e, e);
      NodeIs(m', path, Exact(e.rule));
    } else if HasKey(m, path) {
      var i :| 0 <= i < |m| && m[i].key == path;
      InsertHas(m, e, m[i]);
      NodeIs(m, path, Exact(m[i].rule));
      NodeIs(m', path, Exact(m[i].rule));
    }
  }

  /** A path below an existing parent has all directories above it, whether or not the path ends in '/'; only
      the path without that '/' may be missing. */
  lemma AncestorsExist(m: Table, key: string, path: string)
    requires ParentPath(key).Some? && HasKey(m, ParentPath(key).value)
    requires Extends(key, path) && !(EndsInSlash(key) && path == key[..|key| - 1])
    ensures HasKey(m, path) || HasBelow(m, path)
  {
    var tmp := if EndsInSlash(key) then key[..|key| - 1] else key;
    var k := LastIndex(tmp, '/').value;
    assert |path| < |tmp| && tmp[|path|] == '/' && path == tmp[..|path|];
    LastIsLast(tmp, '/', |path|);
    var parent := ParentPath(key).value;
    var i :| 0 <= i < |m| && m[i].key == parent;
    if k == 0 {
      assert Extends(m[i].key, path);
    } else if |path| < k {
      assert parent[..|path|] == path && parent[|path|] == tmp[|path|];
      assert Extends(m[i].key, path);
    }
  }

  /** The rule of a new file: access, transfer and plugin as in the parent's rule, times and owner its own. */
  function NewRule(parent: Rule, id: nat, path: string, mode: nat, uid: int, gid: int, now: int): Rule {
    var output := if EndsInSlash(parent.outputPath) && FileName(path).Some?
        then parent.outputPath + FileName(path).value
                  else parent.outputPath;
    Rule(id, parent.isTransfer, output, parent.hasPlugin, parent.acl, mode % 0x200 + S_IFREG, uid, gid, 0, now, now)
  }

  /** What happens when the new file's copy of its parent's plugin is to be run. */
  datatype PluginStart = Runs | Fails

  predicate StaysUp(parent: Rule, plugin: PluginStart) {
    parent.hasPlugin ==> plugin.Runs?
  }

  ghost predicate IsParent(m: Table, e: Entry, path: string) {
    e in m && ParentPath(path) == Some(e.key) && IsDir(e.rule.mode)
  }

  ghost predicate HasDirParent(m: Table, path: string) {
    exists e :: IsParent(m, e, path)
  }

  class FtInfo {
    const defaults: Defaults
    const compiles: string -> bool
    var ruleMap: Table
    var loaded: bool
    var locked: bool
    var lastId: nat
    /** Rules that were deleted. */
    var freed: set<nat>

    /** The table is in order and none of its rules has been deleted. */
    ghost predicate Valid()
      reads this
    {
      Shape() && forall i :: 0 <= i < |ruleMap| ==> ruleMap[i].rule.id !in freed
    }

    ghost predicate Shape()
      reads this
    {
      && (forall id :: id in freed ==> id <= lastId)
      && Sorted(ruleMap)
      && (forall i :: 0 <= i < |ruleMap| ==>
            0 < ruleMap[i].rule.id <= lastId && AllCompile(ruleMap[i].rule.acl.matchingList, compiles))
    }

    constructor (defaults: Defaults, compiles: string -> bool, rules: Table, lastId: nat)
      requires Sorted(rules)
      requires forall i :: 0 <= i < |rules| ==>
                 0 < rules[i].rule.id <= lastId && AllCompile(rules[i].rule.acl.matchingList, compiles)
      ensures Valid() && ruleMap == rules && loaded && !locked && this.defaults == defaults
    {
      this.defaults, this.compiles := defaults, compiles;
      ruleMap, loaded, locked, this.lastId, freed := rules, true, false, lastId, {};
    }

    /** The first hit of the scan in key order is the order-free answer. */
    method FindPath(path: string) returns (stat: Option<Stat>)
      requires Valid() && !locked
      modifies this`locked
      ensures !locked
      ensures stat == if path == "" then None
                      else if path == "/" then Some(DirStat(defaults))
                      else if !loaded then None
                      else StatOf(defaults, NodeOf(ruleMap, Relative(path)))
    {
      if path == "" {
        return None;
      }
      if path == "/" {
        return Some(DirStat(defaults));
      }
      var p := Relative(path);
      if !loaded {
        return None;
      }
      locked := true;
      for i := 0 to |ruleMap|
        invariant locked && forall j :: 0 <= j < i ==> ruleMap[j].key != p && !Extends(ruleMap[j].key, p)
      {
        var key := ruleMap[i].key;
        if !HasPrefix(key, p) {
          assert p[..|p|] == p;
          continue;
        }
        if |key| == |p| {
          locked := false;
          assert key == p && ruleMap[i] == Entry(p, ruleMap[i].rule);
          NodeIs(ruleMap, p, Exact(ruleMap[i].rule));
          return Some(RuleStat(defaults, ruleMap[i].rule));
        }
        if key[|p|] == '/' {
          locked := false;
          OwnKeyFirst(ruleMap, i, p);
          NodeIs(ruleMap, p, Directory);
          return Some(DirStat(defaults));
        }
      }
      locked := false;
      NodeIs(ruleMap, p, Missing);
      return None;
    }

    /** The handle is the rule's address; 0 for anything that is not a rule of its own. */
    method GetFileHandle(path: string) returns (handle: nat)
      requires Valid() && !locked
      modifies this`locked
      ensures !locked
      ensures handle == if path == "" || path == "/" || !loaded || !NodeOf(ruleMap, Relative(path)).Exact? then 0
                        else NodeOf(ruleMap, Relative(path)).rule.id
    {
      if path == "" || path == "/" {
        return 0;
      }
      var p := Relative(path);
      if !loaded {
        return 0;
      }
      locked := true;
      for i := 0 to |ruleMap|
        invariant locked && forall j :: 0 <= j < i ==> ruleMap[j].key != p
      {
        var key := ruleMap[i].key;
        if !HasPrefix(key, p) {
          assert p[..|p|] == p;
          continue;
        }
        if |key| == |p| {
          locked := false;
          assert key == p && ruleMap[i] == Entry(p, ruleMap[i].rule);
          NodeIs(ruleMap, p, Exact(ruleMap[i].rule));
          return ruleMap[i].rule.id;
        }
      }
      locked := false;
      return 0;
    }

    /** One scan; a name that is in the list already is skipped. */
    method ReadDir(path: string) returns (ok: bool, list: seq<DirEntry>)
      requires Valid() && !locked
      modifies this`locked
      ensures !locked && (ok <==> path != "")
      ensures ok ==> Shows(defaults, ruleMap, Relative(path), list)
    {
      if path == "" {
        return false, [];
      }
      var p := Relative(path);
      list := [DirEntry(".", None), DirEntry("..", None)];
      locked := true;
      for i := 0 to |ruleMap|
        invariant locked && ShowsSoFar(defaults, ruleMap, i, p, list)
      {
        list := ListOne(i, p, list);
      }
      locked := false;
      ShowsAll(defaults, ruleMap, p, list);
      return true, list;
    }

    /** One key of the scan: it adds its name to the list, unless it has none or the name is there. */
    method ListOne(i: nat, p: string, list: seq<DirEntry>) returns (longer: seq<DirEntry>)
      requires i < |ruleMap| && ShowsSoFar(defaults, ruleMap, i, p, list)
      ensures ShowsSoFar(defaults, ruleMap, i + 1, p, longer)
    {
      var key := ruleMap[i].key;
      var rest := key;
      if p != "" {
        if !HasPrefix(key, p) || |key| == |p| || key[|p|] != '/' {
          KeepListing(defaults, ruleMap, i, p, list);
          return list;
        }
        rest := key[|p| + 1..];
      }
      var basename := UpToSlash(rest);
      var isMiddleDir := basename != rest;
      if basename == "" {
        KeepListing(defaults, ruleMap, i, p, list);
        return list;
      }
      var alreadySet := IsListed(list, basename);
      if alreadySet {
        KeepListing(defaults, ruleMap, i, p, list);
        return list;
      }
      GrowListing(defaults, ruleMap, i, p, list);
      longer := list + [DirEntry(basename, Some(if isMiddleDir then DirStat(defaults)
          else RuleStat(defaults, ruleMap[i].rule)))];
    }

    static method IsListed(list: seq<DirEntry>, name: string) returns (found: bool)
      ensures found <==> Named(list, name)
    {
      for k := 0 to |list|
        invariant forall j :: 0 <= j < k ==> list[j].name != name
      {
        if list[k].name == name {
          return true;
        }
      }
      return false;
    }

    method FindKey(key: string) returns (at: Option<nat>)
      requires Valid()
      ensures at.Some? ==> at.value < |ruleMap| && ruleMap[at.value].key == key
      ensures at.None? ==> !HasKey(ruleMap, key)
    {
      for i := 0 to |ruleMap|
        invariant forall j :: 0 <= j < i ==> ruleMap[j].key != key
      {
        if ruleMap[i].key == key {
          return Some(i);
        }
      }
      return None;
    }

    /** A new file is a copy of its parent directory's rule. When the path has no '/' left the method
        returns early and keeps the lock. When the parent has a plugin and its copy does not run, the new
        rule is deleted and stays in the table. */
    method CreateFile(path: string, mode: nat, uid: int, gid: int, now: int, plugin: PluginStart)
      returns (ok: bool, handle: Option<nat>)
      requires Valid() && !locked && '\0' !in path
      modifies this
      ensures Shape() && loaded == old(loaded) && (Valid() <==> (handle.Some? ==> ok))
      ensures locked <==> Creates(path) && !HasKey(old(ruleMap), Relative(path)) && ParentPath(Relative(path)).None?
      ensures handle.None? ==> ruleMap == old(ruleMap) && (ok <==> Creates(path) && HasKey(ruleMap, Relative(path)))
      ensures handle.Some? <==>
                Creates(path) && !HasKey(old(ruleMap), Relative(path)) && HasDirParent(old(ruleMap), Relative(path))
      ensures handle.Some? ==> 0 < handle.value && forall e :: e in old(ruleMap) ==> e.rule.id != handle.value
      ensures handle.Some? ==>
                exists e :: IsParent(old(ruleMap), e, Relative(path)) && (ok <==> StaysUp(e.rule, plugin)) &&
                  var rule := NewRule(e.rule, handle.value, Relative(path), mode, uid, gid, now);
                  ruleMap == Insert(old(ruleMap), Entry(Relative(path), rule))
    {
      if path == "" || path == "/" {
        return false, None;
      }
      if !loaded {
        return false, None;
      }
      locked := true;
      ok, handle := CreateLocked(Relative(path), mode, uid, gid, now, plugin);
    }

    /** The part under the lock. */
    method CreateLocked(p: string, mode: nat, uid: int, gid: int, now: int, plugin: PluginStart)
      returns (ok: bool, handle: Option<nat>)
      requires Valid() && locked && '\0' !in p && p != ""
      modifies this
      ensures Shape() && loaded == old(loaded) && (Valid() <==> (handle.Some? ==> ok))
      ensures locked <==> !HasKey(old(ruleMap), p) && ParentPath(p).None?
      ensures handle.None? ==> ruleMap == old(ruleMap) && (ok <==> HasKey(ruleMap, p))
      ensures handle.Some? <==> !HasKey(old(ruleMap), p) && HasDirParent(old(ruleMap), p)
      ensures handle.Some? ==> 0 < handle.value && forall e :: e in old(ruleMap) ==> e.rule.id != handle.value
      ensures handle.Some? ==>
                exists e :: IsParent(old(ruleMap), e, p) && (ok <==> StaysUp(e.rule, plugin)) &&
                            ruleMap == Insert(old(ruleMap), Entry(p,
                                NewRule(e.rule, handle.value, p, mode, uid, gid, now)))
    {
      var at := FindKey(p);
      if at.Some? {
        locked := false;
        return true, None;
      }
      var parentpath := GetParentDirpath(p);
      NoParent(ruleMap, p);
      if parentpath.None? {
        return false, None;
      }
      var parent := FindKey(parentpath.value);
      if parent.None? {
        locked := false;
        return false, None;
      }
      OneParent(ruleMap, parent.value, p);
      ok, handle := CreateUnder(parent.value, p, mode, uid, gid, now, plugin);
    }

    /** The parent is found: only a directory takes a new file. */
    method CreateUnder(at: nat, p: string, mode: nat, uid: int, gid: int, now: int, plugin: PluginStart)
      returns (ok: bool, handle: Option<nat>)
      requires Valid() && at < |ruleMap| && !HasKey(ruleMap, p) && p != "" && p != "/"
      modifies this
      ensures !locked && Shape() && loaded == old(loaded) && (Valid() <==> (handle.Some? ==> ok))
      ensures handle.Some? <==> IsDir(old(ruleMap)[at].rule.mode)
      ensures handle.None? ==> !ok && ruleMap == old(ruleMap)
      ensures handle.Some? ==>
                && 0 < handle.value && (forall e :: e in old(ruleMap) ==> e.rule.id != handle.value)
                && (ok <==> !old(ruleMap)[at].rule.hasPlugin || plugin == Runs)
                && var rule := NewRule(old(ruleMap)[at].rule, handle.value, p, mode, uid, gid, now);
                   ruleMap == Insert(old(ruleMap), Entry(p, rule))
    {
      var entry := ruleMap[at];
      if !IsDir(entry.rule.mode) {
        locked := false;
        return false, None;
      }
      ok := StaysUp(entry.rule, plugin);
      var id := AddUnder(entry, p, mode, uid, gid, now);
      if !ok {
        Delete(p, id);
      }
      locked := false;
      return ok, Some(id);
    }

    /** The new rule is deleted; its key still points to it. */
    method Delete(key: string, id: nat)
      requires Valid() && id <= lastId
      requires exists i :: 0 <= i < |ruleMap| && ruleMap[i].key == key && ruleMap[i].rule.id == id
      modifies this`freed
      ensures Shape() && !Valid()
    {
      freed := freed + {id};
    }

    /** Copies the parent's rule for the new file and puts it into the table. */
    method AddUnder(entry: Entry, p: string, mode: nat, uid: int, gid: int, now: int) returns (id: nat)
      requires Valid() && entry in ruleMap && !HasKey(ruleMap, p) && p != "" && p != "/"
      modifies this`ruleMap, this`lastId
      ensures Valid() && ruleMap == Insert(old(ruleMap), Entry(p, NewRule(entry.rule, id, p, mode, uid, gid, now)))
      ensures id == old(lastId) + 1 == lastId
      ensures exists i :: 0 <= i < |ruleMap| && ruleMap[i].key == p && ruleMap[i].rule.id == id
    {
      var output := OutputOf(entry.rule.outputPath, p);
      var copied, list := DuplicateMatchList(entry.rule.acl.matchingList, compiles);
      lastId := lastId + 1;
      var rule := Rule(lastId, entry.rule.isTransfer, output, entry.rule.hasPlugin,
          Acl(entry.rule.acl.defaultDenyAll, list),
                       mode % 0x200 + S_IFREG, uid, gid, 0, now, now);
      Add(Entry(p, rule));
      return lastId;
    }

    /** The parameters get as far as the table. */
    predicate Creates(path: string)
      reads this
    {
      path != "" && path != "/" && loaded
    }

    method OutputOf(parentOutput: string, path: string) returns (output: string)
      requires path != "" && path != "/"
      ensures output == if EndsInSlash(parentOutput) && FileName(path).Some? then parentOutput + FileName(path).value
                else parentOutput
    {
      output := parentOutput;
      if output != "" && output[|output| - 1] == '/' {
        var name := FileName(path);
        output := output + name.value;
      }
    }

    method Add(e: Entry)
      requires Shape() && (forall i :: 0 <= i < |ruleMap| ==> ruleMap[i].rule.id !in freed)
      requires !HasKey(ruleMap, e.key)
      requires 0 < e.rule.id <= lastId && e.rule.id !in freed && AllCompile(e.rule.acl.matchingList, compiles)
      modifies this`ruleMap
      ensures Valid() && ruleMap == Insert(old(ruleMap), e) && e in ruleMap
    {
      InsertSorted(ruleMap, e);
      forall x | x in Insert(ruleMap, e)
        ensures 0 < x.rule.id <= lastId && x.rule.id !in freed && AllCompile(x.rule.acl.matchingList, compiles)
      {
        InsertHas(ruleMap, e, x);
      }
      InsertHas(ruleMap, e, e);
      ruleMap := Insert(ruleMap, e);
      assert forall i :: 0 <= i < |ruleMap| ==> ruleMap[i] in ruleMap;
    }
  }

  lemma OneParent(m: Table, i: nat, p: string)
    requires Sorted(m) && i < |m| && ParentPath(p) == Some(m[i].key)
    ensures HasDirParent(m, p) <==> IsDir(m[i].rule.mode)
    ensures IsDir(m[i].rule.mode) ==> IsParent(m, m[i], p)
  {
    LessAsymmetric(m[i].key, m[i].key);
    assert m[i] in m;
    assert IsDir(m[i].rule.mode) ==> IsParent(m, m[i], p);
    if HasDirParent(m, p) {
      var e :| IsParent(m, e, p);
      assert e == m[i];
    }
  }

  lemma NoParent(m: Table, p: string)
    ensures ParentPath(p).None? || !HasKey(m, ParentPath(p).value) ==> !HasDirParent(m, p)
  {
  }

  // ---- What creating a file does to the tree ----

  /** On success, for a path without a '/' at its end: the new path is the new rule, its handle is the
      one returned, and no other path changes its meaning. */
  lemma CreateAddsOnePath(m: Table, parent: Entry, p: string, rule: Rule, path: string)
    requires Sorted(m) && parent in m && !HasKey(m, p) && p != "" && !EndsInSlash(p)
    requires ParentPath(p) == Some(parent.key)
    ensures NodeOf(Insert(m, Entry(p, rule)), path) == if path == p then Exact(rule) else NodeOf(m, path)
  {
    if Extends(p, path) {
      assert HasKey(m, parent.key);
      AncestorsExist(m, p, path);
    }
    InsertChangesOnePath(m, Entry(p, rule), path);
  }

  /** The parent's listing then shows the file with the new rule's status, and every other name as before;
      only a file whose path is one '/' and its name is not shown, as its parent's key is "/". */
  lemma CreateShowsInParent(d: Defaults, m: Table, parent: Entry, p: string, rule: Rule, list: seq<DirEntry>,
                            name: string, stat: Stat)
    requires Sorted(m) && parent in m && !HasKey(m, p) && p != "" && !EndsInSlash(p)
    requires ParentPath(p) == Some(parent.key)
    requires Shows(d, Insert(m, Entry(p, rule)), parent.key, list) && IsName(name) && !IsDot(name)
    ensures DirEntry(name, Some(stat)) in list <==>
              if name == FileName(p).value && p != "/" + name then stat == RuleStat(d, rule)
              else StatOf(d, NodeOf(m, Child(parent.key, name))) == Some(stat)
  {
    SplitPath(p);
    ListingAgrees(d, Insert(m, Entry(p, rule)), parent.key, list, name, stat);
    CreateAddsOnePath(m, parent, p, rule, Child(parent.key, name));
    OwnChild(parent.key, p, name);
  }

  lemma OwnChild(key: string, p: string, name: string)
    requires p != "" && !EndsInSlash(p) && ParentPath(p) == Some(key) && IsName(name)
    ensures Child(key, name) == p <==> name == FileName(p).value && p != "/" + name
  {
    SplitPath(p);
    var own := FileName(p).value;
    var child := key + "/" + name;
    if p == key + "/" + own {
      assert child[|key| + 1..] == name && p[|key| + 1..] == own;
      assert name == own ==> |p| > |"/" + name|;
    } else {
      assert child[1] == '/' && p[1] == own[0];
      assert ("/" + own)[1..] == own && ("/" + name)[1..] == name;
    }
  }

  /** What the tree then has at the new path lets through, drops and rewrites exactly the lines the parent's
      rule does, sends them on as the parent's does, and is a file. */
  lemma CreateKeepsDecision(m: Table, parent: Entry, p: string, id: nat, mode: nat, uid: int, gid: int, now: int,
                            line: string, regexec: Regexec, mem: Memory)
    requires Sorted(m) && parent in m && !HasKey(m, p) && GoodRegexec(regexec)
    ensures var n := NodeOf(Insert(m, Entry(p, NewRule(parent.rule, id, p, mode, uid, gid, now))), p);
            && n.Exact? && n.rule.id == id && !IsDir(n.rule.mode) && n.rule.isTransfer == parent.rule.isTransfer
            && (Defined(n.rule.acl, line, regexec) <==> Defined(parent.rule.acl, line, regexec))
            && Convert(n.rule.acl, line, regexec, mem) == Convert(parent.rule.acl, line, regexec, mem)
  {
    var rule := NewRule(parent.rule, id, p, mode, uid, gid, now);
    PlainFile(mode);
    InsertSorted(m, Entry(p, rule));
    InsertHas(m, Entry(p, rule), Entry(p, rule));
    NodeIs(Insert(m, Entry(p, rule)), p, Exact(rule));
  }

  lemma PlainFile(mode: nat)
    ensures !IsDir(mode % 0x200 + S_IFREG)
  {
    assert (mode % 0x200 + S_IFREG) / 0x1000 == 8;
  }

  /** A path that ends in '/' becomes a key of its own, and the path without it a directory, unless that is a
      rule itself. */
  lemma CreateWithSlash(m: Table, p: string, rule: Rule)
    requires Sorted(m) && !HasKey(m, p) && EndsInSlash(p)
    ensures var front := p[..|p| - 1];
            NodeOf(Insert(m, Entry(p, rule)), front) == if HasKey(m, front) then NodeOf(m, front) else Directory
  {
    var front := p[..|p| - 1];
    assert Extends(p, front);
    InsertSorted(m, Entry(p, rule));
    KeysAfterInsert(m, Entry(p, rule), front);
    if HasKey(m, front) {
      InsertChangesOnePath(m, Entry(p, rule), front);
    } else {
      NodeIs(Insert(m, Entry(p, rule)), front, Directory);
    }
  }

  /** Creating a path changes no other path iff it does not end in '/' or the path without that '/' was there. */
  lemma CreateKeepsOthersIff(m: Table, parent: Entry, p: string, rule: Rule)
    requires Sorted(m) && parent in m && !HasKey(m, p) && ParentPath(p) == Some(parent.key)
    ensures (forall path :: path != p ==> NodeOf(Insert(m, Entry(p, rule)), path) == NodeOf(m, path)) <==>
              (EndsInSlash(p) ==> NodeOf(m, p[..|p| - 1]) != Missing)
  {
    if EndsInSlash(p) && NodeOf(m, p[..|p| - 1]) == Missing {
      CreateWithSlash(m, p, rule);
      assert p[..|p| - 1] != p;
    } else {
      forall path | path != p
        ensures NodeOf(Insert(m, Entry(p, rule)), path) == NodeOf(m, path)
      {
        if Extends(p, path) && !(EndsInSlash(p) && path == p[..|p| - 1]) {
          AncestorsExist(m, p, path);
        }
        InsertChangesOnePath(m, Entry(p, rule), path);
      }
    }
  }

  // ---- Inputs that show where it goes wrong ----

  const PLAIN_DIRECTORY := Rule(1, false, "", false, Acl(false, []), S_IFDIR, 0, 0, 0, 0, 0)
  const ONE_DIRECTORY := [Entry("dir", PLAIN_DIRECTORY)]

  /** Creating "/file" leaves the lock taken. */
  method LockStaysTaken(defaults: Defaults, compiles: string -> bool) returns (taken: bool)
    ensures taken
  {
    var info := new FtInfo(defaults, compiles, [], 0);
    assert Relative("/file") == "file" && '/' !in "file";
    SplitPath("file");
    var ok, handle := info.CreateFile("/file", 0, 0, 0, 0, Runs);
    taken := info.locked;
  }

  /** Creating "/dir/sub/" below the rule "dir" makes a directory "dir/sub" that was not there. */
  lemma SlashMakesDirectory(rule: Rule)
    ensures var m := ONE_DIRECTORY;
            && ParentPath("dir/sub/") == Some("dir") && NodeOf(m, "dir/sub") == Missing
            && NodeOf(Insert(m, Entry("dir/sub/", rule)), "dir/sub") == Directory
  {
    var m, p := ONE_DIRECTORY, "dir/sub/";
    SubOfDir();
    assert !HasKey(m, "dir/sub") && !HasBelow(m, "dir/sub") && !HasKey(m, p);
    NodeIs(m, "dir/sub", Missing);
    CreateWithSlash(m, p, rule);
  }

  lemma SubOfDir()
    ensures EndsInSlash("dir/sub/") && "dir/sub/"[..7] == "dir/sub" && ParentPath("dir/sub/") == Some("dir")
  {
    assert "dir/sub/"[..7] == "dir/sub" && "sub" == "dir/sub"[4..] && '/' !in "sub" && "dir/sub"[..3] == "dir";
    LastIndexUnique("dir/sub", '/', 3);
  }

  /** What a new file adds to its parent's output: its name, if that is a directory. */
  function AddedName(output: string, path: string): string
    requires FileName(path).Some?
  {
    if output != "" && output[|output| - 1] == '/' then FileName(path).value else ""
  }

  /** The fields of what the tree has at a new path: the permission bits asked for on a regular file, the given
      owner and time, nothing in it, the parent's settings, and its output with the file's name added if that is
      a directory. */
  lemma CreateFields(m: Table, parent: Entry, p: string, id: nat, mode: nat, uid: int, gid: int, now: int)
    requires Sorted(m) && parent in m && !HasKey(m, p) && FileName(p).Some?
    ensures var n := NodeOf(Insert(m, Entry(p, NewRule(parent.rule, id, p, mode, uid, gid, now))), p);
            n == Exact(Rule(id, parent.rule.isTransfer, parent.rule.outputPath + AddedName(parent.rule.outputPath, p),
                            parent.rule.hasPlugin, parent.rule.acl, 0x8000 + mode % 0x200, uid, gid, 0, now, now))
  {
    var rule := NewRule(parent.rule, id, p, mode, uid, gid, now);
    InsertSorted(m, Entry(p, rule));
    InsertHas(m, Entry(p, rule), Entry(p, rule));
    NodeIs(Insert(m, Entry(p, rule)), p, Exact(rule));
  }
}
