/** Looking up, listing and creating files in the rule table (K2hFtInfo). */
module FileTable {
  import opened Bytes
  import opened ReplaceParse
  import opened Rules
  import opened Tree

  const S_IFREG := 0x8000
  const S_IFDIR := 0x4000

  predicate IsDir(mode: nat) {
    mode / 0x1000 % 0x10 == S_IFDIR / 0x1000
  }

  datatype Stat = Stat(mode: nat, nlink: nat, uid: int, gid: int, size: int, blksize: nat, blocks: int,
                       atime: int, mtime: int, ctime: int)

  /** What directories without a rule of their own look like. */
  datatype Defaults = Defaults(dirMode: nat, dirUid: int, dirGid: int, initTime: int, pageSize: nat)

  function Blocks(size: int): int {
    size / 512 + if size % 512 != 0 then 1 else 0
  }

  function DirStat(d: Defaults): Stat {
    Stat(d.dirMode, 2, d.dirUid, d.dirGid, d.pageSize, d.pageSize, Blocks(d.pageSize), d.initTime, d.initTime,
        d.initTime)
  }

  function RuleStat(d: Defaults, r: Rule): Stat {
    Stat(r.mode, if IsDir(r.mode) then 2 else 1, r.uid, r.gid, r.accumSize, d.pageSize, Blocks(r.accumSize),
         r.lastTime, r.lastTime, r.startTime)
  }

  function StatOf(d: Defaults, n: Node): Option<Stat> {
    match n
    case Exact(rule) => Some(RuleStat(d, rule))
    case Directory => Some(DirStat(d))
    case Missing => None
  }

  ghost function NodeOf(m: Table, path: string): (n: Node)
    ensures IsNode(m, path, n)
  {
    if HasKey(m, path) then
      var i :| 0 <= i < |m| && m[i].key == path;
      Exact(m[i].rule)
    else if HasBelow(m, path) then Directory
    else Missing
  }

  lemma NodeIs(m: Table, path: string, n: Node)
    requires Sorted(m) && IsNode(m, path, n)
    ensures NodeOf(m, path) == n
  {
    NodeUnique(m, path, NodeOf(m, path), n);
  }

  /** One leading '/' is skipped. */
  function Relative(path: string): string {
    if path != "" && path[0] == '/' then path[1..] else path
  }

  /** In key order a path's own key comes before every key below it. */
  lemma OwnKeyFirst(m: Table, i: nat, path: string)
    requires Sorted(m) && i < |m| && Extends(m[i].key, path)
    ensures forall j :: i <= j < |m| ==> m[j].key != path
  {
    PrefixLess(m[i].key, path);
    LessAsymmetric(m[i].key, path);
  }

  // ---- Listings ----

  datatype DirEntry = DirEntry(name: string, stat: Option<Stat>)

  predicate IsDot(name: string) {
    name == "." || name == ".."
  }

  function Names(list: seq<DirEntry>): (r: seq<string>)
    ensures |r| == |list| && forall i :: 0 <= i < |list| ==> r[i] == list[i].name
  {
    if list == [] then [] else [list[0].name] + Names(list[1..])
  }

  predicate Named(list: seq<DirEntry>, name: string) {
    exists k :: 0 <= k < |list| && list[k].name == name
  }

  /** `list` shows exactly the children of the directory, each once, as the lookup sees them. */
  ghost predicate Shows(d: Defaults, m: Table, path: string, list: seq<DirEntry>) {
    && |list| >= 2 && list[0] == DirEntry(".", None) && list[1] == DirEntry("..", None)
    && Distinct(Names(list))
    && (forall k :: 2 <= k < |list| ==>
          IsName(list[k].name) && list[k].stat.Some? && list[k].stat == StatOf(d, NodeOf(m, Child(path, list[k].name))))
    && (forall name :: IsName(name) && StatOf(d, NodeOf(m, Child(path, name))).Some? ==> Named(list, name))
  }

  /** The entry at `j` is the first in key order that contributes this name. */
  ghost predicate First(m: Table, j: nat, path: string, name: string) {
    && j < |m| && Contributes(m, j, path, name)
    && (forall i :: 0 <= i < j ==> !Contributes(m, i, path, name))
  }

  predicate Contributes(m: Table, j: nat, path: string, name: string)
    requires j < |m|
  {
    BaseOf(m[j].key, path).Some? && BaseOf(m[j].key, path).value.0 == name
  }

  function EntryStat(d: Defaults, e: Entry, path: string): Stat
    requires BaseOf(e.key, path).Some?
  {
    if BaseOf(e.key, path).value.1 then DirStat(d) else RuleStat(d, e.rule)
  }

  /** The first key that contributes a name decides as the lookup does: own key before keys below. */
  lemma FirstIsNode(d: Defaults, m: Table, j: nat, path: string, name: string)
    requires Sorted(m) && IsName(name) && First(m, j, path, name)
    ensures StatOf(d, NodeOf(m, Child(path, name))) == Some(EntryStat(d, m[j], path))
  {
    var child := Child(path, name);
    BaseIsChild(m[j].key, path, name);
    if BaseOf(m[j].key, path).value.1 {
      OwnKeyFirst(m, j, child);
      forall i | 0 <= i < |m|
        ensures m[i].key != child
      {
        BaseIsChild(m[i].key, path, name);
        assert i < j ==> !Contributes(m, i, path, name);
      }
      NodeIs(m, child, Directory);
    } else {
      assert m[j] == Entry(child, m[j].rule);
      NodeIs(m, child, Exact(m[j].rule));
    }
  }

  /** A name whose child is a node is contributed by some key. */
  lemma NodeContributes(d: Defaults, m: Table, path: string, name: string)
    requires IsName(name) && StatOf(d, NodeOf(m, Child(path, name))).Some?
    ensures exists j :: 0 <= j < |m| && Contributes(m, j, path, name)
  {
    var child := Child(path, name);
    var i :| 0 <= i < |m| && (m[i].key == child || Extends(m[i].key, child));
    BaseIsChild(m[i].key, path, name);
    assert Contributes(m, i, path, name);
  }

  /** The listing after the first `n` entries of the table. */
  ghost predicate ShowsSoFar(d: Defaults, m: Table, n: nat, path: string, list: seq<DirEntry>) {
    && |list| >= 2 && list[0] == DirEntry(".", None) && list[1] == DirEntry("..", None)
    && Distinct(Names(list))
    && (forall k :: 2 <= k < |list| ==> FromTable(d, m, n, path, list[k]))
    && (forall j, name :: 0 <= j < n && j < |m| && Contributes(m, j, path, name) ==> Named(list, name))
  }

  ghost predicate FromTable(d: Defaults, m: Table, n: nat, path: string, e: DirEntry) {
    exists j :: 0 <= j < n && First(m, j, path, e.name) && e.stat == Some(EntryStat(d, m[j], path))
  }

  lemma ShowsAll(d: Defaults, m: Table, path: string, list: seq<DirEntry>)
    requires Sorted(m) && ShowsSoFar(d, m, |m|, path, list)
    ensures Shows(d, m, path, list)
  {
    forall k | 2 <= k < |list|
      ensures IsName(list[k].name) && list[k].stat.Some?
      ensures list[k].stat == StatOf(d, NodeOf(m, Child(path, list[k].name)))
    {
      assert FromTable(d, m, |m|, path, list[k]);
      var j :| 0 <= j < |m| && First(m, j, path, list[k].name) && list[k].stat == Some(EntryStat(d, m[j], path));
      FirstIsNode(d, m, j, path, list[k].name);
    }
    forall name | IsName(name) && StatOf(d, NodeOf(m, Child(path, name))).Some?
      ensures Named(list, name)
    {
      NodeContributes(d, m, path, name);
    }
  }

  /** An entry that contributes nothing, or a name that is listed already, changes nothing. */
  lemma KeepListing(d: Defaults, m: Table, n: nat, path: string, list: seq<DirEntry>)
    requires ShowsSoFar(d, m, n, path, list) && n < |m|
    requires BaseOf(m[n].key, path).Some? ==> Named(list, BaseOf(m[n].key, path).value.0)
    ensures ShowsSoFar(d, m, n + 1, path, list)
  {
    forall k | 2 <= k < |list|
      ensures FromTable(d, m, n + 1, path, list[k])
    {
      assert FromTable(d, m, n, path, list[k]);
    }
  }

  lemma NewName(list: seq<DirEntry>, e: DirEntry)
    requires Distinct(Names(list)) && !Named(list, e.name)
    ensures Distinct(Names(list + [e]))
  {
    var names := Names(list + [e]);
    forall i, j | 0 <= i < j < |names|
      ensures names[i] != names[j]
    {
      assert names[i] == list[i].name;
      assert j < |list| ==> Names(list)[i] != Names(list)[j];
    }
  }

  /** A new name is appended with the first entry that contributes it. */
  lemma GrowListing(d: Defaults, m: Table, n: nat, path: string, list: seq<DirEntry>)
    requires ShowsSoFar(d, m, n, path, list) && n < |m|
    requires BaseOf(m[n].key, path).Some? && !Named(list, BaseOf(m[n].key, path).value.0)
    ensures ShowsSoFar(d, m, n + 1, path, list + [DirEntry(BaseOf(m[n].key, path).value.0,
              Some(EntryStat(d, m[n], path)))])
  {
    var e := DirEntry(BaseOf(m[n].key, path).value.0, Some(EntryStat(d, m[n], path)));
    var grown := list + [e];
    NewName(list, e);
    assert First(m, n, path, e.name);
    assert FromTable(d, m, n + 1, path, e);
    forall k | 2 <= k < |grown|
      ensures FromTable(d, m, n + 1, path, grown[k])
    {
      assert k < |list| ==> FromTable(d, m, n, path, list[k]);
    }
    forall j, name | 0 <= j < n + 1 && j < |m| && Contributes(m, j, path, name)
      ensures Named(grown, name)
    {
      if j == n {
        assert grown[|list|].name == name;
      } else {
        assert Named(list, name);
        var k :| 0 <= k < |list| && list[k].name == name;
        assert grown[k].name == name;
      }
    }
  }

  /** `getattr` and `readdir` agree: a name is listed, once, with a status, iff looking the child up
      succeeds with that status. Only "." and ".." are listed without one. */
  lemma ListingAgrees(d: Defaults, m: Table, path: string, list: seq<DirEntry>, name: string, stat: Stat)
    requires Shows(d, m, path, list) && IsName(name) && !IsDot(name)
    ensures DirEntry(name, Some(stat)) in list <==> StatOf(d, NodeOf(m, Child(path, name))) == Some(stat)
    ensures forall i, j :: 0 <= i < |list| && 0 <= j < |list| && list[i].name == name == list[j].name ==> i == j
  {
    if Named(list, name) {
      var k :| 0 <= k < |list| && list[k].name == name;
      assert k >= 2;
    }
    assert forall i, j :: 0 <= i < j < |list| ==> list[i].name != list[j].name;
  }

  // ---- Copying match lists ----

  predicate AllCompile(list: seq<MatchPattern>, compiles: string -> bool) {
    forall i :: 0 <= i < |list| && list[i].isRegex ==> compiles(list[i].baseString)
  }

  method DuplicateReplaceList(src: seq<Item>) returns (dst: seq<Item>)
    ensures dst == src
  {
    dst := [];
    for i := 0 to |src|
      invariant dst == src[..i]
    {
      dst := dst + [Item(src[i].matchno, src[i].substring)];
    }
  }

  /** Copies patterns until one does not compile. */
  method DuplicateMatchList(src: seq<MatchPattern>, compiles: string -> bool) returns (ok: bool, dst: seq<MatchPattern>)
    ensures ok <==> AllCompile(src, compiles)
    ensures ok ==> dst == src
    ensures dst <= src
  {
    dst := [];
    for i := 0 to |src|
      invariant dst == src[..i] && AllCompile(src[..i], compiles)
    {
      if src[i].isRegex && !compiles(src[i].baseString) {
        return false, dst;
      }
      var list := DuplicateReplaceList(src[i].replaceList);
      dst := dst + [MatchPattern(src[i].isRegex, src[i].baseString, list)];
    }
    assert src[..|src|] == src;
    return true, dst;
  }

  // ---- The fields of a status ----

  /** The file kind is in the four bits above the lower twelve: 4 is a directory. */
  lemma IsDirIff(kind: nat, bits: nat)
    requires kind < 16 && bits < 0x1000
    ensures IsDir(kind * 0x1000 + bits) <==> kind == 4
  {
  }

  /** A path with a rule of its own has that rule's mode, owner, size and times, and as many blocks of 512
      bytes as its size needs. */
  lemma FoundFields(d: Defaults, m: Table, i: nat)
    requires Sorted(m) && i < |m|
    ensures StatOf(d, NodeOf(m, m[i].key)).Some?
    ensures var stat, rule := StatOf(d, NodeOf(m, m[i].key)).value, m[i].rule;
            && stat == Stat(rule.mode, if rule.mode / 0x1000 % 16 == 4 then 2 else 1, rule.uid, rule.gid,
                            rule.accumSize, d.pageSize, stat.blocks, rule.lastTime, rule.lastTime, rule.startTime)
            && 512 * (stat.blocks - 1) < rule.accumSize <= 512 * stat.blocks
  {
    assert m[i] == Entry(m[i].key, m[i].rule);
    NodeIs(m, m[i].key, Exact(m[i].rule));
  }

  /** A path that is only a directory above keys has the defaults. */
  lemma DirectoryFields(d: Defaults, m: Table, path: string)
    requires !HasKey(m, path) && HasBelow(m, path)
    ensures StatOf(d, NodeOf(m, path)).Some?
    ensures var stat := StatOf(d, NodeOf(m, path)).value;
            && stat.mode == d.dirMode && stat.uid == d.dirUid && stat.gid == d.dirGid && stat.nlink == 2
            && stat.size == d.pageSize == stat.blksize && stat.atime == stat.mtime == stat.ctime == d.initTime
            && 512 * (stat.blocks - 1) < stat.size <= 512 * stat.blocks
  {
  }

  lemma RelativeIs(path: string)
    ensures Relative("/" + path) == path
    ensures path == "" || path[0] != '/' ==> Relative(path) == path
  {
  }
}
