/** The rules as a file tree: a sorted table of paths, and the order-free meaning of a path in it. */
module Tree {
  import opened Bytes
  import opened Rules

  /** One rule (K2HFTRULE). `id` stands for its address, which is also the file handle. */
  datatype Rule = Rule(id: nat, isTransfer: bool, outputPath: string, hasPlugin: bool, acl: Acl, mode: nat,
                       uid: int, gid: int, accumSize: int, startTime: int, lastTime: int)

  /** RuleMap: the entries of a `std::map`, in its iteration order. */
  datatype Entry = Entry(key: string, rule: Rule)
  type Table = seq<Entry>

  /** Byte-wise string order. */
  predicate Less(a: string, b: string) {
    if b == "" then false
    else if a == "" then true
    else a[0] < b[0] || (a[0] == b[0] && Less(a[1..], b[1..]))
  }

  predicate Sorted(m: Table) {
    forall i, j :: 0 <= i < j < |m| ==> Less(m[i].key, m[j].key)
  }

  lemma {:induction false} LessAsymmetric(a: string, b: string)
    ensures !(Less(a, b) && Less(b, a)) && !Less(a, a)
    decreases |a|
  {
    if a != "" {
      LessAsymmetric(a[1..], a[1..]);
      if b != "" {
        LessAsymmetric(a[1..], b[1..]);
      }
    }
  }

  lemma {:induction false} LessTransitive(a: string, b: string, c: string)
    requires Less(a, b) && Less(b, c)
    ensures Less(a, c)
    decreases |a|
  {
    if a != "" && a[0] == b[0] == c[0] {
      LessTransitive(a[1..], b[1..], c[1..]);
    }
  }

  lemma {:induction false} LessTotal(a: string, b: string)
    ensures Less(a, b) || Less(b, a) || a == b
    decreases |a|
  {
    if a != "" && b != "" && a[0] == b[0] {
      LessTotal(a[1..], b[1..]);
      assert a == [a[0]] + a[1..] && b == [b[0]] + b[1..];
    }
  }

  /** `find(path) == 0` */
  predicate HasPrefix(key: string, path: string) {
    |path| <= |key| && key[..|path|] == path
  }

  /** The key lies below the path. */
  predicate Extends(key: string, path: string) {
    HasPrefix(key, path) && |key| > |path| && key[|path|] == '/'
  }

  lemma {:induction false} PrefixLess(key: string, path: string)
    requires HasPrefix(key, path) && |key| > |path|
    ensures Less(path, key)
    decreases |path|
  {
    if path != "" {
      assert key[1..][..|path| - 1] == key[..|path|][1..];
      assert key[..|path|][0] == key[0];
      PrefixLess(key[1..], path[1..]);
    }
  }

  // ---- What a path is ----

  datatype Node = Exact(rule: Rule) | Directory | Missing

  predicate HasKey(m: Table, path: string) {
    exists i :: 0 <= i < |m| && m[i].key == path
  }

  predicate HasBelow(m: Table, path: string) {
    exists i :: 0 <= i < |m| && Extends(m[i].key, path)
  }

  /** The order-free rule: the path's own rule if there is one, else a directory iff some key lies
      below it, else nothing. Keys that only share a string prefix do not matter. */
  ghost predicate IsNode(m: Table, path: string, n: Node) {
    match n
    case Exact(rule) => Entry(path, rule) in m
    case Directory => !HasKey(m, path) && HasBelow(m, path)
    case Missing => !HasKey(m, path) && !HasBelow(m, path)
  }

  lemma NodeUnique(m: Table, path: string, a: Node, b: Node)
    requires Sorted(m) && IsNode(m, path, a) && IsNode(m, path, b)
    ensures a == b
  {
    if a.Exact? && b.Exact? {
      var i :| 0 <= i < |m| && m[i] == Entry(path, a.rule);
      var j :| 0 <= j < |m| && m[j] == Entry(path, b.rule);
      LessAsymmetric(path, path);
    }
  }

  /** The path of a name in a directory; the root is the empty path. */
  function Child(path: string, name: string): string {
    if path == "" then name else path + "/" + name
  }

  predicate IsName(name: string) {
    name != "" && '/' !in name
  }

  /** What a key contributes to the listing of a directory: the next component of its path, and whether
      more components follow. */
  function BaseOf(key: string, path: string): Option<(string, bool)> {
    if path != "" && !Extends(key, path) then None
    else
      var rest := if path == "" then key else key[|path| + 1..];
      var name := UpToSlash(rest);
      if name == "" then None else Some((name, name != rest))
  }

  function UpToSlash(s: string): (r: string)
    ensures '/' !in r && HasPrefix(s, r) && (r != s ==> Extends(s, r))
  {
    if s == "" || s[0] == '/' then "" else [s[0]] + UpToSlash(s[1..])
  }

  lemma {:induction false} UpToSlashIs(s: string, r: string)
    requires '/' !in r && HasPrefix(s, r) && (r == s || Extends(s, r))
    ensures UpToSlash(s) == r
    decreases |r|
  {
    if r != "" {
      assert r == [r[0]] + r[1..] && s[..|r|][0] == s[0];
      assert s[1..][..|r| - 1] == s[..|r|][1..];
      UpToSlashIs(s[1..], r[1..]);
    }
  }

  /** A key contributes a name as its last component iff it is the child's own key, and as an
      intermediate one iff it lies below the child. */
  lemma BaseIsChild(key: string, path: string, name: string)
    requires IsName(name)
    ensures BaseOf(key, path) == Some((name, false)) <==> key == Child(path, name)
    ensures BaseOf(key, path) == Some((name, true)) <==> Extends(key, Child(path, name))
  {
    if path == "" {
      BaseIsRest(key, name);
    } else {
      var front := path + "/";
      var child := front + name;
      assert child == path + "/" + name;
      if Extends(key, path) {
        assert key == front + key[|path| + 1..];
        BaseIsRest(key[|path| + 1..], name);
        var rest := key[|path| + 1..];
        assert key == child <==> rest == name by {
          assert rest == name ==> key == front + name;
          assert child[|path| + 1..] == name;
        }
        assert Extends(key, child) <==> Extends(rest, name) by {
          FrontPrefix(front, rest, name);
        }
      } else {
        ChildBelow(key, path, name);
      }
    }
  }

  lemma ChildBelow(key: string, path: string, name: string)
    ensures HasPrefix(key, path + "/" + name) ==> Extends(key, path)
    ensures HasPrefix(path + "/" + name, path + "/" + name)
  {
    var child := path + "/" + name;
    assert child[..|child|] == child;
    if HasPrefix(key, child) {
      assert key[..|path|] == key[..|child|][..|path|] == path;
      assert key[|path|] == key[..|child|][|path|] == '/';
    }
  }

  lemma FrontPrefix(front: string, rest: string, name: string)
    ensures HasPrefix(front + rest, front + name) <==> HasPrefix(rest, name)
    ensures Extends(front + rest, front + name) <==> Extends(rest, name)
  {
    if |name| <= |rest| {
      assert (front + rest)[..|front + name|] == front + rest[..|name|];
      assert (front + rest[..|name|])[|front|..] == rest[..|name|] && (front + name)[|front|..] == name;
    }
  }

  lemma BaseIsRest(rest: string, name: string)
    requires IsName(name)
    ensures UpToSlash(rest) == name <==> rest == name || Extends(rest, name)
    ensures rest == name ==> !Extends(rest, name)
  {
    if rest == name || Extends(rest, name) {
      assert rest == name ==> rest[..|name|] == name;
      UpToSlashIs(rest, name);
    }
  }

  /** The order is that of the first byte in which two strings differ; a prefix comes first. */
  lemma {:induction false} LessAt(front: string, a: string, b: string)
    ensures a != "" && b != "" && a[0] < b[0] ==> Less(front + a, front + b)
    ensures a != "" ==> Less(front, front + a)
    decreases |front|
  {
    if front == "" {
      assert front + a == a && front + b == b;
    } else {
      DropOfAppend(front, a, 1);
      DropOfAppend(front, b, 1);
      LessAt(front[1..], a, b);
    }
  }
}
