/** Path helpers and the unquoting of configuration values. */
module Paths {
  import opened Bytes

  /** `strrchr`: where `c` occurs last. */
  function LastIndex(s: string, c: char): (r: Option<nat>)
    ensures r.None? <==> c !in s
    ensures r.Some? ==> r.value < |s| && s[r.value] == c && c !in s[r.value + 1..]
  {
    if s == "" then None
    else if s[|s| - 1] == c then Some(|s| - 1)
    else
      var r := LastIndex(s[..|s| - 1], c);
      assert r.Some? ==> s[r.value + 1..] == s[..|s| - 1][r.value + 1..] + [s[|s| - 1]];
      assert s == s[..|s| - 1] + [s[|s| - 1]];
      r
  }

  lemma {:induction false} LastIndexUnique(s: string, c: char, k: nat)
    requires k < |s| && s[k] == c && c !in s[k + 1..]
    ensures LastIndex(s, c) == Some(k)
    decreases |s|
  {
    if k < |s| - 1 {
      var front := s[..|s| - 1];
      assert s[k + 1..] == front[k + 1..] + [s[|s| - 1]];
      assert s[|s| - 1] in s[k + 1..];
      LastIndexUnique(front, c, k);
    }
  }

  lemma LastIsLast(s: string, c: char, i: nat)
    requires i < |s| && s[i] == c
    ensures LastIndex(s, c).Some? && i <= LastIndex(s, c).value
  {
    assert c in s;
    var k := LastIndex(s, c).value;
    assert forall j :: k < j < |s| ==> s[j] == s[k + 1..][j - k - 1];
  }

  /** get_string_content: without the opening quote and everything from the last quote on. */
  function StringContent(value: string): string {
    if value == "" || value[0] != '\"' then value
    else
      match LastIndex(value[1..], '\"')
      case None => value[1..]
      case Some(k) => value[1..][..k]
  }

  lemma QuotedContent(s: string)
    ensures StringContent(['\"'] + s + ['\"']) == s
  {
    var inner := s + ['\"'];
    assert (['\"'] + s + ['\"'])[1..] == inner;
    assert inner[|s| + 1..] == "";
    LastIndexUnique(inner, '\"', |s|);
  }

  /** get_file_name: the part after the last '/'. None for an empty path and for "/". */
  function FileName(path: string): Option<string> {
    if path == "" || path == "/" then None
    else if path[|path| - 1] == '/' then Some("")
    else
      match LastIndex(path, '/')
      case None => Some(path)
      case Some(k) => Some(path[k + 1..])
  }

  /** get_parent_dirpath: one '/' at the end is ignored; None when no other '/' is left. */
  function ParentPath(path: string): Option<string> {
    if path == "" || path == "/" then None
    else
      var tmp := if path[|path| - 1] == '/' then path[..|path| - 1] else path;
      match LastIndex(tmp, '/')
      case None => None
      case Some(0) => Some("/")
      case Some(k) => Some(tmp[..k])
  }

  /** Writes a NUL at `pos` and reads the string before it back. */
  method TruncateAt(tmp: array<char>, pos: nat) returns (text: string)
    requires pos < tmp.Length && '\0' !in tmp[..pos]
    modifies tmp
    ensures text == old(tmp[..pos]) == tmp[..pos]
  {
    ghost var before := tmp[..pos];
    tmp[pos] := '\0';
    assert tmp[..] == before + ['\0'] + tmp[pos + 1..];
    CStringOf(before, tmp[pos + 1..]);
    text := CString(tmp[..]);
  }

  /** The truncation is done in place on a duplicate: NULs over the last '/'s. */
  method GetParentDirpath(path: string) returns (parent: Option<string>)
    requires '\0' !in path
    ensures parent == ParentPath(path)
  {
    if path == "" || path == "/" {
      return None;
    }
    var n := |path|;
    var tmp := new char[n + 1](i requires 0 <= i => if i < n then path[i] else '\0');
    assert tmp[..n] == path;
    var text := path;
    if path[n - 1] == '/' {
      assert tmp[..n - 1] == path[..n - 1];
      text := TruncateAt(tmp, n - 1);
    }
    var pos := LastIndex(text, '/');
    if pos.None? {
      return None;
    }
    assert tmp[..|text|] == text;
    assert tmp[..pos.value] == text[..pos.value];
    text := TruncateAt(tmp, pos.value);
    return Some(if text == "" then "/" else text);
  }

  predicate EndsInSlash(path: string) {
    path != "" && path[|path| - 1] == '/'
  }

  /** Parent and name split a path at its last '/'; a path has a parent iff a '/' is left before its name. */
  lemma SplitPath(path: string)
    requires path != "" && !EndsInSlash(path)
    ensures FileName(path).Some? && '/' !in FileName(path).value && FileName(path).value != ""
    ensures ParentPath(path).Some? <==> '/' in path
    ensures ParentPath(path).Some? ==>
              var parent, name := ParentPath(path).value, FileName(path).value;
              parent != "" && (path == parent + "/" + name || (parent == "/" && path == "/" + name))
  {
    var k := LastIndex(path, '/');
    if k.Some? {
      assert path == path[..k.value] + "/" + path[k.value + 1..];
    }
  }

  /** An unquoted value is taken whole; a quoted one ends at its last quote, or without one at its end. */
  lemma OtherContent(s: string, tail: string)
    ensures s == "" || s[0] != '\"' ==> StringContent(s) == s
    ensures '\"' !in s ==> StringContent(['\"'] + s) == s
    ensures '\"' !in tail ==> StringContent(['\"'] + s + ['\"'] + tail) == s
  {
    assert (['\"'] + s)[1..] == s;
    if '\"' !in tail {
      var inner := s + ['\"'] + tail;
      assert (['\"'] + s + ['\"'] + tail)[1..] == inner && inner[|s| + 1..] == tail && inner[|s|] == '\"';
      LastIndexUnique(inner, '\"', |s|);
    }
  }

  /** One '/' at the end leaves a path with the same parent and no file name. */
  lemma SlashAtEnd(path: string)
    requires path != "" && !EndsInSlash(path)
    ensures ParentPath(path + "/") == ParentPath(path) && FileName(path + "/") == Some("")
  {
    var longer := path + "/";
    assert longer[..|longer| - 1] == path;
  }
}
