/** Byte strings and the two C memory calls the program builds on.
    A byte is a `char`; no theorem depends on an upper bound, so each holds for every byte string. */
module Bytes {

  datatype Option<+T> = None | Some(value: T)

  lemma DropOfAppend<T>(a: seq<T>, b: seq<T>, k: nat)
    requires k <= |a|
    ensures (a + b)[k..] == a[k..] + b
  {
  }

  lemma AppendAssoc<T>(a: seq<T>, b: seq<T>, c: seq<T>)
    ensures a + (b + c) == a + b + c
  {
  }

  function Flatten<T>(pieces: seq<seq<T>>): seq<T> {
    if pieces == [] then [] else pieces[0] + Flatten(pieces[1..])
  }

  lemma {:induction false} FlattenCons<T>(head: seq<T>, tail: seq<seq<T>>)
    ensures Flatten([head] + tail) == head + Flatten(tail)
  {
    assert ([head] + tail)[1..] == tail;
  }

  lemma {:induction false} FlattenAppend<T>(a: seq<seq<T>>, b: seq<seq<T>>)
    ensures Flatten(a + b) == Flatten(a) + Flatten(b)
  {
    if a == [] {
      assert a + b == b;
    } else {
      DropOfAppend(a, b, 1);
      FlattenAppend(a[1..], b);
      AppendAssoc(a[0], Flatten(a[1..]), Flatten(b));
    }
  }

  lemma {:induction false} FlattenSnoc<T>(pieces: seq<seq<T>>, last: seq<T>)
    ensures Flatten(pieces + [last]) == Flatten(pieces) + last
  {
    FlattenAppend(pieces, [last]);
    FlattenCons(last, []);
    assert [last] + [] == [last] && last + [] == last;
  }

  predicate Distinct<T(==)>(s: seq<T>) {
    forall i, j :: 0 <= i < j < |s| ==> s[i] != s[j]
  }

  /** The bytes of `s` that are not NUL, in order. */
  function WithoutNul(s: string): string {
    if s == "" then ""
    else if s[0] == '\0' then WithoutNul(s[1..])
    else [s[0]] + WithoutNul(s[1..])
  }

  lemma {:induction false} WithoutNulAppend(a: string, b: string)
    ensures WithoutNul(a + b) == WithoutNul(a) + WithoutNul(b)
  {
    if a == "" {
      assert a + b == b;
    } else {
      DropOfAppend(a, b, 1);
      WithoutNulAppend(a[1..], b);
    }
  }

  lemma {:induction false} WithoutNulIdentity(s: string)
    requires '\0' !in s
    ensures WithoutNul(s) == s
  {
    if s != "" {
      WithoutNulIdentity(s[1..]);
    }
  }

  /** The `char*` at the start of `s`: everything before the first NUL. */
  function CString(s: string): (r: string)
    ensures '\0' !in r && |r| <= |s|
  {
    if s == "" || s[0] == '\0' then "" else [s[0]] + CString(s[1..])
  }

  lemma {:induction false} CStringOf(s: string, tail: string)
    requires '\0' !in s
    ensures CString(s + ['\0'] + tail) == s
  {
    if s == "" {
      assert (s + ['\0'] + tail)[0] == '\0';
    } else {
      CStringOf(s[1..], tail);
      assert (s + ['\0'] + tail)[1..] == s[1..] + ['\0'] + tail;
    }
  }

  /** `realloc`: a block of the new size whose common prefix is kept; what lies beyond it is unspecified. A held
      block must not be resized to nothing: that gives it back. */
  method Realloc(block: array?<char>, size: nat) returns (grown: array<char>)
    requires block != null ==> block.Length <= size && 0 < size
    ensures fresh(grown) && grown.Length == size
    ensures block != null ==> grown[..block.Length] == block[..]
  {
    grown := new char[size];
    if block != null {
      forall i | 0 <= i < block.Length {
        grown[i] := block[i];
      }
    }
  }

  /** `memcpy` from a value into a block. */
  method Memcpy(block: array<char>, at: nat, bytes: string)
    requires at + |bytes| <= block.Length
    modifies block
    ensures block[..at + |bytes|] == old(block[..at]) + bytes
    ensures block[at + |bytes|..] == old(block[at + |bytes|..])
  {
    forall i | 0 <= i < |bytes| {
      block[at + i] := bytes[i];
    }
  }
}
