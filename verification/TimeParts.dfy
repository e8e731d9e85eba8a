/** The server's time format: cut at the nanosecond keyword, and joined again by Dump. */
module TimeParts {
  import opened Bytes
  import opened Paths

  const NS_KEYWORD := "%-"

  datatype Part = Nanoseconds | Text(form: string)

  predicate KeywordAt(s: string, k: nat) {
    k + 1 < |s| && s[k] == '%' && s[k + 1] == '-'
  }

  /** `find`: the first keyword. */
  function Find(s: string): (r: Option<nat>)
    ensures r.Some? ==> KeywordAt(s, r.value)
  {
    if KeywordAt(s, 0) then Some(0)
    else if s == "" then None
    else
      match Find(s[1..])
      case None => None
      case Some(k) =>
        assert KeywordAt(s[1..], k);
        Some(k + 1)
  }

  /** The keyword that `Find` gives is the first. */
  lemma {:induction false} FindIs(s: string, k: nat)
    requires KeywordAt(s, k) && forall j: nat :: j < k ==> !KeywordAt(s, j)
    ensures Find(s) == Some(k)
    decreases k
  {
    if k > 0 {
      assert !KeywordAt(s, 0);
      forall j: nat | j < k - 1
        ensures !KeywordAt(s[1..], j)
      {
        assert !KeywordAt(s, j + 1);
      }
      FindIs(s[1..], k - 1);
    }
  }

  lemma {:induction false} FindNone(s: string)
    requires forall j: nat :: !KeywordAt(s, j)
    ensures Find(s) == None
    decreases |s|
  {
    if s != "" {
      assert !KeywordAt(s, 0);
      forall j: nat
        ensures !KeywordAt(s[1..], j)
      {
        assert !KeywordAt(s, j + 1);
      }
      FindNone(s[1..]);
    }
  }

  /** No keyword before the one that `Find` gives. */
  lemma {:induction false} NoneBefore(s: string, j: nat)
    requires Find(s).None? || j < Find(s).value
    ensures !KeywordAt(s, j)
    decreases |s|
  {
    if s != "" && j > 0 {
      NoneBefore(s[1..], j - 1);
    }
  }

  function Texts(form: string): seq<Part> {
    if form == "" then [] else [Text(form)]
  }

  function Cut(s: string): seq<Part>
    decreases |s|
  {
    match Find(s)
    case None => Texts(s)
    case Some(k) => Texts(s[..k]) + [Nanoseconds] + Cut(s[k + 2..])
  }

  function DumpPart(p: Part): string {
    match p
    case Nanoseconds => NS_KEYWORD
    case Text(form) => form
  }

  function Joined(parts: seq<Part>): string {
    if parts == [] then "" else DumpPart(parts[0]) + Joined(parts[1..])
  }

  /** No empty text, no two texts side by side, no keyword inside a text. */
  ghost predicate Canonical(parts: seq<Part>) {
    && (forall i :: 0 <= i < |parts| && parts[i].Text? ==> parts[i].form != "" && Find(parts[i].form).None?)
    && (forall i :: 0 < i < |parts| ==> parts[i - 1].Nanoseconds? || parts[i].Nanoseconds?)
  }

  /** build_time_part_list: the rest of the format shrinks each turn. */
  method BuildTimePartList(value: string) returns (list: seq<Part>)
    requires '\0' !in value
    ensures list == Cut(StringContent(value))
  {
    list := [];
    if value == "" {
      return;
    }
    var strform := StringContent(value);
    ghost var whole := Cut(strform);
    assert [] + whole == whole;
    while strform != ""
      invariant list + Cut(strform) == whole
      decreases |strform|
    {
      var pos := Find(strform);
      if pos.None? {
        list := list + [Text(strform)];
        return;
      }
      var form := strform[..pos.value];
      ghost var rest := Cut(strform[pos.value + 2..]);
      AppendAssoc(list, Texts(form) + [Nanoseconds], rest);
      AppendAssoc(list, Texts(form), [Nanoseconds]);
      assert list + [] == list;
      if form != "" {
        list := list + [Text(form)];
      }
      list := list + [Nanoseconds];
      strform := strform[pos.value + 2..];
    }
    assert list + [] == list;
  }

  lemma {:induction false} JoinedAppend(a: seq<Part>, b: seq<Part>)
    ensures Joined(a + b) == Joined(a) + Joined(b)
  {
    if a == [] {
      assert a + b == b;
    } else {
      DropOfAppend(a, b, 1);
      JoinedAppend(a[1..], b);
      AppendAssoc(DumpPart(a[0]), Joined(a[1..]), Joined(b));
    }
  }

  lemma JoinedTexts(form: string)
    ensures Joined(Texts(form)) == form
  {
    if form != "" {
      assert Texts(form)[1..] == [] && form + "" == form;
    }
  }

  lemma JoinedKeyword()
    ensures Joined([Nanoseconds]) == NS_KEYWORD
  {
    assert [Nanoseconds][1..] == [] && NS_KEYWORD + "" == NS_KEYWORD;
  }

  lemma SplitAtKeyword(s: string, k: nat)
    requires KeywordAt(s, k)
    ensures s == s[..k] + NS_KEYWORD + s[k + 2..]
  {
  }

  /** Joining what was cut gives the format back. */
  lemma {:induction false} JoinOfCut(s: string)
    ensures Joined(Cut(s)) == s
    decreases |s|
  {
    match Find(s)
    case None => JoinedTexts(s);
    case Some(k) =>
      JoinOfCut(s[k + 2..]);
      JoinedTexts(s[..k]);
      JoinedKeyword();
      JoinedAppend(Texts(s[..k]), [Nanoseconds]);
      JoinedAppend(Texts(s[..k]) + [Nanoseconds], Cut(s[k + 2..]));
      SplitAtKeyword(s, k);
  }

  lemma FindPrefix(s: string)
    requires Find(s).Some?
    ensures Find(s[..Find(s).value]).None?
  {
    var k := Find(s).value;
    forall j: nat
      ensures !KeywordAt(s[..k], j)
    {
      if j < k {
        NoneBefore(s, j);
      }
    }
    FindNone(s[..k]);
  }

  lemma {:induction false} CutIsCanonical(s: string)
    ensures Canonical(Cut(s))
    decreases |s|
  {
    match Find(s)
    case None =>
    case Some(k) =>
      CutIsCanonical(s[k + 2..]);
      FindPrefix(s);
      CanonicalEntry(s[..k], Cut(s[k + 2..]));
  }

  lemma CanonicalEntry(form: string, tail: seq<Part>)
    requires Find(form).None? && Canonical(tail)
    ensures Canonical(Texts(form) + [Nanoseconds] + tail)
  {
  }

  lemma FindAfterText(form: string, s: string)
    requires Find(form).None? && KeywordAt(s, 0)
    ensures Find(form + s) == Some(|form|)
  {
    var all := form + s;
    assert KeywordAt(all, |form|);
    forall j: nat | j < |form|
      ensures !KeywordAt(all, j)
    {
      NoneBefore(form, j);
      assert all[j] == form[j];
      assert all[j + 1] == if j + 1 < |form| then form[j + 1] else '%';
    }
    FindIs(all, |form|);
  }

  /** Text and keyword in front of a list: cutting takes off exactly these. */
  lemma CutFront(form: string, tail: string)
    requires Find(form).None?
    ensures Cut(form + (NS_KEYWORD + tail)) == Texts(form) + [Nanoseconds] + Cut(tail)
  {
    var s := NS_KEYWORD + tail;
    assert KeywordAt(s, 0);
    FindAfterText(form, s);
    assert (form + s)[..|form|] == form && (form + s)[|form| + 2..] == tail;
  }

  lemma {:induction false} CutOfJoin(parts: seq<Part>)
    requires Canonical(parts)
    ensures Cut(Joined(parts)) == parts
    decreases |parts|
  {
    if parts == [] {
    } else if parts[0].Nanoseconds? {
      CutOfJoin(parts[1..]);
      CutFront("", Joined(parts[1..]));
      assert "" + Joined(parts) == Joined(parts);
      assert [] + [Nanoseconds] + parts[1..] == parts;
    } else if |parts| == 1 {
      assert parts == Texts(parts[0].form);
      JoinedTexts(parts[0].form);
    } else {
      var form, tail := parts[0].form, parts[2..];
      assert parts[1].Nanoseconds? && parts[1..][1..] == tail;
      assert Canonical(tail);
      CutOfJoin(tail);
      CutFront(form, Joined(tail));
      assert Joined(parts) == form + (NS_KEYWORD + Joined(tail));
      assert [parts[0]] + [Nanoseconds] + tail == parts;
    }
  }

  /** Cutting what was joined gives the list back iff the list is canonical. */
  lemma {:induction false} CutOfJoinIff(parts: seq<Part>)
    ensures Cut(Joined(parts)) == parts <==> Canonical(parts)
  {
    CutIsCanonical(Joined(parts));
    if Canonical(parts) {
      CutOfJoin(parts);
    }
  }

  // ---- A format in which "%%" stands for one '%' ----

  /** Cutting by tokens: the '%' of a keyword may not be the second one of a "%%". */
  function CutTokens(form: string, s: string): seq<Part>
    decreases |s|
  {
    if s == "" then Texts(form)
    else if KeywordAt(s, 0) then Texts(form) + [Nanoseconds] + CutTokens("", s[2..])
    else if PercentPair(s) then CutTokens(form + "%%", s[2..])
    else CutTokens(form + [s[0]], s[1..])
  }

  predicate PercentPair(s: string) {
    |s| >= 2 && s[0] == '%' == s[1]
  }

  /** No keyword starts at the second '%' of a "%%", reading the format token by token. */
  predicate PairsApart(s: string)
    decreases |s|
  {
    if s == "" then true
    else if KeywordAt(s, 0) then PairsApart(s[2..])
    else if PercentPair(s) then !KeywordAt(s, 1) && PairsApart(s[2..])
    else PairsApart(s[1..])
  }

  /** Text so far that ends in '%', right before a '-'. */
  predicate Meets(form: string, s: string) {
    form != "" && form[|form| - 1] == '%' && s != "" && s[0] == '-'
  }

  lemma {:induction false} JoinOfTokens(form: string, s: string)
    ensures Joined(CutTokens(form, s)) == form + s
    decreases |s|
  {
    JoinedTexts(form);
    if s == "" {
      assert form + s == form;
    } else if KeywordAt(s, 0) {
      JoinOfTokens("", s[2..]);
      JoinOfEntry(form, CutTokens("", s[2..]));
      assert s == NS_KEYWORD + ("" + s[2..]);
    } else if PercentPair(s) {
      JoinOfTokens(form + "%%", s[2..]);
      AppendAssoc(form, "%%", s[2..]);
      assert s == "%%" + s[2..];
    } else {
      JoinOfTokens(form + [s[0]], s[1..]);
      AppendAssoc(form, [s[0]], s[1..]);
      assert s == [s[0]] + s[1..];
    }
  }

  lemma JoinOfEntry(form: string, tail: seq<Part>)
    ensures Joined(Texts(form) + [Nanoseconds] + tail) == form + (NS_KEYWORD + Joined(tail))
  {
    JoinedTexts(form);
    JoinedKeyword();
    JoinedAppend(Texts(form), [Nanoseconds]);
    JoinedAppend(Texts(form) + [Nanoseconds], tail);
    AppendAssoc(form, NS_KEYWORD, Joined(tail));
  }

  lemma FindKeyword(s: string, k: nat)
    requires KeywordAt(s, k)
    ensures Find(s).Some?
  {
    if Find(s).None? {
      NoneBefore(s, k);
    }
  }

  lemma FindLonger(form: string, more: string)
    requires Find(form).Some?
    ensures Find(form + more).Some?
  {
    assert KeywordAt(form + more, Find(form).value);
    FindKeyword(form + more, Find(form).value);
  }

  /** A keyword inside a text stays there. */
  lemma {:induction false} KeywordStays(form: string, s: string)
    requires Find(form).Some?
    ensures !Canonical(CutTokens(form, s))
    decreases |s|
  {
    if s == "" || KeywordAt(s, 0) {
      assert CutTokens(form, s)[0] == Text(form);
    } else if PercentPair(s) {
      FindLonger(form, "%%");
      KeywordStays(form + "%%", s[2..]);
    } else {
      FindLonger(form, [s[0]]);
      KeywordStays(form + [s[0]], s[1..]);
    }
  }

  lemma TextGrows(form: string, c: char)
    requires Find(form).None?
    ensures Find(form + [c]).Some? <==> Meets(form, [c])
  {
    var grown := form + [c];
    if Meets(form, [c]) {
      FindKeyword(grown, |form| - 1);
    }
    if Find(grown).Some? {
      var k := Find(grown).value;
      NoneBefore(form, k);
    }
  }

  lemma EntryCanonical(form: string, tail: seq<Part>)
    requires Find(form).None?
    ensures Canonical(Texts(form) + [Nanoseconds] + tail) <==> Canonical(tail)
  {
    var all := Texts(form) + [Nanoseconds] + tail;
    var n := |Texts(form)| + 1;
    forall i | 0 <= i < |tail|
      ensures all[n + i] == tail[i]
    {
    }
    if Canonical(tail) {
      CanonicalEntry(form, tail);
    }
  }

  lemma {:induction false} TokensCanonicalIff(form: string, s: string)
    requires Find(form).None?
    ensures Canonical(CutTokens(form, s)) <==> PairsApart(s) && !Meets(form, s)
    decreases |s|
  {
    if s != "" {
      if KeywordAt(s, 0) {
        TokensCanonicalIff("", s[2..]);
        EntryCanonical(form, CutTokens("", s[2..]));
      } else if PercentPair(s) {
        TextGrows(form, '%');
        TextGrows(form + ['%'], '%');
        assert form + ['%'] + ['%'] == form + "%%";
        TokensCanonicalIff(form + "%%", s[2..]);
      } else {
        TextGrows(form, s[0]);
        if Meets(form, s) {
          KeywordStays(form + [s[0]], s[1..]);
        } else {
          TokensCanonicalIff(form + [s[0]], s[1..]);
        }
      }
    }
  }

  /** The program's cut is the cut by tokens iff no keyword starts at the second '%' of a "%%". */
  lemma CutIsTokensIff(s: string)
    ensures Cut(s) == CutTokens("", s) <==> PairsApart(s)
  {
    CutIsCanonical(s);
    TokensCanonicalIff("", s);
    JoinOfTokens("", s);
    assert "" + s == s;
    CutOfJoinIff(CutTokens("", s));
  }

  /** A format with such a pair: the program takes "%%-" for a '%' and the nanoseconds. */
  lemma PercentBeforeKeyword()
    ensures Cut("%%-") == [Text("%"), Nanoseconds]
    ensures CutTokens("", "%%-") == [Text("%%-")] && !PairsApart("%%-")
  {
    FindIs("%%-", 1);
    assert "%%-"[..1] == "%" && "%%-"[3..] == "";
    assert "%%-"[2..] == "-" && "-"[1..] == "" && "" + "%%" + ['-'] == "%%-";
  }
}
