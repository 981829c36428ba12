/** The source-closure hash input: sorted names and contents, each with its length in front. */
module Closure {
  import opened Bytes
  import opened Text
  import opened Sorting

  /** One file. Everything below holds for any encoding of names that keeps them apart, as UTF-8 does. */
  datatype File = File(name: string, data: Bytes)

  predicate NameLe(a: File, b: File) {
    Le(a.name, b.name)
  }

  type Encoding = string -> Bytes

  ghost predicate Injective(utf8: Encoding) {
    forall a, b :: utf8(a) == utf8(b) ==> a == b
  }

  predicate Encodable(utf8: Encoding, f: File) {
    |utf8(f.name)| < 0x1_0000_0000 && |f.data| < 0x1_0000_0000_0000_0000
  }

  /** A dict's items: any order, no name twice. */
  predicate IsDict(files: seq<File>) {
    forall i, j | 0 <= i < j < |files| :: files[i].name != files[j].name
  }

  predicate AllEncodable(utf8: Encoding, files: seq<File>) {
    forall i | 0 <= i < |files| :: Encodable(utf8, files[i])
  }

  /** Sorting keeps what holds of every file. */
  lemma SortedFiles(utf8: Encoding, files: seq<File>)
    ensures AllEncodable(utf8, files) ==> AllEncodable(utf8, Sort(NameLe, files))
  {
    var sorted := Sort(NameLe, files);
    SortKeeps(NameLe, files);
    forall i | 0 <= i < |sorted|
      ensures sorted[i] in files
    {
      assert sorted[i] in multiset(sorted);
    }
  }

  function Field(width: nat, b: Bytes): Bytes {
    BE(width, |b|) + b
  }

  function EncFile(utf8: Encoding, f: File): Bytes {
    Field(4, utf8(f.name)) + Field(8, f.data)
  }

  function EncFiles(utf8: Encoding, files: seq<File>): Bytes {
    if files == [] then [] else EncFile(utf8, files[0]) + EncFiles(utf8, files[1..])
  }

  /** All that is fed to the digest for a dict of files. */
  function Preimage(utf8: Encoding, files: seq<File>): Bytes {
    EncFiles(utf8, Sort(NameLe, files))
  }

  /** The digest loop of _runtime_sources. */
  method FeedDigest(utf8: Encoding, files: seq<File>) returns (fed: Bytes)
    ensures fed == Preimage(utf8, files)
  {
    fed := [];
    var sorted := Sort(NameLe, files);
    assert sorted[..0] == [];
    for k := 0 to |sorted|
      invariant fed == EncFiles(utf8, sorted[..k])
    {
      var encoded := utf8(sorted[k].name);
      EncFilesSnoc(utf8, sorted[..k], sorted[k]);
      assert sorted[..k + 1] == sorted[..k] + [sorted[k]];
      ghost var before := fed;
      fed := fed + (BE(4, |encoded|) + encoded);
      fed := fed + (BE(8, |sorted[k].data|) + sorted[k].data);
      Assoc(before, Field(4, encoded), Field(8, sorted[k].data));
    }
    assert sorted[..|sorted|] == sorted;
  }

  lemma {:induction false} EncFilesSnoc(utf8: Encoding, files: seq<File>, f: File)
    ensures EncFiles(utf8, files + [f]) == EncFiles(utf8, files) + EncFile(utf8, f)
  {
    if files == [] {
      assert [f][1..] == [];
      assert EncFiles(utf8, [f]) == EncFile(utf8, f) + EncFiles(utf8, []);
    } else {
      EncFilesSnoc(utf8, files[1..], f);
      assert (files + [f])[1..] == files[1..] + [f];
      Assoc(EncFile(utf8, files[0]), EncFiles(utf8, files[1..]), EncFile(utf8, f));
    }
  }

  // ---- the decoder ------------------------------------------------------------

  datatype Parsed = Bad | Field(body: Bytes, rest: Bytes)

  function ReadField(width: nat, bs: Bytes): Parsed {
    if |bs| < width then Bad
    else
      var n := FromBE(bs[..width]);
      if |bs| - width < n then Bad else Parsed.Field(bs[width..width + n], bs[width + n..])
  }

  lemma ReadFieldBack(width: nat, b: Bytes, rest: Bytes)
    requires |b| < Span(width)
    ensures ReadField(width, Field(width, b) + rest) == Parsed.Field(b, rest)
  {
    FromBEOfBE(width, |b|);
    var bs := Field(width, b) + rest;
    assert bs[..width] == BE(width, |b|);
    assert bs[width..width + |b|] == b;
    assert bs[width + |b|..] == rest;
  }

  /** The encoded names and the contents that the bytes stand for, read front to back. */
  function Decode(bs: Bytes): seq<(Bytes, Bytes)>
    decreases |bs|
  {
    var name := ReadField(4, bs);
    if name.Bad? || |name.rest| >= |bs| then []
    else
      var data := ReadField(8, name.rest);
      if data.Bad? then [] else [(name.body, data.body)] + Decode(data.rest)
  }

  /** The files with their names encoded. */
  function Coded(utf8: Encoding, files: seq<File>): (r: seq<(Bytes, Bytes)>)
    ensures |r| == |files|
    ensures forall i | 0 <= i < |r| :: r[i] == (utf8(files[i].name), files[i].data)
  {
    seq(|files|, i requires 0 <= i < |files| => (utf8(files[i].name), files[i].data))
  }

  lemma DecodeStep(bs: Bytes, name: Bytes, after: Bytes, data: Bytes, rest: Bytes)
    requires |after| < |bs|
    requires ReadField(4, bs) == Parsed.Field(name, after) && ReadField(8, after) == Parsed.Field(data, rest)
    ensures Decode(bs) == [(name, data)] + Decode(rest)
  {
  }

  lemma {:induction false} DecodeBack(utf8: Encoding, files: seq<File>)
    requires AllEncodable(utf8, files)
    ensures Decode(EncFiles(utf8, files)) == Coded(utf8, files)
  {
    if files != [] {
      var f, rest := files[0], EncFiles(utf8, files[1..]);
      var name := utf8(f.name);
      var after := Field(8, f.data) + rest;
      assert Encodable(utf8, f);
      SpanValues();
      Assoc(Field(4, name), Field(8, f.data), rest);
      ReadFieldBack(4, name, after);
      ReadFieldBack(8, f.data, rest);
      DecodeStep(Field(4, name) + after, name, after, f.data, rest);
      DecodeBack(utf8, files[1..]);
      assert Coded(utf8, files) == [(name, f.data)] + Coded(utf8, files[1..]);
    }
  }

  lemma NameOrder()
    ensures Preorder(NameLe)
  {
    forall a, b ensures NameLe(a, b) || NameLe(b, a) {
      LeTotal(a.name, b.name);
    }
    forall a, b, c | NameLe(a, b) && NameLe(b, c) ensures NameLe(a, c) {
      LeTransitive(a.name, b.name, c.name);
    }
  }

  lemma NamesSeparate(files: seq<File>)
    requires IsDict(files)
    ensures Separates(NameLe, files)
  {
    forall a, b | a in files && b in files && NameLe(a, b) && NameLe(b, a)
      ensures a == b
    {
      LeTotal(a.name, b.name);
      var i :| 0 <= i < |files| && files[i] == a;
      var j :| 0 <= j < |files| && files[j] == b;
    }
  }

  /** The decoder recovers the files, in name order, from what was hashed. */
  lemma PreimageDecodes(utf8: Encoding, files: seq<File>)
    requires AllEncodable(utf8, files)
    ensures Decode(Preimage(utf8, files)) == Coded(utf8, Sort(NameLe, files))
  {
    SortedFiles(utf8, files);
    DecodeBack(utf8, Sort(NameLe, files));
  }

  lemma CodedInjective(utf8: Encoding, a: seq<File>, b: seq<File>)
    requires Injective(utf8) && Coded(utf8, a) == Coded(utf8, b)
    ensures a == b
  {
    var ca, cb := Coded(utf8, a), Coded(utf8, b);
    assert |a| == |ca| == |cb| == |b|;
    forall i | 0 <= i < |a|
      ensures a[i] == b[i]
    {
      assert ca[i] == cb[i];
    }
  }

  /** The hash input identifies the dict: equal inputs exactly for the same files, in any order. */
  lemma PreimageInjective(utf8: Encoding, a: seq<File>, b: seq<File>)
    requires Injective(utf8) && IsDict(a) && IsDict(b)
    requires AllEncodable(utf8, a) && AllEncodable(utf8, b)
    ensures Preimage(utf8, a) == Preimage(utf8, b) <==> multiset(a) == multiset(b)
  {
    if Preimage(utf8, a) == Preimage(utf8, b) {
      PreimageDecodes(utf8, a);
      PreimageDecodes(utf8, b);
      CodedInjective(utf8, Sort(NameLe, a), Sort(NameLe, b));
      SortKeeps(NameLe, a);
      SortKeeps(NameLe, b);
    }
    if multiset(a) == multiset(b) {
      NameOrder();
      NamesSeparate(a);
      SortCanonical(NameLe, a, b);
    }
  }

  /** The files are hashed and written in the order of their names: a front before the whole, and by code point. */
  lemma NamesAscend(files: seq<File>, i: nat, j: nat)
    requires IsDict(files) && i < j < |Sort(NameLe, files)|
    ensures var sorted := Sort(NameLe, files);
      Before(sorted[i].name, sorted[j].name) && sorted[i].name != sorted[j].name
  {
    var sorted := Sort(NameLe, files);
    NameOrder();
    SortSorted(NameLe, files);
    LeIsBefore(sorted[i].name, sorted[j].name);
    SortKeeps(NameLe, files);
    if sorted[i].name == sorted[j].name {
      SortedDict(files);
    }
  }

  lemma SortedDict(files: seq<File>)
    requires IsDict(files)
    ensures IsDict(Sort(NameLe, files))
  {
    var sorted := Sort(NameLe, files);
    SortKeeps(NameLe, files);
    forall i, j | 0 <= i < j < |sorted|
      ensures sorted[i].name != sorted[j].name
    {
      SameNames(files, sorted, i, j);
    }
  }

  lemma SameNames(files: seq<File>, sorted: seq<File>, i: nat, j: nat)
    requires IsDict(files) && multiset(sorted) == multiset(files) && i < j < |sorted|
    ensures sorted[i].name != sorted[j].name
  {
    var a, b := sorted[i], sorted[j];
    assert a in multiset(sorted) && b in multiset(sorted);
    var k :| 0 <= k < |files| && files[k] == a;
    var m :| 0 <= m < |files| && files[m] == b;
    if a == b {
      DistinctCount(files, a);
      Twice(sorted, i, j);
    }
  }

  lemma Twice(s: seq<File>, i: nat, j: nat)
    requires i < j < |s| && s[i] == s[j]
    ensures multiset(s)[s[i]] >= 2
  {
    assert s == s[..j] + ([s[j]] + s[j + 1..]);
    assert s[i] in s[..j];
  }

  /** What is fed to the digest for two files, whichever was put in first. */
  lemma TwoFiles(utf8: Encoding, a: File, b: File)
    requires Before(a.name, b.name) && a.name != b.name
    ensures Preimage(utf8, [b, a]) == Preimage(utf8, [a, b]) ==
              (BE(4, |utf8(a.name)|) + utf8(a.name) + (BE(8, |a.data|) + a.data))
              + (BE(4, |utf8(b.name)|) + utf8(b.name) + (BE(8, |b.data|) + b.data))
  {
    NameOrder();
    NamesSeparate([a, b]);
    assert multiset([a, b]) == multiset([b, a]);
    SortCanonical(NameLe, [a, b], [b, a]);
    LeIsBefore(a.name, b.name);
    var sorted := Sort(NameLe, [a, b]);
    SortSorted(NameLe, [a, b]);
    SortKeeps(NameLe, [a, b]);
    SortOfTwo(sorted, a, b);
    assert EncFiles(utf8, [a, b]) == EncFile(utf8, a) + EncFiles(utf8, [b]);
    assert [b][1..] == [];
    assert EncFiles(utf8, [b]) == EncFile(utf8, b) + EncFiles(utf8, []);
  }

  lemma SortOfTwo(sorted: seq<File>, a: File, b: File)
    requires multiset(sorted) == multiset([a, b]) && Sorted(NameLe, sorted)
    requires NameLe(a, b) && a.name != b.name
    ensures sorted == [a, b]
  {
    assert |multiset(sorted)| == 2;
    assert sorted == [sorted[0], sorted[1]];
    assert sorted[0] in multiset([a, b]) && sorted[1] in multiset([a, b]);
    LeTotal(a.name, b.name);
    assert multiset(sorted)[a] >= 1 && multiset(sorted)[b] >= 1;
  }

  /** The items of a dict, each once. */
  ghost predicate Items(files: seq<File>, m: map<string, Bytes>) {
    IsDict(files) && forall f :: f in files <==> f.name in m && m[f.name] == f.data
  }

  lemma {:induction false} DistinctCount(files: seq<File>, f: File)
    requires IsDict(files)
    ensures multiset(files)[f] == if f in files then 1 else 0
  {
    if files != [] {
      var front, last := files[..|files| - 1], files[|files| - 1];
      DistinctCount(front, f);
      assert files == front + [last];
    }
  }

  /** The order in which members are written depends only on the map, not on how it was filled. */
  lemma MembersInNameOrder(a: seq<File>, b: seq<File>, m: map<string, Bytes>)
    requires Items(a, m) && Items(b, m)
    ensures Sort(NameLe, a) == Sort(NameLe, b)
    ensures Sorted(NameLe, Sort(NameLe, a)) && multiset(Sort(NameLe, a)) == multiset(a)
  {
    forall f
      ensures multiset(a)[f] == multiset(b)[f]
    {
      DistinctCount(a, f);
      DistinctCount(b, f);
    }
    NameOrder();
    NamesSeparate(a);
    SortCanonical(NameLe, a, b);
    SortSorted(NameLe, a);
    SortKeeps(NameLe, a);
  }
}
