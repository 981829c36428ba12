/** What an accepted source bundle looks like, rule by rule. */
module SourceRules {
  import opened Bytes
  import opened Wrappers
  import opened Text
  import opened Trees
  import opened SourceBundle
  import opened BundleOrder

  /** A part of a path: letters, digits, underscore, dot and hyphen, and no step up or in place. */
  predicate SafePart(p: string) {
    && p != "" && p != "." && p != ".."
    && forall i | 0 <= i < |p| ::
         'a' <= p[i] <= 'z' || 'A' <= p[i] <= 'Z' || '0' <= p[i] <= '9' || p[i] == '_' || p[i] == '.' || p[i] == '-'
  }

  /** A relative path of safe parts, within 240 characters. */
  predicate SafeName(name: string) {
    var parts := Split(name, '/');
    1 <= |name| <= 240 && forall i | 0 <= i < |parts| :: SafePart(parts[i])
  }

  /** The last part of a name has this ending, and something before it. */
  predicate Ends(name: string, ext: string) {
    var last := Lower(LastPart(name));
    |last| > |ext| && EndsWith(last, ext)
  }

  /** An ending with one dot, in front. */
  predicate Extension(ext: string) {
    |ext| >= 2 && ext[0] == '.' && forall i | 1 <= i < |ext| :: ext[i] != '.' && LowerChar(ext[i]) == ext[i]
  }

  lemma {:induction false} LastDotIs(s: string)
    ensures var i := LastDot(s); (i >= 0 ==> s[i] == '.') && forall k | i < k < |s| :: s[k] != '.'
  {
    if s != "" && s[|s| - 1] != '.' {
      LastDotIs(s[..|s| - 1]);
    }
  }

  lemma LowerOfTail(s: string, i: nat)
    requires i <= |s|
    ensures Lower(s[i..]) == Lower(s)[i..]
  {
  }

  lemma {:induction false} LastDotOf(stem: string, tail: string)
    requires tail != "" && tail[0] == '.' && forall m | 1 <= m < |tail| :: tail[m] != '.'
    ensures LastDot(stem + tail) == |stem|
  {
    var s := stem + tail;
    if |tail| > 1 {
      var front := tail[..|tail| - 1];
      assert s[..|s| - 1] == stem + front;
      LastDotOf(stem, front);
    }
  }

  lemma DotsOfTail(tail: string, ext: string)
    requires Extension(ext) && Lower(tail) == ext
    ensures |tail| == |ext| && tail[0] == '.' && forall m | 1 <= m < |tail| :: tail[m] != '.'
  {
    forall m | 0 <= m < |tail|
      ensures ext[m] == LowerChar(tail[m])
    {
    }
  }

  function LastPart(name: string): string {
    var parts := Split(name, '/');
    parts[|parts| - 1]
  }

  /** From the last dot on, if that is neither the first nor the last character. */
  function FromDot(last: string): string {
    var i := LastDot(last);
    if 0 < i < |last| - 1 then last[i..] else ""
  }

  lemma SuffixFromDot(name: string)
    ensures Suffix(name) == FromDot(LastPart(name))
  {
  }

  lemma FromDotIs(last: string, k: nat, tail: string)
    requires 0 < k < |last| - 1 && tail == last[k..] && tail[0] == '.' && forall m | 1 <= m < |tail| :: tail[m] != '.'
    ensures FromDot(last) == tail
  {
    LastDotOf(last[..k], tail);
    assert last[..k] + tail == last;
  }

  lemma FromDotTail(last: string, tail: string) returns (i: nat)
    requires tail == FromDot(last) && tail != ""
    ensures 0 < i < |last| && tail == last[i..]
  {
    i := LastDot(last);
  }

  lemma EndsHasSuffix(last: string, ext: string, k: nat, tail: string)
    requires Extension(ext) && k == |last| - |ext| > 0 && tail == last[k..] && Lower(tail) == ext
    ensures FromDot(last) == tail
  {
    DotsOfTail(tail, ext);
    FromDotIs(last, k, tail);
  }

  lemma SuffixEnds(last: string, ext: string, tail: string)
    requires tail == FromDot(last) && tail != "" && Lower(tail) == ext
    ensures |last| > |ext| && Lower(last)[|last| - |ext|..] == ext
  {
    var i := FromDotTail(last, tail);
    LowerOfTail(last, i);
  }

  /** Path.suffix, in lower case, is an extension exactly if the name ends in it. */
  lemma SuffixIs(name: string, ext: string)
    requires Extension(ext)
    ensures Lower(Suffix(name)) == ext <==> Ends(name, ext)
  {
    var last := LastPart(name);
    SuffixFromDot(name);
    if Ends(name, ext) {
      var k := |last| - |ext|;
      LowerOfTail(last, k);
      EndsHasSuffix(last, ext, k, last[k..]);
    } else if Lower(FromDot(last)) == ext {
      LowerEmpty(FromDot(last));
      SuffixEnds(last, ext, FromDot(last));
    }
  }

  /** The last dot of the last part, if any, is the first or the last character. */
  predicate Bare(name: string) {
    var last := LastPart(name);
    forall i | 0 < i < |last| - 1 && last[i] == '.' :: exists k | i < k < |last| :: last[k] == '.'
  }

  lemma BareIff(name: string)
    ensures Suffix(name) == "" <==> Bare(name)
  {
    var last := LastPart(name);
    var d := LastDot(last);
    LastDotIs(last);
    SuffixFromDot(name);
    assert Suffix(name) == "" <==> !(0 < d < |last| - 1);
    if !(0 < d < |last| - 1) {
      forall i | 0 < i < |last| - 1 && last[i] == '.'
        ensures i < d < |last| && last[d] == '.'
      {
      }
    }
  }

  /** What every entry of an accepted bundle keeps to. */
  ghost predicate Lawful(e: Entry, py: Python) {
    var name := Wanted(e);
    && SafeName(name)
    && !e.renamed && !e.encrypted && e.supported
    && (e.fileType == Unset || e.fileType == if IsDir(e) then Directory else Regular)
    && Unreserved(Split(name, '/'), py)
    && (if IsDir(e) then e.size == 0
        else
          && TextName(name)
          && |e.data| == e.size <= 8_388_608
          && py.utf8(e.data) && 0 !in e.data)
  }

  /** Outside the SDK, the standard library, distribution metadata and the build record, in any case. */
  ghost predicate Unreserved(parts: seq<string>, py: Python)
    requires parts != []
  {
    var top := Lower(Split(parts[0], '.')[0]);
    && top != "hawcx_haap" && top !in py.stdlib
    && Lower(parts[0]) != "_hawcx_build.json"
    && forall i | 0 <= i < |parts| :: !EndsWith(Lower(parts[i]), ".dist-info") && !EndsWith(Lower(parts[i]), ".egg-info")
  }

  const TEXT_ENDINGS := {".py", ".txt", ".md", ".json", ".toml", ".yaml", ".yml", ".csv", ".ini", ".cfg"}

  /** A file name with an ending of a text file, or with none. */
  ghost predicate TextName(name: string) {
    Bare(name) || exists ext | ext in TEXT_ENDINGS :: Ends(name, ext)
  }

  lemma LowerEmpty(s: string)
    ensures Lower(s) == "" <==> s == ""
  {
  }

  lemma EndingsAreExtensions(ext: string)
    requires ext in TEXT_ENDINGS
    ensures Extension(ext)
  {
  }

  lemma EndingIff(name: string, suffix: string)
    requires suffix == Lower(Suffix(name))
    ensures suffix in TEXT_ENDINGS <==> exists ext | ext in TEXT_ENDINGS :: Ends(name, ext)
  {
    if suffix in TEXT_ENDINGS {
      EndingsAreExtensions(suffix);
      SuffixIs(name, suffix);
    }
    forall ext | ext in TEXT_ENDINGS && Ends(name, ext)
      ensures suffix == ext
    {
      EndingsAreExtensions(ext);
      SuffixIs(name, ext);
    }
  }

  lemma TextIsNotNative(suffix: string)
    ensures IsText(suffix) <==> suffix == "" || suffix in TEXT_ENDINGS
    ensures IsText(suffix) ==> !IsNative(suffix)
  {
  }

  lemma TextNameIff(name: string, suffix: string)
    requires suffix == Lower(Suffix(name))
    ensures IsText(suffix) <==> TextName(name)
  {
    LowerEmpty(Suffix(name));
    BareIff(name);
    EndingIff(name, suffix);
    TextIsNotNative(suffix);
  }

  lemma NameIff(e: Entry, py: Python)
    ensures MemberName(e, py).Ok? <==>
              var name := Wanted(e);
              && SafeName(name) && !e.renamed && !e.encrypted && e.supported
              && (e.fileType == Unset || e.fileType == if IsDir(e) then Directory else Regular)
              && Unreserved(Split(name, '/'), py)
  {
    var parts := Split(Wanted(e), '/');
    assert AllParts(parts) <==> forall i | 0 <= i < |parts| :: SafePart(parts[i]);
    assert IsReserved(parts, py) <==> !Unreserved(parts, py);
  }

  lemma EntryIff(e: Entry, py: Python)
    ensures EntryOk(e, py) <==> Lawful(e, py)
  {
    NameIff(e, py);
    TextNameIff(Wanted(e), Lower(Suffix(Wanted(e))));
    TextIsNotNative(Lower(Suffix(Wanted(e))));
  }

  /** Accepted exactly: so many entries and bytes at most, each lawful, no two alike but for case, none under a file. */
  lemma AcceptableIff(es: seq<Entry>, py: Python)
    ensures Acceptable(es, py) <==>
              && |es| <= 1024 && Total(es) <= 33_554_432
              && (forall i | 0 <= i < |es| :: Lawful(es[i], py))
              && (forall i, j | 0 <= i < j < |es| :: Lower(Wanted(es[i])) != Lower(Wanted(es[j])))
              && !Conflict(es)
  {
    forall i | 0 <= i < |es|
      ensures EntryOk(es[i], py) <==> Lawful(es[i], py)
    {
      EntryIff(es[i], py);
    }
  }

  /** No file of an accepted bundle has a path that leaves the folder it is laid out in. */
  lemma SourcesAreSafe(es: seq<Entry>, py: Python, name: string)
    requires Acceptable(es, py) && name in Sources(es)
    ensures SafeName(name) && Unreserved(Split(name, '/'), py)
  {
    var i := SourcesOnly(es, name);
    EntryIff(es[i], py);
  }
}
