/** Where a RECORD row points: posixpath.normpath, and the climbing segments taken off. */
module Paths {
  import opened Lists
  import opened Text

  /** s.replace("\\", "/") */
  function Slashed(s: string): (r: string)
    ensures |r| == |s|
    ensures forall i | 0 <= i < |s| :: r[i] == if s[i] == '\\' then '/' else s[i]
  {
    if s == "" then "" else [if s[0] == '\\' then '/' else s[0]] + Slashed(s[1..])
  }

  const UP := ".."

  /** One turn of normpath's loop over the components. */
  function NormStep(done: seq<string>, comp: string, absolute: bool): seq<string> {
    if comp == "" || comp == "." then done
    else if comp != UP || (!absolute && done == []) || (done != [] && done[|done| - 1] == UP) then done + [comp]
    else if done != [] then done[..|done| - 1]
    else done
  }

  function NormComps(comps: seq<string>, absolute: bool): seq<string> {
    if comps == [] then []
    else NormStep(NormComps(comps[..|comps| - 1], absolute), comps[|comps| - 1], absolute)
  }

  function LeadingSlashes(path: string): nat {
    if !StartsWith(path, "/") then 0
    else if StartsWith(path, "//") && !StartsWith(path, "///") then 2
    else 1
  }

  function NormPath(path: string): string {
    var n := LeadingSlashes(path);
    var body := Join(NormComps(Split(path, '/'), n > 0), '/');
    if n == 0 then (if body == "" then "." else body)
    else if n == 1 then "/" + body
    else "//" + body
  }

  function StripUps(p: string): string {
    if StartsWith(p, "../") then StripUps(p[3..]) else p
  }

  function Target(row: string): string {
    StripUps(NormPath(Slashed(row)))
  }

  /** _record_row_target */
  method RecordRowTarget(row: string) returns (p: string)
    ensures p == Target(row)
  {
    p := NormPath(Slashed(row));
    while StartsWith(p, "../")
      invariant StripUps(p) == Target(row)
      decreases |p|
    {
      p := p[3..];
    }
  }

  // ---- what it finds ----------------------------------------------------------------

  predicate PlainPart(p: string) {
    p != "" && p != "." && p != UP && '/' !in p && '\\' !in p
  }

  predicate PlainPath(path: seq<string>) {
    path != [] && forall i | 0 <= i < |path| :: PlainPart(path[i])
  }

  function Ups(k: nat): (r: seq<string>)
    ensures |r| == k && forall i | 0 <= i < k :: r[i] == UP
  {
    seq(k, _ => UP)
  }

  lemma NormSnoc(front: seq<string>, comp: string, absolute: bool)
    ensures NormComps(front + [comp], absolute) == NormStep(NormComps(front, absolute), comp, absolute)
  {
    assert (front + [comp])[..|front|] == front;
  }

  /** Climbing, and then down: normpath leaves such a path as it is. */
  lemma {:induction false} NormUps(k: nat)
    ensures NormComps(Ups(k), false) == Ups(k)
  {
    if k > 0 {
      var front := Ups(k - 1);
      NormUps(k - 1);
      assert Ups(k) == front + [UP];
      NormSnoc(front, UP, false);
    }
  }

  lemma {:induction false} NormPlain(head: seq<string>, path: seq<string>)
    requires NormComps(head, false) == head && forall i | 0 <= i < |path| :: PlainPart(path[i])
    ensures NormComps(head + path, false) == head + path
  {
    if path == [] {
      assert head + path == head;
    } else {
      var front := path[..|path| - 1];
      NormPlain(head, front);
      FrontOfJoin(head, path);
      JoinSnoc(head, path);
    }
  }

  lemma {:induction false} StripUpsJoin(k: nat, path: seq<string>)
    requires PlainPath(path)
    ensures StripUps(Join(Ups(k) + path, '/')) == Join(path, '/')
  {
    var all := Ups(k) + path;
    if k == 0 {
      assert all == path;
      PlainDoesNotClimb(path);
    } else {
      StripUpsJoin(k - 1, path);
      assert all[1..] == Ups(k - 1) + path;
      var rest := Join(all[1..], '/');
      assert Join(all, '/') == UP + ['/'] + rest;
      assert (UP + ['/'] + rest)[3..] == rest && StartsWith(UP + ['/'] + rest, "../");
    }
  }

  lemma PlainDoesNotClimb(path: seq<string>)
    requires PlainPath(path)
    ensures !StartsWith(Join(path, '/'), "../")
  {
    var p, s := path[0], Join(path, '/');
    assert |p| <= |s| && s[..|p|] == p;
    if |p| == 1 {
      assert p[0] != '.';
    } else if |p| == 2 {
      assert p[0] != '.' || p[1] != '.';
    } else {
      assert p[2] != '/';
    }
  }

  lemma {:induction false} JoinStart(path: seq<string>)
    requires path != [] && path[0] != ""
    ensures Join(path, '/') != "" && Join(path, '/')[0] == path[0][0]
  {
  }

  lemma NormOfJoin(comps: seq<string>)
    requires comps != [] && comps[0] != "" && forall i | 0 <= i < |comps| :: '/' !in comps[i]
    requires NormComps(comps, false) != [] && NormComps(comps, false)[0] != ""
    ensures NormPath(Join(comps, '/')) == Join(NormComps(comps, false), '/')
  {
    JoinStart(comps);
    SplitOfJoin(comps, '/');
    JoinStart(NormComps(comps, false));
    assert LeadingSlashes(Join(comps, '/')) == 0;
  }

  /** A row that climbs any number of levels to a staged file points at that file, with either slash. */
  lemma ScriptRowTarget(row: string, k: nat, path: seq<string>)
    requires PlainPath(path) && Slashed(row) == Join(Ups(k) + path, '/')
    ensures Target(row) == Join(path, '/')
  {
    var comps := Ups(k) + path;
    NormUps(k);
    NormPlain(Ups(k), path);
    NormOfJoin(comps);
    StripUpsJoin(k, path);
  }

  /** Paths without a slash in their parts are told apart by their joined form. */
  lemma JoinInjective(a: seq<string>, b: seq<string>)
    requires a != [] && b != [] && Join(a, '/') == Join(b, '/')
    requires forall i | 0 <= i < |a| :: '/' !in a[i]
    requires forall i | 0 <= i < |b| :: '/' !in b[i]
    ensures a == b
  {
    SplitOfJoin(a, '/');
    SplitOfJoin(b, '/');
  }

  // ---- what a target is made of -------------------------------------------------------

  predicate Over(s: string, allowed: set<char>) {
    forall i | 0 <= i < |s| :: s[i] in allowed
  }

  predicate AllOver(parts: seq<string>, allowed: set<char>) {
    forall i | 0 <= i < |parts| :: Over(parts[i], allowed)
  }

  lemma {:induction false} SplitOver(s: string, sep: char, allowed: set<char>)
    requires Over(s, allowed)
    ensures AllOver(Split(s, sep), allowed)
  {
    if s != "" {
      SplitOver(s[1..], sep, allowed);
    }
  }

  lemma {:induction false} JoinOver(parts: seq<string>, sep: char, allowed: set<char>)
    requires AllOver(parts, allowed) && sep in allowed
    ensures Over(Join(parts, sep), allowed)
  {
    if |parts| > 1 {
      JoinOver(parts[1..], sep, allowed);
    }
  }

  lemma {:induction false} NormOver(comps: seq<string>, absolute: bool, allowed: set<char>)
    requires AllOver(comps, allowed)
    ensures AllOver(NormComps(comps, absolute), allowed)
  {
    if comps != [] {
      NormOver(comps[..|comps| - 1], absolute, allowed);
    }
  }

  lemma {:induction false} StripUpsEnds(p: string)
    ensures EndsWith(p, StripUps(p))
  {
    if StartsWith(p, "../") {
      StripUpsEnds(p[3..]);
      var r := StripUps(p[3..]);
      assert p[|p| - |r|..] == p[3..][|p[3..]| - |r|..];
    }
  }

  lemma NormPathOver(path: string, allowed: set<char>)
    requires Over(path, allowed) && '.' in allowed && '/' in allowed
    ensures Over(NormPath(path), allowed)
  {
    var n := LeadingSlashes(path);
    SplitOver(path, '/', allowed);
    NormOver(Split(path, '/'), n > 0, allowed);
    JoinOver(NormComps(Split(path, '/'), n > 0), '/', allowed);
  }

  /** No character gets into a target that was not in the row, slashes and dots aside. */
  lemma TargetOver(row: string, allowed: set<char>)
    requires Over(Slashed(row), allowed) && '.' in allowed && '/' in allowed
    ensures Over(Target(row), allowed)
  {
    NormPathOver(Slashed(row), allowed);
    StripUpsEnds(NormPath(Slashed(row)));
    SuffixOver(NormPath(Slashed(row)), StripUps(NormPath(Slashed(row))), allowed);
  }

  lemma SuffixOver(s: string, end: string, allowed: set<char>)
    requires EndsWith(s, end) && Over(s, allowed)
    ensures Over(end, allowed)
  {
    forall i | 0 <= i < |end|
      ensures end[i] in allowed
    {
      assert end[i] == s[|s| - |end| + i];
    }
  }

  /** The last component stays the last, whole. */
  lemma {:induction false} StripUpsKeepsEnd(p: string, last: string)
    requires EndsWith(p, last) && '/' !in last
    ensures EndsWith(StripUps(p), last)
  {
    if StartsWith(p, "../") {
      var rest := p[3..];
      assert p[2] == '/';
      assert |last| <= |rest|;
      assert rest[|rest| - |last|..] == p[|p| - |last|..];
      StripUpsKeepsEnd(rest, last);
    }
  }

  lemma {:induction false} JoinEnds(parts: seq<string>, sep: char)
    requires parts != []
    ensures EndsWith(Join(parts, sep), parts[|parts| - 1])
  {
    if |parts| > 1 {
      JoinEnds(parts[1..], sep);
      var s, rest, last := Join(parts, sep), Join(parts[1..], sep), parts[|parts| - 1];
      assert s[|s| - |rest|..] == rest;
      assert s[|s| - |last|..] == rest[|rest| - |last|..];
    }
  }

  lemma RelativeNorm(path: string)
    requires path != "" && path[0] != '/' && Join(NormComps(Split(path, '/'), false), '/') != ""
    ensures NormPath(path) == Join(NormComps(Split(path, '/'), false), '/')
  {
    assert LeadingSlashes(path) == 0;
  }

  lemma NormKeepsLast(comps: seq<string>)
    requires comps != [] && PlainPart(comps[|comps| - 1])
    ensures var norm := NormComps(comps, false); norm != [] && norm[|norm| - 1] == comps[|comps| - 1]
  {
  }

  lemma TargetEnds(comps: seq<string>)
    requires comps != [] && forall i | 0 <= i < |comps| :: '/' !in comps[i] && '\\' !in comps[i]
    requires comps[0] != "" && PlainPart(comps[|comps| - 1])
    ensures EndsWith(Target(Join(comps, '/')), comps[|comps| - 1])
  {
    var row := Join(comps, '/');
    SlashedJoin(comps);
    JoinStart(comps);
    SplitOfJoin(comps, '/');
    NormKeepsLast(comps);
    JoinEnds(NormComps(comps, false), '/');
    RelativeNorm(row);
    StripUpsKeepsEnd(NormPath(row), comps[|comps| - 1]);
  }

  lemma {:induction false} JoinWithout(parts: seq<string>, sep: char, c: char)
    requires c != sep && forall i | 0 <= i < |parts| :: c !in parts[i]
    ensures c !in Join(parts, sep)
  {
    if |parts| > 1 {
      JoinWithout(parts[1..], sep, c);
    }
  }

  lemma SlashedJoin(parts: seq<string>)
    requires forall i | 0 <= i < |parts| :: '\\' !in parts[i]
    ensures Slashed(Join(parts, '/')) == Join(parts, '/')
  {
    JoinWithout(parts, '/', '\\');
  }
}
