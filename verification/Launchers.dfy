/** Removing the launchers that pip generated from a staging tree, and the RECORD rows that hash them. */
module Launchers {
  import opened Text
  import opened Sorting
  import opened Trees
  import opened Paths

  /** The staging tree: a file is its lines, as splitlines(keepends=True) gives them. */
  type Stage = Tree<seq<string>>

  predicate IsChild(p: Path, dir: Path) {
    p != [] && p[..|p| - 1] == dir
  }

  // ---- the order of the walk ----------------------------------------------------------

  /** Paths compare part by part. */
  predicate PathLe(a: Path, b: Path) {
    a == [] || (b != [] && ((a[0] != b[0] && Le(a[0], b[0])) || (a[0] == b[0] && PathLe(a[1..], b[1..]))))
  }

  /** reverse=True */
  predicate PathGe(a: Path, b: Path) {
    PathLe(b, a)
  }

  lemma {:induction false} PathTotal(a: Path, b: Path)
    ensures PathLe(a, b) || PathLe(b, a)
    ensures PathLe(a, b) && PathLe(b, a) ==> a == b
  {
    if a != [] && b != [] {
      LeTotal(a[0], b[0]);
      if a[0] == b[0] {
        PathTotal(a[1..], b[1..]);
        assert a == [a[0]] + a[1..] && b == [b[0]] + b[1..];
      }
    }
  }

  lemma {:induction false} PathTransitive(a: Path, b: Path, c: Path)
    requires PathLe(a, b) && PathLe(b, c)
    ensures PathLe(a, c)
  {
    if a != [] {
      if a[0] == b[0] == c[0] {
        PathTransitive(a[1..], b[1..], c[1..]);
      } else if a[0] != b[0] && b[0] != c[0] {
        LeTransitive(a[0], b[0], c[0]);
        LeTotal(a[0], b[0]);
      }
    }
  }

  lemma PathOrder()
    ensures Preorder(PathGe)
  {
    forall a, b
      ensures PathGe(a, b) || PathGe(b, a)
    {
      PathTotal(a, b);
    }
    forall a, b, c | PathGe(a, b) && PathGe(b, c)
      ensures PathGe(a, c)
    {
      PathTransitive(c, b, a);
    }
  }

  lemma {:induction false} PrefixLe(p: Path, n: nat)
    requires n <= |p|
    ensures PathLe(p[..n], p)
  {
    if n > 0 {
      PrefixLe(p[1..], n - 1);
      assert p[..n][1..] == p[1..][..n - 1];
    }
  }

  predicate ChildrenFirst(order: seq<Path>) {
    forall i, j | 0 <= i < |order| && 0 <= j < |order| && Above(order[i], order[j]) :: j < i
  }

  /** Reverse order visits whatever is in a directory before the directory. */
  lemma ReverseVisitsChildrenFirst(found: seq<Path>)
    ensures ChildrenFirst(Sort(PathGe, found))
  {
    var order := Sort(PathGe, found);
    PathOrder();
    SortSorted(PathGe, found);
    forall i, j | 0 <= i < |order| && 0 <= j < |order| && Above(order[i], order[j])
      ensures j < i
    {
      PrefixLe(order[j], |order[i]|);
      if i < j {
        PathTotal(order[i], order[j]);
      }
    }
  }

  // ---- one walk -----------------------------------------------------------------------

  predicate Empty(t: Stage, dir: Path) {
    forall p | p in t :: !IsChild(p, dir)
  }

  /** The body of the inner loop, for one path. */
  function Visit(t: Stage, pre: set<Path>, p: Path): Stage
    requires p in t
  {
    if p in pre || (t[p].Folder? && !Empty(t, p)) then t else t - {p}
  }

  /** Something that was there before pip ran is still here, at p or below. */
  ghost predicate Shelters(t: Stage, pre: set<Path>, p: Path) {
    exists q :: q in t && q in pre && AtOrBelow(q, p)
  }

  /** The tree after a walk has passed the paths in done. */
  ghost function Walked(t: Stage, pre: set<Path>, done: set<Path>): Stage {
    map p | p in t && (p !in done || Shelters(t, pre, p)) :: t[p]
  }

  lemma FileShelters(t: Stage, pre: set<Path>, p: Path)
    requires WellFormed(t) && p in t && t[p].File?
    ensures Shelters(t, pre, p) <==> p in pre
  {
    if p in pre {
      assert AtOrBelow(p, p);
    }
    forall q | q in t && q in pre && AtOrBelow(q, p)
      ensures q == p
    {
      if |p| < |q| {
        AncestorIsFolder(t, q, |p|);
      }
    }
  }

  lemma ChildOnTheWay(t: Stage, q: Path, p: Path) returns (c: Path)
    requires WellFormed(t) && q in t && Above(p, q)
    ensures c in t && IsChild(c, p) && AtOrBelow(q, c)
  {
    c := q[..|p| + 1];
    if |c| < |q| {
      AncestorIsFolder(t, q, |c|);
    } else {
      assert c == q;
    }
    assert c[..|c| - 1] == q[..|p|] == p;
  }

  lemma BelowIfOther(q: Path, p: Path)
    requires AtOrBelow(q, p) && q != p
    ensures Above(p, q)
  {
  }

  lemma ShelteredChild(t: Stage, pre: set<Path>, p: Path) returns (c: Path)
    requires WellFormed(t) && p !in pre && Shelters(t, pre, p)
    ensures c in t && IsChild(c, p) && Shelters(t, pre, c)
  {
    var q :| q in t && q in pre && AtOrBelow(q, p);
    BelowIfOther(q, p);
    c := ChildOnTheWay(t, q, p);
  }

  lemma SheltersUp(t: Stage, pre: set<Path>, p: Path)
    requires p != [] && Shelters(t, pre, p)
    ensures Shelters(t, pre, p[..|p| - 1])
  {
    var q :| q in t && q in pre && AtOrBelow(q, p);
    var up := p[..|p| - 1];
    assert q[..|up|] == q[..|p|][..|up|];
    assert AtOrBelow(q, up);
  }

  /** When all that is below a new folder has been visited, it is empty exactly if it shelters nothing. */
  lemma EmptyIff(t: Stage, pre: set<Path>, done: set<Path>, p: Path)
    requires WellFormed(t) && p in t && p !in pre
    requires forall q | q in t && Above(p, q) :: q in done
    ensures Empty(Walked(t, pre, done), p) <==> !Shelters(t, pre, p)
  {
    var now := Walked(t, pre, done);
    if Shelters(t, pre, p) {
      var c := ShelteredChild(t, pre, p);
      assert c in now;
    } else if !Empty(now, p) {
      var c :| c in now && IsChild(c, p);
      assert c in done;
      SheltersUp(t, pre, c);
    }
  }

  lemma WalkedMore(t: Stage, pre: set<Path>, done: set<Path>, p: Path)
    requires p in t && p !in done
    ensures p in Walked(t, pre, done) && Walked(t, pre, done)[p] == t[p]
    ensures Walked(t, pre, done + {p}) == if Shelters(t, pre, p) then Walked(t, pre, done) else Walked(t, pre, done) - {p}
  {
  }

  /** One turn of the loop, provided that whatever lies below has had its turn. */
  lemma VisitStep(t: Stage, pre: set<Path>, done: set<Path>, p: Path)
    requires WellFormed(t) && p in t && p !in done
    requires forall q | q in t && Above(p, q) :: q in done
    ensures p in Walked(t, pre, done) && Walked(t, pre, done)[p] == t[p]
    ensures Visit(Walked(t, pre, done), pre, p) == Walked(t, pre, done + {p})
  {
    WalkedMore(t, pre, done, p);
    if p in pre {
      assert AtOrBelow(p, p);
    } else if t[p].Folder? {
      EmptyIff(t, pre, done, p);
    } else {
      FileShelters(t, pre, p);
    }
  }

  /** In forward order the walk leaves a new folder behind, empty: it is visited before its file. */
  lemma ForwardOrderLeavesEmptyFolder(t: Stage, pre: set<Path>, dir: Path, file: Path)
    requires dir in t && t[dir] == Folder && dir !in pre
    requires file in t && t[file].File? && file !in pre
    requires forall p | p in t && IsChild(p, dir) :: p == file
    requires IsChild(file, dir)
    ensures var now := Visit(t, pre, dir);
      file in now && dir in Visit(now, pre, file) && Empty(Visit(now, pre, file), dir)
  {
    assert !Empty(t, dir);
  }

  // ---- a whole launcher directory -------------------------------------------------------

  predicate Under(t: Stage, name: string, p: Path) {
    [name] in t && t[[name]] == Folder && AtOrBelow(p, [name])
  }

  ghost function Cleaned(t: Stage, pre: set<Path>, name: string): Stage {
    map p | p in t && (!Under(t, name, p) || Shelters(t, pre, p)) :: t[p]
  }

  /** What a walk unlinks. */
  predicate Launcher(t: Stage, pre: set<Path>, name: string, p: Path) {
    p in t && Under(t, name, p) && t[p].File? && p !in pre
  }

  lemma CleanedWellFormed(t: Stage, pre: set<Path>, name: string)
    requires WellFormed(t)
    ensures WellFormed(Cleaned(t, pre, name))
  {
    var now := Cleaned(t, pre, name);
    forall p | p in now && p != []
      ensures p[..|p| - 1] in now && now[p[..|p| - 1]] == Folder
    {
      var up := p[..|p| - 1];
      if Under(t, name, up) {
        assert p[..1] == up[..1];
        SheltersUp(t, pre, p);
      }
    }
  }

  lemma CountOnce(s: seq<Path>, i: nat)
    requires i < |s| && multiset(s)[s[i]] <= 1
    ensures s[i] !in s[..i]
  {
    assert s == s[..i] + s[i..];
    assert multiset(s) == multiset(s[..i]) + multiset(s[i..]);
    assert s[i..][0] == s[i] && s[i] in multiset(s[i..]);
  }

  function Unlinked(order: seq<Path>, t: Stage, pre: set<Path>): seq<Path> {
    if order == [] then []
    else
      var front, p := Unlinked(order[..|order| - 1], t, pre), order[|order| - 1];
      if p in t && t[p].File? && p !in pre then front + [p] else front
  }

  lemma {:induction false} UnlinkedHas(order: seq<Path>, t: Stage, pre: set<Path>, p: Path)
    ensures p in Unlinked(order, t, pre) <==> p in order && p in t && t[p].File? && p !in pre
    ensures multiset(Unlinked(order, t, pre))[p] <= multiset(order)[p]
  {
    if order != [] {
      UnlinkedHas(order[..|order| - 1], t, pre, p);
      assert order == order[..|order| - 1] + [order[|order| - 1]];
    }
  }

  lemma {:induction false} UnlinkedSorted(order: seq<Path>, t: Stage, pre: set<Path>)
    requires Sorted(PathGe, order)
    ensures Sorted(PathGe, Unlinked(order, t, pre))
  {
    if order != [] {
      var front, p := order[..|order| - 1], order[|order| - 1];
      UnlinkedSorted(front, t, pre);
      var u := Unlinked(front, t, pre);
      forall k | 0 <= k < |u|
        ensures PathGe(u[k], p)
      {
        UnlinkedHas(front, t, pre, u[k]);
        var j :| 0 <= j < |front| && front[j] == u[k];
        assert order[j] == u[k];
      }
    }
  }

  /** What Clean unlinks: every new file, once, in reverse order. */
  ghost predicate Launched(removed: seq<Path>, t: Stage, pre: set<Path>, name: string) {
    && (forall p :: p in removed <==> Launcher(t, pre, name, p))
    && Sorted(PathGe, removed) && forall p :: multiset(removed)[p] <= 1
  }

  /** The walk's order: everything below the directory, once, what is inside a folder before it. */
  ghost predicate Walk(order: seq<Path>, t: Stage, name: string) {
    && Sorted(PathGe, order) && ChildrenFirst(order)
    && (forall p :: p in order <==> p in t && Above([name], p))
    && forall p :: multiset(order)[p] <= 1
  }

  lemma SortIsWalk(found: seq<Path>, t: Stage, name: string)
    requires forall p :: p in found <==> p in t && Above([name], p)
    requires forall p :: multiset(found)[p] <= 1
    ensures Walk(Sort(PathGe, found), t, name)
  {
    var order := Sort(PathGe, found);
    PathOrder();
    SortSorted(PathGe, found);
    SortKeeps(PathGe, found);
    ReverseVisitsChildrenFirst(found);
    forall p
      ensures p in order <==> p in found
    {
      assert p in multiset(order) <==> p in multiset(found);
    }
  }

  lemma VisitedBelow(order: seq<Path>, t: Stage, name: string, i: nat)
    requires Walk(order, t, name) && i < |order|
    ensures order[i] !in order[..i]
    ensures forall q | q in t && Above(order[i], q) :: q in order[..i]
  {
    CountOnce(order, i);
    forall q | q in t && Above(order[i], q)
      ensures q in order[..i]
    {
      assert order[i] in order;
      assert q[..1] == q[..|order[i]|][..1] == order[i][..1];
      assert Above([name], q);
      var j :| 0 <= j < |order| && order[j] == q;
    }
  }

  ghost function First(order: seq<Path>, n: nat): set<Path>
    requires n <= |order|
  {
    set p | p in order[..n]
  }

  lemma FirstMore(order: seq<Path>, i: nat)
    requires i < |order|
    ensures First(order, i + 1) == First(order, i) + {order[i]}
  {
    assert order[..i + 1] == order[..i] + [order[i]];
  }

  lemma UnlinkedMore(order: seq<Path>, t: Stage, pre: set<Path>, i: nat)
    requires i < |order| && order[i] in t
    ensures Unlinked(order[..i + 1], t, pre) ==
              Unlinked(order[..i], t, pre) + if t[order[i]].File? && order[i] !in pre then [order[i]] else []
  {
    assert order[..i + 1][..i] == order[..i];
  }

  lemma WalkStep(t: Stage, pre: set<Path>, order: seq<Path>, name: string, i: nat)
    requires WellFormed(t) && Walk(order, t, name) && i < |order|
    ensures order[i] in t
    ensures order[i] in Walked(t, pre, First(order, i)) && Walked(t, pre, First(order, i))[order[i]] == t[order[i]]
    ensures Visit(Walked(t, pre, First(order, i)), pre, order[i]) == Walked(t, pre, First(order, i + 1))
  {
    var p := order[i];
    assert p in order;
    VisitedBelow(order, t, name, i);
    VisitStep(t, pre, First(order, i), p);
    FirstMore(order, i);
  }

  lemma WalkStarts(t: Stage, pre: set<Path>, order: seq<Path>)
    ensures Walked(t, pre, First(order, 0)) == t && Unlinked(order[..0], t, pre) == []
    ensures order[..|order|] == order
  {
  }

  lemma WalkUnlinks(order: seq<Path>, t: Stage, pre: set<Path>, name: string)
    requires WellFormed(t) && Walk(order, t, name) && [name] in t && t[[name]] == Folder
    ensures Launched(Unlinked(order, t, pre), t, pre, name)
  {
    UnlinkedSorted(order, t, pre);
    forall p
      ensures p in Unlinked(order, t, pre) <==> Launcher(t, pre, name, p)
      ensures multiset(Unlinked(order, t, pre))[p] <= 1
    {
      UnlinkedHas(order, t, pre, p);
      if p in t && AtOrBelow(p, [name]) && !Above([name], p) {
        assert p == [name];
      }
    }
  }

  lemma WalkedIsCleaned(order: seq<Path>, t: Stage, pre: set<Path>, name: string, done: set<Path>)
    requires Walk(order, t, name) && [name] in t && t[[name]] == Folder
    requires forall p :: p in done <==> p in order || p == [name]
    ensures Walked(t, pre, done) == Cleaned(t, pre, name)
  {
    forall p | p in t
      ensures Under(t, name, p) <==> p in done
    {
      if AtOrBelow(p, [name]) && !Above([name], p) {
        assert p == [name];
      }
    }
  }

  /** The walk, and then the turn of the directory itself. */
  lemma WalkCleans(order: seq<Path>, t: Stage, pre: set<Path>, name: string)
    requires WellFormed(t) && Walk(order, t, name) && [name] in t && t[[name]] == Folder
    ensures var now := Walked(t, pre, First(order, |order|));
      [name] in now && now[[name]] == Folder && Visit(now, pre, [name]) == Cleaned(t, pre, name)
    ensures Launched(Unlinked(order, t, pre), t, pre, name)
  {
    var done := First(order, |order|);
    assert order[..|order|] == order && [name] !in done;
    VisitStep(t, pre, done, [name]);
    WalkedIsCleaned(order, t, pre, name, done + {[name]});
    WalkUnlinks(order, t, pre, name);
  }

  lemma NothingToClean(t: Stage, pre: set<Path>, name: string)
    requires [name] !in t || t[[name]] != Folder
    ensures Cleaned(t, pre, name) == t && Launched([], t, pre, name)
  {
  }

  function LineTarget(line: string): string {
    Target(Split(line, ',')[0])
  }

  /** What is kept of RECORD: the lines that point at nothing in gone. */
  function KeptLines(lines: seq<string>, gone: set<string>): seq<string> {
    if lines == [] then []
    else
      var front, line := KeptLines(lines[..|lines| - 1], gone), lines[|lines| - 1];
      if LineTarget(line) in gone then front else front + [line]
  }

  /** *.dist-info/RECORD */
  predicate IsRecord(p: Path) {
    |p| == 2 && EndsWith(p[0], ".dist-info") && p[1] == "RECORD"
  }

  function RewrittenNode(node: Node<seq<string>>, gone: set<string>): Node<seq<string>> {
    if node.File? then File(KeptLines(node.content, gone)) else node
  }

  function RewrittenOn(t: Stage, done: seq<Path>, gone: set<string>): Stage {
    map p | p in t :: if p in done then RewrittenNode(t[p], gone) else t[p]
  }

  function Rewritten(t: Stage, gone: set<string>): Stage {
    map p | p in t :: if IsRecord(p) then RewrittenNode(t[p], gone) else t[p]
  }

  /** Every RECORD, once. */
  ghost predicate Records(records: seq<Path>, t: Stage) {
    && (forall p :: p in records <==> p in t && IsRecord(p))
    && forall p :: multiset(records)[p] <= 1
  }

  lemma SortIsRecords(found: seq<Path>, t: Stage)
    requires Records(found, t)
    ensures Records(Sort(PathLe, found), t)
  {
    SortKeeps(PathLe, found);
    forall p
      ensures p in Sort(PathLe, found) <==> p in found
    {
      assert p in multiset(Sort(PathLe, found)) <==> p in multiset(found);
    }
  }

  lemma RewrittenNone(t: Stage, gone: set<string>)
    ensures RewrittenOn(t, [], gone) == t
  {
  }

  lemma RewrittenMore(t: Stage, done: seq<Path>, p: Path, gone: set<string>)
    requires p in t && p !in done
    ensures p in RewrittenOn(t, done, gone) && RewrittenOn(t, done, gone)[p] == t[p]
    ensures RewrittenOn(t, done + [p], gone) == RewrittenOn(t, done, gone)[p := RewrittenNode(t[p], gone)]
    ensures RewrittenNode(t[p], gone) == t[p] ==> RewrittenOn(t, done + [p], gone) == RewrittenOn(t, done, gone)
  {
  }

  lemma RewrittenAll(t: Stage, records: seq<Path>, gone: set<string>)
    requires Records(records, t)
    ensures RewrittenOn(t, records, gone) == Rewritten(t, gone)
  {
  }

  lemma {:induction false} KeptAll(lines: seq<string>, gone: set<string>)
    ensures |KeptLines(lines, gone)| <= |lines|
    ensures |KeptLines(lines, gone)| == |lines| ==> KeptLines(lines, gone) == lines
  {
    if lines != [] {
      KeptAll(lines[..|lines| - 1], gone);
    }
  }

  function Rel(p: Path): string {
    Join(p, '/')
  }

  function Gone(removed: seq<Path>): set<string> {
    set i | 0 <= i < |removed| :: Rel(removed[i])
  }

  /** A launcher directory, or something in one. */
  predicate InLaunchers(t: Stage, p: Path) {
    Under(t, "bin", p) || Under(t, "Scripts", p)
  }

  /** The two directories by name, where they are directories. */
  lemma LauncherPlaces(t: Stage, p: Path)
    ensures InLaunchers(t, p) <==> p != [] && (p[0] == "bin" || p[0] == "Scripts") && [p[0]] in t && t[[p[0]]] == Folder
  {
    if p != [] {
      assert p[..1] == [p[0]];
    }
  }

  /** What the walks leave. */
  ghost function After(t: Stage, pre: set<Path>): Stage {
    map p | p in t && (!InLaunchers(t, p) || Shelters(t, pre, p)) :: t[p]
  }

  lemma SameUnder(t: Stage, pre: set<Path>, first: string, second: string, p: Path)
    requires first != second
    ensures Under(Cleaned(t, pre, first), second, p) <==> Under(t, second, p)
  {
    assert [second][..1] == [second] != [first];
  }

  lemma SameShelter(t: Stage, pre: set<Path>, first: string, second: string, p: Path)
    requires first != second && AtOrBelow(p, [second])
    ensures Shelters(Cleaned(t, pre, first), pre, p) <==> Shelters(t, pre, p)
  {
    var now := Cleaned(t, pre, first);
    if Shelters(t, pre, p) {
      var q :| q in t && q in pre && AtOrBelow(q, p);
      assert q[..1] == q[..|p|][..1] == [second] != [first];
      assert q in now;
    }
  }

  lemma CleanedTwice(t: Stage, pre: set<Path>, first: string, second: string)
    requires first != second
    ensures Cleaned(Cleaned(t, pre, first), pre, second) ==
              map p | p in t && (!(Under(t, first, p) || Under(t, second, p)) || Shelters(t, pre, p)) :: t[p]
  {
    forall p
      ensures Under(Cleaned(t, pre, first), second, p) <==> Under(t, second, p)
      ensures Under(t, second, p) ==> (Shelters(Cleaned(t, pre, first), pre, p) <==> Shelters(t, pre, p))
    {
      SameUnder(t, pre, first, second, p);
      if Under(t, second, p) {
        SameShelter(t, pre, first, second, p);
      }
    }
  }

  lemma BothLeaveAfter(t: Stage, pre: set<Path>)
    ensures Cleaned(Cleaned(t, pre, "bin"), pre, "Scripts") == After(t, pre)
  {
    CleanedTwice(t, pre, "bin", "Scripts");
  }

  lemma LaunchedStill(removed: seq<Path>, t: Stage, pre: set<Path>, first: string, second: string)
    requires first != second && Launched(removed, Cleaned(t, pre, first), pre, second)
    ensures Launched(removed, t, pre, second)
  {
    forall p
      ensures Launcher(Cleaned(t, pre, first), pre, second, p) <==> Launcher(t, pre, second, p)
    {
      SameUnder(t, pre, first, second, p);
      if AtOrBelow(p, [second]) {
        assert p[..1] != [first];
      }
    }
  }

  lemma {:induction false} KeptWhenNothingGone(lines: seq<string>, gone: set<string>)
    requires gone == {}
    ensures KeptLines(lines, gone) == lines
  {
    if lines != [] {
      KeptWhenNothingGone(lines[..|lines| - 1], gone);
    }
  }

  lemma NothingGone(t: Stage)
    ensures Rewritten(t, Gone([])) == t
  {
    var gone := Gone([]);
    assert gone == {};
    forall p | p in t
      ensures RewrittenNode(t[p], gone) == t[p]
    {
      if t[p].File? {
        KeptWhenNothingGone(t[p].content, gone);
      }
    }
  }

  class Staging {
    var tree: Stage

    /** The paths with a property, in no particular order, each once. */
    method List(wanted: Path -> bool) returns (found: seq<Path>)
      ensures forall p :: p in found <==> p in tree && wanted(p)
      ensures forall p :: multiset(found)[p] <= 1
    {
      found := [];
      var rest := tree.Keys;
      while rest != {}
        invariant rest <= tree.Keys
        invariant forall p :: p in found <==> p in tree && p !in rest && wanted(p)
        invariant forall p :: multiset(found)[p] <= 1
        decreases rest
      {
        var p :| p in rest;
        rest := rest - {p};
        if wanted(p) {
          assert p !in multiset(found);
          found := found + [p];
        }
      }
    }

    /** One turn of the loop over _LAUNCHER_DIRS: the files it unlinked, in the order it did. */
    method Clean(name: string, pre: set<Path>) returns (removed: seq<Path>)
      requires WellFormed(tree)
      modifies this
      ensures tree == Cleaned(old(tree), pre, name)
      ensures Launched(removed, old(tree), pre, name)
    {
      removed := [];
      ghost var was := tree;
      if [name] !in tree || tree[[name]] != Folder {
        NothingToClean(was, pre, name);
        return;
      }
      var found := List(p => Above([name], p));
      SortIsWalk(found, was, name);
      var order := Sort(PathGe, found);
      removed := WalkDown(order, pre, name);
      WalkCleans(order, was, pre, name);
      if [name] !in pre && Empty(tree, [name]) {
        tree := tree - {[name]};
      }
    }

    /** The body of the inner loop; whether it unlinked a file. */
    method VisitPath(path: Path, pre: set<Path>) returns (unlinked: bool)
      requires path in tree
      modifies this
      ensures tree == Visit(old(tree), pre, path)
      ensures unlinked <==> old(tree[path].File?) && path !in pre
    {
      unlinked := false;
      if path in pre {
        return;
      }
      if tree[path].Folder? {
        if Empty(tree, path) {
          tree := tree - {path};
        }
      } else {
        unlinked := true;
        tree := tree - {path};
      }
    }

    method WalkDown(order: seq<Path>, pre: set<Path>, ghost name: string) returns (removed: seq<Path>)
      requires WellFormed(tree) && Walk(order, tree, name)
      modifies this
      ensures tree == Walked(old(tree), pre, First(order, |order|))
      ensures removed == Unlinked(order, old(tree), pre)
    {
      removed := [];
      ghost var was := tree;
      WalkStarts(was, pre, order);
      for i := 0 to |order|
        invariant tree == Walked(was, pre, First(order, i))
        invariant removed == Unlinked(order[..i], was, pre)
      {
        WalkStep(was, pre, order, name, i);
        UnlinkedMore(order, was, pre, i);
        var unlinked := VisitPath(order[i], pre);
        if unlinked {
          removed := removed + [order[i]];
        }
      }
    }

    /** Dropping the rows of what is gone from every RECORD. */
    method RewriteRecords(gone: set<string>)
      modifies this
      ensures tree == Rewritten(old(tree), gone)
    {
      var found := List(p => IsRecord(p));
      var records := Sort(PathLe, found);
      SortIsRecords(found, tree);
      ghost var was := tree;
      RewrittenNone(was, gone);
      assert records[..0] == [] && records[..|records|] == records;
      for i := 0 to |records|
        invariant tree == RewrittenOn(was, records[..i], gone)
      {
        var record := records[i];
        CountOnce(records, i);
        assert records[..i + 1] == records[..i] + [record];
        RewrittenMore(was, records[..i], record, gone);
        if tree[record].File? {
          var rows := tree[record].content;
          var kept := KeptLines(rows, gone);
          KeptAll(rows, gone);
          if |kept| != |rows| {
            tree := tree[record := File(kept)];
          }
        }
      }
      RewrittenAll(was, records, gone);
    }

    /** _drop_generated_launchers */
    method DropGeneratedLaunchers(pre: set<Path>) returns (removed: seq<Path>)
      requires WellFormed(tree)
      modifies this
      ensures exists bin, scripts :: removed == bin + scripts
                && Launched(bin, old(tree), pre, "bin") && Launched(scripts, old(tree), pre, "Scripts")
      ensures tree == Rewritten(After(old(tree), pre), Gone(removed))
    {
      ghost var was := tree;
      var bin := Clean("bin", pre);
      CleanedWellFormed(was, pre, "bin");
      var scripts := Clean("Scripts", pre);
      BothLeaveAfter(was, pre);
      LaunchedStill(scripts, was, pre, "bin", "Scripts");
      removed := bin + scripts;
      if removed != [] {
        RewriteRecords(Gone(removed));
      } else {
        NothingGone(tree);
      }
    }
  }
}
