/** What is left of a staging tree after the generated launchers are dropped. */
module LauncherLaws {
  import opened Trees
  import opened Launchers

  /** The paths below the root of a tree as it once stood: with any path, everything above it but the root. */
  ghost predicate ClosedUp(pre: set<Path>) {
    forall q, n: nat | q in pre && 1 <= n <= |q| :: q[..n] in pre
  }

  /** In the launcher directories exactly the paths that were there before pip ran are left. */
  lemma PreExistingAreLeft(t: Stage, pre: set<Path>, p: Path)
    requires ClosedUp(pre)
    ensures p in t && !InLaunchers(t, p) ==> p in After(t, pre)
    ensures InLaunchers(t, p) ==> (p in After(t, pre) <==> p in t && p in pre)
    ensures p in After(t, pre) ==> After(t, pre)[p] == t[p]
  {
    if p in t && InLaunchers(t, p) {
      if p in pre {
        assert AtOrBelow(p, p);
      }
      if Shelters(t, pre, p) {
        var q :| q in t && q in pre && AtOrBelow(q, p);
        assert q[..|p|] in pre;
      }
    }
  }

  /** Whatever pre is, every folder left in a launcher directory was there before or still holds something. */
  lemma NoNewEmptyFolder(t: Stage, pre: set<Path>, p: Path)
    requires WellFormed(t) && p in After(t, pre) && InLaunchers(t, p) && p !in pre
    ensures !Empty(After(t, pre), p)
  {
    var c := ShelteredChild(t, pre, p);
    assert c in After(t, pre);
  }

  /** What is left is still a tree. */
  lemma AfterWellFormed(t: Stage, pre: set<Path>)
    requires WellFormed(t)
    ensures WellFormed(After(t, pre))
  {
    CleanedWellFormed(t, pre, "bin");
    CleanedWellFormed(Cleaned(t, pre, "bin"), pre, "Scripts");
    CleanedTwice(t, pre, "bin", "Scripts");
  }
}
