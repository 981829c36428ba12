/** File trees: paths as their parts, mapped to folders and files. */
module Trees {

  type Path = seq<string>

  datatype Node<T> = Folder | File(content: T)

  type Tree<T> = map<Path, Node<T>>

  /** Everything lies in a folder, up to the root. */
  ghost predicate WellFormed<T>(t: Tree<T>) {
    && [] in t && t[[]] == Folder
    && forall p :: p in t && p != [] ==> p[..|p| - 1] in t && t[p[..|p| - 1]] == Folder
  }

  /** top is a proper part of the path, from the root down. */
  predicate Above(top: Path, path: Path) {
    |top| < |path| && top == path[..|top|]
  }

  predicate AtOrBelow(path: Path, top: Path) {
    |top| <= |path| && path[..|top|] == top
  }

  lemma {:induction false} AncestorIsFolder<T>(t: Tree<T>, p: Path, n: nat)
    requires WellFormed(t) && p in t && n < |p|
    ensures p[..n] in t && t[p[..n]] == Folder
  {
    var up := p[..|p| - 1];
    if n < |up| {
      AncestorIsFolder(t, up, n);
      assert up[..n] == p[..n];
    } else {
      assert up == p[..n];
    }
  }
}
