/** Which of two claims of a document a traversal meets first. */
module ClaimOrder {
  import opened Wrappers
  import opened Json
  import opened Template
  import opened TemplateRules
  import opened ClaimTrails

  function Child(node: Json, step: Step): Option<Json> {
    if node.Obj? && step.Key? then Get(node.pairs, step.key)
    else if node.Arr? && step.Item? && step.index < |node.items| then Some(node.items[step.index])
    else None
  }

  /** Where a dict holds a key. */
  function Index(pairs: Pairs, key: string): nat {
    if pairs == [] then 0 else if pairs[|pairs| - 1].key == key then |pairs| - 1 else Index(pairs[..|pairs| - 1], key)
  }

  function Place(node: Json, step: Step): nat {
    match step
    case Key(key) => if node.Obj? then Index(node.pairs, key) else 0
    case Item(i) => i
  }

  /** x comes before y: above it, or on an earlier key or item where the two part. */
  predicate Comes(node: Json, x: Trail, y: Trail)
    decreases x
  {
    if y == [] then false
    else if x == [] then true
    else if x[0] == y[0] then Child(node, x[0]).Some? && Comes(Child(node, x[0]).value, x[1..], y[1..])
    else Place(node, x[0]) < Place(node, y[0])
  }

  lemma {:induction false} NotBothWays(node: Json, x: Trail, y: Trail)
    requires Comes(node, x, y)
    ensures !Comes(node, y, x)
    decreases x
  {
    if x != [] && x[0] == y[0] {
      NotBothWays(Child(node, x[0]).value, x[1..], y[1..]);
    }
  }

  predicate Ordered(node: Json, trails: seq<Trail>) {
    forall i, j | 0 <= i < j < |trails| :: Comes(node, trails[i], trails[j])
  }

  lemma OrderedJoin(node: Json, a: seq<Trail>, b: seq<Trail>)
    requires Ordered(node, a) && Ordered(node, b)
    requires forall i, j | 0 <= i < |a| && 0 <= j < |b| :: Comes(node, a[i], b[j])
    ensures Ordered(node, a + b)
  {
  }

  /** Trails into one child keep their order under it. */
  lemma OrderedUnder(node: Json, step: Step, trails: seq<Trail>)
    requires Child(node, step).Some? && Ordered(Child(node, step).value, trails)
    ensures Ordered(node, Under(step, trails))
  {
    var u := Under(step, trails);
    forall i, j | 0 <= i < j < |u|
      ensures Comes(node, u[i], u[j])
    {
      assert u[i][1..] == trails[i] && u[j][1..] == trails[j];
    }
  }

  predicate AllOpen(trails: seq<Trail>) {
    forall i | 0 <= i < |trails| :: trails[i] != []
  }

  /** Every trail starts with one of the first n keys. */
  predicate StartsIn(ps: Pairs, n: nat, trails: seq<Trail>)
    requires n <= |ps|
  {
    forall i | 0 <= i < |trails| :: trails[i] != [] && exists k | 0 <= k < n :: trails[i][0] == Key(ps[k].key)
  }

  lemma {:induction false} IndexAt(ps: Pairs, i: nat)
    requires Distinct(ps) && i < |ps|
    ensures Index(ps, ps[i].key) == i
  {
    if i < |ps| - 1 {
      IndexAt(ps[..|ps| - 1], i);
    }
  }

  lemma TrailsOpen(node: Json)
    ensures AllOpen(Trails(node))
  {
    match node
    case Obj(ps) => PairsTrailsOpen(ps);
    case Arr(xs) => ItemsTrailsOpen(xs);
    case _ =>
  }

  lemma {:induction false} PairsTrailsOpen(ps: Pairs)
    ensures AllOpen(PairsTrails(ps))
  {
    if ps != [] {
      PairsTrailsOpen(ps[..|ps| - 1]);
    }
  }

  lemma {:induction false} ItemsTrailsOpen(xs: seq<Json>)
    ensures AllOpen(ItemsTrails(xs))
  {
    if xs != [] {
      ItemsTrailsOpen(xs[..|xs| - 1]);
    }
  }

  lemma PairOrdered(ps: Pairs, n: nat)
    requires Distinct(ps) && n < |ps| && Ordered(ps[n].value, Trails(ps[n].value))
    ensures Ordered(Obj(ps), PairTrails(ps[n]))
  {
    var step, inner := Key(ps[n].key), Trails(ps[n].value);
    var own: seq<Trail> := if IsAuthority(ps[n].key) then [[step]] else [];
    GetAt(ps, n);
    OrderedUnder(Obj(ps), step, inner);
    TrailsOpen(ps[n].value);
    forall i, j | 0 <= i < |own| && 0 <= j < |inner|
      ensures Comes(Obj(ps), own[i], Under(step, inner)[j])
    {
      assert [step][1..] == [] && Under(step, inner)[j][1..] == inner[j];
    }
    OrderedJoin(Obj(ps), own, Under(step, inner));
  }

  lemma PairStarts(ps: Pairs, n: nat)
    requires n < |ps|
    ensures forall i | 0 <= i < |PairTrails(ps[n])| :: PairTrails(ps[n])[i] != [] && PairTrails(ps[n])[i][0] == Key(ps[n].key)
  {
  }

  lemma EarlierPairsComeFirst(ps: Pairs, n: nat, a: seq<Trail>)
    requires Distinct(ps) && n < |ps| && StartsIn(ps, n, a)
    ensures forall i, j | 0 <= i < |a| && 0 <= j < |PairTrails(ps[n])| :: Comes(Obj(ps), a[i], PairTrails(ps[n])[j])
  {
    PairStarts(ps, n);
    IndexAt(ps, n);
    forall i, j | 0 <= i < |a| && 0 <= j < |PairTrails(ps[n])|
      ensures Comes(Obj(ps), a[i], PairTrails(ps[n])[j])
    {
      var k :| 0 <= k < n && a[i][0] == Key(ps[k].key);
      IndexAt(ps, k);
    }
  }

  /** A traversal meets the claims in that order. */
  lemma {:induction false} TrailsOrdered(a: Json, b: Json)
    requires Same(a, b)
    ensures Ordered(a, Trails(a))
    decreases a
  {
    match a
    case Obj(ps) =>
      assert ps[..|ps|] == ps;
      PairsOrdered(ps, b.pairs, |ps|);
    case Arr(xs) =>
      assert xs[..|xs|] == xs;
      ItemsOrdered(xs, b.items, |xs|);
    case _ =>
  }

  lemma {:induction false} PairsOrdered(ps: Pairs, qs: Pairs, n: nat)
    requires SamePairs(ps, qs) && n <= |ps|
    ensures Ordered(Obj(ps), PairsTrails(ps[..n])) && StartsIn(ps, n, PairsTrails(ps[..n]))
    decreases ps, n
  {
    if n > 0 {
      var m := n - 1;
      PairsOrdered(ps, qs, m);
      assert HasTwin(ps[m], qs);
      var j :| 0 <= j < |qs| && SamePair(ps[m], qs[j]);
      TrailsOrdered(ps[m].value, qs[j].value);
      PairOrdered(ps, m);
      PairStarts(ps, m);
      assert ps[..n][..m] == ps[..m] && ps[..n][m] == ps[m];
      EarlierPairsComeFirst(ps, m, PairsTrails(ps[..m]));
      OrderedJoin(Obj(ps), PairsTrails(ps[..m]), PairTrails(ps[m]));
      StartsMore(ps, m, PairsTrails(ps[..m]), PairTrails(ps[m]));
    }
  }

  lemma StartsMore(ps: Pairs, m: nat, a: seq<Trail>, b: seq<Trail>)
    requires m < |ps| && StartsIn(ps, m, a)
    requires forall i | 0 <= i < |b| :: b[i] != [] && b[i][0] == Key(ps[m].key)
    ensures StartsIn(ps, m + 1, a + b)
  {
  }

  /** Every trail starts with one of the first n items. */
  predicate StartsBelow(n: nat, trails: seq<Trail>) {
    forall i | 0 <= i < |trails| :: trails[i] != [] && trails[i][0].Item? && trails[i][0].index < n
  }

  lemma {:induction false} ItemsOrdered(xs: seq<Json>, ys: seq<Json>, n: nat)
    requires SameItems(xs, ys) && n <= |xs|
    ensures Ordered(Arr(xs), ItemsTrails(xs[..n])) && StartsBelow(n, ItemsTrails(xs[..n]))
    decreases xs, n
  {
    if n > 0 {
      var m := n - 1;
      ItemsOrdered(xs, ys, m);
      TrailsOrdered(xs[m], ys[m]);
      assert xs[..n][..m] == xs[..m] && xs[..n][m] == xs[m];
      var front, last := ItemsTrails(xs[..m]), Under(Item(m), Trails(xs[m]));
      OrderedUnder(Arr(xs), Item(m), Trails(xs[m]));
      OrderedJoin(Arr(xs), front, last);
    }
  }
}
