/** The authority claims of a document as trails through it, in the order a traversal meets them. */
module ClaimTrails {
  import opened Lists
  import opened Json
  import opened Template
  import opened TemplateRules

  /** The steps down to a claim, the claiming key last. */
  type Trail = seq<Step>

  function Under(step: Step, trails: seq<Trail>): (r: seq<Trail>)
    ensures |r| == |trails|
    ensures forall i | 0 <= i < |r| :: r[i] == [step] + trails[i]
  {
    seq(|trails|, i requires 0 <= i < |trails| => [step] + trails[i])
  }

  function Trails(node: Json): seq<Trail>
    decreases node
  {
    match node
    case Obj(pairs) => PairsTrails(pairs)
    case Arr(items) => ItemsTrails(items)
    case _ => []
  }

  function PairTrails(pair: Pair): seq<Trail>
    decreases pair
  {
    (if IsAuthority(pair.key) then [[Key(pair.key)]] else []) + Under(Key(pair.key), Trails(pair.value))
  }

  function PairsTrails(pairs: Pairs): seq<Trail>
    decreases pairs
  {
    if pairs == [] then [] else PairsTrails(pairs[..|pairs| - 1]) + PairTrails(pairs[|pairs| - 1])
  }

  function ItemsTrails(items: seq<Json>): seq<Trail>
    decreases items
  {
    if items == [] then []
    else ItemsTrails(items[..|items| - 1]) + Under(Item(|items| - 1), Trails(items[|items| - 1]))
  }

  // ---- the scan reports the trails, rendered --------------------------------------------

  function Marks(path: string, trails: seq<Trail>): (r: seq<Issue>)
    ensures |r| == |trails|
    ensures forall i | 0 <= i < |r| :: r[i] == Issue(AuthorityClaim, Render(path, trails[i]))
  {
    seq(|trails|, i requires 0 <= i < |trails| => Issue(AuthorityClaim, Render(path, trails[i])))
  }

  lemma MarksAppend(path: string, a: seq<Trail>, b: seq<Trail>)
    ensures Marks(path, a + b) == Marks(path, a) + Marks(path, b)
  {
  }

  lemma MarksUnder(path: string, step: Step, trails: seq<Trail>)
    ensures Marks(path, Under(step, trails)) == Marks(StepPath(path, step), trails)
  {
    forall i | 0 <= i < |trails|
      ensures Render(path, [step] + trails[i]) == Render(StepPath(path, step), trails[i])
    {
      assert ([step] + trails[i])[1..] == trails[i];
    }
  }

  lemma {:induction false} ScanMarks(node: Json, path: string)
    ensures Scan(node, path) == Marks(path, Trails(node))
    decreases node
  {
    match node
    case Obj(pairs) => ScanPairsMarks(pairs, path);
    case Arr(items) => ScanItemsMarks(items, path);
    case _ =>
  }

  lemma {:induction false} ScanPairMarks(pair: Pair, path: string)
    ensures ScanPair(pair, path) == Marks(path, PairTrails(pair))
    decreases pair
  {
    var step := Key(pair.key);
    var own: seq<Trail> := if IsAuthority(pair.key) then [[step]] else [];
    ScanMarks(pair.value, KeyPath(path, pair.key));
    MarksUnder(path, step, Trails(pair.value));
    MarksAppend(path, own, Under(step, Trails(pair.value)));
    assert [step][1..] == [];
    assert Render(path, [step]) == KeyPath(path, pair.key);
  }

  lemma {:induction false} ScanPairsMarks(pairs: Pairs, path: string)
    ensures ScanPairs(pairs, path) == Marks(path, PairsTrails(pairs))
    decreases pairs
  {
    if pairs != [] {
      var front, last := pairs[..|pairs| - 1], pairs[|pairs| - 1];
      ScanPairsMarks(front, path);
      ScanPairMarks(last, path);
      MarksAppend(path, PairsTrails(front), PairTrails(last));
    }
  }

  lemma {:induction false} ScanItemsMarks(items: seq<Json>, path: string)
    ensures ScanItems(items, path) == Marks(path, ItemsTrails(items))
    decreases items
  {
    if items != [] {
      var n := |items| - 1;
      ScanItemsMarks(items[..n], path);
      ScanMarks(items[n], ItemPath(path, n));
      MarksUnder(path, Item(n), Trails(items[n]));
      MarksAppend(path, ItemsTrails(items[..n]), Under(Item(n), Trails(items[n])));
    }
  }

  // ---- the same trails, whatever the order of keys --------------------------------------

  lemma {:induction false} PairsTrailsAppend(ps: Pairs, qs: Pairs)
    ensures PairsTrails(ps + qs) == PairsTrails(ps) + PairsTrails(qs)
  {
    if qs == [] {
      assert ps + qs == ps;
    } else {
      PairsTrailsAppend(ps, qs[..|qs| - 1]);
      FrontOfJoin(ps, qs);
      Assoc(PairsTrails(ps), PairsTrails(qs[..|qs| - 1]), PairTrails(qs[|qs| - 1]));
    }
  }

  lemma PairsTrailsOne(x: Pair)
    ensures PairsTrails([x]) == PairTrails(x)
  {
    assert [x][..0] == [];
  }

  lemma PairsTrailsWithout(qs: Pairs, j: nat)
    requires j < |qs|
    ensures multiset(PairsTrails(qs)) == multiset(PairsTrails(Without(qs, j))) + multiset(PairTrails(qs[j]))
  {
    var front, back := qs[..j], qs[j + 1..];
    CutAround(qs, j);
    PairsTrailsAppend(front, [qs[j]]);
    PairsTrailsOne(qs[j]);
    PairsTrailsAppend(front + [qs[j]], back);
    PairsTrailsAppend(front, back);
  }

  lemma {:induction false} UnderSame(step: Step, a: seq<Trail>, b: seq<Trail>)
    requires multiset(a) == multiset(b)
    ensures multiset(Under(step, a)) == multiset(Under(step, b))
  {
    SameLength(a, b);
    if a != [] {
      var n := |a| - 1;
      assert a[n] in multiset(b);
      var j :| 0 <= j < |b| && b[j] == a[n];
      MultisetWithout(b, j);
      MultisetFront(a);
      assert multiset(a[..n]) == multiset(a) - multiset{a[n]} == multiset(Without(b, j));
      UnderSame(step, a[..n], Without(b, j));
      UnderWithout(step, a, n);
      UnderWithout(step, b, j);
      assert Without(a, n) == a[..n];
    }
  }

  lemma UnderWithout(step: Step, a: seq<Trail>, j: nat)
    requires j < |a|
    ensures multiset(Under(step, a)) == multiset(Under(step, Without(a, j))) + multiset{[step] + a[j]}
  {
    MultisetWithout(Under(step, a), j);
    assert Without(Under(step, a), j) == Under(step, Without(a, j));
  }

  /** Permuting keys at every depth permutes the trails. */
  lemma {:induction false} TrailsSame(a: Json, b: Json)
    requires Same(a, b)
    ensures multiset(Trails(a)) == multiset(Trails(b))
    decreases a
  {
    match a
    case Obj(ps) => PairsTrailsSame(ps, b.pairs);
    case Arr(xs) => ItemsTrailsSame(xs, b.items);
    case _ =>
  }

  lemma {:induction false} PairsTrailsSame(ps: Pairs, qs: Pairs)
    requires SamePairs(ps, qs)
    ensures multiset(PairsTrails(ps)) == multiset(PairsTrails(qs))
    decreases ps
  {
    if ps != [] {
      var n := |ps| - 1;
      var j := SameWithout(ps, qs);
      PairsTrailsSame(ps[..n], Without(qs, j));
      PairsTrailsWithout(qs, j);
      TrailsSame(ps[n].value, qs[j].value);
      UnderSame(Key(ps[n].key), Trails(ps[n].value), Trails(qs[j].value));
    }
  }

  lemma {:induction false} ItemsTrailsSame(xs: seq<Json>, ys: seq<Json>)
    requires SameItems(xs, ys)
    ensures multiset(ItemsTrails(xs)) == multiset(ItemsTrails(ys))
    decreases xs
  {
    if xs != [] {
      var n := |xs| - 1;
      ItemsTrailsSame(xs[..n], ys[..n]);
      TrailsSame(xs[n], ys[n]);
      UnderSame(Item(n), Trails(xs[n]), Trails(ys[n]));
    }
  }

  lemma {:induction false} MarksSame(path: string, a: seq<Trail>, b: seq<Trail>)
    requires multiset(a) == multiset(b)
    ensures multiset(Marks(path, a)) == multiset(Marks(path, b))
  {
    SameLength(a, b);
    if a != [] {
      var n := |a| - 1;
      assert a[n] in multiset(b);
      var j :| 0 <= j < |b| && b[j] == a[n];
      MultisetWithout(b, j);
      MultisetFront(a);
      assert multiset(a[..n]) == multiset(a) - multiset{a[n]} == multiset(Without(b, j));
      MarksSame(path, a[..n], Without(b, j));
      MarksWithout(path, a, n);
      MarksWithout(path, b, j);
      assert Without(a, n) == a[..n];
    }
  }

  lemma MarksWithout(path: string, a: seq<Trail>, j: nat)
    requires j < |a|
    ensures multiset(Marks(path, a)) == multiset(Marks(path, Without(a, j))) + multiset{Issue(AuthorityClaim, Render(path, a[j]))}
  {
    MultisetWithout(Marks(path, a), j);
    assert Without(Marks(path, a), j) == Marks(path, Without(a, j));
  }

  lemma ScanSame(a: Json, b: Json, path: string)
    requires Same(a, b)
    ensures multiset(Scan(a, path)) == multiset(Scan(b, path))
  {
    ScanMarks(a, path);
    ScanMarks(b, path);
    TrailsSame(a, b);
    MarksSame(path, Trails(a), Trails(b));
  }
}
