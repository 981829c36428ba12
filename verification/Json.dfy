/** Parsed JSON or YAML, with objects as association lists so that the order of keys is visible. */
module Json {
  import opened Wrappers
  import opened Lists

  datatype Json =
    | Null
    | Bool(truth: bool)
    | Num(number: int)
    | Str(text: string)
    | Arr(items: seq<Json>)
    | Obj(pairs: seq<Pair>)

  datatype Pair = Pair(key: string, value: Json)

  type Pairs = seq<Pair>

  /** dict.get */
  function Get(pairs: Pairs, key: string): Option<Json> {
    if pairs == [] then None
    else if pairs[|pairs| - 1].key == key then Some(pairs[|pairs| - 1].value)
    else Get(pairs[..|pairs| - 1], key)
  }

  function Keys(pairs: Pairs): (r: seq<string>)
    ensures |r| == |pairs|
    ensures forall i | 0 <= i < |r| :: r[i] == pairs[i].key
  {
    seq(|pairs|, i requires 0 <= i < |pairs| => pairs[i].key)
  }

  predicate Distinct(pairs: Pairs) {
    forall i, j | 0 <= i < j < |pairs| :: pairs[i].key != pairs[j].key
  }

  /** Only numbers, strings, booleans and null can be looked up in a set. */
  predicate Hashable(v: Json) {
    !v.Arr? && !v.Obj?
  }

  lemma {:induction false} GetAt(pairs: Pairs, i: nat)
    requires Distinct(pairs) && i < |pairs|
    ensures Get(pairs, pairs[i].key) == Some(pairs[i].value)
  {
    if i < |pairs| - 1 {
      GetAt(pairs[..|pairs| - 1], i);
    }
  }

  lemma {:induction false} GetSome(pairs: Pairs, key: string) returns (i: nat)
    requires Get(pairs, key).Some?
    ensures i < |pairs| && pairs[i] == Pair(key, Get(pairs, key).value)
  {
    i := |pairs| - 1;
    if pairs[i].key != key {
      i := GetSome(pairs[..i], key);
    }
  }

  lemma {:induction false} GetNone(pairs: Pairs, key: string)
    ensures Get(pairs, key).None? <==> key !in Keys(pairs)
  {
    if pairs != [] {
      GetNone(pairs[..|pairs| - 1], key);
    }
  }

  // ---- the same document, whatever the order of keys at any depth -------------------

  predicate Same(a: Json, b: Json)
    decreases a
  {
    match a
    case Arr(xs) => b.Arr? && SameItems(xs, b.items)
    case Obj(ps) => b.Obj? && SamePairs(ps, b.pairs)
    case _ => a == b
  }

  predicate SameItems(xs: seq<Json>, ys: seq<Json>)
    decreases xs
  {
    |xs| == |ys| && forall i | 0 <= i < |xs| :: Same(xs[i], ys[i])
  }

  predicate SamePair(p: Pair, q: Pair)
    decreases p, 0
  {
    p.key == q.key && Same(p.value, q.value)
  }

  predicate HasTwin(p: Pair, qs: Pairs)
    decreases p, 1
  {
    exists j | 0 <= j < |qs| :: SamePair(p, qs[j])
  }

  /** Objects have each key once; the values of equal keys are the same. */
  predicate SamePairs(ps: Pairs, qs: Pairs)
    decreases ps
  {
    && |ps| == |qs| && Distinct(ps) && Distinct(qs)
    && forall i | 0 <= i < |ps| :: HasTwin(ps[i], qs)
  }

  lemma WithoutDistinct(qs: Pairs, j: nat)
    requires Distinct(qs) && j < |qs|
    ensures Distinct(Without(qs, j))
  {
  }

  /** Taking a key off both sides. */
  lemma SameWithout(ps: Pairs, qs: Pairs) returns (j: nat)
    requires ps != [] && SamePairs(ps, qs)
    ensures j < |qs| && SamePair(ps[|ps| - 1], qs[j])
    ensures SamePairs(ps[..|ps| - 1], Without(qs, j))
  {
    var n := |ps| - 1;
    assert HasTwin(ps[n], qs);
    j :| 0 <= j < |qs| && SamePair(ps[n], qs[j]);
    WithoutDistinct(qs, j);
    forall i | 0 <= i < n
      ensures HasTwin(ps[i], Without(qs, j))
    {
      assert HasTwin(ps[i], qs);
      var m :| 0 <= m < |qs| && SamePair(ps[i], qs[m]);
      WithoutKeeps(qs, j, m);
    }
  }

  ghost predicate SameOption(a: Option<Json>, b: Option<Json>) {
    if a.None? then b.None? else b.Some? && Same(a.value, b.value)
  }

  lemma KeysOfWithout(qs: Pairs, j: nat)
    requires j < |qs|
    ensures Keys(Without(qs, j)) == Without(Keys(qs), j)
  {
  }

  lemma KeysWithout(qs: Pairs, j: nat)
    requires j < |qs|
    ensures multiset(Keys(qs)) == multiset(Keys(Without(qs, j))) + multiset{qs[j].key}
  {
    KeysOfWithout(qs, j);
    MultisetWithout(Keys(qs), j);
  }

  lemma KeysFront(ps: Pairs)
    requires ps != []
    ensures multiset(Keys(ps)) == multiset(Keys(ps[..|ps| - 1])) + multiset{ps[|ps| - 1].key}
  {
    var ks := Keys(ps);
    MultisetFront(ks);
    assert ks[..|ks| - 1] == Keys(ps[..|ps| - 1]);
  }

  lemma {:induction false} SameKeys(ps: Pairs, qs: Pairs)
    requires SamePairs(ps, qs)
    ensures multiset(Keys(ps)) == multiset(Keys(qs))
  {
    if ps == [] {
      assert Keys(ps) == [] == Keys(qs);
    } else {
      var j := SameWithout(ps, qs);
      SameKeys(ps[..|ps| - 1], Without(qs, j));
      KeysWithout(qs, j);
      KeysFront(ps);
    }
  }

  lemma SameGet(ps: Pairs, qs: Pairs, key: string)
    requires SamePairs(ps, qs)
    ensures SameOption(Get(ps, key), Get(qs, key))
  {
    if Get(ps, key).Some? {
      var i := GetSome(ps, key);
      assert HasTwin(ps[i], qs);
      var j :| 0 <= j < |qs| && SamePair(ps[i], qs[j]);
      GetAt(qs, j);
    } else {
      SameKeys(ps, qs);
      GetNone(ps, key);
      GetNone(qs, key);
      assert key in multiset(Keys(ps)) <==> key in multiset(Keys(qs));
    }
  }
}
