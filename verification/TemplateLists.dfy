/** When the error lists of a document and of its permutation agree as lists, item by item. */
module TemplateLists {
  import opened Wrappers
  import opened Lists
  import opened Json
  import opened Template
  import opened TemplateRules
  import opened ClaimTrails
  import opened ClaimOrder
  import opened TemplateOrder

  // ---- order within a list --------------------------------------------------------------

  /** k stands before m. */
  ghost predicate Before<T>(s: seq<T>, k: T, m: T) {
    exists i, j | 0 <= i < j < |s| :: s[i] == k && s[j] == m
  }

  predicate NoRepeats<T(==)>(s: seq<T>) {
    forall i, j | 0 <= i < j < |s| :: s[i] != s[j]
  }

  ghost predicate SameOrder<T(!new)>(s: seq<T>, t: seq<T>) {
    forall k, m :: Before(s, k, m) <==> Before(t, k, m)
  }

  lemma BeforeTail<T>(s: seq<T>, k: T, m: T)
    requires s != [] && NoRepeats(s)
    ensures Before(s[1..], k, m) <==> Before(s, k, m) && k != s[0]
  {
    if Before(s[1..], k, m) {
      var i, j :| 0 <= i < j < |s| - 1 && s[1..][i] == k && s[1..][j] == m;
      assert s[i + 1] == k && s[j + 1] == m;
    }
    if Before(s, k, m) && k != s[0] {
      var i, j :| 0 <= i < j < |s| && s[i] == k && s[j] == m;
      assert s[1..][i - 1] == k && s[1..][j - 1] == m;
    }
  }

  lemma HeadFirst<T>(s: seq<T>, x: T)
    requires x in s && s != [] && x != s[0]
    ensures Before(s, s[0], x)
  {
    var j :| 0 <= j < |s| && s[j] == x;
  }

  lemma NotBoth<T>(s: seq<T>, k: T, m: T)
    requires NoRepeats(s) && Before(s, k, m)
    ensures !Before(s, m, k)
  {
  }

  lemma SameFirst<T(!new)>(s: seq<T>, t: seq<T>)
    requires s != [] && t != [] && multiset(s) == multiset(t) && NoRepeats(s) && NoRepeats(t) && SameOrder(s, t)
    ensures s[0] == t[0]
  {
    var x, y := s[0], t[0];
    assert x in multiset(t) && y in multiset(s);
    if x != y {
      HeadFirst(s, y);
      HeadFirst(t, x);
      NotBoth(s, x, y);
    }
  }

  lemma SameTails<T(!new)>(s: seq<T>, t: seq<T>)
    requires s != [] && t != [] && s[0] == t[0] && NoRepeats(s) && NoRepeats(t) && SameOrder(s, t)
    ensures SameOrder(s[1..], t[1..])
  {
    forall k, m
      ensures Before(s[1..], k, m) <==> Before(t[1..], k, m)
    {
      BeforeTail(s, k, m);
      BeforeTail(t, k, m);
    }
  }

  lemma MultisetTail<T>(s: seq<T>)
    requires s != []
    ensures multiset(s[1..]) == multiset(s) - multiset{s[0]}
  {
    assert s == [s[0]] + s[1..];
  }

  /** Permutations without repeats are equal exactly if they order their elements alike. */
  lemma {:induction false} OrderDecides<T(!new)>(s: seq<T>, t: seq<T>)
    requires multiset(s) == multiset(t) && NoRepeats(s) && NoRepeats(t)
    ensures s == t <==> SameOrder(s, t)
  {
    SameLength(s, t);
    if s != [] && SameOrder(s, t) {
      SameFirst(s, t);
      SameTails(s, t);
      MultisetTail(s);
      MultisetTail(t);
      OrderDecides(s[1..], t[1..]);
      assert s == [s[0]] + s[1..] && t == [t[0]] + t[1..];
    }
  }

  // ---- constraint references ------------------------------------------------------------

  /** The constraint keys that no tool declares, in order. */
  function Undeclared(pairs: Pairs): seq<string> {
    var tools, cons := Tools(Get(pairs, "tools")), Get(pairs, "constraints");
    if cons.Some? && cons.value.Obj? then Minus(Keys(cons.value.pairs), Ids(tools, |tools|)) else []
  }

  function RefList(keys: seq<string>): (r: seq<Issue>)
    ensures |r| == |keys|
    ensures forall i | 0 <= i < |r| :: r[i] == Issue(UnknownConstraintRef, KeyPath("$.constraints", keys[i]))
  {
    seq(|keys|, i requires 0 <= i < |keys| => Issue(UnknownConstraintRef, KeyPath("$.constraints", keys[i])))
  }

  lemma {:induction false} RefsAreUndeclared(keys: seq<string>, ids: seq<string>)
    ensures RefIssues(keys, ids) == RefList(Minus(keys, ids))
  {
    if keys != [] {
      RefsAreUndeclared(keys[..|keys| - 1], ids);
    }
  }

  lemma RefListsEqual(a: seq<string>, b: seq<string>)
    ensures RefList(a) == RefList(b) <==> a == b
  {
    if RefList(a) == RefList(b) {
      assert |a| == |RefList(a)| == |RefList(b)| == |b|;
      forall i | 0 <= i < |a|
        ensures a[i] == b[i]
      {
        assert RefList(a)[i] == RefList(b)[i];
        KeyPathsEqual("$.constraints", a[i], b[i]);
      }
    }
  }

  lemma KeyPathsEqual(path: string, k: string, m: string)
    ensures KeyPath(path, k) == KeyPath(path, m) <==> k == m
  {
    assert KeyPath(path, k)[|path| + 1..] == k && KeyPath(path, m)[|path| + 1..] == m;
  }

  lemma {:induction false} MinusNoRepeats(a: seq<string>, b: seq<string>)
    requires NoRepeats(a)
    ensures NoRepeats(Minus(a, b))
  {
    if a != [] {
      var front, x := a[..|a| - 1], a[|a| - 1];
      MinusNoRepeats(front, b);
      forall i | 0 <= i < |Minus(front, b)|
        ensures Minus(front, b)[i] != x
      {
        MinusHas(front, b, Minus(front, b)[i]);
      }
    }
  }

  lemma UndeclaredSame(ps: Pairs, qs: Pairs)
    requires SamePairs(ps, qs)
    ensures multiset(Undeclared(ps)) == multiset(Undeclared(qs)) && NoRepeats(Undeclared(ps)) && NoRepeats(Undeclared(qs))
  {
    ToolsOfSame(ps, qs);
    var tools, tools', cons, cons' := Tools(Get(ps, "tools")), Tools(Get(qs, "tools")), Get(ps, "constraints"), Get(qs, "constraints");
    ToolsSame(tools, tools', |tools|, cons, cons');
    var ids := Ids(tools, |tools|);
    if cons.Some? && cons.value.Obj? {
      assert SamePairs(cons.value.pairs, cons'.value.pairs);
      var a, b := Keys(cons.value.pairs), Keys(cons'.value.pairs);
      SameKeys(cons.value.pairs, cons'.value.pairs);
      MinusNoRepeats(a, ids);
      MinusNoRepeats(b, ids);
      forall x
        ensures multiset(Minus(a, ids))[x] == multiset(Minus(b, ids))[x]
      {
        MinusCount(a, ids, x);
        MinusCount(b, ids, x);
      }
    }
  }

  lemma RefsOfUndeclared(pairs: Pairs)
    requires !BadConstraintsIn(pairs)
    ensures RefsOf(pairs) == RefList(Undeclared(pairs))
  {
    var tools, cons := Tools(Get(pairs, "tools")), Get(pairs, "constraints");
    if cons.Some? && cons.value.Obj? {
      RefsAreUndeclared(Keys(cons.value.pairs), Ids(tools, |tools|));
    }
  }

  predicate BadConstraintsIn(pairs: Pairs) {
    var cons := Get(pairs, "constraints");
    cons.Some? && !cons.value.Null? && !cons.value.Obj?
  }

  /** The references' part agrees exactly if the undeclared constraint keys come in the same order. */
  lemma RefsAgreeIff(ps: Pairs, qs: Pairs)
    requires SamePairs(ps, qs)
    ensures RefsOf(ps) == RefsOf(qs) <==> SameOrder(Undeclared(ps), Undeclared(qs))
  {
    ToolsOfSame(ps, qs);
    UndeclaredSame(ps, qs);
    OrderDecides(Undeclared(ps), Undeclared(qs));
    if !BadConstraintsIn(ps) {
      RefsOfUndeclared(ps);
      RefsOfUndeclared(qs);
      RefListsEqual(Undeclared(ps), Undeclared(qs));
    }
  }

  // ---- claims ---------------------------------------------------------------------------

  function RenderAll(trails: seq<Trail>): (r: seq<string>)
    ensures |r| == |trails|
    ensures forall i | 0 <= i < |r| :: r[i] == Render("$", trails[i])
  {
    seq(|trails|, i requires 0 <= i < |trails| => Render("$", trails[i]))
  }

  /** The paths of the claims, in the order a traversal meets them. */
  function Rendered(doc: Json): (r: seq<string>) {
    RenderAll(Trails(doc))
  }

  lemma ScansEqualIff(a: Json, b: Json)
    ensures Scan(a, "$") == Scan(b, "$") <==> Rendered(a) == Rendered(b)
  {
    ScanMarks(a, "$");
    ScanMarks(b, "$");
    var s, t := Scan(a, "$"), Scan(b, "$");
    if s == t {
      assert |Rendered(a)| == |s| == |t| == |Rendered(b)|;
      forall i | 0 <= i < |s|
        ensures Rendered(a)[i] == Rendered(b)[i]
      {
        assert s[i] == t[i];
      }
    }
    if Rendered(a) == Rendered(b) {
      assert |s| == |Rendered(a)| == |Rendered(b)| == |t|;
      forall i | 0 <= i < |s|
        ensures s[i] == t[i]
      {
        assert Rendered(a)[i] == Rendered(b)[i];
      }
    }
  }

  /** The occurrences of two elements, in order. */
  function Only<T(==)>(s: seq<T>, p: T, q: T): seq<T> {
    if s == [] then [] else (if s[0] == p || s[0] == q then [s[0]] else []) + Only(s[1..], p, q)
  }

  ghost predicate AlternateAlike<T(!new)>(s: seq<T>, t: seq<T>) {
    forall p, q | p != q :: Only(s, p, q) == Only(t, p, q)
  }

  lemma AlternateHeads<T(!new)>(s: seq<T>, t: seq<T>)
    requires s != [] && t != [] && AlternateAlike(s, t)
    ensures s[0] == t[0]
  {
    var x, y := s[0], t[0];
    OnlyHead(s, x, y);
    OnlyHead(t, x, y);
    assert x != y ==> Only(s, x, y) == Only(t, x, y);
  }

  lemma OnlyHead<T>(s: seq<T>, p: T, q: T)
    requires s != [] && (s[0] == p || s[0] == q)
    ensures Only(s, p, q) != [] && Only(s, p, q)[0] == s[0]
  {
  }

  lemma AlternateTails<T(!new)>(s: seq<T>, t: seq<T>)
    requires s != [] && t != [] && s[0] == t[0] && AlternateAlike(s, t)
    ensures AlternateAlike(s[1..], t[1..])
  {
    forall p, q | p != q
      ensures Only(s[1..], p, q) == Only(t[1..], p, q)
    {
      assert Only(s, p, q) == Only(t, p, q);
      var head := if s[0] == p || s[0] == q then [s[0]] else [];
      JoinsEqualIff(head, head, Only(s[1..], p, q), Only(t[1..], p, q));
    }
  }

  /** Permutations are equal exactly if any two different elements alternate alike in both. */
  lemma {:induction false} AlternationDecides<T(!new)>(s: seq<T>, t: seq<T>)
    requires multiset(s) == multiset(t)
    ensures s == t <==> AlternateAlike(s, t)
  {
    SameLength(s, t);
    if s != [] && AlternateAlike(s, t) {
      AlternateHeads(s, t);
      AlternateTails(s, t);
      MultisetTail(s);
      MultisetTail(t);
      AlternationDecides(s[1..], t[1..]);
      assert s == [s[0]] + s[1..] && t == [t[0]] + t[1..];
    }
  }

  lemma RenderedSame(a: Json, b: Json)
    requires Same(a, b)
    ensures multiset(Rendered(a)) == multiset(Rendered(b))
  {
    TrailsSame(a, b);
    RenderSame(Trails(a), Trails(b));
  }

  lemma {:induction false} RenderSame(a: seq<Trail>, b: seq<Trail>)
    requires multiset(a) == multiset(b)
    ensures multiset(RenderAll(a)) == multiset(RenderAll(b))
  {
    SameLength(a, b);
    if a != [] {
      var n := |a| - 1;
      assert a[n] in multiset(b);
      var j :| 0 <= j < |b| && b[j] == a[n];
      MultisetWithout(b, j);
      MultisetFront(a);
      assert multiset(a[..n]) == multiset(a) - multiset{a[n]} == multiset(Without(b, j));
      RenderSame(a[..n], Without(b, j));
      RenderWithout(a, n);
      RenderWithout(b, j);
      assert Without(a, n) == a[..n];
    }
  }

  lemma RenderWithout(a: seq<Trail>, j: nat)
    requires j < |a|
    ensures multiset(RenderAll(a)) == multiset(RenderAll(Without(a, j))) + multiset{Render("$", a[j])}
  {
    MultisetWithout(RenderAll(a), j);
    assert Without(RenderAll(a), j) == RenderAll(Without(a, j));
  }

  // ---- the lists ------------------------------------------------------------------------

  lemma Regroup(s: seq<Issue>, a: seq<Issue>, b: seq<Issue>, c: seq<Issue>, r: seq<Issue>)
    ensures s + a + b + c + r == s + ((a + b + c) + r)
  {
  }

  /** The list in three parts: the scan, what cannot move, the constraint references. */
  function Middle(doc: Json, digits: set<char>): seq<Issue>
    requires doc.Obj?
  {
    KeyIssues(doc.pairs) + FieldIssues(doc.pairs, digits) + IssuesOfTools(doc.pairs)
  }

  lemma ThreeParts(doc: Json, digits: set<char>)
    requires doc.Obj?
    ensures AllIssues(doc, digits) == Scan(doc, "$") + (Middle(doc, digits) + RefsOf(doc.pairs))
  {
    Regroup(Scan(doc, "$"), KeyIssues(doc.pairs), FieldIssues(doc.pairs, digits), IssuesOfTools(doc.pairs), RefsOf(doc.pairs));
  }

  /** The two parts of the list that can move agree exactly if the lists do. */
  lemma PartsDecide(a: Json, b: Json, digits: set<char>)
    requires Same(a, b) && a.Obj? && !Raises(a.pairs)
    ensures Validate(a, digits) == Validate(b, digits) <==> Scan(a, "$") == Scan(b, "$") && RefsOf(a.pairs) == RefsOf(b.pairs)
  {
    PartsSame(a.pairs, b.pairs, digits);
    ScanSame(a, b, "$");
    SameLength(Scan(a, "$"), Scan(b, "$"));
    ThreeParts(a, digits);
    ThreeParts(b, digits);
    var m := Middle(a, digits);
    JoinsEqualIff(Scan(a, "$"), Scan(b, "$"), m + RefsOf(a.pairs), m + RefsOf(b.pairs));
    JoinsEqualIff(m, m, RefsOf(a.pairs), RefsOf(b.pairs));
  }

  /**
   * Two lists can be compared directly, as the source invites callers to, exactly if the claims of
   * any two different paths come in the same order in both documents, and the undeclared
   * constraint keys do.
   */
  lemma ListsAgreeIff(a: Json, b: Json, digits: set<char>)
    requires Same(a, b) && a.Obj? && !Raises(a.pairs)
    ensures Validate(a, digits) == Validate(b, digits) <==>
              && AlternateAlike(Rendered(a), Rendered(b))
              && SameOrder(Undeclared(a.pairs), Undeclared(b.pairs))
  {
    PartsDecide(a, b, digits);
    ScansEqualIff(a, b);
    RenderedSame(a, b);
    AlternationDecides(Rendered(a), Rendered(b));
    RefsAgreeIff(a.pairs, b.pairs);
  }

  lemma OrderedNoRepeats(doc: Json, trails: seq<Trail>)
    requires Ordered(doc, trails)
    ensures NoRepeats(trails)
  {
    forall i, j | 0 <= i < j < |trails|
      ensures trails[i] != trails[j]
    {
      NotBothWays(doc, trails[i], trails[j]);
    }
  }

  lemma BeforeIsComes(doc: Json, trails: seq<Trail>, x: Trail, y: Trail)
    requires Ordered(doc, trails) && x in trails && y in trails && x != y
    ensures Before(trails, x, y) <==> Comes(doc, x, y)
  {
    var i :| 0 <= i < |trails| && trails[i] == x;
    var j :| 0 <= j < |trails| && trails[j] == y;
    if j < i {
      NotBothWays(doc, y, x);
    }
    if Before(trails, x, y) {
      var k, m :| 0 <= k < m < |trails| && trails[k] == x && trails[m] == y;
    }
  }

  /** Any two claims come in the same order in both documents. */
  ghost predicate SameClaimOrder(a: Json, b: Json) {
    forall x, y | x in Trails(a) && y in Trails(a) && x != y :: Comes(a, x, y) <==> Comes(b, x, y)
  }

  lemma TrailsAgreeIff(a: Json, b: Json)
    requires Same(a, b)
    ensures Trails(a) == Trails(b) <==> SameClaimOrder(a, b)
  {
    SameSymmetric(a, b);
    TrailsOrdered(a, b);
    TrailsOrdered(b, a);
    TrailsSame(a, b);
    var s, t := Trails(a), Trails(b);
    OrderedNoRepeats(a, s);
    OrderedNoRepeats(b, t);
    OrderDecides(s, t);
    forall x
      ensures x in s <==> x in t
    {
      assert x in multiset(s) <==> x in multiset(t);
    }
    forall x, y | x in s && y in s && x != y
      ensures Before(s, x, y) <==> Comes(a, x, y)
      ensures Before(t, x, y) <==> Comes(b, x, y)
    {
      BeforeIsComes(a, s, x, y);
      BeforeIsComes(b, t, x, y);
    }
    SameOrderOnElements(s, t);
  }

  lemma SameOrderOnElements(s: seq<Trail>, t: seq<Trail>)
    requires NoRepeats(s) && NoRepeats(t) && forall x :: x in s <==> x in t
    ensures SameOrder(s, t) <==> forall x, y | x in s && y in s && x != y :: Before(s, x, y) <==> Before(t, x, y)
  {
  }

  /** No two claims share a path, as they can when keys hold dots or brackets. */
  predicate PathsApart(doc: Json) {
    NoRepeats(Rendered(doc))
  }

  /** Trails with paths of their own are told apart by them. */
  lemma RenderEqual(s: seq<Trail>, t: seq<Trail>)
    requires multiset(s) == multiset(t) && NoRepeats(RenderAll(s)) && RenderAll(s) == RenderAll(t)
    ensures s == t
  {
    SameLength(s, t);
    var r := RenderAll(s);
    forall i | 0 <= i < |s|
      ensures s[i] == t[i]
    {
      assert t[i] in multiset(s);
      var j :| 0 <= j < |s| && s[j] == t[i];
      assert r[j] == r[i];
    }
  }

  lemma RenderedEqualIff(a: Json, b: Json)
    requires Same(a, b) && PathsApart(a)
    ensures Rendered(a) == Rendered(b) <==> Trails(a) == Trails(b)
  {
    TrailsSame(a, b);
    if Rendered(a) == Rendered(b) {
      RenderEqual(Trails(a), Trails(b));
    }
  }

  /**
   * For documents whose claims have paths of their own: the lists agree exactly if any two claims,
   * and any two undeclared constraint keys, come in the same order.
   */
  lemma ListsAgreeIffInOrder(a: Json, b: Json, digits: set<char>)
    requires Same(a, b) && a.Obj? && !Raises(a.pairs) && PathsApart(a)
    ensures Validate(a, digits) == Validate(b, digits) <==>
              SameClaimOrder(a, b) && SameOrder(Undeclared(a.pairs), Undeclared(b.pairs))
  {
    PartsDecide(a, b, digits);
    ScansEqualIff(a, b);
    RenderedEqualIff(a, b);
    TrailsAgreeIff(a, b);
    RefsAgreeIff(a.pairs, b.pairs);
  }

  lemma ShortOrder<T(!new)>(s: seq<T>, t: seq<T>)
    requires multiset(s) == multiset(t) && |s| <= 1
    ensures s == t
  {
    SameLength(s, t);
    if s != [] {
      assert s[0] in multiset(t);
    }
  }

  /** With one claim and one undeclared constraint key at most, nothing can move. */
  lemma QuietListsAgree(a: Json, b: Json, digits: set<char>)
    requires Same(a, b)
    requires |Trails(a)| <= 1 && (a.Obj? ==> |Undeclared(a.pairs)| <= 1)
    ensures Validate(a, digits) == Validate(b, digits)
  {
    if a.Obj? {
      PartsSame(a.pairs, b.pairs, digits);
      TrailsSame(a, b);
      ShortOrder(Trails(a), Trails(b));
      UndeclaredSame(a.pairs, b.pairs);
      ShortOrder(Undeclared(a.pairs), Undeclared(b.pairs));
      if !Raises(a.pairs) {
        PartsDecide(a, b, digits);
        ScansEqualIff(a, b);
        RefsAgreeIff(a.pairs, b.pairs);
      }
    }
  }

  /** Two claims in one dict: swapping the keys swaps the errors. */
  lemma DirectComparisonFails(k: string, m: string, digits: set<char>)
    requires k != m && IsAuthority(k) && IsAuthority(m)
    ensures var a, b := Obj([Pair(k, Null), Pair(m, Null)]), Obj([Pair(m, Null), Pair(k, Null)]);
      Same(a, b) && Validate(a, digits) != Validate(b, digits)
  {
    var ps, qs := [Pair(k, Null), Pair(m, Null)], [Pair(m, Null), Pair(k, Null)];
    SwappedSame(ps, qs);
    TwoClaims(k, m);
    TwoClaims(m, k);
    KeyPathsDiffer("$", k, m);
    NullsDoNotRaise(ps);
    assert Scan(Obj(ps), "$")[0] != Scan(Obj(qs), "$")[0];
    PartsDecide(Obj(ps), Obj(qs), digits);
  }

  lemma SwappedSame(ps: Pairs, qs: Pairs)
    requires |ps| == |qs| == 2 && ps[0].key != ps[1].key && ps[0] == qs[1] && ps[1] == qs[0]
    requires ps[0].value == ps[1].value == Null
    ensures SamePairs(ps, qs)
  {
    assert SamePair(ps[0], qs[1]) && SamePair(ps[1], qs[0]);
  }

  lemma KeyPathsDiffer(path: string, k: string, m: string)
    requires k != m
    ensures KeyPath(path, k) != KeyPath(path, m)
  {
    assert KeyPath(path, k)[|path| + 1..] == k && KeyPath(path, m)[|path| + 1..] == m;
  }

  lemma NullsDoNotRaise(pairs: Pairs)
    requires forall i | 0 <= i < |pairs| :: pairs[i].value == Null
    ensures !Raises(pairs)
  {
    if Get(pairs, "framework").Some? {
      var i := GetSome(pairs, "framework");
    }
    if Get(pairs, "tools").Some? {
      var i := GetSome(pairs, "tools");
    }
  }

  lemma TwoClaims(k: string, m: string)
    requires IsAuthority(k) && IsAuthority(m)
    ensures Scan(Obj([Pair(k, Null), Pair(m, Null)]), "$") ==
              [Issue(AuthorityClaim, KeyPath("$", k)), Issue(AuthorityClaim, KeyPath("$", m))]
  {
    var ps := [Pair(k, Null), Pair(m, Null)];
    var one := ps[..1];
    assert one[..0] == [];
    assert ScanPair(ps[0], "$") == [Issue(AuthorityClaim, KeyPath("$", k))];
    assert ScanPair(ps[1], "$") == [Issue(AuthorityClaim, KeyPath("$", m))];
    assert ScanPairs(one, "$") == ScanPair(one[0], "$");
    assert ScanPairs(ps, "$") == ScanPairs(one, "$") + ScanPair(ps[1], "$");
  }
}
