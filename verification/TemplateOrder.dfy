/** The order of keys, at any depth, moves errors about but neither adds nor drops one. */
module TemplateOrder {
  import opened Wrappers
  import opened Lists
  import opened Text
  import opened Sorting
  import opened Json
  import opened Template
  import opened ClaimTrails

  // ---- V3-V9: nothing moves ---------------------------------------------------------

  lemma {:induction false} MinusSame(a: seq<string>, b: seq<string>, c: seq<string>)
    requires forall x :: x in b <==> x in c
    ensures Minus(a, b) == Minus(a, c)
  {
    if a != [] {
      MinusSame(a[..|a| - 1], b, c);
    }
  }

  lemma {:induction false} MinusCount(a: seq<string>, b: seq<string>, x: string)
    ensures multiset(Minus(a, b))[x] == if x in b then 0 else multiset(a)[x]
  {
    if a != [] {
      MinusCount(a[..|a| - 1], b, x);
      assert a == a[..|a| - 1] + [a[|a| - 1]];
    }
  }

  lemma StringOrder(s: seq<string>)
    ensures Preorder(Le) && Separates(Le, s)
  {
    forall a, b
      ensures Le(a, b) || Le(b, a)
      ensures Le(a, b) && Le(b, a) ==> a == b
    {
      LeTotal(a, b);
    }
    forall a, b, c | Le(a, b) && Le(b, c)
      ensures Le(a, c)
    {
      LeTransitive(a, b, c);
    }
  }

  lemma KeysSame(ps: Pairs, qs: Pairs)
    requires SamePairs(ps, qs)
    ensures Missing(ps) == Missing(qs) && Unknown(ps) == Unknown(qs)
  {
    var a, b := Keys(ps), Keys(qs);
    SameKeys(ps, qs);
    forall x
      ensures x in a <==> x in b
    {
      assert x in multiset(a) <==> x in multiset(b);
    }
    MinusSame(REQUIRED_TOP, a, b);
    UnknownSame(a, b);
  }

  lemma UnknownSame(a: seq<string>, b: seq<string>)
    requires multiset(a) == multiset(b)
    ensures Sort(Le, Minus(a, TOP_KEYS)) == Sort(Le, Minus(b, TOP_KEYS))
  {
    var m, n := Minus(a, TOP_KEYS), Minus(b, TOP_KEYS);
    forall x
      ensures multiset(m)[x] == multiset(n)[x]
    {
      MinusCount(a, TOP_KEYS, x);
      MinusCount(b, TOP_KEYS, x);
    }
    StringOrder(m);
    SortCanonical(Le, m, n);
  }

  /** A scalar is the same only as itself. */
  lemma FieldSame(a: Option<Json>, b: Option<Json>, digits: set<char>)
    requires SameOption(a, b)
    ensures HeaderOk(a) <==> HeaderOk(b)
    ensures NameOk(a) <==> NameOk(b)
    ensures VersionOk(a, digits) <==> VersionOk(b, digits)
    ensures |Tools(a)| == |Tools(b)|
  {
    if a.Some? {
      match a.value
      case Arr(xs) => assert SameItems(xs, b.value.items);
      case Obj(_) => assert b.value.Obj?;
      case _ => assert a == b;
    }
  }

  lemma FieldsSame(ps: Pairs, qs: Pairs, digits: set<char>)
    requires SamePairs(ps, qs)
    ensures FieldIssues(ps, digits) == FieldIssues(qs, digits)
    ensures FrameworkRaises(Get(ps, "framework")) <==> FrameworkRaises(Get(qs, "framework"))
  {
    GetFieldSame(ps, qs, "name", digits);
    GetFieldSame(ps, qs, "version", digits);
    GetFieldSame(ps, qs, "tools", digits);
    SameGet(ps, qs, "framework");
    KindSame(Get(ps, "framework"), Get(qs, "framework"));
  }

  lemma GetFieldSame(ps: Pairs, qs: Pairs, key: string, digits: set<char>)
    requires SamePairs(ps, qs)
    ensures HeaderOk(Get(ps, key)) <==> HeaderOk(Get(qs, key))
    ensures NameOk(Get(ps, key)) <==> NameOk(Get(qs, key))
    ensures VersionOk(Get(ps, key), digits) <==> VersionOk(Get(qs, key), digits)
    ensures |Tools(Get(ps, key))| == |Tools(Get(qs, key))|
  {
    SameGet(ps, qs, key);
    FieldSame(Get(ps, key), Get(qs, key), digits);
  }

  lemma HeadSame(ps: Pairs, qs: Pairs)
    requires SamePairs(ps, qs)
    ensures KeyIssues(ps) == KeyIssues(qs)
  {
    KeysSame(ps, qs);
    GetFieldSame(ps, qs, "template", {});
  }

  lemma KindSame(a: Option<Json>, b: Option<Json>)
    requires SameOption(a, b)
    ensures FrameworkOk(a) <==> FrameworkOk(b)
    ensures FrameworkRaises(a) <==> FrameworkRaises(b)
  {
    if a.Some? && a.value.Obj? {
      SameGet(a.value.pairs, b.value.pairs, "kind");
    }
  }

  // ---- V10-V15: a tool's errors do not move either ----------------------------------

  lemma ShapeSame(a: Json, b: Json)
    requires Same(a, b)
    ensures HasShape(a) <==> HasShape(b)
    ensures HasId(a) <==> HasId(b)
    ensures HasId(a) ==> Id(a) == Id(b) && Same(Actions(a), Actions(b)) && Same(Risk(a), Risk(b))
  {
    if a.Obj? {
      SameGet(a.pairs, b.pairs, "id");
      SameGet(a.pairs, b.pairs, "actions");
      SameGet(a.pairs, b.pairs, "risk");
    }
  }

  lemma ActionsSame(a: Json, b: Json)
    requires Same(a, b)
    ensures ActionsOk(a) <==> ActionsOk(b)
    ensures ActionsRaise(a) <==> ActionsRaise(b)
  {
    if a.Arr? {
      assert forall i | 0 <= i < |a.items| :: Same(a.items[i], b.items[i]);
    }
  }

  lemma PrefixSame(a: Option<Json>, b: Option<Json>, prefix: string)
    requires SameOption(a, b) && HasPrefix(a, prefix)
    ensures HasPrefix(b, prefix)
  {
    var ps, qs := a.value.pairs, b.value.pairs;
    assert SamePairs(ps, qs);
    var i :| 0 <= i < |ps| && StartsWith(ps[i].key, prefix);
    assert HasTwin(ps[i], qs);
    var j :| 0 <= j < |qs| && SamePair(ps[i], qs[j]);
    assert StartsWith(qs[j].key, prefix);
  }

  lemma {:induction false} SameSymmetric(a: Json, b: Json)
    requires Same(a, b)
    ensures Same(b, a)
    decreases a
  {
    match a
    case Obj(ps) => PairsSymmetric(ps, b.pairs);
    case Arr(xs) =>
      forall i | 0 <= i < |xs|
        ensures Same(b.items[i], xs[i])
      {
        SameSymmetric(xs[i], b.items[i]);
      }
    case _ =>
  }

  lemma {:induction false} PairsSymmetric(ps: Pairs, qs: Pairs)
    requires SamePairs(ps, qs)
    ensures SamePairs(qs, ps)
    decreases ps
  {
    if ps != [] {
      var n := |ps| - 1;
      var j := SameWithout(ps, qs);
      PairsSymmetric(ps[..n], Without(qs, j));
      SameSymmetric(ps[n].value, qs[j].value);
      forall m | 0 <= m < |qs|
        ensures HasTwin(qs[m], ps)
      {
        if m == j {
          assert SamePair(qs[m], ps[n]);
        } else {
          WithoutKeeps(qs, j, m);
          var i :| 0 <= i < n && SamePair(qs[m], ps[..n][i]);
          assert ps[..n][i] == ps[i];
        }
      }
    }
  }

  lemma EntrySame(a: Option<Json>, b: Option<Json>, id: string, prefix: string)
    requires SameOption(a, b)
    ensures HasPrefix(Entry(a, id), prefix) <==> HasPrefix(Entry(b, id), prefix)
  {
    if a.Some? && a.value.Obj? {
      var ps, qs := a.value.pairs, b.value.pairs;
      SameGet(ps, qs, id);
      PairsSymmetric(ps, qs);
      SameGet(qs, ps, id);
      if HasPrefix(Get(ps, id), prefix) {
        PrefixSame(Get(ps, id), Get(qs, id), prefix);
      }
      if HasPrefix(Get(qs, id), prefix) {
        PrefixSame(Get(qs, id), Get(ps, id), prefix);
      }
    }
  }

  lemma ToolSame(a: Json, b: Json, path: string, ids: seq<string>, cons: Option<Json>, cons': Option<Json>)
    requires Same(a, b) && SameOption(cons, cons')
    ensures ToolIssues(a, path, ids, cons) == ToolIssues(b, path, ids, cons')
    ensures ToolRaises(a) <==> ToolRaises(b)
  {
    ShapeSame(a, b);
    if HasId(a) {
      ActionsSame(Actions(a), Actions(b));
      EntrySame(cons, cons', Id(a), "max_");
      EntrySame(cons, cons', Id(a), "ciba_");
      RulesSame(Id(a), Actions(a), Actions(b), Risk(a), Risk(b), path, cons, cons');
    }
  }

  lemma RulesSame(id: string, actions: Json, actions': Json, risk: Json, risk': Json, path: string, cons: Option<Json>, cons': Option<Json>)
    requires (ActionsOk(actions) <==> ActionsOk(actions')) && Same(risk, risk')
    requires HasPrefix(Entry(cons, id), "max_") <==> HasPrefix(Entry(cons', id), "max_")
    requires HasPrefix(Entry(cons, id), "ciba_") <==> HasPrefix(Entry(cons', id), "ciba_")
    ensures RuleIssues(id, actions, risk, path, cons) == RuleIssues(id, actions', risk', path, cons')
  {
  }

  lemma {:induction false} ToolsSame(a: seq<Json>, b: seq<Json>, n: nat, cons: Option<Json>, cons': Option<Json>)
    requires SameItems(a, b) && SameOption(cons, cons') && n <= |a|
    ensures ToolsIssues(a, n, cons) == ToolsIssues(b, n, cons')
    ensures Ids(a, n) == Ids(b, n)
  {
    if n > 0 {
      ToolsSame(a, b, n - 1, cons, cons');
      ShapeSame(a[n - 1], b[n - 1]);
      ToolSame(a[n - 1], b[n - 1], ItemPath("$.tools", n - 1), Ids(a, n - 1), cons, cons');
    }
  }

  lemma ToolsRaiseSame(a: seq<Json>, b: seq<Json>)
    requires SameItems(a, b)
    ensures ToolsRaise(a) <==> ToolsRaise(b)
  {
    forall i | 0 <= i < |a|
      ensures ToolRaises(a[i]) <==> ToolRaises(b[i])
    {
      ToolSame(a[i], b[i], "", [], None, None);
    }
  }

  // ---- V16 --------------------------------------------------------------------------

  function RefIssue(key: string, ids: seq<string>): seq<Issue> {
    IssueIf(key !in ids, UnknownConstraintRef, KeyPath("$.constraints", key))
  }

  lemma {:induction false} RefsAppend(a: seq<string>, b: seq<string>, ids: seq<string>)
    ensures multiset(RefIssues(a + b, ids)) == multiset(RefIssues(a, ids)) + multiset(RefIssues(b, ids))
  {
    if b == [] {
      assert a + b == a;
    } else {
      RefsAppend(a, b[..|b| - 1], ids);
      FrontOfJoin(a, b);
    }
  }

  lemma RefsSnoc(ks: seq<string>, k: string, ids: seq<string>)
    ensures RefIssues(ks + [k], ids) == RefIssues(ks, ids) + RefIssue(k, ids)
  {
    FrontOfJoin(ks, [k]);
    assert ks + [] == ks;
  }

  lemma RefsWithout(ks: seq<string>, j: nat, ids: seq<string>)
    requires j < |ks|
    ensures multiset(RefIssues(ks, ids)) == multiset(RefIssues(Without(ks, j), ids)) + multiset(RefIssue(ks[j], ids))
  {
    var front, back := ks[..j], ks[j + 1..];
    CutAround(ks, j);
    RefsSnoc(front, ks[j], ids);
    RefsAppend(front + [ks[j]], back, ids);
    RefsAppend(front, back, ids);
  }

  lemma {:induction false} RefsSame(a: seq<string>, b: seq<string>, ids: seq<string>)
    requires multiset(a) == multiset(b)
    ensures multiset(RefIssues(a, ids)) == multiset(RefIssues(b, ids))
  {
    if a == [] {
      SameLength(a, b);
    } else {
      var n := |a| - 1;
      assert a[n] in multiset(b);
      var j :| 0 <= j < |b| && b[j] == a[n];
      MultisetWithout(b, j);
      MultisetFront(a);
      assert multiset(a[..n]) == multiset(a) - multiset{a[n]} == multiset(Without(b, j));
      RefsSame(a[..n], Without(b, j), ids);
      RefsWithout(b, j, ids);
    }
  }

  lemma ConstraintsSame(a: Option<Json>, b: Option<Json>, ids: seq<string>)
    requires SameOption(a, b)
    ensures multiset(ConstraintIssues(a, ids)) == multiset(ConstraintIssues(b, ids))
  {
    if a.Some? && a.value.Obj? {
      SameKeys(a.value.pairs, b.value.pairs);
      RefsSame(Keys(a.value.pairs), Keys(b.value.pairs), ids);
    }
  }

  // ---- the whole list ---------------------------------------------------------------

  ghost predicate SameTools(ps: Pairs, qs: Pairs) {
    && SameItems(Tools(Get(ps, "tools")), Tools(Get(qs, "tools")))
    && SameOption(Get(ps, "constraints"), Get(qs, "constraints"))
  }

  lemma ToolsOfSame(ps: Pairs, qs: Pairs)
    requires SamePairs(ps, qs)
    ensures SameTools(ps, qs)
  {
    SameGet(ps, qs, "tools");
    SameGet(ps, qs, "constraints");
  }

  /** Only the scan and the unknown constraint references can move. */
  lemma PartsSame(ps: Pairs, qs: Pairs, digits: set<char>)
    requires SamePairs(ps, qs)
    ensures Raises(ps) <==> Raises(qs)
    ensures KeyIssues(ps) == KeyIssues(qs) && FieldIssues(ps, digits) == FieldIssues(qs, digits)
    ensures IssuesOfTools(ps) == IssuesOfTools(qs)
    ensures multiset(RefsOf(ps)) == multiset(RefsOf(qs))
  {
    HeadSame(ps, qs);
    FieldsSame(ps, qs, digits);
    ToolsOfSame(ps, qs);
    var tools, tools' := Tools(Get(ps, "tools")), Tools(Get(qs, "tools"));
    ToolsRaiseSame(tools, tools');
    ToolsSame(tools, tools', |tools|, Get(ps, "constraints"), Get(qs, "constraints"));
    ConstraintsSame(Get(ps, "constraints"), Get(qs, "constraints"), Ids(tools, |tools|));
  }

  /** validate_v1 does not depend on the order of keys: the same errors, each as often. */
  lemma KeyOrderIrrelevant(a: Json, b: Json, digits: set<char>)
    requires Same(a, b)
    ensures Validate(a, digits).Issues? <==> Validate(b, digits).Issues?
    ensures Validate(a, digits).Issues? ==> multiset(Validate(a, digits).errs) == multiset(Validate(b, digits).errs)
    ensures Validate(a, digits) == Issues([]) <==> Validate(b, digits) == Issues([])
  {
    if a.Obj? {
      PartsSame(a.pairs, b.pairs, digits);
      ScanSame(a, b, "$");
      if Validate(a, digits).Issues? {
        var s, t := Validate(a, digits).errs, Validate(b, digits).errs;
        assert multiset(s) == multiset(t);
        SameLength(s, t);
      }
    }
  }
}
