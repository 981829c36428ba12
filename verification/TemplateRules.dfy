/** validate_v1 returns the empty list exactly on the documents that keep the template's rules. */
module TemplateRules {
  import opened Wrappers
  import opened Lists
  import opened Text
  import opened Sorting
  import opened Json
  import opened Template

  // ---- what the scan finds ----------------------------------------------------------

  datatype Step = Key(key: string) | Item(index: nat)

  function StepPath(path: string, step: Step): string {
    match step
    case Key(key) => KeyPath(path, key)
    case Item(i) => ItemPath(path, i)
  }

  function Render(path: string, steps: seq<Step>): string
    decreases steps
  {
    if steps == [] then path else Render(StepPath(path, steps[0]), steps[1..])
  }

  /** Following the steps down from node leads to a dict with this authority key. */
  predicate Claims(node: Json, steps: seq<Step>, key: string)
    decreases steps
  {
    if steps == [] then node.Obj? && key in Keys(node.pairs) && IsAuthority(key)
    else
      match steps[0]
      case Key(k) => node.Obj? && exists i | 0 <= i < |node.pairs| :: node.pairs[i].key == k && Claims(node.pairs[i].value, steps[1..], key)
      case Item(i) => node.Arr? && i < |node.items| && Claims(node.items[i], steps[1..], key)
  }

  lemma {:induction false} InScanPairs(pairs: Pairs, path: string, issue: Issue) returns (i: nat)
    requires issue in ScanPairs(pairs, path)
    ensures i < |pairs| && issue in ScanPair(pairs[i], path)
  {
    i := |pairs| - 1;
    if issue !in ScanPair(pairs[i], path) {
      i := InScanPairs(pairs[..i], path, issue);
    }
  }

  lemma {:induction false} IntoScanPairs(pairs: Pairs, path: string, issue: Issue, i: nat)
    requires i < |pairs| && issue in ScanPair(pairs[i], path)
    ensures issue in ScanPairs(pairs, path)
  {
    if i < |pairs| - 1 {
      IntoScanPairs(pairs[..|pairs| - 1], path, issue, i);
    }
  }

  lemma {:induction false} InScanItems(items: seq<Json>, path: string, issue: Issue) returns (i: nat)
    requires issue in ScanItems(items, path)
    ensures i < |items| && issue in Scan(items[i], ItemPath(path, i))
  {
    i := |items| - 1;
    if issue !in Scan(items[i], ItemPath(path, i)) {
      i := InScanItems(items[..i], path, issue);
    }
  }

  lemma {:induction false} IntoScanItems(items: seq<Json>, path: string, issue: Issue, i: nat)
    requires i < |items| && issue in Scan(items[i], ItemPath(path, i))
    ensures issue in ScanItems(items, path)
  {
    if i < |items| - 1 {
      IntoScanItems(items[..|items| - 1], path, issue, i);
    }
  }

  lemma {:induction false} ScanSound(node: Json, path: string, issue: Issue) returns (steps: seq<Step>, key: string)
    requires issue in Scan(node, path)
    ensures Claims(node, steps, key) && issue == Issue(AuthorityClaim, KeyPath(Render(path, steps), key))
    decreases node
  {
    match node
    case Obj(pairs) => {
      var i := InScanPairs(pairs, path, issue);
      var k, v := pairs[i].key, pairs[i].value;
      if issue in ClaimAt(k, KeyPath(path, k)) {
        steps, key := [], k;
        assert Keys(pairs)[i] == k;
      } else {
        steps, key := ScanSound(v, KeyPath(path, k), issue);
        var all := [Key(k)] + steps;
        assert all[1..] == steps;
        steps := all;
      }
    }
    case Arr(items) => {
      var i := InScanItems(items, path, issue);
      steps, key := ScanSound(items[i], ItemPath(path, i), issue);
      var all := [Item(i)] + steps;
      assert all[1..] == steps;
      steps := all;
    }
    case _ =>
  }

  lemma {:induction false} ScanComplete(node: Json, path: string, steps: seq<Step>, key: string)
    requires Claims(node, steps, key)
    ensures Issue(AuthorityClaim, KeyPath(Render(path, steps), key)) in Scan(node, path)
    decreases steps
  {
    var issue := Issue(AuthorityClaim, KeyPath(Render(path, steps), key));
    if steps == [] {
      var i :| 0 <= i < |node.pairs| && Keys(node.pairs)[i] == key;
      IntoScanPairs(node.pairs, path, issue, i);
    } else {
      match steps[0]
      case Key(k) => {
        var i :| 0 <= i < |node.pairs| && node.pairs[i].key == k && Claims(node.pairs[i].value, steps[1..], key);
        ScanComplete(node.pairs[i].value, KeyPath(path, k), steps[1..], key);
        IntoScanPairs(node.pairs, path, issue, i);
      }
      case Item(i) => {
        ScanComplete(node.items[i], ItemPath(path, i), steps[1..], key);
        IntoScanItems(node.items, path, issue, i);
      }
    }
  }

  /** The scan reports exactly the authority keys at any depth through dicts and lists. */
  lemma ScanExact(node: Json, path: string, issue: Issue)
    ensures issue in Scan(node, path) <==>
              exists steps, key :: Claims(node, steps, key) && issue == Issue(AuthorityClaim, KeyPath(Render(path, steps), key))
  {
    if issue in Scan(node, path) {
      var steps, key := ScanSound(node, path, issue);
    }
    forall steps, key | Claims(node, steps, key) && issue == Issue(AuthorityClaim, KeyPath(Render(path, steps), key))
      ensures issue in Scan(node, path)
    {
      ScanComplete(node, path, steps, key);
    }
  }

  ghost predicate NoClaims(doc: Json) {
    forall steps, key :: !Claims(doc, steps, key)
  }

  lemma ScanEmptyIff(doc: Json, path: string)
    ensures Scan(doc, path) == [] <==> NoClaims(doc)
  {
    if Scan(doc, path) != [] {
      var steps, key := ScanSound(doc, path, Scan(doc, path)[0]);
    }
    forall steps, key | Claims(doc, steps, key)
      ensures Scan(doc, path) != []
    {
      ScanComplete(doc, path, steps, key);
    }
  }

  // ---- the rules, declared ----------------------------------------------------------

  predicate ToolOk(tool: Json, cons: Option<Json>) {
    && HasId(tool) && ActionsOk(Actions(tool)) && RiskOk(Risk(tool))
    && (Privileged(Id(tool)) ==> Risk(tool) == MOVE_MONEY)
    && (Risk(tool) == MOVE_MONEY ==> HasPrefix(Entry(cons, Id(tool)), "max_") && HasPrefix(Entry(cons, Id(tool)), "ciba_"))
  }

  predicate ToolsOk(tools: seq<Json>, cons: Option<Json>) {
    && (forall i | 0 <= i < |tools| :: ToolOk(tools[i], cons))
    && forall i, j | 0 <= i < j < |tools| :: Id(tools[i]) != Id(tools[j])
  }

  predicate Declared(tools: seq<Json>, id: string) {
    exists i | 0 <= i < |tools| :: HasId(tools[i]) && Id(tools[i]) == id
  }

  predicate ConstraintsOk(cons: Option<Json>, tools: seq<Json>) {
    || cons.None? || cons.value.Null?
    || (cons.value.Obj? && forall i | 0 <= i < |cons.value.pairs| :: Declared(tools, cons.value.pairs[i].key))
  }

  predicate KeysOk(pairs: Pairs) {
    && (forall i | 0 <= i < |REQUIRED_TOP| :: REQUIRED_TOP[i] in Keys(pairs))
    && forall i | 0 <= i < |pairs| :: pairs[i].key in TOP_KEYS
  }

  predicate FieldsOk(pairs: Pairs, digits: set<char>) {
    && NameOk(Get(pairs, "name")) && VersionOk(Get(pairs, "version"), digits)
    && FrameworkOk(Get(pairs, "framework")) && Tools(Get(pairs, "tools")) != []
  }

  ghost predicate Valid(doc: Json, digits: set<char>) {
    && doc.Obj?
    && NoClaims(doc)
    && HeaderOk(Get(doc.pairs, "template")) && KeysOk(doc.pairs) && FieldsOk(doc.pairs, digits)
    && ToolsOk(Tools(Get(doc.pairs, "tools")), Get(doc.pairs, "constraints"))
    && ConstraintsOk(Get(doc.pairs, "constraints"), Tools(Get(doc.pairs, "tools")))
  }

  // ---- each part of the list is empty exactly when its rules are kept -----------------

  lemma {:induction false} MinusHas(a: seq<string>, b: seq<string>, x: string)
    ensures x in Minus(a, b) <==> x in a && x !in b
  {
    if a != [] {
      MinusHas(a[..|a| - 1], b, x);
      assert a == a[..|a| - 1] + [a[|a| - 1]];
    }
  }

  lemma SortHas(s: seq<string>, x: string)
    ensures x in Sort(Le, s) <==> x in s
  {
    SortKeeps(Le, s);
    assert x in multiset(Sort(Le, s)) <==> x in multiset(s);
  }

  lemma MissingEmptyIff(pairs: Pairs)
    ensures MissingIssues(Missing(pairs)) == [] <==> forall i | 0 <= i < |REQUIRED_TOP| :: REQUIRED_TOP[i] in Keys(pairs)
  {
    var keys := Missing(pairs);
    if keys != [] {
      SortHas(Minus(REQUIRED_TOP, Keys(pairs)), keys[0]);
      MinusHas(REQUIRED_TOP, Keys(pairs), keys[0]);
    }
    forall i | 0 <= i < |REQUIRED_TOP| && REQUIRED_TOP[i] !in Keys(pairs)
      ensures keys != []
    {
      MinusHas(REQUIRED_TOP, Keys(pairs), REQUIRED_TOP[i]);
      SortHas(Minus(REQUIRED_TOP, Keys(pairs)), REQUIRED_TOP[i]);
    }
  }

  lemma {:induction false} UnknownIssuesEmptyIff(keys: seq<string>)
    ensures UnknownIssues(keys) == [] <==> forall i | 0 <= i < |keys| :: IsAuthority(keys[i])
  {
    if keys != [] {
      UnknownIssuesEmptyIff(keys[..|keys| - 1]);
    }
  }

  lemma UnknownEmptyIff(pairs: Pairs)
    requires forall i | 0 <= i < |pairs| :: !IsAuthority(pairs[i].key)
    ensures UnknownIssues(Unknown(pairs)) == [] <==> forall i | 0 <= i < |pairs| :: pairs[i].key in TOP_KEYS
  {
    var keys, ks := Unknown(pairs), Keys(pairs);
    UnknownIssuesEmptyIff(keys);
    if keys != [] {
      SortHas(Minus(ks, TOP_KEYS), keys[0]);
      MinusHas(ks, TOP_KEYS, keys[0]);
      var i :| 0 <= i < |ks| && ks[i] == keys[0];
    }
    forall i | 0 <= i < |pairs| && pairs[i].key !in TOP_KEYS
      ensures keys != []
    {
      assert ks[i] in ks;
      MinusHas(ks, TOP_KEYS, ks[i]);
      SortHas(Minus(ks, TOP_KEYS), ks[i]);
    }
  }

  lemma {:induction false} IdsHas(tools: seq<Json>, n: nat, id: string)
    requires n <= |tools|
    ensures id in Ids(tools, n) <==> Declared(tools[..n], id)
  {
    if n > 0 {
      IdsHas(tools, n - 1, id);
      if Declared(tools[..n - 1], id) {
        var i :| 0 <= i < n - 1 && HasId(tools[i]) && Id(tools[i]) == id;
        assert tools[..n][i] == tools[i];
      }
      if HasId(tools[n - 1]) && Id(tools[n - 1]) == id {
        assert tools[..n][n - 1] == tools[n - 1];
      }
      forall i | 0 <= i < n - 1
        ensures tools[..n][i] == tools[..n - 1][i]
      {
      }
    }
  }

  lemma RuleIssuesEmptyIff(tool: Json, path: string, cons: Option<Json>)
    requires HasId(tool)
    ensures RuleIssues(Id(tool), Actions(tool), Risk(tool), path, cons) == [] <==> ToolOk(tool, cons)
  {
  }

  lemma ToolIssuesEmptyIff(tool: Json, path: string, ids: seq<string>, cons: Option<Json>)
    ensures ToolIssues(tool, path, ids, cons) == [] <==> ToolOk(tool, cons) && Id(tool) !in ids
  {
    if HasId(tool) {
      RuleIssuesEmptyIff(tool, path, cons);
    }
  }

  lemma LastToolEmptyIff(tools: seq<Json>, k: nat, cons: Option<Json>)
    requires k < |tools|
    ensures ToolsIssues(tools, k + 1, cons) == [] <==>
              ToolsIssues(tools, k, cons) == [] && ToolOk(tools[k], cons) && !Declared(tools[..k], Id(tools[k]))
  {
    var tool := tools[k];
    if HasId(tool) {
      IdsHas(tools, k, Id(tool));
    }
    ToolIssuesEmptyIff(tool, ItemPath("$.tools", k), Ids(tools, k), cons);
  }

  lemma {:induction false} ToolsIssuesEmptyIff(tools: seq<Json>, n: nat, cons: Option<Json>)
    requires n <= |tools|
    ensures ToolsIssues(tools, n, cons) == [] <==> ToolsOk(tools[..n], cons)
  {
    if n > 0 {
      var k, front := n - 1, tools[..n - 1];
      ToolsIssuesEmptyIff(tools, k, cons);
      LastToolEmptyIff(tools, k, cons);
      TakeMore(tools, k);
      ToolsSnoc(front, tools[k], cons);
    }
  }

  lemma ToolsSnoc(front: seq<Json>, tool: Json, cons: Option<Json>)
    ensures ToolsOk(front + [tool], cons) <==> ToolsOk(front, cons) && ToolOk(tool, cons) && !Declared(front, Id(tool))
  {
    var tools := front + [tool];
    assert tools[|front|] == tool && forall i | 0 <= i < |front| :: tools[i] == front[i];
    if ToolsOk(tools, cons) {
      assert ToolOk(tools[|front|], cons);
      assert forall i | 0 <= i < |front| :: ToolOk(tools[i], cons) && Id(tools[i]) != Id(tools[|front|]);
    }
  }

  lemma {:induction false} RefIssuesEmptyIff(keys: seq<string>, ids: seq<string>)
    ensures RefIssues(keys, ids) == [] <==> forall i | 0 <= i < |keys| :: keys[i] in ids
  {
    if keys != [] {
      RefIssuesEmptyIff(keys[..|keys| - 1], ids);
    }
  }

  lemma ConstraintsEmptyIff(cons: Option<Json>, tools: seq<Json>)
    ensures ConstraintIssues(cons, Ids(tools, |tools|)) == [] <==> ConstraintsOk(cons, tools)
  {
    if cons.Some? && cons.value.Obj? {
      var pairs := cons.value.pairs;
      RefIssuesEmptyIff(Keys(pairs), Ids(tools, |tools|));
      assert tools[..|tools|] == tools;
      forall i | 0 <= i < |pairs|
        ensures Keys(pairs)[i] in Ids(tools, |tools|) <==> Declared(tools, pairs[i].key)
      {
        IdsHas(tools, |tools|, pairs[i].key);
      }
    }
  }

  lemma TopKeysEmptyIff(doc: Json)
    requires doc.Obj? && NoClaims(doc)
    ensures KeyIssues(doc.pairs) == [] <==> HeaderOk(Get(doc.pairs, "template")) && KeysOk(doc.pairs)
  {
    var pairs := doc.pairs;
    forall i | 0 <= i < |pairs|
      ensures !IsAuthority(pairs[i].key)
    {
      assert Keys(pairs)[i] == pairs[i].key;
      assert !Claims(doc, [], pairs[i].key);
    }
    MissingEmptyIff(pairs);
    UnknownEmptyIff(pairs);
  }

  lemma FieldsEmptyIff(pairs: Pairs, digits: set<char>)
    ensures FieldIssues(pairs, digits) == [] <==> FieldsOk(pairs, digits)
  {
  }

  lemma KeptRulesDoNotRaise(pairs: Pairs)
    requires FrameworkOk(Get(pairs, "framework"))
    requires ToolsOk(Tools(Get(pairs, "tools")), Get(pairs, "constraints"))
    ensures !Raises(pairs)
  {
    var tools := Tools(Get(pairs, "tools"));
    forall i | 0 <= i < |tools|
      ensures !ToolRaises(tools[i])
    {
      assert ToolOk(tools[i], Get(pairs, "constraints"));
    }
  }

  /** The empty list comes back exactly for the documents that keep every rule. */
  lemma ValidIff(doc: Json, digits: set<char>)
    ensures Validate(doc, digits) == Issues([]) <==> Valid(doc, digits)
  {
    if doc.Obj? {
      var pairs := doc.pairs;
      var tools, cons := Tools(Get(pairs, "tools")), Get(pairs, "constraints");
      ScanEmptyIff(doc, "$");
      if NoClaims(doc) {
        TopKeysEmptyIff(doc);
      }
      FieldsEmptyIff(pairs, digits);
      assert tools[..|tools|] == tools;
      ToolsIssuesEmptyIff(tools, |tools|, cons);
      ConstraintsEmptyIff(cons, tools);
      if Valid(doc, digits) {
        KeptRulesDoNotRaise(pairs);
      }
    }
  }

  /** The other half of the promise, a list of errors, fails for a kind that is a list. */
  lemma ListKindExists(digits: set<char>)
    ensures Validate(Obj([Pair("framework", Obj([Pair("kind", Arr([]))]))]), digits) == Unhashable
  {
    var kind := Obj([Pair("kind", Arr([]))]);
    GetAt(kind.pairs, 0);
    GetAt([Pair("framework", kind)], 0);
  }
}
