/** Which error codes a document gets, and where: one by one, against the rules V2 to V16. */
module TemplateCodes {
  import opened Wrappers
  import opened Lists
  import opened Text
  import opened Sorting
  import opened Json
  import opened Template
  import opened TemplateRules

  // ---- the rules --------------------------------------------------------------------

  predicate LowerOrDigit(c: char) {
    'a' <= c <= 'z' || '0' <= c <= '9'
  }

  /** A slug: lower-case letters, digits and hyphens, no hyphen in front. */
  predicate Slug(v: Option<Json>) {
    && v.Some? && v.value.Str? && v.value.text != "" && LowerOrDigit(v.value.text[0])
    && forall i | 0 <= i < |v.value.text| :: LowerOrDigit(v.value.text[i]) || v.value.text[i] == '-'
  }

  /** Three numbers with dots between. */
  predicate Numbers(v: Option<Json>, digits: set<char>) {
    && v.Some? && v.value.Str?
    && var parts := Split(v.value.text, '.');
       && |parts| == 3 && parts[0] != "" && parts[1] != "" && parts[2] != ""
       && forall i, k | 0 <= i < 3 && 0 <= k < |parts[i]| :: parts[i][k] in digits
  }

  predicate Listed(v: Json, words: set<string>) {
    v.Str? && v.text in words
  }

  /** The actions of a tool: one or more of three. */
  predicate GoodActions(v: Json) {
    v.Arr? && v.items != [] && forall i | 0 <= i < |v.items| :: Listed(v.items[i], {"read", "write", "execute"})
  }

  predicate GoodRisk(v: Json) {
    Listed(v, {"read_public", "read_internal", "read_financial", "write_internal", "move_money", "admin"})
  }

  /** The last part of an id names a movement of money. */
  predicate MovesMoney(id: string) {
    var parts := Split(id, '.');
    parts[|parts| - 1] in {"refund", "transfer", "payout", "wire", "payment", "payments"}
  }

  predicate MoneyRisk(tool: Json)
    requires HasId(tool)
  {
    Risk(tool) == Str("move_money")
  }

  /** The i-th tool has an id, and an earlier one has the same. */
  ghost predicate Repeats(tools: seq<Json>, i: nat)
    requires i < |tools|
  {
    HasId(tools[i]) && Declared(tools[..i], Id(tools[i]))
  }

  /** The constraints of a tool, if they are there, have a key with this prefix. */
  predicate Limits(cons: Option<Json>, id: string, prefix: string) {
    HasPrefix(Entry(cons, id), prefix)
  }

  /** What is wrong with the i-th tool, code by code. */
  ghost predicate ToolFault(tools: seq<Json>, i: nat, cons: Option<Json>, issue: Issue)
    requires i < |tools|
  {
    var tool, path := tools[i], "$.tools[" + Decimal(i) + "]";
    match issue.code
    case BadTool => if !HasShape(tool) then issue.path == path else !HasId(tool) && issue.path == path + ".id"
    case DupToolId => Repeats(tools, i) && issue.path == path + ".id"
    case BadAction => HasId(tool) && !GoodActions(Actions(tool)) && issue.path == path + ".actions"
    case BadRisk => HasId(tool) && !GoodRisk(Risk(tool)) && issue.path == path + ".risk"
    case RiskSmuggle => HasId(tool) && MovesMoney(Id(tool)) && !MoneyRisk(tool) && issue.path == path
    case MissingCeiling =>
      HasId(tool) && MoneyRisk(tool) && !Limits(cons, Id(tool), "max_") && issue.path == "$.constraints." + Id(tool)
    case MissingCiba =>
      HasId(tool) && MoneyRisk(tool) && !Limits(cons, Id(tool), "ciba_") && issue.path == "$.constraints." + Id(tool)
    case _ => false
  }

  predicate KnownKey(key: string) {
    key in ["template", "name", "version", "framework", "tools"] || key == "constraints" || key == "suggested_levels"
  }

  /** What is wrong with a document, code by code. */
  ghost predicate Fault(pairs: Pairs, digits: set<char>, issue: Issue) {
    var framework, cons := Get(pairs, "framework"), Get(pairs, "constraints");
    var tools := Tools(Get(pairs, "tools"));
    match issue.code
    case RootType => false
    case AuthorityClaim =>
      exists steps, key :: Claims(Obj(pairs), steps, key) && issue.path == KeyPath(Render("$", steps), key)
    case TemplateHeader => Get(pairs, "template") != Some(Str("hawcx/agent-template/v1")) && issue.path == "$.template"
    case MissingKey =>
      exists key | key in ["template", "name", "version", "framework", "tools"] ::
        key !in Keys(pairs) && issue.path == "$." + key
    case UnknownKey =>
      exists key | key in Keys(pairs) :: !KnownKey(key) && !IsAuthority(key) && issue.path == "$." + key
    case BadName => !Slug(Get(pairs, "name")) && issue.path == "$.name"
    case BadVersion => !Numbers(Get(pairs, "version"), digits) && issue.path == "$.version"
    case BadFramework =>
      && !(Kind(framework).Some? && Listed(Kind(framework).value, {"crewai", "langchain", "composio", "openshell", "visual"}))
      && issue.path == "$.framework"
    case ToolsEmpty => tools == [] && issue.path == "$.tools"
    case BadConstraints => cons.Some? && !cons.value.Null? && !cons.value.Obj? && issue.path == "$.constraints"
    case UnknownConstraintRef =>
      && cons.Some? && cons.value.Obj?
      && exists key | key in Keys(cons.value.pairs) :: !Declared(tools, key) && issue.path == "$.constraints." + key
    case _ => exists i | 0 <= i < |tools| :: ToolFault(tools, i, cons, issue)
  }

  /** The number that decimal digits stand for. */
  function NumberOf(s: string): int {
    if s == "" then 0 else NumberOf(s[..|s| - 1]) * 10 + (s[|s| - 1] as int - '0' as int)
  }

  /** An index is written in decimal digits, with no zero in front of others. */
  lemma {:induction false} DecimalReads(n: nat)
    ensures var s := Decimal(n);
      && s != "" && NumberOf(s) == n
      && (forall i | 0 <= i < |s| :: '0' <= s[i] <= '9')
      && (n > 0 ==> s[0] != '0') && (n < 10 ==> |s| == 1)
  {
    if n >= 10 {
      DecimalReads(n / 10);
      var s := Decimal(n);
      assert s[..|s| - 1] == Decimal(n / 10);
    }
  }

  /** A claim's path is written step by step: a key behind a dot, an index in brackets. */
  lemma {:induction false} ClaimPath(path: string, steps: seq<Step>, last: Step)
    ensures Render(path, steps + [last]) ==
              match last
              case Key(key) => Render(path, steps) + "." + key
              case Item(i) => Render(path, steps) + "[" + Decimal(i) + "]"
    decreases steps
  {
    var all := steps + [last];
    if steps == [] {
      assert all[1..] == [];
      assert Render(StepPath(path, last), []) == StepPath(path, last);
    } else {
      assert all[0] == steps[0] && all[1..] == steps[1..] + [last];
      ClaimPath(StepPath(path, steps[0]), steps[1..], last);
    }
  }

  // ---- segment by segment -----------------------------------------------------------

  lemma {:induction false} MissingHas(keys: seq<string>, issue: Issue)
    ensures issue in MissingIssues(keys) <==>
              issue.code == MissingKey && exists key | key in keys :: issue.path == KeyPath("$", key)
  {
    if keys != [] {
      var front, last := keys[..|keys| - 1], keys[|keys| - 1];
      MissingHas(front, issue);
      assert forall key :: key in keys <==> key in front || key == last;
    }
  }

  lemma {:induction false} UnknownHas(keys: seq<string>, issue: Issue)
    ensures issue in UnknownIssues(keys) <==>
              issue.code == UnknownKey && exists key | key in keys :: !IsAuthority(key) && issue.path == KeyPath("$", key)
  {
    if keys != [] {
      var front, last := keys[..|keys| - 1], keys[|keys| - 1];
      UnknownHas(front, issue);
      assert forall key :: key in keys <==> key in front || key == last;
    }
  }

  lemma {:induction false} RefsHave(keys: seq<string>, ids: seq<string>, issue: Issue)
    ensures issue in RefIssues(keys, ids) <==>
              issue.code == UnknownConstraintRef && exists key | key in keys :: key !in ids && issue.path == KeyPath("$.constraints", key)
  {
    if keys != [] {
      var front, last := keys[..|keys| - 1], keys[|keys| - 1];
      RefsHave(front, ids, issue);
      assert forall key :: key in keys <==> key in front || key == last;
    }
  }

  /** What is put together piece by piece has what its pieces have. */
  lemma {:induction false} InPieces(whole: nat -> seq<Issue>, piece: nat -> seq<Issue>, n: nat, issue: Issue)
    requires whole(0) == [] && forall k: nat | k < n :: whole(k + 1) == whole(k) + piece(k)
    ensures issue in whole(n) <==> exists i: nat | i < n :: issue in piece(i)
  {
    if n > 0 {
      InPieces(whole, piece, n - 1, issue);
      assert whole(n) == whole(n - 1) + piece(n - 1);
    }
  }

  function Pieces(tools: seq<Json>, cons: Option<Json>): nat -> seq<Issue> {
    (i: nat) => if i < |tools| then ToolIssues(tools[i], ItemPath("$.tools", i), Ids(tools, i), cons) else []
  }

  function Wholes(tools: seq<Json>, cons: Option<Json>): nat -> seq<Issue> {
    (k: nat) => if k <= |tools| then ToolsIssues(tools, k, cons) else []
  }

  lemma WholesGrow(tools: seq<Json>, cons: Option<Json>)
    ensures Wholes(tools, cons)(0) == []
    ensures forall k: nat | k < |tools| :: Wholes(tools, cons)(k + 1) == Wholes(tools, cons)(k) + Pieces(tools, cons)(k)
  {
    forall k: nat | k < |tools|
      ensures Wholes(tools, cons)(k + 1) == Wholes(tools, cons)(k) + Pieces(tools, cons)(k)
    {
      LastTool(tools, k, cons);
    }
  }

  lemma ToolsHave(tools: seq<Json>, cons: Option<Json>, issue: Issue)
    ensures issue in ToolsIssues(tools, |tools|, cons) <==> exists i: nat | i < |tools| :: issue in Pieces(tools, cons)(i)
  {
    WholesGrow(tools, cons);
    InPieces(Wholes(tools, cons), Pieces(tools, cons), |tools|, issue);
  }

  lemma LastTool(tools: seq<Json>, k: nat, cons: Option<Json>)
    requires k < |tools|
    ensures ToolsIssues(tools, k + 1, cons) ==
              ToolsIssues(tools, k, cons) + ToolIssues(tools[k], ItemPath("$.tools", k), Ids(tools, k), cons)
  {
  }

  lemma ActionsIff(v: Json)
    ensures ActionsOk(v) <==> GoodActions(v)
  {
  }

  lemma RiskIff(v: Json)
    ensures RiskOk(v) <==> GoodRisk(v)
  {
  }

  lemma MoneyIff(id: string)
    ensures Privileged(id) <==> MovesMoney(id)
  {
  }

  lemma InFive(a: seq<Issue>, b: seq<Issue>, c: seq<Issue>, d: seq<Issue>, e: seq<Issue>, x: Issue)
    ensures x in a + b + c + d + e <==> x in a || x in b || x in c || x in d || x in e
  {
  }

  lemma RulesHave(tool: Json, path: string, cons: Option<Json>, issue: Issue)
    requires HasId(tool)
    ensures issue in RuleIssues(Id(tool), Actions(tool), Risk(tool), path, cons) <==>
              match issue.code
              case BadAction => !GoodActions(Actions(tool)) && issue.path == path + ".actions"
              case BadRisk => !GoodRisk(Risk(tool)) && issue.path == path + ".risk"
              case RiskSmuggle => MovesMoney(Id(tool)) && !MoneyRisk(tool) && issue.path == path
              case MissingCeiling => MoneyRisk(tool) && !Limits(cons, Id(tool), "max_") && issue.path == KeyPath("$.constraints", Id(tool))
              case MissingCiba => MoneyRisk(tool) && !Limits(cons, Id(tool), "ciba_") && issue.path == KeyPath("$.constraints", Id(tool))
              case _ => false
  {
    var id, entry, money := Id(tool), Entry(cons, Id(tool)), Risk(tool) == MOVE_MONEY;
    ActionsIff(Actions(tool));
    RiskIff(Risk(tool));
    MoneyIff(id);
    InFive(IssueIf(!ActionsOk(Actions(tool)), BadAction, path + ".actions"),
           IssueIf(!RiskOk(Risk(tool)), BadRisk, path + ".risk"),
           IssueIf(Privileged(id) && !money, RiskSmuggle, path),
           IssueIf(money && !HasPrefix(entry, "max_"), MissingCeiling, KeyPath("$.constraints", id)),
           IssueIf(money && !HasPrefix(entry, "ciba_"), MissingCiba, KeyPath("$.constraints", id)), issue);
  }

  lemma ToolHas(tools: seq<Json>, i: nat, cons: Option<Json>, issue: Issue)
    requires i < |tools|
    ensures issue in Pieces(tools, cons)(i) <==> ToolFault(tools, i, cons, issue)
  {
    var tool, path := tools[i], ItemPath("$.tools", i);
    assert path == "$.tools[" + Decimal(i) + "]";
    if HasId(tool) {
      RulesHave(tool, path, cons, issue);
      IdsHas(tools, i, Id(tool));
      ConstraintPath(Id(tool));
    }
  }

  lemma ConstraintPath(key: string)
    ensures KeyPath("$.constraints", key) == "$.constraints." + key
  {
  }

  lemma KeysHave(pairs: Pairs, issue: Issue)
    ensures issue in MissingIssues(Missing(pairs)) + UnknownIssues(Unknown(pairs)) <==>
              match issue.code
              case MissingKey =>
                exists key | key in ["template", "name", "version", "framework", "tools"] ::
                  key !in Keys(pairs) && issue.path == "$." + key
              case UnknownKey =>
                exists key | key in Keys(pairs) :: !KnownKey(key) && !IsAuthority(key) && issue.path == "$." + key
              case _ => false
  {
    MissingHas(Missing(pairs), issue);
    UnknownHas(Unknown(pairs), issue);
    forall key
      ensures key in Missing(pairs) <==> key in ["template", "name", "version", "framework", "tools"] && key !in Keys(pairs)
      ensures key in Unknown(pairs) <==> key in Keys(pairs) && !KnownKey(key)
      ensures KeyPath("$", key) == "$." + key
    {
      SortHas(Minus(REQUIRED_TOP, Keys(pairs)), key);
      SortHas(Minus(Keys(pairs), TOP_KEYS), key);
      MinusHas(REQUIRED_TOP, Keys(pairs), key);
      MinusHas(Keys(pairs), TOP_KEYS, key);
    }
  }

  lemma FieldsHave(pairs: Pairs, digits: set<char>, issue: Issue)
    ensures issue in FieldIssues(pairs, digits) <==>
              (issue.code.BadName? || issue.code.BadVersion? || issue.code.BadFramework? || issue.code.ToolsEmpty?)
              && Fault(pairs, digits, issue)
  {
  }

  lemma ConstraintsHave(pairs: Pairs, digits: set<char>, issue: Issue)
    ensures issue in RefsOf(pairs) <==>
              (issue.code.BadConstraints? || issue.code.UnknownConstraintRef?) && Fault(pairs, digits, issue)
  {
    var tools, cons := Tools(Get(pairs, "tools")), Get(pairs, "constraints");
    if cons.Some? && cons.value.Obj? {
      var keys := Keys(cons.value.pairs);
      RefsHave(keys, Ids(tools, |tools|), issue);
      assert tools[..|tools|] == tools;
      forall key
        ensures key in Ids(tools, |tools|) <==> Declared(tools, key)
        ensures KeyPath("$.constraints", key) == "$.constraints." + key
      {
        IdsHas(tools, |tools|, key);
        ConstraintPath(key);
      }
    }
  }

  lemma ClaimsHave(pairs: Pairs, digits: set<char>, issue: Issue)
    ensures issue in Scan(Obj(pairs), "$") <==> issue.code.AuthorityClaim? && Fault(pairs, digits, issue)
  {
    var doc := Obj(pairs);
    if issue in Scan(doc, "$") {
      var steps, key := ScanSound(doc, "$", issue);
    }
    if issue.code.AuthorityClaim? && Fault(pairs, digits, issue) {
      var steps, key :| Claims(doc, steps, key) && issue.path == KeyPath(Render("$", steps), key);
      ScanComplete(doc, "$", steps, key);
      assert issue == Issue(AuthorityClaim, KeyPath(Render("$", steps), key));
    }
  }

  lemma HeaderAndKeysHave(pairs: Pairs, digits: set<char>, issue: Issue)
    ensures issue in KeyIssues(pairs) <==>
              (issue.code.TemplateHeader? || issue.code.MissingKey? || issue.code.UnknownKey?) && Fault(pairs, digits, issue)
  {
    KeysHave(pairs, issue);
    var header := IssueIf(!HeaderOk(Get(pairs, "template")), TemplateHeader, "$.template");
    Assoc(header, MissingIssues(Missing(pairs)), UnknownIssues(Unknown(pairs)));
  }

  predicate OfTools(code: Code) {
    code.BadTool? || code.DupToolId? || code.BadAction? || code.BadRisk? || code.RiskSmuggle? || code.MissingCeiling? || code.MissingCiba?
  }

  lemma ToolsFault(pairs: Pairs, digits: set<char>, issue: Issue)
    ensures issue in IssuesOfTools(pairs) <==> OfTools(issue.code) && Fault(pairs, digits, issue)
  {
    var tools, cons := Tools(Get(pairs, "tools")), Get(pairs, "constraints");
    ToolsHave(tools, cons, issue);
    forall i: nat | i < |tools|
      ensures issue in Pieces(tools, cons)(i) <==> ToolFault(tools, i, cons, issue)
      ensures ToolFault(tools, i, cons, issue) ==> OfTools(issue.code)
    {
      ToolHas(tools, i, cons, issue);
    }
  }

  /** A list of errors that comes back has exactly the faults of the document, each code at its path. */
  lemma IssuesAreFaults(doc: Json, digits: set<char>, issue: Issue)
    requires doc.Obj? && Validate(doc, digits).Issues?
    ensures issue in Validate(doc, digits).errs <==> Fault(doc.pairs, digits, issue)
  {
    var pairs := doc.pairs;
    ClaimsHave(pairs, digits, issue);
    HeaderAndKeysHave(pairs, digits, issue);
    FieldsHave(pairs, digits, issue);
    ToolsFault(pairs, digits, issue);
    ConstraintsHave(pairs, digits, issue);
    InFive(Scan(doc, "$"), KeyIssues(pairs), FieldIssues(pairs, digits), IssuesOfTools(pairs), RefsOf(pairs), issue);
  }

  /** Anything but a dict gets one error at the root. */
  lemma NoDict(doc: Json, digits: set<char>)
    requires !doc.Obj?
    ensures Validate(doc, digits) == Issues([Issue(RootType, "$")])
  {
  }
}
