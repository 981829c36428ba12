/** The agent-template/v1 validator: a recursive scan for claims of authority, then the rules. */
module Template {
  import opened Wrappers
  import opened Lists
  import opened Text
  import opened Sorting
  import opened Json

  const HEADER := "hawcx/agent-template/v1"

  const AUTHORITY_KEYS: set<string> := {
    "granted_scopes", "granted", "authority", "approved", "approval",
    "policy", "policy_set", "policyset", "signature", "signatures", "signed",
    "assigned", "assignments", "publish_status", "published", "auto_approve",
    "scope_ceiling", "org_token", "ciba_waiver"}

  const RISKS: set<string> := {"read_public", "read_internal", "read_financial", "write_internal", "move_money", "admin"}

  const ACTIONS: set<string> := {"read", "write", "execute"}

  const FRAMEWORKS: set<string> := {"crewai", "langchain", "composio", "openshell", "visual"}

  const REQUIRED_TOP := ["template", "name", "version", "framework", "tools"]

  const TOP_KEYS := REQUIRED_TOP + ["constraints", "suggested_levels"]

  const PRIVILEGED: set<string> := {"refund", "transfer", "payout", "wire", "payment", "payments"}

  const MOVE_MONEY := Str("move_money")

  datatype Code =
    | RootType | AuthorityClaim | TemplateHeader | MissingKey | UnknownKey | BadName | BadVersion
    | BadFramework | ToolsEmpty | BadTool | DupToolId | BadAction | BadRisk | RiskSmuggle
    | MissingCeiling | MissingCiba | BadConstraints | UnknownConstraintRef

  datatype Issue = Issue(code: Code, path: string)

  /** What a call comes to: a list of issues, or the TypeError of looking a list or a dict up in a set. */
  datatype Outcome = Issues(errs: seq<Issue>) | Unhashable

  // ---- paths ------------------------------------------------------------------------

  function Decimal(n: nat): string {
    (if n < 10 then "" else Decimal(n / 10)) + [(n % 10 + '0' as int) as char]
  }

  function KeyPath(path: string, key: string): string {
    path + "." + key
  }

  function ItemPath(path: string, i: nat): string {
    path + "[" + Decimal(i) + "]"
  }

  // ---- V2 ---------------------------------------------------------------------------

  predicate IsAuthority(key: string) {
    Lower(key) in AUTHORITY_KEYS
  }

  function ClaimAt(key: string, path: string): seq<Issue> {
    if IsAuthority(key) then [Issue(AuthorityClaim, path)] else []
  }

  function Scan(node: Json, path: string): seq<Issue>
    decreases node
  {
    match node
    case Obj(pairs) => ScanPairs(pairs, path)
    case Arr(items) => ScanItems(items, path)
    case _ => []
  }

  function ScanPair(pair: Pair, path: string): seq<Issue>
    decreases pair
  {
    ClaimAt(pair.key, KeyPath(path, pair.key)) + Scan(pair.value, KeyPath(path, pair.key))
  }

  function ScanPairs(pairs: Pairs, path: string): seq<Issue>
    decreases pairs
  {
    if pairs == [] then [] else ScanPairs(pairs[..|pairs| - 1], path) + ScanPair(pairs[|pairs| - 1], path)
  }

  function ScanItems(items: seq<Json>, path: string): seq<Issue>
    decreases items
  {
    if items == [] then []
    else ScanItems(items[..|items| - 1], path) + Scan(items[|items| - 1], ItemPath(path, |items| - 1))
  }

  // ---- the rules, one by one --------------------------------------------------------

  function IssueIf(cond: bool, code: Code, path: string): seq<Issue> {
    if cond then [Issue(code, path)] else []
  }

  /** [x for x in a if x not in b] */
  function Minus(a: seq<string>, b: seq<string>): seq<string> {
    if a == [] then []
    else
      var front, x := Minus(a[..|a| - 1], b), a[|a| - 1];
      if x in b then front else front + [x]
  }

  /** V4: REQUIRED_TOP - set(doc), sorted. */
  function Missing(pairs: Pairs): seq<string> {
    Sort(Le, Minus(REQUIRED_TOP, Keys(pairs)))
  }

  /** V5: set(doc) - TOP_KEYS, sorted. */
  function Unknown(pairs: Pairs): seq<string> {
    Sort(Le, Minus(Keys(pairs), TOP_KEYS))
  }

  function MissingIssues(keys: seq<string>): seq<Issue> {
    if keys == [] then []
    else MissingIssues(keys[..|keys| - 1]) + [Issue(MissingKey, KeyPath("$", keys[|keys| - 1]))]
  }

  function UnknownIssues(keys: seq<string>): seq<Issue> {
    if keys == [] then []
    else
      var key := keys[|keys| - 1];
      UnknownIssues(keys[..|keys| - 1]) + IssueIf(!IsAuthority(key), UnknownKey, KeyPath("$", key))
  }

  predicate NameChar(c: char) {
    'a' <= c <= 'z' || '0' <= c <= '9'
  }

  /** [a-z0-9][a-z0-9-]* */
  predicate IsName(s: string) {
    s != "" && NameChar(s[0]) && forall i | 0 <= i < |s| :: NameChar(s[i]) || s[i] == '-'
  }

  /** \d+\.\d+\.\d+ where digits is what \d matches. */
  predicate IsVersion(s: string, digits: set<char>) {
    var parts := Split(s, '.');
    |parts| == 3 && forall i | 0 <= i < 3 :: parts[i] != "" && forall k | 0 <= k < |parts[i]| :: parts[i][k] in digits
  }

  predicate IdPart(s: string) {
    s != "" && forall i | 0 <= i < |s| :: NameChar(s[i]) || s[i] == '_'
  }

  /** [a-z0-9_]+(\.[a-z0-9_]+)+, whose characters are ASCII, so isascii() adds nothing. */
  predicate IsToolId(s: string) {
    var parts := Split(s, '.');
    |parts| >= 2 && forall i | 0 <= i < |parts| :: IdPart(parts[i])
  }

  predicate HeaderOk(v: Option<Json>) {
    v == Some(Str(HEADER))
  }

  predicate NameOk(v: Option<Json>) {
    v.Some? && v.value.Str? && IsName(v.value.text)
  }

  predicate VersionOk(v: Option<Json>, digits: set<char>) {
    v.Some? && v.value.Str? && IsVersion(v.value.text, digits)
  }

  function Kind(framework: Option<Json>): Option<Json> {
    if framework.Some? && framework.value.Obj? then Get(framework.value.pairs, "kind") else None
  }

  predicate FrameworkOk(v: Option<Json>) {
    Kind(v).Some? && Kind(v).value.Str? && Kind(v).value.text in FRAMEWORKS
  }

  predicate FrameworkRaises(v: Option<Json>) {
    Kind(v).Some? && !Hashable(Kind(v).value)
  }

  function Tools(v: Option<Json>): seq<Json> {
    if v.Some? && v.value.Arr? then v.value.items else []
  }

  predicate HasShape(tool: Json) {
    && tool.Obj?
    && Get(tool.pairs, "id").Some? && Get(tool.pairs, "actions").Some? && Get(tool.pairs, "risk").Some?
  }

  predicate HasId(tool: Json) {
    HasShape(tool) && Get(tool.pairs, "id").value.Str? && IsToolId(Get(tool.pairs, "id").value.text)
  }

  function Id(tool: Json): string
    requires HasId(tool)
  {
    Get(tool.pairs, "id").value.text
  }

  function Actions(tool: Json): Json
    requires HasId(tool)
  {
    Get(tool.pairs, "actions").value
  }

  function Risk(tool: Json): Json
    requires HasId(tool)
  {
    Get(tool.pairs, "risk").value
  }

  predicate ActionsOk(v: Json) {
    && v.Arr? && v.items != []
    && forall i | 0 <= i < |v.items| :: v.items[i].Str? && v.items[i].text in ACTIONS
  }

  predicate ActionsRaise(v: Json) {
    v.Arr? && exists i | 0 <= i < |v.items| :: !Hashable(v.items[i])
  }

  predicate RiskOk(v: Json) {
    v.Str? && v.text in RISKS
  }

  predicate Privileged(id: string) {
    var parts := Split(id, '.');
    parts[|parts| - 1] in PRIVILEGED
  }

  function Entry(cons: Option<Json>, id: string): Option<Json> {
    if cons.Some? && cons.value.Obj? then Get(cons.value.pairs, id) else None
  }

  /** isinstance(entry, dict) and any(str(k).startswith(prefix) for k in entry) */
  predicate HasPrefix(entry: Option<Json>, prefix: string) {
    && entry.Some? && entry.value.Obj?
    && exists i | 0 <= i < |entry.value.pairs| :: StartsWith(entry.value.pairs[i].key, prefix)
  }

  /** V12-V15 of a tool with a good id. */
  function RuleIssues(id: string, actions: Json, risk: Json, path: string, cons: Option<Json>): seq<Issue> {
    var entry := Entry(cons, id);
    IssueIf(!ActionsOk(actions), BadAction, path + ".actions")
    + IssueIf(!RiskOk(risk), BadRisk, path + ".risk")
    + IssueIf(Privileged(id) && risk != MOVE_MONEY, RiskSmuggle, path)
    + IssueIf(risk == MOVE_MONEY && !HasPrefix(entry, "max_"), MissingCeiling, KeyPath("$.constraints", id))
    + IssueIf(risk == MOVE_MONEY && !HasPrefix(entry, "ciba_"), MissingCiba, KeyPath("$.constraints", id))
  }

  function ToolIssues(tool: Json, path: string, ids: seq<string>, cons: Option<Json>): seq<Issue> {
    if !HasShape(tool) then [Issue(BadTool, path)]
    else if !HasId(tool) then [Issue(BadTool, path + ".id")]
    else
      IssueIf(Id(tool) in ids, DupToolId, path + ".id") + RuleIssues(Id(tool), Actions(tool), Risk(tool), path, cons)
  }

  predicate ToolRaises(tool: Json) {
    HasId(tool) && (ActionsRaise(Actions(tool)) || !Hashable(Risk(tool)))
  }

  /** The ids that the first n tools declare. */
  function Ids(tools: seq<Json>, n: nat): seq<string>
    requires n <= |tools|
  {
    if n == 0 then []
    else if HasId(tools[n - 1]) then Ids(tools, n - 1) + [Id(tools[n - 1])]
    else Ids(tools, n - 1)
  }

  function ToolsIssues(tools: seq<Json>, n: nat, cons: Option<Json>): seq<Issue>
    requires n <= |tools|
  {
    if n == 0 then []
    else ToolsIssues(tools, n - 1, cons) + ToolIssues(tools[n - 1], ItemPath("$.tools", n - 1), Ids(tools, n - 1), cons)
  }

  /** V16 */
  function RefIssues(keys: seq<string>, ids: seq<string>): seq<Issue> {
    if keys == [] then []
    else
      var key := keys[|keys| - 1];
      RefIssues(keys[..|keys| - 1], ids) + IssueIf(key !in ids, UnknownConstraintRef, KeyPath("$.constraints", key))
  }

  function ConstraintIssues(cons: Option<Json>, ids: seq<string>): seq<Issue> {
    if cons.None? || cons.value.Null? then []
    else if !cons.value.Obj? then [Issue(BadConstraints, "$.constraints")]
    else RefIssues(Keys(cons.value.pairs), ids)
  }

  function KeyIssues(pairs: Pairs): seq<Issue> {
    IssueIf(!HeaderOk(Get(pairs, "template")), TemplateHeader, "$.template")
    + MissingIssues(Missing(pairs))
    + UnknownIssues(Unknown(pairs))
  }

  function FieldIssues(pairs: Pairs, digits: set<char>): seq<Issue> {
    IssueIf(!NameOk(Get(pairs, "name")), BadName, "$.name")
    + IssueIf(!VersionOk(Get(pairs, "version"), digits), BadVersion, "$.version")
    + IssueIf(!FrameworkOk(Get(pairs, "framework")), BadFramework, "$.framework")
    + IssueIf(Tools(Get(pairs, "tools")) == [], ToolsEmpty, "$.tools")
  }

  function RefsOf(pairs: Pairs): seq<Issue> {
    var tools := Tools(Get(pairs, "tools"));
    ConstraintIssues(Get(pairs, "constraints"), Ids(tools, |tools|))
  }

  function IssuesOfTools(pairs: Pairs): seq<Issue> {
    var tools := Tools(Get(pairs, "tools"));
    ToolsIssues(tools, |tools|, Get(pairs, "constraints"))
  }

  function AllIssues(doc: Json, digits: set<char>): seq<Issue>
    requires doc.Obj?
  {
    Scan(doc, "$") + KeyIssues(doc.pairs) + FieldIssues(doc.pairs, digits) + IssuesOfTools(doc.pairs) + RefsOf(doc.pairs)
  }

  /** Everything that is looked up in a set is a scalar: the kind, and every action and risk of a tool with an id. */
  predicate LooksUpScalars(pairs: Pairs) {
    var tools := Tools(Get(pairs, "tools"));
    && (Kind(Get(pairs, "framework")).Some? ==> Hashable(Kind(Get(pairs, "framework")).value))
    && forall i | 0 <= i < |tools| && HasId(tools[i]) ::
         && Hashable(Risk(tools[i]))
         && (Actions(tools[i]).Arr? ==> forall k | 0 <= k < |Actions(tools[i]).items| :: Hashable(Actions(tools[i]).items[k]))
  }

  predicate ToolsRaise(tools: seq<Json>) {
    exists i | 0 <= i < |tools| :: ToolRaises(tools[i])
  }

  lemma RaisedSoFar(tools: seq<Json>, i: nat)
    requires i < |tools|
    ensures ToolsRaise(tools[..i + 1]) <==> ToolsRaise(tools[..i]) || ToolRaises(tools[i])
    ensures ToolRaises(tools[i]) ==> ToolsRaise(tools)
  {
    var now, next := tools[..i], tools[..i + 1];
    if ToolsRaise(next) {
      var k :| 0 <= k < |next| && ToolRaises(next[k]);
      assert k < i ==> now[k] == next[k];
    }
    if ToolsRaise(now) {
      var k :| 0 <= k < |now| && ToolRaises(now[k]);
      assert next[k] == now[k];
    }
    assert next[i] == tools[i];
  }

  predicate Raises(pairs: Pairs) {
    FrameworkRaises(Get(pairs, "framework")) || ToolsRaise(Tools(Get(pairs, "tools")))
  }

  /** validate_v1 in one piece. */
  function Validate(doc: Json, digits: set<char>): Outcome {
    if !doc.Obj? then Issues([Issue(RootType, "$")])
    else if Raises(doc.pairs) then Unhashable
    else Issues(AllIssues(doc, digits))
  }

  /** The list that validate_v1 makes and its helpers append to. */
  class ErrorList {
    var errs: seq<Issue>

    constructor ()
      ensures errs == []
    {
      errs := [];
    }

    /** What is added comes after what was added since base. */
    method AppendIf(cond: bool, code: Code, path: string, ghost base: seq<Issue>, ghost added: seq<Issue>)
      requires errs == base + added
      modifies this
      ensures errs == base + (added + IssueIf(cond, code, path))
    {
      if cond {
        errs := errs + [Issue(code, path)];
      }
    }

    /** _scan_authority */
    method ScanAuthority(node: Json, path: string)
      modifies this
      ensures errs == old(errs) + Scan(node, path)
      decreases node, 1
    {
      match node
      case Obj(pairs) => {
        assert pairs[..|pairs|] == pairs;
        for i := 0 to |pairs|
          invariant errs == old(errs) + ScanPairs(pairs[..i], path)
        {
          assert pairs[..i + 1][..i] == pairs[..i];
          ghost var done := ScanPairs(pairs[..i], path);
          ScanMember(pairs[i], path);
          Assoc(old(errs), done, ScanPair(pairs[i], path));
        }
      }
      case Arr(items) => {
        assert items[..|items|] == items;
        for i := 0 to |items|
          invariant errs == old(errs) + ScanItems(items[..i], path)
        {
          assert items[..i + 1][..i] == items[..i];
          ghost var done := ScanItems(items[..i], path);
          ScanAuthority(items[i], ItemPath(path, i));
          Assoc(old(errs), done, Scan(items[i], ItemPath(path, i)));
        }
      }
      case _ =>
    }

    /** The body of the loop over a dict's items. */
    method ScanMember(pair: Pair, path: string)
      modifies this
      ensures errs == old(errs) + ScanPair(pair, path)
      decreases pair, 0
    {
      var key, value := pair.key, pair.value;
      AppendIf(IsAuthority(key), AuthorityClaim, KeyPath(path, key), errs, []);
      ScanAuthority(value, KeyPath(path, key));
    }

    /** V3-V5 */
    method CheckKeys(pairs: Pairs)
      modifies this
      ensures errs == old(errs) + KeyIssues(pairs)
    {
      ghost var base, header := errs, IssueIf(!HeaderOk(Get(pairs, "template")), TemplateHeader, "$.template");
      AppendIf(!HeaderOk(Get(pairs, "template")), TemplateHeader, "$.template", base, []);
      CheckMissing(Missing(pairs), base, header);
      CheckUnknown(Unknown(pairs), base, header + MissingIssues(Missing(pairs)));
    }

    /** V4 */
    method CheckMissing(keys: seq<string>, ghost base: seq<Issue>, ghost added: seq<Issue>)
      requires errs == base + added
      modifies this
      ensures errs == base + (added + MissingIssues(keys))
    {
      assert keys[..|keys|] == keys;
      for i := 0 to |keys|
        invariant errs == base + (added + MissingIssues(keys[..i]))
      {
        assert keys[..i + 1][..i] == keys[..i];
        Assoc(added, MissingIssues(keys[..i]), [Issue(MissingKey, KeyPath("$", keys[i]))]);
        AppendIf(true, MissingKey, KeyPath("$", keys[i]), base, added + MissingIssues(keys[..i]));
      }
    }

    /** V5 */
    method CheckUnknown(keys: seq<string>, ghost base: seq<Issue>, ghost added: seq<Issue>)
      requires errs == base + added
      modifies this
      ensures errs == base + (added + UnknownIssues(keys))
    {
      assert keys[..|keys|] == keys;
      for i := 0 to |keys|
        invariant errs == base + (added + UnknownIssues(keys[..i]))
      {
        var report := !IsAuthority(keys[i]);
        assert keys[..i + 1][..i] == keys[..i];
        Assoc(added, UnknownIssues(keys[..i]), IssueIf(report, UnknownKey, KeyPath("$", keys[i])));
        AppendIf(report, UnknownKey, KeyPath("$", keys[i]), base, added + UnknownIssues(keys[..i]));
      }
    }

    /** V6-V9; whether looking the framework's kind up raised. */
    method CheckFields(pairs: Pairs, digits: set<char>) returns (raised: bool)
      modifies this
      ensures raised <==> FrameworkRaises(Get(pairs, "framework"))
      ensures !raised ==> errs == old(errs) + FieldIssues(pairs, digits)
    {
      ghost var base := errs;
      var name, version, framework := Get(pairs, "name"), Get(pairs, "version"), Get(pairs, "framework");
      AppendIf(!NameOk(name), BadName, "$.name", base, []);
      ghost var added := IssueIf(!NameOk(name), BadName, "$.name");
      AppendIf(!VersionOk(version, digits), BadVersion, "$.version", base, added);
      added := added + IssueIf(!VersionOk(version, digits), BadVersion, "$.version");
      if FrameworkRaises(framework) {
        return true;
      }
      AppendIf(!FrameworkOk(framework), BadFramework, "$.framework", base, added);
      added := added + IssueIf(!FrameworkOk(framework), BadFramework, "$.framework");
      AppendIf(Tools(Get(pairs, "tools")) == [], ToolsEmpty, "$.tools", base, added);
      raised := false;
    }

    /** One turn of the tool loop; whether it raised, and the ids after it. */
    method CheckTool(tool: Json, path: string, ids: seq<string>, cons: Option<Json>) returns (raised: bool, ids': seq<string>)
      modifies this
      ensures raised <==> ToolRaises(tool)
      ensures !raised ==> errs == old(errs) + ToolIssues(tool, path, ids, cons)
      ensures !raised ==> ids' == if HasId(tool) then ids + [Id(tool)] else ids
    {
      raised, ids' := false, ids;
      if !HasShape(tool) {
        AppendIf(true, BadTool, path, errs, []);
        return;
      }
      if !HasId(tool) {
        AppendIf(true, BadTool, path + ".id", errs, []);
        return;
      }
      raised, ids' := CheckNamed(Id(tool), Actions(tool), Risk(tool), path, ids, cons);
    }

    /** V11 on */
    method CheckNamed(id: string, actions: Json, risk: Json, path: string, ids: seq<string>, cons: Option<Json>)
        returns (raised: bool, ids': seq<string>)
      modifies this
      ensures raised <==> ActionsRaise(actions) || !Hashable(risk)
      ensures !raised ==> errs == old(errs) + (IssueIf(id in ids, DupToolId, path + ".id") + RuleIssues(id, actions, risk, path, cons))
      ensures ids' == ids + [id]
    {
      ghost var base, dup := errs, IssueIf(id in ids, DupToolId, path + ".id");
      AppendIf(id in ids, DupToolId, path + ".id", base, []);
      ids' := ids + [id];
      raised := CheckRules(id, actions, risk, path, cons);
      Assoc(base, dup, RuleIssues(id, actions, risk, path, cons));
    }

    /** V12-V15 */
    method CheckRules(id: string, actions: Json, risk: Json, path: string, cons: Option<Json>) returns (raised: bool)
      modifies this
      ensures raised <==> ActionsRaise(actions) || !Hashable(risk)
      ensures !raised ==> errs == old(errs) + RuleIssues(id, actions, risk, path, cons)
    {
      if ActionsRaise(actions) {
        return true;
      }
      ghost var base := errs;
      AppendIf(!ActionsOk(actions), BadAction, path + ".actions", base, []);
      ghost var added := IssueIf(!ActionsOk(actions), BadAction, path + ".actions");
      if !Hashable(risk) {
        return true;
      }
      AppendIf(!RiskOk(risk), BadRisk, path + ".risk", base, added);
      added := added + IssueIf(!RiskOk(risk), BadRisk, path + ".risk");
      AppendIf(Privileged(id) && risk != MOVE_MONEY, RiskSmuggle, path, base, added);
      added := added + IssueIf(Privileged(id) && risk != MOVE_MONEY, RiskSmuggle, path);
      CheckMoney(id, risk == MOVE_MONEY, cons, base, added);
      raised := false;
    }

    /** V15 */
    method CheckMoney(id: string, moves: bool, cons: Option<Json>, ghost base: seq<Issue>, ghost added: seq<Issue>)
      requires errs == base + added
      modifies this
      ensures var entry := Entry(cons, id);
        errs == base + (added + IssueIf(moves && !HasPrefix(entry, "max_"), MissingCeiling, KeyPath("$.constraints", id))
                              + IssueIf(moves && !HasPrefix(entry, "ciba_"), MissingCiba, KeyPath("$.constraints", id)))
    {
      if moves {
        var entry := Entry(cons, id);
        AppendIf(!HasPrefix(entry, "max_"), MissingCeiling, KeyPath("$.constraints", id), base, added);
        AppendIf(!HasPrefix(entry, "ciba_"), MissingCiba, KeyPath("$.constraints", id), base,
                 added + IssueIf(!HasPrefix(entry, "max_"), MissingCeiling, KeyPath("$.constraints", id)));
      }
    }

    method CheckTools(tools: seq<Json>, cons: Option<Json>) returns (raised: bool, ids: seq<string>)
      modifies this
      ensures raised <==> ToolsRaise(tools)
      ensures !raised ==> errs == old(errs) + ToolsIssues(tools, |tools|, cons) && ids == Ids(tools, |tools|)
    {
      raised, ids := false, [];
      assert tools[..|tools|] == tools;
      for i := 0 to |tools|
        invariant !ToolsRaise(tools[..i])
        invariant !raised && ids == Ids(tools, i)
        invariant errs == old(errs) + ToolsIssues(tools, i, cons)
      {
        ghost var done, before := ToolsIssues(tools, i, cons), ids;
        RaisedSoFar(tools, i);
        raised, ids := CheckTool(tools[i], ItemPath("$.tools", i), ids, cons);
        if raised {
          return;
        }
        Assoc(old(errs), done, ToolIssues(tools[i], ItemPath("$.tools", i), before, cons));
      }
    }

    method CheckConstraints(cons: Option<Json>, ids: seq<string>)
      modifies this
      ensures errs == old(errs) + ConstraintIssues(cons, ids)
    {
      if cons.None? || cons.value.Null? {
        return;
      }
      if !cons.value.Obj? {
        AppendIf(true, BadConstraints, "$.constraints", errs, []);
        return;
      }
      var keys := Keys(cons.value.pairs);
      assert keys[..|keys|] == keys;
      for i := 0 to |keys|
        invariant errs == old(errs) + RefIssues(keys[..i], ids)
      {
        assert keys[..i + 1][..i] == keys[..i];
        AppendIf(keys[i] !in ids, UnknownConstraintRef, KeyPath("$.constraints", keys[i]),
                 old(errs), RefIssues(keys[..i], ids));
      }
    }
  }

  lemma ScalarsDoNotRaise(pairs: Pairs)
    ensures LooksUpScalars(pairs) <==> !Raises(pairs)
  {
    var tools := Tools(Get(pairs, "tools"));
    forall i | 0 <= i < |tools| && HasId(tools[i])
      ensures ToolRaises(tools[i]) <==>
                !Hashable(Risk(tools[i]))
                || (Actions(tools[i]).Arr? && exists k | 0 <= k < |Actions(tools[i]).items| :: !Hashable(Actions(tools[i]).items[k]))
    {
    }
  }

  /** validate_v1 */
  method ValidateV1(doc: Json, digits: set<char>) returns (o: Outcome)
    ensures o == Validate(doc, digits)
    ensures o.Issues? <==> !doc.Obj? || LooksUpScalars(doc.pairs)
  {
    if doc.Obj? {
      ScalarsDoNotRaise(doc.pairs);
    }
    if !doc.Obj? {
      return Issues([Issue(RootType, "$")]);
    }
    var list := new ErrorList();
    list.ScanAuthority(doc, "$");
    assert list.errs == Scan(doc, "$");
    list.CheckKeys(doc.pairs);
    var raised := list.CheckFields(doc.pairs, digits);
    if raised {
      return Unhashable;
    }
    var tools, cons := Tools(Get(doc.pairs, "tools")), Get(doc.pairs, "constraints");
    var ids;
    raised, ids := list.CheckTools(tools, cons);
    if raised {
      return Unhashable;
    }
    assert list.errs == Scan(doc, "$") + KeyIssues(doc.pairs) + FieldIssues(doc.pairs, digits) + IssuesOfTools(doc.pairs);
    list.CheckConstraints(cons, ids);
    assert list.errs == AllIssues(doc, digits);
    o := Issues(list.errs);
  }
}
