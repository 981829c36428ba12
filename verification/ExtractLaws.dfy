/** What an extraction keeps and refuses, and that a template built from it always validates. */
module ExtractLaws {
  import opened Wrappers
  import opened Lists
  import opened Text
  import opened Json
  import opened Segments
  import opened Extract
  import T = Template
  import R = TemplateRules

  // ---- every name lands in one place ------------------------------------------------

  predicate Nameable(name: string) {
    Normalize(name) != "" && Verbs(Normalize(name)) == {}
  }

  predicate TakenBy(name: string, ns: string, id: string) {
    Nameable(name) && ToolId(ns, Normalize(name)) == id
  }

  ghost predicate Taken(names: seq<string>, ns: string, id: string) {
    exists i | 0 <= i < |names| :: TakenBy(names[i], ns, id)
  }

  lemma TakenSnoc(front: seq<string>, name: string, ns: string, id: string)
    ensures Taken(front + [name], ns, id) <==> Taken(front, ns, id) || TakenBy(name, ns, id)
  {
    var names := front + [name];
    if Taken(front, ns, id) {
      var i :| 0 <= i < |front| && TakenBy(front[i], ns, id);
      assert TakenBy(names[i], ns, id);
    }
    if TakenBy(name, ns, id) {
      assert TakenBy(names[|front|], ns, id);
    }
  }

  lemma {:induction false} SeenIff(names: seq<string>, ns: string, id: string)
    ensures id in Seen(names, ns) <==> Taken(names, ns, id)
  {
    if names != [] {
      var front, name := names[..|names| - 1], names[|names| - 1];
      SeenIff(front, ns, id);
      assert names == front + [name];
      TakenSnoc(front, name, ns, id);
    }
  }

  predicate Kept(names: seq<string>, ns: string, i: nat)
    requires i < |names|
  {
    Refusal(names[i], ns, Seen(names[..i], ns)).None?
  }

  lemma ToolIdInjective(ns: string, a: string, b: string)
    requires ToolId(ns, a) == ToolId(ns, b)
    ensures a == b
  {
    assert ToolId(ns, a)[|ns| + 1..] == a && ToolId(ns, b)[|ns| + 1..] == b;
  }

  /** A name is kept exactly if it has a segment without a refused verb and no earlier name has the same one. */
  lemma KeptIff(names: seq<string>, ns: string, i: nat)
    requires i < |names|
    ensures Kept(names, ns, i) <==> Nameable(names[i]) && forall j | 0 <= j < i :: Normalize(names[j]) != Normalize(names[i])
  {
    var seg := Normalize(names[i]);
    var id := ToolId(ns, seg);
    SeenIff(names[..i], ns, id);
    if Nameable(names[i]) {
      if Taken(names[..i], ns, id) {
        var j :| 0 <= j < i && TakenBy(names[..i][j], ns, id);
        ToolIdInjective(ns, Normalize(names[j]), seg);
      }
      forall j | 0 <= j < i && Normalize(names[j]) == seg
        ensures Taken(names[..i], ns, id)
      {
        assert TakenBy(names[..i][j], ns, id);
      }
    }
  }

  function NamesOf(refused: seq<Refused>): seq<string> {
    seq(|refused|, i requires 0 <= i < |refused| => refused[i].name)
  }

  lemma NamesOfAdd(a: seq<Refused>, b: seq<Refused>)
    ensures NamesOf(a + b) == NamesOf(a) + NamesOf(b)
  {
  }

  lemma EntryIsOneName(name: string, ns: string, seen: set<string>)
    ensures var e := Entry(name, ns, seen);
      && multiset(e.inferred) + multiset(e.unknown) + multiset(NamesOf(e.refused)) == multiset{name}
      && |e.tools| == |e.inferred| + |e.unknown|
  {
    var e := Entry(name, ns, seen);
    if e.refused != [] {
      assert NamesOf(e.refused) == [name];
    } else {
      assert NamesOf(e.refused) == [];
    }
  }

  /** Every name is either behind a tool, inferred or not, or among the refused, exactly once. */
  lemma {:induction false} EveryNameOnce(names: seq<string>, ns: string)
    ensures var e := Extracted(names, ns);
      && multiset(e.inferred) + multiset(e.unknown) + multiset(NamesOf(e.refused)) == multiset(names)
      && |e.tools| == |e.inferred| + |e.unknown|
  {
    if names == [] {
      assert NamesOf([]) == [];
    } else {
      var front, name := names[..|names| - 1], names[|names| - 1];
      EveryNameOnce(front, ns);
      EntryIsOneName(name, ns, Seen(front, ns));
      NamesOfAdd(Extracted(front, ns).refused, Entry(name, ns, Seen(front, ns)).refused);
      MultisetFront(names);
    }
  }

  // ---- what the tools are -----------------------------------------------------------

  predicate Has(names: seq<string>, ns: string, i: nat, t: Tool)
    requires i < |names|
  {
    Kept(names, ns, i) && t == Tool(ToolId(ns, Normalize(names[i])), Infer(names[i]).0)
  }

  lemma {:induction false} ToolFrom(names: seq<string>, ns: string, k: nat) returns (i: nat)
    requires k < |Extracted(names, ns).tools|
    ensures i < |names| && Has(names, ns, i, Extracted(names, ns).tools[k])
  {
    var front := names[..|names| - 1];
    if k < |Extracted(front, ns).tools| {
      i := ToolFrom(front, ns, k);
      assert front[..i] == names[..i];
    } else {
      i := |names| - 1;
    }
  }

  lemma {:induction false} ToolFor(names: seq<string>, ns: string, i: nat) returns (k: nat)
    requires i < |names| && Kept(names, ns, i)
    ensures k < |Extracted(names, ns).tools| && Has(names, ns, i, Extracted(names, ns).tools[k])
  {
    var front := names[..|names| - 1];
    if i < |front| {
      assert front[..i] == names[..i];
      k := ToolFor(front, ns, i);
    } else {
      k := |Extracted(front, ns).tools|;
    }
  }

  predicate DistinctIds(tools: seq<Tool>) {
    forall i, j | 0 <= i < j < |tools| :: tools[i].id != tools[j].id
  }

  lemma {:induction false} ToolsSeen(names: seq<string>, ns: string)
    ensures forall k | 0 <= k < |Extracted(names, ns).tools| :: Extracted(names, ns).tools[k].id in Seen(names, ns)
    ensures DistinctIds(Extracted(names, ns).tools)
  {
    if names != [] {
      ToolsSeen(names[..|names| - 1], ns);
    }
  }

  /** The tools are those of the kept names, with the ids and actions their names give, no id twice. */
  lemma ToolsAreKept(names: seq<string>, ns: string, t: Tool)
    ensures t in Extracted(names, ns).tools <==> exists i | 0 <= i < |names| :: Has(names, ns, i, t)
    ensures DistinctIds(Extracted(names, ns).tools)
  {
    ToolsSeen(names, ns);
    if t in Extracted(names, ns).tools {
      var k :| 0 <= k < |Extracted(names, ns).tools| && Extracted(names, ns).tools[k] == t;
      var i := ToolFrom(names, ns, k);
      assert Has(names, ns, i, t);
    }
    forall i | 0 <= i < |names| && Has(names, ns, i, t)
      ensures t in Extracted(names, ns).tools
    {
      var k := ToolFor(names, ns, i);
    }
  }

  lemma VerbsApart(w: string)
    ensures w in READ_VERBS ==> w !in WRITE_VERBS && w !in EXECUTE_VERBS
    ensures w in WRITE_VERBS ==> w !in EXECUTE_VERBS
  {
  }

  /** The action follows from the first word of the name, in lower case; a word in no list gives the default. */
  lemma InferFromFirstWord(name: string)
    requires Words(name) != []
    ensures var head := Lower(Words(name)[0]);
      && (head in READ_VERBS <==> Infer(name) == (Read, true))
      && (head in WRITE_VERBS <==> Infer(name) == (Write, true))
      && (head in EXECUTE_VERBS <==> Infer(name) == (Execute, true))
      && (Infer(name).1 || Infer(name) == (Read, false))
  {
    PiecesAreWords(name);
    VerbsApart(Lower(Words(name)[0]));
  }

  // ---- every extracted tool keeps the template's rules --------------------------------

  predicate GoodId(id: string) {
    T.IsToolId(id) && !T.Privileged(id)
  }

  lemma CanonicalIsIdPart(s: string)
    requires Canonical(s) && s != ""
    ensures T.IdPart(s) && '.' !in s
  {
  }

  lemma PrivilegedIsRefused(seg: string)
    requires seg in T.PRIVILEGED
    ensures Verbs(seg) != {}
  {
    assert '_' !in seg;
    SplitNone(seg, '_');
    assert seg in Split(seg, '_');
    assert seg in Verbs(seg);
  }

  lemma ExtractedIdGood(ns: string, seg: string)
    requires Canonical(ns) && ns != "" && Canonical(seg) && seg != "" && Verbs(seg) == {}
    ensures GoodId(ToolId(ns, seg))
  {
    CanonicalIsIdPart(ns);
    CanonicalIsIdPart(seg);
    SplitFirst(ns, seg, '.');
    SplitNone(seg, '.');
    if seg in T.PRIVILEGED {
      PrivilegedIsRefused(seg);
    }
  }

  predicate AllGood(tools: seq<Tool>) {
    forall i | 0 <= i < |tools| :: GoodId(tools[i].id)
  }

  lemma ExtractedGood(names: seq<string>, namespace: string)
    requires Normalize(namespace) != ""
    ensures AllGood(Extracted(names, Normalize(namespace)).tools)
  {
    var ns := Normalize(namespace);
    var tools := Extracted(names, ns).tools;
    forall k | 0 <= k < |tools|
      ensures GoodId(tools[k].id)
    {
      var i := ToolFrom(names, ns, k);
      NormalizeIsWords(namespace);
      NormalizeIsWords(names[i]);
      ExtractedIdGood(ns, Normalize(names[i]));
    }
  }

  // ---- the document built from good tools ---------------------------------------------

  predicate PlainKey(k: string) {
    k in {"template", "name", "version", "framework", "tools", "kind", "id", "actions", "risk"}
  }

  /** Enough about the authority keys to tell the keys of a template from them. */
  lemma AuthorityShape(low: string)
    requires low in T.AUTHORITY_KEYS
    ensures |low| >= 6 && low[0] in {'g', 'a', 'p', 's', 'o', 'c'} && (low[0] == 'a' ==> |low| != 7)
  {
  }

  lemma PlainShape(k: string)
    requires PlainKey(k)
    ensures |k| < 6 || k[0] in {'t', 'v', 'f'} || (k[0] == 'a' && |k| == 7)
    ensures k != "" && LowerChar(k[0]) == k[0]
  {
  }

  lemma PlainKeyIsNoClaim(k: string)
    requires PlainKey(k)
    ensures !T.IsAuthority(k)
  {
    PlainShape(k);
    if T.IsAuthority(k) {
      AuthorityShape(Lower(k));
    }
  }

  lemma {:induction false} QuietPairs(pairs: Pairs, path: string)
    requires forall i | 0 <= i < |pairs| :: PlainKey(pairs[i].key)
    requires forall i | 0 <= i < |pairs| :: T.Scan(pairs[i].value, T.KeyPath(path, pairs[i].key)) == []
    ensures T.ScanPairs(pairs, path) == []
  {
    if pairs != [] {
      QuietPairs(pairs[..|pairs| - 1], path);
      PlainKeyIsNoClaim(pairs[|pairs| - 1].key);
    }
  }

  lemma {:induction false} QuietItems(items: seq<Json>, path: string)
    requires forall i, p: string | 0 <= i < |items| :: T.Scan(items[i], p) == []
    ensures T.ScanItems(items, path) == []
  {
    if items != [] {
      QuietItems(items[..|items| - 1], path);
    }
  }

  lemma QuietTool(t: Tool, path: string)
    ensures T.Scan(ToolJson(t), path) == []
  {
    var actions := [Str(ActionName(t.action))];
    QuietItems(actions, T.KeyPath(path, "actions"));
    QuietPairs(ToolJson(t).pairs, path);
  }

  lemma QuietTools(tools: seq<Tool>, path: string)
    ensures T.Scan(Arr(ToolsJson(tools)), path) == []
  {
    forall i, p: string | 0 <= i < |tools|
      ensures T.Scan(ToolsJson(tools)[i], p) == []
    {
      QuietTool(tools[i], p);
    }
    QuietItems(ToolsJson(tools), path);
  }

  lemma QuietDocument(tools: seq<Tool>, name: string, version: string, framework: string)
    ensures R.NoClaims(Document(tools, name, version, framework))
  {
    var doc := Document(tools, name, version, framework);
    QuietTools(tools, T.KeyPath("$", "tools"));
    QuietPairs(FrameworkJson(framework).pairs, T.KeyPath("$", "framework"));
    QuietPairs(doc.pairs, "$");
    R.ScanEmptyIff(doc, "$");
  }

  lemma ToolFields(t: Tool)
    requires GoodId(t.id)
    ensures T.HasId(ToolJson(t)) && T.Id(ToolJson(t)) == t.id
    ensures T.Actions(ToolJson(t)) == Arr([Str(ActionName(t.action))]) && T.Risk(ToolJson(t)) == Str(RiskOf(t.action))
  {
    var pairs := ToolJson(t).pairs;
    GetAt(pairs, 0);
    GetAt(pairs, 1);
    GetAt(pairs, 2);
  }

  lemma GoodToolOk(t: Tool)
    requires GoodId(t.id)
    ensures R.ToolOk(ToolJson(t), None) && T.HasId(ToolJson(t)) && T.Id(ToolJson(t)) == t.id
    ensures !T.ToolRaises(ToolJson(t))
  {
    ToolFields(t);
  }

  lemma DocumentFields(tools: seq<Tool>, name: string, version: string, framework: string)
    ensures var pairs := Document(tools, name, version, framework).pairs;
      && Get(pairs, "template") == Some(Str(T.HEADER)) && Get(pairs, "name") == Some(Str(name))
      && Get(pairs, "version") == Some(Str(version)) && Get(pairs, "framework") == Some(FrameworkJson(framework))
      && Get(pairs, "tools") == Some(Arr(ToolsJson(tools))) && Get(pairs, "constraints") == None
  {
    var pairs := Document(tools, name, version, framework).pairs;
    GetAt(pairs, 0);
    GetAt(pairs, 1);
    GetAt(pairs, 2);
    GetAt(pairs, 3);
    GetAt(pairs, 4);
    GetNone(pairs, "constraints");
  }

  lemma DocumentKeys(tools: seq<Tool>, name: string, version: string, framework: string)
    ensures R.KeysOk(Document(tools, name, version, framework).pairs)
  {
    var pairs := Document(tools, name, version, framework).pairs;
    assert Keys(pairs) == T.REQUIRED_TOP;
    forall i | 0 <= i < |pairs|
      ensures pairs[i].key in T.TOP_KEYS
    {
      assert T.TOP_KEYS[i] == T.REQUIRED_TOP[i] == pairs[i].key;
    }
  }

  lemma ToolsOkIff(tools: seq<Tool>)
    requires AllGood(tools)
    ensures R.ToolsOk(ToolsJson(tools), None) <==> DistinctIds(tools)
    ensures !T.ToolsRaise(ToolsJson(tools))
  {
    forall i | 0 <= i < |tools|
      ensures R.ToolOk(ToolsJson(tools)[i], None) && T.HasId(ToolsJson(tools)[i]) && T.Id(ToolsJson(tools)[i]) == tools[i].id
      ensures !T.ToolRaises(ToolsJson(tools)[i])
    {
      GoodToolOk(tools[i]);
    }
  }

  /** Nothing is left to report but the name, the version and ids that occur twice. */
  lemma DocumentIssues(tools: seq<Tool>, name: string, version: string, framework: string, digits: set<char>)
    requires AllGood(tools) && tools != [] && framework in T.FRAMEWORKS
    ensures var doc := Document(tools, name, version, framework);
      && T.Validate(doc, digits).Issues?
      && (T.Validate(doc, digits).errs == [] <==> T.IsName(name) && T.IsVersion(version, digits) && DistinctIds(tools))
  {
    var doc := Document(tools, name, version, framework);
    DocumentFields(tools, name, version, framework);
    DocumentKeys(tools, name, version, framework);
    QuietDocument(tools, name, version, framework);
    ToolsOkIff(tools);
    GetAt(FrameworkJson(framework).pairs, 0);
    R.ValidIff(doc, digits);
  }

  /**
   * A report of extracted tools builds exactly with a good name and version and ids that are
   * distinct; for an accepted framework the self-check's error is all that else can come.
   */
  lemma BuildIff(tools: seq<Tool>, name: string, version: string, framework: string, digits: set<char>)
    requires AllGood(tools) && tools != [] && framework in T.FRAMEWORKS
    ensures var r := Build(tools, name, version, framework, digits);
      && (r.Ok? <==> T.IsName(name) && T.IsVersion(version, digits) && DistinctIds(tools))
      && (r.Ok? ==> r.value == Document(tools, name, version, framework) && R.Valid(r.value, digits))
      && (r.Err? ==> r.error.DoesNotValidate?)
  {
    DocumentIssues(tools, name, version, framework, digits);
    R.ValidIff(Document(tools, name, version, framework), digits);
  }

  /** Extracting into a new report always leaves a template that validates. */
  lemma ExtractionValidates(names: seq<string>, namespace: string, name: string, version: string, framework: string, digits: set<char>)
    requires Normalize(namespace) != "" && framework in T.FRAMEWORKS
    requires T.IsName(name) && T.IsVersion(version, digits)
    ensures var tools := Extracted(names, Normalize(namespace)).tools;
      tools != [] ==> Build(tools, name, version, framework, digits).Ok?
  {
    ExtractedGood(names, namespace);
    ToolsSeen(names, Normalize(namespace));
    var tools := Extracted(names, Normalize(namespace)).tools;
    if tools != [] {
      BuildIff(tools, name, version, framework, digits);
    }
  }

  lemma {:induction false} SeenHasTool(names: seq<string>, ns: string, id: string) returns (k: nat)
    requires id in Seen(names, ns)
    ensures k < |Extracted(names, ns).tools| && Extracted(names, ns).tools[k].id == id
  {
    var front, name := names[..|names| - 1], names[|names| - 1];
    if id in Seen(front, ns) {
      k := SeenHasTool(front, ns, id);
    } else {
      k := |Extracted(front, ns).tools|;
    }
  }

  /** Some name of each list gives one id to both. */
  predicate SharesId(a: seq<string>, nsA: string, b: seq<string>, nsB: string) {
    exists i, j | 0 <= i < |a| && 0 <= j < |b| ::
      Nameable(a[i]) && Nameable(b[j]) && ToolId(nsA, Normalize(a[i])) == ToolId(nsB, Normalize(b[j]))
  }

  lemma ToolTakesId(names: seq<string>, ns: string, k: nat) returns (i: nat)
    requires k < |Extracted(names, ns).tools|
    ensures i < |names| && TakenBy(names[i], ns, Extracted(names, ns).tools[k].id)
  {
    ToolsSeen(names, ns);
    SeenIff(names, ns, Extracted(names, ns).tools[k].id);
    i :| 0 <= i < |names| && TakenBy(names[i], ns, Extracted(names, ns).tools[k].id);
  }

  lemma NameGivesTool(names: seq<string>, ns: string, i: nat) returns (k: nat)
    requires i < |names| && Nameable(names[i])
    ensures k < |Extracted(names, ns).tools| && Extracted(names, ns).tools[k].id == ToolId(ns, Normalize(names[i]))
  {
    var id := ToolId(ns, Normalize(names[i]));
    SeenIff(names, ns, id);
    assert TakenBy(names[i], ns, id);
    k := SeenHasTool(names, ns, id);
  }

  /** Two extractions make a common tool id exactly if their names do. */
  lemma ApartIff(a: seq<string>, nsA: string, b: seq<string>, nsB: string)
    ensures Apart(Extracted(a, nsA).tools, Extracted(b, nsB).tools) <==> !SharesId(a, nsA, b, nsB)
  {
    var first, second := Extracted(a, nsA).tools, Extracted(b, nsB).tools;
    if SharesId(a, nsA, b, nsB) {
      var i, j :| 0 <= i < |a| && 0 <= j < |b| && Nameable(a[i]) && Nameable(b[j])
                  && ToolId(nsA, Normalize(a[i])) == ToolId(nsB, Normalize(b[j]));
      var k := NameGivesTool(a, nsA, i);
      var m := NameGivesTool(b, nsB, j);
    }
    forall k, m | 0 <= k < |first| && 0 <= m < |second| && first[k].id == second[m].id
      ensures SharesId(a, nsA, b, nsB)
    {
      var i := ToolTakesId(a, nsA, k);
      var j := ToolTakesId(b, nsB, m);
    }
  }

  /**
   * A report that is used again has no such luck: the second call starts with no ids taken, and
   * the template validates only if the names of the two calls give no id in common.
   */
  lemma ReusedReportIff(a: seq<string>, b: seq<string>, namespaceA: string, namespaceB: string,
                        name: string, version: string, framework: string, digits: set<char>)
    requires Normalize(namespaceA) != "" && Normalize(namespaceB) != "" && framework in T.FRAMEWORKS
    requires T.IsName(name) && T.IsVersion(version, digits)
    ensures var tools := Extracted(a, Normalize(namespaceA)).tools + Extracted(b, Normalize(namespaceB)).tools;
      tools != [] ==>
        (Build(tools, name, version, framework, digits).Ok? <==> !SharesId(a, Normalize(namespaceA), b, Normalize(namespaceB)))
  {
    ExtractedGood(a, namespaceA);
    ExtractedGood(b, namespaceB);
    ToolsSeen(a, Normalize(namespaceA));
    ToolsSeen(b, Normalize(namespaceB));
    var first, second := Extracted(a, Normalize(namespaceA)).tools, Extracted(b, Normalize(namespaceB)).tools;
    if first + second != [] {
      BuildIff(first + second, name, version, framework, digits);
      DistinctJoin(first, second);
      ApartIff(a, Normalize(namespaceA), b, Normalize(namespaceB));
    }
  }

  predicate Apart(first: seq<Tool>, second: seq<Tool>) {
    forall i, j | 0 <= i < |first| && 0 <= j < |second| :: first[i].id != second[j].id
  }

  lemma DistinctJoin(first: seq<Tool>, second: seq<Tool>)
    requires DistinctIds(first) && DistinctIds(second)
    ensures DistinctIds(first + second) <==> Apart(first, second)
  {
    var all := first + second;
    if DistinctIds(all) {
      forall i, j | 0 <= i < |first| && 0 <= j < |second|
        ensures first[i].id != second[j].id
      {
        assert all[i] == first[i] && all[|first| + j] == second[j];
      }
    }
  }

  /** Any name that is kept, extracted twice into one report, is enough. */
  lemma TwiceFails(raw: string, namespace: string, name: string, version: string, framework: string, digits: set<char>)
    requires Normalize(namespace) != "" && Nameable(raw) && framework in T.FRAMEWORKS
    ensures var tools := Extracted([raw], Normalize(namespace)).tools;
      var r := Build(tools + tools, name, version, framework, digits);
      r.Err? && r.error.DoesNotValidate?
  {
    var tools := Extracted([raw], Normalize(namespace)).tools;
    OneTool(raw, Normalize(namespace));
    ExtractedGood([raw], namespace);
    var twice := tools + tools;
    assert twice[0].id == twice[1].id;
    BuildIff(twice, name, version, framework, digits);
  }

  lemma OneTool(raw: string, ns: string)
    requires Nameable(raw)
    ensures Extracted([raw], ns).tools == [Tool(ToolId(ns, Normalize(raw)), Infer(raw).0)]
  {
    var none: seq<string> := [];
    assert [raw][..0] == none;
    assert Seen(none, ns) == {} && Extracted(none, ns).tools == [];
  }

  /** A caller's bad name or version is blamed on the extractor: a sound extraction ends in the self-check's error. */
  lemma BadNameIsBlamed(raw: string, namespace: string, name: string, version: string, framework: string, digits: set<char>)
    requires Normalize(namespace) != "" && Nameable(raw) && framework in T.FRAMEWORKS
    requires !T.IsName(name) || !T.IsVersion(version, digits)
    ensures var r := Build(Extracted([raw], Normalize(namespace)).tools, name, version, framework, digits);
      r.Err? && r.error.DoesNotValidate?
  {
    OneTool(raw, Normalize(namespace));
    ExtractedGood([raw], namespace);
    BuildIff(Extracted([raw], Normalize(namespace)).tools, name, version, framework, digits);
  }

  /** Such a call: one tool, and a capital in the template's name. */
  lemma BadNameExists(digits: set<char>) returns (raw: string, name: string, framework: string)
    ensures Nameable(raw) && framework in T.FRAMEWORKS && !T.IsName(name)
    ensures forall version :: var r := Build(Extracted([raw], "a").tools, name, version, framework, digits);
      r.Err? && r.error.DoesNotValidate?
  {
    raw, name, framework := "x", "Agent", "crewai";
    OneLetter(raw);
    OneLetter("a");
    assert !T.NameChar(name[0]);
    forall version
      ensures var r := Build(Extracted([raw], "a").tools, name, version, framework, digits);
        r.Err? && r.error.DoesNotValidate?
    {
      BadNameIsBlamed(raw, "a", name, version, framework, digits);
    }
  }

  lemma OneLetter(s: string)
    requires |s| == 1 && LowerOrDigit(s[0])
    ensures Normalize(s) == s && Verbs(s) == {}
  {
    CanonicalFixed(s);
    SplitNone(s, '_');
    forall w | w in REFUSED_VERBS
      ensures |w| > 1
    {
    }
  }
}
