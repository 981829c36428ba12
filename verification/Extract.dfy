/** Drafting a template from bare tool names. */
module Extract {
  import opened Wrappers
  import opened Text
  import opened Json
  import opened Segments
  import T = Template

  const READ_VERBS: set<string> := {
    "get", "list", "read", "fetch", "search", "query", "find", "lookup", "describe", "show", "count", "check", "view"}

  const WRITE_VERBS: set<string> := {
    "create", "add", "update", "set", "put", "post", "delete", "remove",
    "insert", "patch", "write", "upsert", "assign", "invite", "send", "archive"}

  const EXECUTE_VERBS: set<string> := {"run", "execute", "invoke", "trigger", "start", "stop", "call"}

  /** The verbs the extractor refuses; the validator has a list of its own. */
  const REFUSED_VERBS: set<string> := {"refund", "transfer", "payout", "wire", "payment", "payments"}

  datatype Action = Read | Write | Execute

  function ActionName(a: Action): string {
    match a
    case Read => "read"
    case Write => "write"
    case Execute => "execute"
  }

  function RiskOf(a: Action): string {
    if a.Read? then "read_public" else "write_internal"
  }

  /** _infer_actions: an action, and whether a verb suggested it. */
  function Infer(name: string): (Action, bool) {
    var head := Split(Normalize(name), '_')[0];
    if head in READ_VERBS then (Read, true)
    else if head in WRITE_VERBS then (Write, true)
    else if head in EXECUTE_VERBS then (Execute, true)
    else (Read, false)
  }

  /** A tool entry; its risk follows from its action. */
  datatype Tool = Tool(id: string, action: Action)

  datatype Reason = EmptySegment | RefusedVerb(verbs: set<string>) | DuplicateId(id: string)

  datatype Refused = Refused(name: string, reason: Reason)

  function Verbs(seg: string): set<string> {
    set w | w in Split(seg, '_') && w in REFUSED_VERBS
  }

  function ToolId(ns: string, seg: string): string {
    ns + ['.'] + seg
  }

  /** Why a name is left out, given the ids taken before it, if it is. */
  function Refusal(name: string, ns: string, seen: set<string>): Option<Reason> {
    var seg := Normalize(name);
    if seg == "" then Some(EmptySegment)
    else if Verbs(seg) != {} then Some(RefusedVerb(Verbs(seg)))
    else if ToolId(ns, seg) in seen then Some(DuplicateId(ToolId(ns, seg)))
    else None
  }

  // ---- a whole extraction -----------------------------------------------------------

  function Seen(names: seq<string>, ns: string): set<string> {
    if names == [] then {}
    else
      var front, name := names[..|names| - 1], names[|names| - 1];
      Seen(front, ns) + if Refusal(name, ns, Seen(front, ns)).None? then {ToolId(ns, Normalize(name))} else {}
  }

  /** What one name adds to the five lists of a report. */
  datatype Lists5 = Lists5(tools: seq<Tool>, refused: seq<Refused>, inferred: seq<string>, unknown: seq<string>, normalized: seq<(string, string)>)

  function Entry(name: string, ns: string, seen: set<string>): Lists5 {
    var seg := Normalize(name);
    var refusal := Refusal(name, ns, seen);
    if refusal.Some? then Lists5([], [Refused(name, refusal.value)], [], [], [])
    else
      var (action, inferred) := Infer(name);
      Lists5([Tool(ToolId(ns, seg), action)], [],
             if inferred then [name] else [], if inferred then [] else [name],
             if seg != name then [(name, ToolId(ns, seg))] else [])
  }

  function Add(a: Lists5, b: Lists5): Lists5 {
    Lists5(a.tools + b.tools, a.refused + b.refused, a.inferred + b.inferred, a.unknown + b.unknown, a.normalized + b.normalized)
  }

  function Extracted(names: seq<string>, ns: string): Lists5 {
    if names == [] then Lists5([], [], [], [], [])
    else
      var front := names[..|names| - 1];
      Add(Extracted(front, ns), Entry(names[|names| - 1], ns, Seen(front, ns)))
  }

  lemma AddAssoc(a: Lists5, b: Lists5, c: Lists5)
    ensures Add(Add(a, b), c) == Add(a, Add(b, c))
  {
  }

  class ExtractReport {
    var tools: seq<Tool>
    var refused: seq<Refused>
    var inferred: seq<string>
    var unknown: seq<string>
    var normalized: seq<(string, string)>

    constructor ()
      ensures Contents() == Lists5([], [], [], [], [])
    {
      tools, refused, inferred, unknown, normalized := [], [], [], [], [];
    }

    function Contents(): Lists5
      reads this
    {
      Lists5(tools, refused, inferred, unknown, normalized)
    }

    /** The body of the loop of extract_from_names; the ids taken after it. */
    method AddName(raw: string, ns: string, seen: set<string>) returns (seen': set<string>)
      modifies this
      ensures Contents() == Add(old(Contents()), Entry(raw, ns, seen))
      ensures seen' == seen + if Refusal(raw, ns, seen).None? then {ToolId(ns, Normalize(raw))} else {}
    {
      seen' := seen;
      var seg := Normalize(raw);
      if seg == "" {
        refused := refused + [Refused(raw, EmptySegment)];
        return;
      }
      var verbs := Verbs(seg);
      if verbs != {} {
        refused := refused + [Refused(raw, RefusedVerb(verbs))];
        return;
      }
      var id := ToolId(ns, seg);
      if id in seen {
        refused := refused + [Refused(raw, DuplicateId(id))];
        return;
      }
      seen' := seen + {id};
      if seg != raw {
        normalized := normalized + [(raw, id)];
      }
      var (action, verb) := Infer(raw);
      if verb {
        inferred := inferred + [raw];
      } else {
        unknown := unknown + [raw];
      }
      tools := tools + [Tool(id, action)];
    }

    /** extract_from_names, into this report; false when the namespace comes to nothing. */
    method ExtractFromNames(names: seq<string>, namespace: string) returns (ok: bool)
      modifies this
      ensures ok <==> Normalize(namespace) != ""
      ensures Contents() == if ok then Add(old(Contents()), Extracted(names, Normalize(namespace))) else old(Contents())
    {
      var ns := Normalize(namespace);
      if ns == "" {
        return false;
      }
      var seen: set<string> := {};
      assert names[..|names|] == names;
      for i := 0 to |names|
        invariant seen == Seen(names[..i], ns)
        invariant Contents() == Add(old(Contents()), Extracted(names[..i], ns))
      {
        assert names[..i + 1][..i] == names[..i];
        AddAssoc(old(Contents()), Extracted(names[..i], ns), Entry(names[i], ns, seen));
        seen := AddName(names[i], ns, seen);
      }
      ok := true;
    }

    /** build_template */
    method BuildTemplate(name: string, version: string, framework: string, digits: set<char>) returns (r: Result<Json, BuildError>)
      ensures r == Build(tools, name, version, framework, digits)
      // the header, what the caller named, and the tools; nothing else
      ensures r.Ok? ==>
                r.value == Obj([Pair("template", Str("hawcx/agent-template/v1")), Pair("name", Str(name)), Pair("version", Str(version)),
                                Pair("framework", Obj([Pair("kind", Str(framework))])), Pair("tools", Arr(ToolsJson(tools)))])
    {
      if tools == [] {
        return Err(NothingExtractable);
      }
      if framework !in T.FRAMEWORKS {
        return Err(BadFramework);
      }
      var doc := Document(tools, name, version, framework);
      var outcome := T.ValidateV1(doc, digits);
      if outcome.Unhashable? {
        return Err(Raised);
      }
      if outcome.errs != [] {
        return Err(DoesNotValidate(outcome.errs));
      }
      r := Ok(doc);
    }
  }

  // ---- the template -----------------------------------------------------------------

  function ToolJson(t: Tool): Json {
    Obj([Pair("id", Str(t.id)), Pair("actions", Arr([Str(ActionName(t.action))])), Pair("risk", Str(RiskOf(t.action)))])
  }

  function ToolsJson(tools: seq<Tool>): (r: seq<Json>)
    ensures |r| == |tools|
    ensures forall i | 0 <= i < |r| :: r[i] == ToolJson(tools[i])
  {
    seq(|tools|, i requires 0 <= i < |tools| => ToolJson(tools[i]))
  }

  function FrameworkJson(framework: string): Json {
    Obj([Pair("kind", Str(framework))])
  }

  function Document(tools: seq<Tool>, name: string, version: string, framework: string): Json {
    Obj([Pair("template", Str(T.HEADER)), Pair("name", Str(name)), Pair("version", Str(version)),
         Pair("framework", FrameworkJson(framework)), Pair("tools", Arr(ToolsJson(tools)))])
  }

  datatype BuildError = NothingExtractable | BadFramework | DoesNotValidate(errs: seq<T.Issue>) | Raised

  function Build(tools: seq<Tool>, name: string, version: string, framework: string, digits: set<char>): Result<Json, BuildError> {
    if tools == [] then Err(NothingExtractable)
    else if framework !in T.FRAMEWORKS then Err(BadFramework)
    else
      var doc := Document(tools, name, version, framework);
      match T.Validate(doc, digits)
      case Unhashable => Err(Raised)
      case Issues(errs) => if errs == [] then Ok(doc) else Err(DoesNotValidate(errs))
  }
}
