/** What a drafted template says of each tool and of itself, word for word. */
module DraftLaws {
  import opened Wrappers
  import opened Text
  import opened Json
  import opened Segments
  import opened Extract
  import opened ExtractLaws

  /** The action and the risk that the first word of a name stands for. */
  function Suggested(head: string): (string, string) {
    if head in {"create", "add", "update", "set", "put", "post", "delete", "remove", "insert", "patch", "write", "upsert",
                "assign", "invite", "send", "archive"} then ("write", "write_internal")
    else if head in {"run", "execute", "invoke", "trigger", "start", "stop", "call"} then ("execute", "write_internal")
    else ("read", "read_public")
  }

  function FirstWord(name: string): string
    requires Words(name) != []
  {
    Lower(Words(name)[0])
  }

  lemma ActionOf(name: string)
    requires Words(name) != []
    ensures (ActionName(Infer(name).0), RiskOf(Infer(name).0)) == Suggested(FirstWord(name))
  {
    InferFromFirstWord(name);
    var head := FirstWord(name);
    VerbsApart(head);
    WriteWords(head);
  }

  lemma WriteWords(head: string)
    ensures Suggested(head) ==
              if head in WRITE_VERBS then ("write", "write_internal")
              else if head in EXECUTE_VERBS then ("execute", "write_internal")
              else ("read", "read_public")
  {
  }

  /** A name counts as inferred exactly if its first word is a verb of one of the three lists. */
  lemma InferredIff(name: string)
    requires Words(name) != []
    ensures Infer(name).1 <==>
              || Suggested(FirstWord(name)).0 != "read"
              || FirstWord(name) in {"get", "list", "read", "fetch", "search", "query", "find", "lookup", "describe", "show",
                                     "count", "check", "view"}
  {
    var head := FirstWord(name);
    InferFromFirstWord(name);
    ActionOf(name);
    WriteWords(head);
    VerbsApart(head);
  }

  lemma NameableHasWords(name: string)
    requires Nameable(name)
    ensures Words(name) != []
  {
    NormalizeIsWords(name);
  }

  /** Every tool of a draft: namespace and words as its id, and the action and risk of its first word. */
  lemma ToolsSay(names: seq<string>, ns: string, k: nat) returns (i: nat)
    requires k < |Extracted(names, ns).tools|
    ensures i < |names| && Nameable(names[i]) && Words(names[i]) != []
    ensures var (action, risk) := Suggested(FirstWord(names[i]));
      ToolsJson(Extracted(names, ns).tools)[k] ==
        Obj([Pair("id", Str(ns + "." + Lower(Join(Words(names[i]), '_')))),
             Pair("actions", Arr([Str(action)])), Pair("risk", Str(risk))])
  {
    i := ToolFrom(names, ns, k);
    KeptIff(names, ns, i);
    NameableHasWords(names[i]);
    NormalizeIsWords(names[i]);
    ActionOf(names[i]);
  }

  predicate Refused(w: string) {
    w in {"refund", "transfer", "payout", "wire", "payment", "payments"}
  }

  lemma SixVerbs(w: string)
    ensures Refused(w) <==> w in REFUSED_VERBS
  {
  }

  lemma VerbsIff(seg: string)
    ensures Verbs(seg) != {} <==> exists i | 0 <= i < |Split(seg, '_')| :: Refused(Split(seg, '_')[i])
  {
    var pieces, verbs := Split(seg, '_'), Verbs(seg);
    if verbs != {} {
      var w :| w in verbs;
      var i :| 0 <= i < |pieces| && pieces[i] == w;
      SixVerbs(w);
      assert Refused(Split(seg, '_')[i]);
    }
    forall i | 0 <= i < |pieces| && Refused(pieces[i])
      ensures pieces[i] in verbs
    {
      SixVerbs(pieces[i]);
      assert pieces[i] in pieces;
    }
  }

  /** Why a name is refused, if it is: nothing to make an id of, a word among the six, or an id that is taken. */
  lemma ReasonSays(name: string, ns: string, seen: set<string>)
    ensures var id, refused := ns + "." + Normalize(name), Entry(name, ns, seen).refused;
      && (refused == [Extract.Refused(name, EmptySegment)] <==> forall i | 0 <= i < |name| :: !Alnum(name[i]))
      && (refused == [Extract.Refused(name, DuplicateId(id))] <==> Nameable(name) && id in seen)
      && (refused == [] <==> Nameable(name) && id !in seen)
      && (refused != [] ==> |refused| == 1 && refused[0].name == name)
      && (refused != [] && refused[0].reason.RefusedVerb? ==>
            forall v :: v in refused[0].reason.verbs <==> Refused(v) && v in Split(Normalize(name), '_'))
  {
    NormalizeIsWords(name);
    forall v
      ensures v in Verbs(Normalize(name)) <==> Refused(v) && v in Split(Normalize(name), '_')
    {
      SixVerbs(v);
    }
  }

  /** A name is refused for a verb exactly if one of its words, in lower case, is one of these six. */
  lemma RefusedForVerb(name: string)
    requires Words(name) != []
    ensures Verbs(Normalize(name)) != {} <==>
              exists i | 0 <= i < |Words(name)| :: Refused(Lower(Words(name)[i]))
  {
    PiecesAreWords(name);
    VerbsIff(Normalize(name));
    var pieces := Split(Normalize(name), '_');
    if i :| 0 <= i < |pieces| && Refused(pieces[i]) {
      assert Refused(Lower(Words(name)[i]));
    }
    if i :| 0 <= i < |Words(name)| && Refused(Lower(Words(name)[i])) {
      assert Refused(pieces[i]);
    }
  }
}
