/** Accepted uploads as a file tree without case, and the final archive around them. */
module BundleLayout {
  import opened Bytes
  import opened Wrappers
  import opened Text
  import opened Trees
  import opened SourceBundle
  import opened BundleOrder

  /** A file system whose names ignore case: folded paths to files. */
  type Disk = Tree<Bytes>

  /** Every entry has its place, and every file there has its bytes. */
  ghost predicate Lays(t: Disk, es: seq<Entry>) {
    && WellFormed(t)
    && forall i | 0 <= i < |es| ::
         Folded(es[i]) in t && t[Folded(es[i])] == if IsDir(es[i]) then Folder else File(es[i].data)
  }

  predicate FileIs(es: seq<Entry>, i: int, p: Path) {
    0 <= i < |es| && !IsDir(es[i]) && Folded(es[i]) == p
  }

  ghost function NodeAt(es: seq<Entry>, p: Path): Node<Bytes> {
    if exists i :: FileIs(es, i, p) then
      var i :| FileIs(es, i, p);
      File(es[i].data)
    else Folder
  }

  ghost function Places(es: seq<Entry>): set<Path> {
    {[]} + set i, k | 0 <= i < |es| && 0 <= k <= |Folded(es[i])| :: Folded(es[i])[..k]
  }

  ghost function Layout(es: seq<Entry>): Disk {
    map p | p in Places(es) :: NodeAt(es, p)
  }

  lemma FoldedDistinct(es: seq<Entry>, i: nat, j: nat)
    requires KeysDistinct(es) && i < |es| && j < |es| && Folded(es[i]) == Folded(es[j])
    ensures i == j
  {
    JoinOfSplit(Key(es[i]), '/');
    JoinOfSplit(Key(es[j]), '/');
    if i != j {
      KeyDiffers(es, i, j);
    }
  }

  lemma NoFileAbove(es: seq<Entry>, i: nat, k: nat)
    requires !Conflict(es) && i < |es| && k < |Folded(es[i])|
    ensures NodeAt(es, Folded(es[i])[..k]) == Folder
  {
    forall j | FileIs(es, j, Folded(es[i])[..k])
      ensures false
    {
      assert Above(Folded(es[j]), Folded(es[i]));
    }
  }

  lemma NodeOfEntry(es: seq<Entry>, i: nat)
    requires KeysDistinct(es) && i < |es|
    ensures NodeAt(es, Folded(es[i])) == if IsDir(es[i]) then Folder else File(es[i].data)
  {
    var p := Folded(es[i]);
    if !IsDir(es[i]) {
      assert FileIs(es, i, p);
    }
    forall j | FileIs(es, j, p)
      ensures j == i
    {
      FoldedDistinct(es, i, j);
    }
  }

  lemma PlaceOf(es: seq<Entry>, i: nat, k: nat)
    requires i < |es| && k <= |Folded(es[i])|
    ensures Folded(es[i])[..k] in Places(es)
  {
  }

  lemma WherePlaced(es: seq<Entry>, p: Path) returns (i: nat, k: nat)
    requires p in Places(es) && p != []
    ensures i < |es| && k <= |Folded(es[i])| && p == Folded(es[i])[..k]
  {
    i, k :| 0 <= i < |es| && 0 <= k <= |Folded(es[i])| && p == Folded(es[i])[..k];
  }

  lemma TakeLess(path: seq<string>, k: nat)
    requires 1 <= k <= |path|
    ensures path[..k][..k - 1] == path[..k - 1]
  {
  }

  lemma PlaceAbove(es: seq<Entry>, p: Path)
    requires !Conflict(es) && p in Places(es) && p != []
    ensures p[..|p| - 1] in Places(es) && NodeAt(es, p[..|p| - 1]) == Folder
  {
    var i, k := WherePlaced(es, p);
    TakeLess(Folded(es[i]), k);
    PlaceOf(es, i, k - 1);
    NoFileAbove(es, i, k - 1);
  }

  lemma LayoutWellFormed(es: seq<Entry>)
    requires !Conflict(es)
    ensures WellFormed(Layout(es))
  {
    assert forall i | 0 <= i < |es| :: |Folded(es[i])| >= 1;
    forall p | p in Places(es) && p != []
      ensures p[..|p| - 1] in Places(es) && NodeAt(es, p[..|p| - 1]) == Folder
    {
      PlaceAbove(es, p);
    }
  }

  /** Uploads without a conflict are exactly those that fit on a file system that ignores case. */
  lemma LaysIff(es: seq<Entry>)
    requires KeysDistinct(es)
    ensures !Conflict(es) <==> exists t :: Lays(t, es)
  {
    if !Conflict(es) {
      LayoutWellFormed(es);
      forall i | 0 <= i < |es|
        ensures Folded(es[i]) in Layout(es)
        ensures Layout(es)[Folded(es[i])] == if IsDir(es[i]) then Folder else File(es[i].data)
      {
        NodeOfEntry(es, i);
        assert Folded(es[i])[..|Folded(es[i])|] == Folded(es[i]);
      }
      assert Lays(Layout(es), es);
    }
    forall t, i, j | Lays(t, es) && 0 <= i < |es| && 0 <= j < |es| && !IsDir(es[j]) && Above(Folded(es[j]), Folded(es[i]))
      ensures false
    {
      AncestorIsFolder(t, Folded(es[i]), |Folded(es[j])|);
    }
  }

  // ---- the final archive ------------------------------------------------------------

  const SDK_FILES := ["__init__.py", "_binary.py", "agent.py", "auth_ipc.py", "egress.py", "errors.py", "ipc.py",
                      "mcp_caller.py", "pipe_win.py"]

  const METADATA_DIR := "hawcx_haap-0.1.17.dist-info"

  const SDK_TOP := "hawcx_haap"

  function RuntimeName(file: string): string {
    SDK_TOP + ['/'] + file
  }

  const METADATA := METADATA_DIR + ['/'] + "METADATA"

  /** The members build_source_bundle adds whatever was uploaded. */
  predicate Trusted(name: string) {
    (exists i | 0 <= i < |SDK_FILES| :: name == RuntimeName(SDK_FILES[i])) || name == METADATA || name == BUILD_RECORD
  }

  /** A `--main package.module:function` option: what its checks come to, and the __main__.py it asks for. */
  datatype Main = Main(wellFormed: bool, path: string, callable: Bytes -> bool, script: Bytes)

  datatype EntryError = NoEntryPoint | BadMain | TwoEntryPoints | ModuleMissing | NotCallable

  /** The uploads with an entry point: their own, or one written beside them. */
  predicate Completed(uploads: map<string, Bytes>, sources: map<string, Bytes>) {
    MAIN in sources && sources == if MAIN in uploads then uploads else uploads[MAIN := sources[MAIN]]
  }

  /** _entrypoint: the sources with a __main__.py. */
  method Entrypoint(sources: map<string, Bytes>, main: Option<Main>) returns (r: Result<map<string, Bytes>, EntryError>)
    ensures r.Ok? ==> Completed(sources, r.value) && "__main__.py" in r.value
    ensures r.Err? ==>
              match r.error
              case NoEntryPoint => main.None? && "__main__.py" !in sources
              case BadMain => main.Some? && !main.value.wellFormed
              case TwoEntryPoints => main.Some? && main.value.wellFormed && "__main__.py" in sources
              case ModuleMissing =>
                main.Some? && main.value.path + ".py" !in sources && main.value.path + "/__init__.py" !in sources
              case NotCallable =>
                main.Some? && (main.value.path + ".py" in sources || main.value.path + "/__init__.py" in sources)
    ensures r.Ok? && MAIN !in sources ==> main.Some? && r.value[MAIN] == main.value.script
    ensures r.Ok? <==>
              if main.None? then MAIN in sources
              else
                && main.value.wellFormed && MAIN !in sources
                && (if main.value.path + ".py" in sources then main.value.callable(sources[main.value.path + ".py"])
                    else main.value.path + "/__init__.py" in sources
                         && main.value.callable(sources[main.value.path + "/__init__.py"]))
  {
    if main.None? {
      if MAIN !in sources {
        return Err(NoEntryPoint);
      }
      assert sources[MAIN := sources[MAIN]] == sources;
      return Ok(sources);
    }
    var m := main.value;
    if !m.wellFormed {
      return Err(BadMain);
    }
    if MAIN in sources {
      return Err(TwoEntryPoints);
    }
    if m.path + ".py" !in sources && m.path + "/__init__.py" !in sources {
      return Err(ModuleMissing);
    }
    var name := if m.path + ".py" in sources then m.path + ".py" else m.path + "/__init__.py";
    if !m.callable(sources[name]) {
      return Err(NotCallable);
    }
    r := Ok(sources[MAIN := m.script]);
  }

  /** sources.update(runtime), then the build record. */
  function Archive(sources: map<string, Bytes>, runtime: map<string, Bytes>, record: Bytes): map<string, Bytes> {
    (sources + runtime)[BUILD_RECORD := record]
  }

  /** What a name looks like where case is ignored. */
  function FoldedName(name: string): (r: seq<string>)
    ensures r != []
  {
    Split(Lower(name), '/')
  }

  /** Two members that a file system without case cannot both hold. */
  predicate Collide(a: string, b: string) {
    FoldedName(a) == FoldedName(b) || Above(FoldedName(a), FoldedName(b)) || Above(FoldedName(b), FoldedName(a))
  }

  lemma CollideShareTop(a: string, b: string)
    requires Collide(a, b)
    ensures FoldedName(a)[0] == FoldedName(b)[0]
  {
  }

  /** A plain lower-case name is its own only part. */
  predicate Plain(s: string) {
    forall i | 0 <= i < |s| :: s[i] != '/' && LowerChar(s[i]) == s[i]
  }

  lemma PlainTop(top: string, rest: string)
    requires Plain(top)
    ensures FoldedName(top + ['/'] + rest)[0] == top
    ensures FoldedName(top) == [top]
  {
    var name := top + ['/'] + rest;
    LowerFixed(top);
    LowerSplit(name, '/');
    SplitFirst(top, rest, '/');
    assert Split(name, '/')[0] == top;
    SplitNone(top, '/');
  }

  lemma SdkTopIsPlain()
    ensures Plain(SDK_TOP) && '.' !in SDK_TOP
  {
  }

  lemma MetadataIsPlain()
    ensures Plain(METADATA_DIR) && EndsWith(METADATA_DIR, ".dist-info")
  {
  }

  lemma RecordIsPlain()
    ensures Plain(BUILD_RECORD)
  {
  }

  lemma MainIsPlain()
    ensures Plain(MAIN)
  {
  }

  predicate TrustedTop(top: string) {
    top == SDK_TOP || top == METADATA_DIR || top == BUILD_RECORD
  }

  lemma TopOfTrusted(name: string)
    requires Trusted(name)
    ensures TrustedTop(FoldedName(name)[0])
  {
    if name == METADATA {
      MetadataIsPlain();
      PlainTop(METADATA_DIR, "METADATA");
    } else if name == BUILD_RECORD {
      RecordIsPlain();
      PlainTop(BUILD_RECORD, "");
    } else {
      var i :| 0 <= i < |SDK_FILES| && name == RuntimeName(SDK_FILES[i]);
      SdkTopIsPlain();
      PlainTop(SDK_TOP, SDK_FILES[i]);
    }
  }

  /** The first part of an accepted name is none of those, in any case. */
  lemma TopOfAccepted(e: Entry, py: Python)
    requires MemberName(e, py).Ok?
    ensures !TrustedTop(FoldedName(MemberName(e, py).value)[0])
  {
    TopNotReserved(MemberName(e, py).value, py);
  }

  lemma TopNotReserved(name: string, py: Python)
    requires !IsReserved(Split(name, '/'), py)
    ensures !TrustedTop(FoldedName(name)[0])
  {
    var part := Split(name, '/')[0];
    LowerSplit(name, '/');
    if Lower(part) == SDK_TOP {
      SdkTopIsPlain();
      LowerSplit(part, '.');
      SplitNone(SDK_TOP, '.');
    }
    if Lower(part) == METADATA_DIR {
      MetadataIsPlain();
    }
  }

  /** No accepted upload can take a trusted member's place, not even up to case. */
  lemma UploadsMissTrusted(es: seq<Entry>, py: Python, name: string, trusted: string)
    requires Acceptable(es, py) && name in Sources(es) && Trusted(trusted)
    ensures !Collide(name, trusted) && name != trusted
  {
    var i := SourcesOnly(es, name);
    assert EntryOk(es[i], py);
    TopOfAccepted(es[i], py);
    TopOfTrusted(trusted);
    if Collide(name, trusted) {
      CollideShareTop(name, trusted);
    }
  }

  lemma MainIsNotTrusted()
    ensures !Trusted(MAIN)
  {
    MainIsPlain();
    PlainTop(MAIN, "");
    if Trusted(MAIN) {
      TopOfTrusted(MAIN);
    }
  }

  /**
   * The archive is a disjoint union: every accepted file survives with its bytes, so do the
   * generated entry point, the runtime and the record, and there is nothing else.
   */
  lemma ArchiveIsDisjointUnion(es: seq<Entry>, py: Python, sources: map<string, Bytes>, runtime: map<string, Bytes>, record: Bytes)
    requires Acceptable(es, py) && Completed(Sources(es), sources)
    requires forall n :: n in runtime ==> Trusted(n) && n != BUILD_RECORD
    ensures var a := Archive(sources, runtime, record);
      && a.Keys == sources.Keys + runtime.Keys + {BUILD_RECORD}
      && sources.Keys !! runtime.Keys && BUILD_RECORD !in sources
      && (forall n | n in Sources(es) :: a[n] == Sources(es)[n])
      && a[MAIN] == sources[MAIN]
      && (forall n | n in runtime :: a[n] == runtime[n]) && a[BUILD_RECORD] == record
  {
    MainIsNotTrusted();
    forall n, t | n in sources && Trusted(t)
      ensures n != t
    {
      if n != MAIN {
        UploadsMissTrusted(es, py, n, t);
      }
    }
    assert Trusted(BUILD_RECORD);
  }

  /** Two accepted files never collide. */
  lemma UploadsApart(es: seq<Entry>, a: string, b: string)
    requires KeysDistinct(es) && !Conflict(es)
    requires a in Sources(es) && b in Sources(es) && a != b
    ensures !Collide(a, b)
  {
    var i := SourcesOnly(es, a);
    var j := SourcesOnly(es, b);
    assert Folded(es[i]) == FoldedName(a) && Folded(es[j]) == FoldedName(b);
    if FoldedName(a) == FoldedName(b) {
      FoldedDistinct(es, i, j);
    }
  }

  /** Whatever reaches __main__.py, up to case, starts with it. */
  lemma MainCollidesIff(name: string)
    ensures Collide(name, MAIN) <==> FoldedName(name)[0] == MAIN
  {
    MainIsPlain();
    PlainTop(MAIN, "");
    var f := FoldedName(name);
    if f[0] == MAIN {
      assert f[..1] == [MAIN];
      assert |f| == 1 ==> f == [MAIN];
    }
  }

  /**
   * The one member that case can bring down is a generated __main__.py: two members of the
   * archive, not both trusted, collide exactly if one is that and the other an upload whose
   * first part folds to its name.
   */
  lemma CollidesOnlyWithGeneratedMain(es: seq<Entry>, py: Python, sources: map<string, Bytes>, a: string, b: string)
    requires Acceptable(es, py) && Completed(Sources(es), sources)
    requires a in sources && a != b && (b in sources || Trusted(b))
    ensures Collide(a, b) <==>
              MAIN !in Sources(es) && ((a == MAIN && b in Sources(es) && FoldedName(b)[0] == MAIN)
                                       || (b == MAIN && FoldedName(a)[0] == MAIN))
  {
    MainIsNotTrusted();
    if b !in sources {
      TrustedApart(es, py, a, b);
    } else if a in Sources(es) && b in Sources(es) {
      UploadsApart(es, a, b);
    } else {
      MainCollidesIff(a);
      MainCollidesIff(b);
    }
  }

  lemma TrustedApart(es: seq<Entry>, py: Python, a: string, b: string)
    requires Acceptable(es, py) && (a in Sources(es) || a == MAIN) && Trusted(b)
    ensures !Collide(a, b) && a != b
  {
    if a in Sources(es) {
      UploadsMissTrusted(es, py, a, b);
    } else {
      MainIsPlain();
      PlainTop(MAIN, "");
      TopOfTrusted(b);
      if Collide(a, b) {
        CollideShareTop(a, b);
      }
    }
  }

  // ---- an upload that meets it ----------------------------------------------------------

  /** A name for a module of one's own. */
  predicate ModuleName(stem: string, py: Python) {
    && stem != "" && |stem| <= 237 && (forall i | 0 <= i < |stem| :: NameChar(stem[i]) && stem[i] != '.')
    && Lower(stem) !in py.stdlib && Lower(stem) != SDK_TOP
  }

  function Script(stem: string): string {
    stem + ['.', 'p', 'y']
  }

  function ScriptEntry(stem: string, data: Bytes): Entry {
    Entry(Script(stem), false, Unset, false, true, |data|, data)
  }

  predicate ScriptData(data: Bytes, py: Python) {
    |data| <= MAX_MEMBER_BYTES && py.utf8(data) && 0 !in data
  }

  lemma ScriptSplits(stem: string, py: Python)
    requires ModuleName(stem, py)
    ensures Split(Script(stem), '/') == [Script(stem)] && Split(Script(stem), '.') == [stem, ['p', 'y']]
    ensures PartOk(Script(stem))
  {
    var name := Script(stem);
    assert forall i | 0 <= i < |stem| :: name[i] == stem[i];
    SplitNone(name, '/');
    assert name == stem + ['.'] + ['p', 'y'];
    SplitFirst(stem, ['p', 'y'], '.');
    SplitNone(['p', 'y'], '.');
    assert name[|name| - 1] == 'y' && |name| >= 4;
  }

  lemma EndsInY(low: string)
    requires |low| >= 4 && low[|low| - 1] == 'y'
    ensures low != BUILD_RECORD && !EndsWith(low, ".dist-info") && !EndsWith(low, ".egg-info")
  {
  }

  lemma ScriptIsFree(stem: string, py: Python)
    requires ModuleName(stem, py)
    ensures !IsReserved([Script(stem)], py)
  {
    ScriptSplits(stem, py);
    EndsInY(Lower(Script(stem)));
  }

  lemma DotThird(name: string, n: nat)
    requires |name| == n + 3 && name[n] == '.' && name[n + 1] != '.' && name[n + 2] != '.'
    ensures LastDot(name) == n
  {
    var a := name[..n + 2];
    var b := a[..n + 1];
    assert LastDot(b) == n;
    assert LastDot(a) == n;
  }

  lemma ScriptSuffix(stem: string, py: Python)
    requires ModuleName(stem, py)
    ensures Suffix(Script(stem)) == ['.', 'p', 'y'] && Lower(Suffix(Script(stem))) == ['.', 'p', 'y']
  {
    ScriptSplits(stem, py);
    DotThird(Script(stem), |stem|);
    assert Script(stem)[|stem|..] == ['.', 'p', 'y'];
    LowerFixed(['.', 'p', 'y']);
  }

  lemma ScriptName(e: Entry, py: Python)
    requires e.filename != "" && |e.filename| <= 240 && !IsDir(e) && Split(e.filename, '/') == [e.filename]
    requires PartOk(e.filename) && !IsReserved([e.filename], py)
    requires !e.renamed && e.fileType.Unset? && !e.encrypted && e.supported
    ensures MemberName(e, py) == Ok(e.filename)
  {
  }

  lemma PySuffix(e: Entry, suffix: string)
    requires !IsDir(e) && suffix == ['.', 'p', 'y'] && Lower(Suffix(e.filename)) == suffix
    ensures EarlyRefusal(e).None?
  {
    assert |suffix| == 3 && suffix[1] == 'p' && suffix[2] == 'y';
    assert suffix == ".py";
  }

  lemma ScriptOk(stem: string, data: Bytes, py: Python)
    requires ModuleName(stem, py) && ScriptData(data, py)
    ensures var e := ScriptEntry(stem, data);
      EntryOk(e, py) && !IsDir(e) && Wanted(e) == Script(stem) && Folded(e) == [Lower(Script(stem))]
  {
    var e := ScriptEntry(stem, data);
    ScriptSplits(stem, py);
    ScriptIsFree(stem, py);
    ScriptSuffix(stem, py);
    ScriptName(e, py);
    PySuffix(e, ['.', 'p', 'y']);
    LowerSplit(Script(stem), '/');
  }

  lemma Pair(es: seq<Entry>, a: Entry, b: Entry)
    requires es == [a, b]
    ensures |es| == 2 && es[0] == a && es[1] == b && es[..1] == [a] && es[..1][..0] == []
  {
  }

  lemma PairSums(es: seq<Entry>, a: Entry, b: Entry)
    requires es == [a, b] && !IsDir(a) && !IsDir(b)
    ensures Total(es) == Weight(a) + Weight(b)
    ensures Sources(es) == map[Wanted(a) := a.data][Wanted(b) := b.data]
  {
    Pair(es, a, b);
    assert Total(es[..1]) == Total([]) + Weight(a);
    assert Sources(es[..1]) == Sources([])[Wanted(a) := a.data];
  }

  lemma PairAdmitted(es: seq<Entry>, a: Entry, b: Entry, py: Python)
    requires es == [a, b] && EntryOk(a, py) && EntryOk(b, py) && Key(a) != Key(b)
    ensures EntriesOk(es, py) && KeysDistinct(es)
  {
    Pair(es, a, b);
  }

  lemma NoneAbove(es: seq<Entry>)
    requires forall i | 0 <= i < |es| :: |Folded(es[i])| == 1
    ensures !Conflict(es)
  {
  }

  lemma TwoFiles(es: seq<Entry>, a: Entry, b: Entry, py: Python)
    requires es == [a, b] && EntryOk(a, py) && EntryOk(b, py) && !IsDir(a) && !IsDir(b)
    requires |Folded(a)| == |Folded(b)| == 1 && Key(a) != Key(b)
    ensures Acceptable(es, py)
    ensures Sources(es) == map[Wanted(a) := a.data][Wanted(b) := b.data]
  {
    Pair(es, a, b);
    PairSums(es, a, b);
    PairAdmitted(es, a, b, py);
    NoneAbove(es);
  }

  /**
   * Beside a module of the upload's own goes a __MAIN__.py; --main names that module, and the
   * __main__.py written for it collides with the other.
   */
  method ShoutedArchive(shout: string, stem: string, data: Bytes, main: Main, py: Python) returns (es: seq<Entry>, sources: map<string, Bytes>)
    requires shout == "__MAIN__" && ModuleName(shout, py) && py.utf8([])
    requires ModuleName(stem, py) && Lower(stem) != Lower(shout) && ScriptData(data, py)
    requires main.wellFormed && main.path == stem && main.callable(data)
    ensures Acceptable(es, py) && Completed(Sources(es), sources) && MAIN !in Sources(es)
    ensures Script(shout) in Sources(es) && Script(shout) in sources && MAIN in sources
    ensures Script(shout) != MAIN && Collide(Script(shout), MAIN)
  {
    var a, b := ScriptEntry(shout, []), ScriptEntry(stem, data);
    ScriptOk(shout, [], py);
    ScriptOk(stem, data, py);
    KeysApart(shout, stem);
    es := [a, b];
    TwoFiles(es, a, b, py);
    NeitherIsMain(shout, stem, MAIN);
    assert main.path + ".py" == Script(stem);
    var r := Entrypoint(Sources(es), Some(main));
    sources := r.value;
    ShoutedCollides(shout, py);
  }

  lemma KeysApart(a: string, b: string)
    requires Lower(a) != Lower(b)
    ensures Lower(Script(a)) != Lower(Script(b)) && Script(a) != Script(b)
  {
    var x, y := Lower(Script(a)), Lower(Script(b));
    assert x[..|a|] == Lower(a) && y[..|b|] == Lower(b);
  }

  lemma ShoutedLower(shout: string, main: string)
    requires shout == "__MAIN__" && main == MAIN
    ensures Lower(Script(shout)) == main && Script(shout) != main && Plain(main)
  {
    assert Script(shout)[2] == 'M';
    MainIsPlain();
  }

  lemma NeitherIsMain(shout: string, stem: string, main: string)
    requires shout == "__MAIN__" && main == MAIN && Lower(stem) != Lower(shout)
    ensures Script(shout) != main && Script(stem) != main
  {
    KeysApart(shout, stem);
    ShoutedLower(shout, main);
    LowerFixed(main);
  }

  lemma ShoutedCollides(shout: string, py: Python)
    requires shout == "__MAIN__" && ModuleName(shout, py)
    ensures Collide(Script(shout), MAIN)
  {
    ScriptSplits(shout, py);
    LowerSplit(Script(shout), '/');
    ShoutedLower(shout, MAIN);
    MainCollidesIff(Script(shout));
  }
}
