/**
 * Source bundles: which ZIP uploads are accepted, what the accepted files are, and what goes
 * into the final archive beside them.
 */
module SourceBundle {
  import opened Bytes
  import opened Wrappers
  import opened Lists
  import opened Text
  import opened Trees

  const MAX_SOURCE_BYTES := 32 * 1024 * 1024
  const MAX_MEMBER_BYTES := 8 * 1024 * 1024
  const MAX_ENTRIES := 1024
  const BUILD_RECORD := "_hawcx_build.json"
  const MAIN := "__main__.py"

  /** S_IFMT of an entry's recorded mode. */
  datatype FileType = Unset | Regular | Directory | OtherType

  /** One ZIP entry; `data` is what reading the member, one byte past the limit at most, yields. */
  datatype Entry = Entry(
    filename: string,
    renamed: bool,        // orig_filename differs from filename
    fileType: FileType,
    encrypted: bool,
    supported: bool,      // stored or deflated
    size: nat,            // the declared size
    data: Bytes)

  datatype Refusal =
    | BadName | BadType | BadCompression | Reserved
    | TooManyEntries | Duplicate | DirectoryWithData | Native | Unsupported | TooLarge | SizeMismatch
    | NotUtf8 | NulByte | FileAndDirectory

  /** What the checks need to know of the Python installation. */
  datatype Python = Python(stdlib: set<string>, utf8: Bytes -> bool)

  predicate IsDir(e: Entry) {
    e.filename != "" && e.filename[|e.filename| - 1] == '/'
  }

  predicate NameChar(c: char) {
    'a' <= c <= 'z' || 'A' <= c <= 'Z' || '0' <= c <= '9' || c == '_' || c == '.' || c == '-'
  }

  predicate PartOk(p: string) {
    p != "" && p != "." && p != ".." && forall i | 0 <= i < |p| :: NameChar(p[i])
  }

  predicate AllParts(parts: seq<string>) {
    forall i | 0 <= i < |parts| :: PartOk(parts[i])
  }

  predicate MetadataDir(p: string) {
    EndsWith(Lower(p), ".dist-info") || EndsWith(Lower(p), ".egg-info")
  }

  /** The name an entry asks for, directories without their slash. */
  function Wanted(e: Entry): string {
    if IsDir(e) then RStrip(e.filename, '/') else e.filename
  }

  /** Names kept for the SDK, the standard library, distribution metadata and the build record. */
  predicate IsReserved(parts: seq<string>, py: Python)
    requires parts != []
  {
    var top := Lower(Split(parts[0], '.')[0]);
    || top == "hawcx_haap"
    || top in py.stdlib
    || (exists i | 0 <= i < |parts| :: MetadataDir(parts[i]))
    || Lower(parts[0]) == BUILD_RECORD
  }

  /** _member_name */
  function MemberName(e: Entry, py: Python): Result<string, Refusal> {
    var name := Wanted(e);
    var parts := Split(name, '/');
    if e.renamed || name == "" || |name| > 240 || !AllParts(parts) then Err(BadName)
    else if !(e.fileType.Unset? || e.fileType == if IsDir(e) then Directory else Regular) then Err(BadType)
    else if e.encrypted || !e.supported then Err(BadCompression)
    else if IsReserved(parts, py) then Err(Reserved)
    else Ok(name)
  }

  /** The index of the last dot, or -1. */
  function LastDot(s: string): (r: int)
    ensures -1 <= r < |s|
  {
    if s == "" then -1
    else if s[|s| - 1] == '.' then |s| - 1
    else LastDot(s[..|s| - 1])
  }

  /** Path(name).suffix */
  function Suffix(name: string): string {
    var parts := Split(name, '/');
    var last := parts[|parts| - 1];
    var i := LastDot(last);
    if 0 < i < |last| - 1 then last[i..] else ""
  }

  predicate IsNative(suffix: string) {
    suffix in {".so", ".pyd", ".dylib", ".pyc", ".pyo"}
  }

  predicate IsText(suffix: string) {
    suffix in {"", ".py", ".txt", ".md", ".json", ".toml", ".yaml", ".yml", ".csv", ".ini", ".cfg"}
  }

  /** The case-folded name, under which two entries may not meet. */
  function Key(e: Entry): string {
    Lower(Wanted(e))
  }

  function Weight(e: Entry): nat {
    if IsDir(e) then 0 else e.size
  }

  /** What is refused of a file's own content, before and after the running total is checked. */
  function EarlyRefusal(e: Entry): Option<Refusal> {
    if IsDir(e) then (if e.size > 0 then Some(DirectoryWithData) else None)
    else if IsNative(Lower(Suffix(Wanted(e)))) then Some(Native)
    else if !IsText(Lower(Suffix(Wanted(e)))) then Some(Unsupported)
    else None
  }

  function LateRefusal(e: Entry, py: Python): Option<Refusal> {
    if IsDir(e) then None
    else if |e.data| != e.size || |e.data| > MAX_MEMBER_BYTES then Some(SizeMismatch)
    else if !py.utf8(e.data) then Some(NotUtf8)
    else if 0 in e.data then Some(NulByte)
    else None
  }

  // ---- what acceptance means ------------------------------------------------------

  /** An entry that nothing but its neighbours could still get refused. */
  predicate EntryOk(e: Entry, py: Python) {
    && MemberName(e, py).Ok?
    && EarlyRefusal(e).None? && Weight(e) <= MAX_MEMBER_BYTES && LateRefusal(e, py).None?
  }

  function Total(es: seq<Entry>): nat {
    if es == [] then 0 else Total(es[..|es| - 1]) + Weight(es[|es| - 1])
  }

  predicate KeysDistinct(es: seq<Entry>) {
    forall i, j | 0 <= i < j < |es| :: Key(es[i]) != Key(es[j])
  }

  function Folded(e: Entry): seq<string> {
    Split(Key(e), '/')
  }

  /** Some entry lies under a file entry, up to case. */
  predicate Conflict(es: seq<Entry>) {
    exists i, j | 0 <= i < |es| && 0 <= j < |es| :: !IsDir(es[j]) && Above(Folded(es[j]), Folded(es[i]))
  }

  predicate EntriesOk(es: seq<Entry>, py: Python) {
    forall i | 0 <= i < |es| :: EntryOk(es[i], py)
  }

  predicate Admitted(es: seq<Entry>, py: Python) {
    EntriesOk(es, py) && KeysDistinct(es) && Total(es) <= MAX_SOURCE_BYTES
  }

  predicate Acceptable(es: seq<Entry>, py: Python) {
    && |es| <= MAX_ENTRIES
    && Admitted(es, py)
    && !Conflict(es)
  }

  /** The files of a list of entries by name. */
  function Sources(es: seq<Entry>): map<string, Bytes> {
    if es == [] then map[]
    else
      var e := es[|es| - 1];
      var front := Sources(es[..|es| - 1]);
      if IsDir(e) then front else front[Wanted(e) := e.data]
  }

  /** The folded names seen so far, and whether each is a directory. */
  function Seen(es: seq<Entry>): map<string, bool> {
    if es == [] then map[] else Seen(es[..|es| - 1])[Key(es[|es| - 1]) := IsDir(es[|es| - 1])]
  }

  predicate HasKey(es: seq<Entry>, k: string) {
    exists i | 0 <= i < |es| :: Key(es[i]) == k
  }

  lemma HasKeySnoc(front: seq<Entry>, e: Entry, k: string)
    ensures HasKey(front + [e], k) <==> HasKey(front, k) || Key(e) == k
  {
    var es := front + [e];
    if HasKey(front, k) {
      var i :| 0 <= i < |front| && Key(front[i]) == k;
      assert Key(es[i]) == k;
    }
    if Key(e) == k {
      assert Key(es[|front|]) == k;
    }
  }

  lemma {:induction false} SeenKeys(es: seq<Entry>, k: string)
    ensures k in Seen(es) <==> HasKey(es, k)
  {
    if es != [] {
      SeenKeys(es[..|es| - 1], k);
      HasKeySnoc(es[..|es| - 1], es[|es| - 1], k);
      assert es == es[..|es| - 1] + [es[|es| - 1]];
    }
  }

  lemma DistinctFront(es: seq<Entry>)
    requires KeysDistinct(es) && es != []
    ensures KeysDistinct(es[..|es| - 1])
    ensures forall i | 0 <= i < |es| - 1 :: Key(es[i]) != Key(es[|es| - 1])
  {
  }

  lemma {:induction false} SeenKinds(es: seq<Entry>, i: nat)
    requires KeysDistinct(es) && i < |es|
    ensures Key(es[i]) in Seen(es) && Seen(es)[Key(es[i])] == IsDir(es[i])
  {
    var front := es[..|es| - 1];
    if i < |front| {
      DistinctFront(es);
      SeenKinds(front, i);
    }
  }

  lemma {:induction false} TotalFront(es: seq<Entry>, n: nat)
    requires n <= |es|
    ensures Total(es[..n]) <= Total(es)
  {
    if n < |es| {
      TotalFront(es[..|es| - 1], n);
      assert es[..|es| - 1][..n] == es[..n];
    } else {
      assert es[..n] == es;
    }
  }

  // ---- the loops of _read_sources -------------------------------------------------

  /** The first i parts of the name are together the name of a file that was seen. */
  predicate FileAt(seen: map<string, bool>, name: string, i: int) {
    && 1 <= i < |Split(name, '/')|
    && var above := Join(Split(name, '/')[..i], '/');
       above in seen && !seen[above]
  }

  ghost predicate Blocked(seen: map<string, bool>, name: string) {
    exists i :: FileAt(seen, name, i)
  }

  /** The inner any(...): whether seen holds a file above the name. */
  method FileAbove(seen: map<string, bool>, name: string) returns (found: bool)
    ensures found <==> Blocked(seen, name)
  {
    var parts := Split(name, '/');
    for i := 1 to |parts|
      invariant forall k | k < i :: !FileAt(seen, name, k)
    {
      var above := Join(parts[..i], '/');
      if above in seen && !seen[above] {
        assert FileAt(seen, name, i);
        return true;
      }
    }
    found := false;
  }

  /** A file found above an entry is an entry of which the other lies underneath. */
  lemma FileAtIsConflict(es: seq<Entry>, n: nat, i: int)
    requires KeysDistinct(es) && n < |es| && FileAt(Seen(es), Key(es[n]), i)
    ensures Conflict(es)
  {
    var above := Folded(es[n])[..i];
    SeenKeys(es, Join(above, '/'));
    var j :| 0 <= j < |es| && Key(es[j]) == Join(above, '/');
    SeenKinds(es, j);
    assert forall p | p in above :: p in Folded(es[n]);
    SplitOfJoin(above, '/');
    assert Above(Folded(es[j]), Folded(es[n]));
  }

  lemma ConflictIsFileAt(es: seq<Entry>) returns (n: nat, i: int)
    requires KeysDistinct(es) && Conflict(es)
    ensures n < |es| && FileAt(Seen(es), Key(es[n]), i)
  {
    var m, j :| 0 <= m < |es| && 0 <= j < |es| && !IsDir(es[j]) && Above(Folded(es[j]), Folded(es[m]));
    n, i := m, |Folded(es[j])|;
    SeenKinds(es, j);
    JoinOfSplit(Key(es[j]), '/');
    assert Folded(es[n])[..i] == Folded(es[j]);
  }

  /** The prefix lookup blocks an entry exactly when some entry lies under a file entry. */
  lemma BlockedIsConflict(es: seq<Entry>)
    requires KeysDistinct(es)
    ensures Conflict(es) <==> exists n | 0 <= n < |es| :: Blocked(Seen(es), Key(es[n]))
  {
    if Conflict(es) {
      var n, i := ConflictIsFileAt(es);
      assert Blocked(Seen(es), Key(es[n]));
    }
    forall n | 0 <= n < |es| && Blocked(Seen(es), Key(es[n]))
      ensures Conflict(es)
    {
      var i :| FileAt(Seen(es), Key(es[n]), i);
      FileAtIsConflict(es, n, i);
    }
  }

  /** The checks the loop makes of one entry, in its order; `dup` when its folded name was seen. */
  method CheckEntry(e: Entry, py: Python, dup: bool, expanded: nat) returns (r: Option<Refusal>)
    requires expanded <= MAX_SOURCE_BYTES
    ensures r.None? <==> EntryOk(e, py) && !dup && expanded + Weight(e) <= MAX_SOURCE_BYTES
  {
    var name := MemberName(e, py);
    if name.Err? {
      return Some(name.error);
    }
    if dup {
      return Some(Duplicate);
    }
    var early := EarlyRefusal(e);
    if early.Some? {
      return early;
    }
    if IsDir(e) {
      return None;
    }
    if e.size > MAX_MEMBER_BYTES || expanded + e.size > MAX_SOURCE_BYTES {
      return Some(TooLarge);
    }
    r := LateRefusal(e, py);
  }

  /** The entry loop: what was read, and the folded names seen. */
  method ReadEntries(es: seq<Entry>, py: Python) returns (r: Result<(map<string, Bytes>, map<string, bool>), Refusal>)
    ensures r.Ok? <==> Admitted(es, py)
    ensures r.Ok? ==> r.value == (Sources(es), Seen(es))
  {
    var sources: map<string, Bytes> := map[];
    var seen: map<string, bool> := map[];
    var expanded := 0;
    assert es[..0] == [];
    for k := 0 to |es|
      invariant Admitted(es[..k], py) && expanded == Total(es[..k])
      invariant sources == Sources(es[..k]) && seen == Seen(es[..k])
    {
      var e := es[k];
      var name, key := Wanted(e), Key(e);
      OneMore(es, k, py);
      var refusal := CheckEntry(e, py, key in seen, expanded);
      if refusal.Some? {
        return Err(refusal.value);
      }
      seen := seen[key := IsDir(e)];
      if !IsDir(e) {
        expanded := expanded + e.size;
        sources := sources[name := e.data];
      }
    }
    assert es[..|es|] == es;
    r := Ok((sources, seen));
  }

  /** The second loop, over the names seen. */
  method AnyBlocked(es: seq<Entry>, seen: map<string, bool>) returns (found: bool)
    ensures found <==> exists n | 0 <= n < |es| :: Blocked(seen, Key(es[n]))
  {
    for n := 0 to |es|
      invariant forall m | 0 <= m < n :: !Blocked(seen, Key(es[m]))
    {
      found := FileAbove(seen, Key(es[n]));
      if found {
        return;
      }
    }
    found := false;
  }

  /** _read_sources, from the entry list on. */
  method ReadSources(es: seq<Entry>, py: Python) returns (r: Result<map<string, Bytes>, Refusal>)
    ensures r.Ok? <==> Acceptable(es, py)
    ensures r.Ok? ==> r.value == Sources(es)
  {
    if |es| > MAX_ENTRIES {
      return Err(TooManyEntries);
    }
    var entries := ReadEntries(es, py);
    if entries.Err? {
      return Err(entries.error);
    }
    var (sources, seen) := entries.value;
    BlockedIsConflict(es);
    var blocked := AnyBlocked(es, seen);
    r := if blocked then Err(FileAndDirectory) else Ok(sources);
  }

  /** What the next entry needs, and that a list with a refused beginning is refused. */
  lemma OneMore(es: seq<Entry>, k: nat, py: Python)
    requires k < |es| && Admitted(es[..k], py)
    ensures es[..k + 1][..k] == es[..k] && es[..k + 1][k] == es[k]
    ensures Total(es[..k + 1]) == Total(es[..k]) + Weight(es[k])
    ensures Admitted(es[..k + 1], py) <==>
              EntryOk(es[k], py) && Key(es[k]) !in Seen(es[..k]) && Total(es[..k]) + Weight(es[k]) <= MAX_SOURCE_BYTES
    ensures Admitted(es, py) ==> Admitted(es[..k + 1], py)
  {
    TakeMore(es, k);
    SeenKeys(es[..k], Key(es[k]));
    KeysSnoc(es[..k], es[k]);
    OkSnoc(es[..k], es[k], py);
    if Admitted(es, py) {
      AdmittedFront(es, k + 1, py);
    }
  }

  lemma AdmittedFront(es: seq<Entry>, n: nat, py: Python)
    requires n <= |es| && Admitted(es, py)
    ensures Admitted(es[..n], py)
  {
    TotalFront(es, n);
    assert forall i | 0 <= i < n :: es[..n][i] == es[i];
  }

  lemma OkSnoc(front: seq<Entry>, e: Entry, py: Python)
    ensures EntriesOk(front + [e], py) <==> EntriesOk(front, py) && EntryOk(e, py)
  {
    var es := front + [e];
    assert es[|front|] == e;
    assert forall i | 0 <= i < |front| :: es[i] == front[i];
  }

  lemma KeysSnoc(front: seq<Entry>, e: Entry)
    requires KeysDistinct(front)
    ensures KeysDistinct(front + [e]) <==> !HasKey(front, Key(e))
  {
    var es := front + [e];
    forall i | 0 <= i < |front|
      ensures Key(es[i]) == Key(front[i])
    {
      assert es[i] == front[i];
    }
    assert Key(es[|front|]) == Key(e);
  }
}
