/** The RECORD rows that pip writes, and which of them go with the files they hash. */
module RecordRows {
  import opened Lists
  import opened Text
  import opened Trees
  import opened Paths
  import opened Launchers

  // ---- the rows -----------------------------------------------------------------------

  /** csv.writer quotes a field that holds its delimiter, its quote or a line end. */
  predicate NeedsQuotes(field: string) {
    exists i | 0 <= i < |field| :: field[i] in {',', '"', '\r', '\n'}
  }

  /** Inside quotes a quote is written twice. */
  function Doubled(s: string): string {
    if s == "" then "" else (if s[0] == '"' then ['"', '"'] else [s[0]]) + Doubled(s[1..])
  }

  function CsvField(s: string): string {
    if NeedsQuotes(s) then ['"'] + (Doubled(s) + ['"']) else s
  }

  /** The row of a staged path: climbing out of the .dist-info's parent, then its hash and its size. */
  function RowOf(k: nat, path: Path, rest: string): string {
    CsvField(Join(Ups(k) + path, '/')) + [','] + rest
  }

  /** A name a file can have. */
  predicate StagedPart(p: string) {
    p != "" && p != "." && p != UP && '/' !in p
  }

  predicate StagedPath(path: Path) {
    path != [] && forall i | 0 <= i < |path| :: StagedPart(path[i])
  }

  predicate AllStaged(paths: seq<Path>) {
    forall i | 0 <= i < |paths| :: StagedPath(paths[i])
  }

  predicate Holds(path: Path, c: char) {
    exists i | 0 <= i < |path| :: c in path[i]
  }

  /** No part has a character at which a text is cut into lines. */
  predicate Unbroken(path: Path) {
    forall i | 0 <= i < |path| :: NoBreaks(path[i])
  }

  /** None of the characters that change on the way through RECORD. */
  predicate Clean(path: Path) {
    !Holds(path, ',') && !Holds(path, '"') && !Holds(path, '\\') && Unbroken(path)
  }

  // ---- a row is a line, or several --------------------------------------------------------

  /** What is read of a row, cut into lines. csv.writer ends rows in a carriage return and a line feed. */
  function RowLines(k: nat, path: Path, rest: string): seq<string> {
    Lines(Universal(RowOf(k, path, rest) + "\r\n"))
  }

  lemma RowText(k: nat, path: Path, rest: string)
    requires NoBreaks(rest)
    ensures Universal(RowOf(k, path, rest) + "\r\n") ==
              Universal(CsvField(Join(Ups(k) + path, '/'))) + (([','] + rest) + ['\n'])
  {
    var field, tail := CsvField(Join(Ups(k) + path, '/')), [','] + rest;
    assert RowOf(k, path, rest) + "\r\n" == field + (tail + "\r\n");
    UniversalAppend(field, tail + "\r\n");
    UniversalAppend(tail, "\r\n");
    UniversalPlain(tail);
    LineEnd("\r\n");
  }

  lemma LineEnd(end: string)
    requires end == "\r\n"
    ensures Universal(end) == ['\n']
  {
    assert end[1..] == "\n" && end[1..][1..] == "";
    assert Universal(end[1..]) == ['\n'] + Universal(end[1..][1..]);
  }

  lemma {:induction false} DoubledUnbroken(s: string)
    requires NoBreaks(s)
    ensures NoBreaks(Doubled(s))
  {
    if s != "" {
      DoubledUnbroken(s[1..]);
    }
  }

  lemma FieldUnbroken(k: nat, path: Path)
    requires Unbroken(path)
    ensures NoBreaks(CsvField(Join(Ups(k) + path, '/')))
  {
    var s := Join(Ups(k) + path, '/');
    forall i | 0 <= i < |s|
      ensures !IsBreak(s[i])
    {
      if IsBreak(s[i]) {
        UpsJoinWithout(k, path, s[i]);
      }
    }
    DoubledUnbroken(s);
  }

  /** The row of an unbroken path is one line. */
  lemma RowIsLine(k: nat, path: Path, rest: string)
    requires Unbroken(path) && NoBreaks(rest)
    ensures RowLines(k, path, rest) == [RowOf(k, path, rest + ['\n'])]
  {
    var field, tail := CsvField(Join(Ups(k) + path, '/')), [','] + rest;
    RowText(k, path, rest);
    FieldUnbroken(k, path);
    UniversalPlain(field);
    NoBreaksJoin(field, tail);
    LinesOne(field + tail, '\n');
    EndOfRow(field, rest);
  }

  lemma EndOfRow(field: string, rest: string)
    ensures field + (([','] + rest) + ['\n']) == (field + ([','] + rest)) + ['\n'] == field + [','] + (rest + ['\n'])
  {
  }

  lemma NoBreaksJoin(a: string, b: string)
    ensures NoBreaks(a + b) <==> NoBreaks(a) && NoBreaks(b)
  {
    assert forall i | 0 <= i < |a| :: (a + b)[i] == a[i];
    assert forall i | 0 <= i < |b| :: (a + b)[|a| + i] == b[i];
  }

  /** A break before the comma of an unbroken line is not in its target. */
  lemma LastTarget(u: string, rest: string, c: char)
    requires NoBreaks(u) && IsBreak(c)
    ensures c !in LineTarget(u + (([','] + rest) + ['\n']))
  {
    var line := u + (([','] + rest) + ['\n']);
    EndOfRow(u, rest);
    SplitHead(u, rest + ['\n'], ',');
    var head := Split(line, ',')[0];
    forall m | 0 <= m < |head|
      ensures Slashed(head)[m] != c
    {
      assert head[m] == u[m];
    }
    TargetWithout(line, c);
  }

  /** What follows the last break of a path points elsewhere. */
  lemma BrokenMisses(k: nat, path: Path, rest: string)
    requires path != [] && !Unbroken(path) && NoBreaks(rest)
    ensures var r := RowLines(k, path, rest); r != [] && LineTarget(r[|r| - 1]) != Rel(path)
  {
    var i :| 0 <= i < |path| && !NoBreaks(path[i]);
    var j :| 0 <= j < |path[i]| && IsBreak(path[i][j]);
    var c := path[i][j];
    var field, tail := Universal(CsvField(Join(Ups(k) + path, '/'))), [','] + rest;
    RowText(k, path, rest);
    LastLine(field, tail);
    var r := RowLines(k, path, rest);
    var u :| NoBreaks(u) && r[|r| - 1] == u + (tail + ['\n']);
    LastTarget(u, rest, c);
    HoldsInRel(path, c);
  }

  // ---- a row points at its own file exactly if the name is clean ------------------------

  lemma {:induction false} JoinHas(parts: seq<string>, i: nat, c: char)
    requires i < |parts| && c in parts[i]
    ensures c in Join(parts, '/')
  {
    if |parts| > 1 && i > 0 {
      JoinHas(parts[1..], i - 1, c);
    }
  }

  lemma HoldsInRel(path: Path, c: char)
    requires path != [] && Holds(path, c)
    ensures c in Rel(path)
  {
    var i :| 0 <= i < |path| && c in path[i];
    JoinHas(path, i, c);
  }

  lemma UpsJoinWithout(k: nat, path: Path, c: char)
    requires !Holds(path, c) && c != '.' && c != '/'
    ensures c !in Join(Ups(k) + path, '/')
  {
    JoinWithout(Ups(k) + path, '/', c);
  }

  lemma {:induction false} DoubledWithout(s: string, c: char)
    requires c !in s && c != '"'
    ensures c !in Doubled(s)
  {
    if s != "" {
      DoubledWithout(s[1..], c);
    }
  }

  lemma {:induction false} DoubledLonger(s: string)
    ensures |Doubled(s)| >= |s|
  {
    if s != "" {
      DoubledLonger(s[1..]);
    }
  }

  lemma {:induction false} DoubledPlain(s: string)
    requires '"' !in s
    ensures Doubled(s) == s
  {
    if s != "" {
      DoubledPlain(s[1..]);
    }
  }

  lemma {:induction false} DoubledAppend(a: string, b: string)
    ensures Doubled(a + b) == Doubled(a) + Doubled(b)
  {
    if a == "" {
      assert a + b == b;
    } else {
      DoubledAppend(a[1..], b);
      TailOfJoin(a, b);
      Assoc(if a[0] == '"' then ['"', '"'] else [a[0]], Doubled(a[1..]), Doubled(b));
    }
  }

  function DoubledParts(parts: seq<string>): (r: seq<string>)
    ensures |r| == |parts|
    ensures forall i | 0 <= i < |r| :: r[i] == Doubled(parts[i])
  {
    seq(|parts|, i requires 0 <= i < |parts| => Doubled(parts[i]))
  }

  lemma {:induction false} DoubledJoin(parts: seq<string>)
    ensures Doubled(Join(parts, '/')) == Join(DoubledParts(parts), '/')
  {
    if |parts| > 1 {
      DoubledJoin(parts[1..]);
      var rest := Join(parts[1..], '/');
      DoubledAppend(parts[0] + ['/'], rest);
      DoubledAppend(parts[0], ['/']);
      assert Doubled(['/']) == ['/'] by {
        assert ['/'][1..] == "";
      }
      assert DoubledParts(parts)[1..] == DoubledParts(parts[1..]);
    }
  }

  /** A field with none of these characters is not quoted, and has none of them. */
  lemma FieldOf(k: nat, path: Path)
    requires forall c | c in {',', '"', '\r', '\n'} :: !Holds(path, c)
    ensures CsvField(Join(Ups(k) + path, '/')) == Join(Ups(k) + path, '/')
    ensures forall c | c in {',', '"', '\r', '\n'} :: c !in Join(Ups(k) + path, '/')
  {
    UpsJoinWithout(k, path, ',');
    UpsJoinWithout(k, path, '"');
    UpsJoinWithout(k, path, '\r');
    UpsJoinWithout(k, path, '\n');
  }

  lemma CleanRowTarget(k: nat, path: Path, rest: string)
    requires StagedPath(path) && Clean(path)
    ensures LineTarget(RowOf(k, path, rest)) == Rel(path)
  {
    var s := Join(Ups(k) + path, '/');
    FieldOf(k, path);
    SplitFirst(s, rest, ',');
    UpsJoinWithout(k, path, '\\');
    ScriptRowTarget(s, k, path);
  }

  function Chars(s: string): set<char> {
    (set i | 0 <= i < |s| :: s[i]) + {'.', '/'}
  }

  /** What is not in the piece before the first comma, slashes turned, is not in the target. */
  lemma TargetWithout(line: string, c: char)
    requires c !in Slashed(Split(line, ',')[0]) && c != '.' && c != '/'
    ensures c !in LineTarget(line)
  {
    var row := Split(line, ',')[0];
    var allowed := Chars(Slashed(row));
    assert Over(Slashed(row), allowed);
    TargetOver(row, allowed);
    assert c !in allowed;
  }

  lemma BackslashMisses(k: nat, path: Path, rest: string)
    requires path != [] && Holds(path, '\\')
    ensures LineTarget(RowOf(k, path, rest)) != Rel(path)
  {
    TargetWithout(RowOf(k, path, rest), '\\');
    HoldsInRel(path, '\\');
  }

  lemma CommaMisses(k: nat, path: Path, rest: string)
    requires path != [] && Holds(path, ',')
    ensures LineTarget(RowOf(k, path, rest)) != Rel(path)
  {
    var piece := Split(RowOf(k, path, rest), ',')[0];
    assert ',' !in piece;
    forall i | 0 <= i < |piece|
      ensures Slashed(piece)[i] != ','
    {
    }
    TargetWithout(RowOf(k, path, rest), ',');
    HoldsInRel(path, ',');
  }

  /** The components of a quoted field: quotes doubled, and one more at either end. */
  function QuotedParts(parts: seq<string>): (r: seq<string>)
    requires parts != []
    ensures |r| == |parts|
  {
    var d := DoubledParts(parts);
    var front := d[0 := ['"'] + d[0]];
    front[|d| - 1 := front[|d| - 1] + ['"']]
  }

  lemma {:induction false} JoinAppend(parts: seq<string>, c: char)
    requires parts != []
    ensures Join(parts[|parts| - 1 := parts[|parts| - 1] + [c]], '/') == Join(parts, '/') + [c]
  {
    var p := parts[|parts| - 1 := parts[|parts| - 1] + [c]];
    if |parts| > 1 {
      JoinAppend(parts[1..], c);
      assert p[1..] == parts[1..][|parts| - 2 := parts[|parts| - 1] + [c]];
    }
  }

  lemma JoinPrepend(parts: seq<string>, c: char)
    requires parts != []
    ensures Join(parts[0 := [c] + parts[0]], '/') == [c] + Join(parts, '/')
  {
    assert parts[0 := [c] + parts[0]][1..] == parts[1..];
    if |parts| > 1 {
      assert [c] + parts[0] + ['/'] + Join(parts[1..], '/') == [c] + (parts[0] + ['/'] + Join(parts[1..], '/'));
    }
  }

  lemma QuotedIsJoin(parts: seq<string>)
    requires parts != []
    ensures ['"'] + (Doubled(Join(parts, '/')) + ['"']) == Join(QuotedParts(parts), '/')
  {
    var d := DoubledParts(parts);
    DoubledJoin(parts);
    JoinPrepend(d, '"');
    JoinAppend(d[0 := ['"'] + d[0]], '"');
  }

  lemma QuotedPartsOk(parts: seq<string>)
    requires parts != [] && forall i | 0 <= i < |parts| :: '/' !in parts[i] && '\\' !in parts[i]
    ensures var r := QuotedParts(parts);
      && (forall i | 0 <= i < |r| :: '/' !in r[i] && '\\' !in r[i])
      && r[0] != "" && PlainPart(r[|r| - 1]) && |r[|r| - 1]| > |parts[|parts| - 1]|
  {
    forall i | 0 <= i < |parts|
      ensures '/' !in Doubled(parts[i]) && '\\' !in Doubled(parts[i]) && |Doubled(parts[i])| >= |parts[i]|
    {
      DoubledWithout(parts[i], '/');
      DoubledWithout(parts[i], '\\');
      DoubledLonger(parts[i]);
    }
    var last := QuotedParts(parts)[|parts| - 1];
    assert last[|last| - 1] == '"';
  }

  /** Nothing longer than the last part, and without a slash, can end a joined path. */
  lemma NoLongerEnd(path: Path, end: string)
    requires path != [] && '/' !in end && |end| > |path[|path| - 1]|
    ensures !EndsWith(Rel(path), end)
  {
    var last, s := path[|path| - 1], Rel(path);
    JoinEnds(path, '/');
    if |path| == 1 {
      assert s == last;
    } else {
      SlashBeforeLast(path);
      var k: nat := |end| - |last| - 1;
      if EndsWith(s, end) {
        EndAt(s, end, k);
      }
    }
  }

  lemma EndAt(s: string, end: string, k: nat)
    requires EndsWith(s, end) && k < |end|
    ensures s[|s| - |end| + k] == end[k]
  {
  }

  lemma {:induction false} SlashBeforeLast(path: Path)
    requires |path| >= 2
    ensures |path[|path| - 1]| < |Rel(path)| && Rel(path)[|Rel(path)| - |path[|path| - 1]| - 1] == '/'
  {
    var whole, rest := Rel(path), Join(path[1..], '/');
    assert whole == path[0] + ['/'] + rest;
    assert whole[|whole| - |rest|..] == rest && whole[|whole| - |rest| - 1] == '/';
    if |path| > 2 {
      SlashBeforeLast(path[1..]);
    } else {
      assert path[1..] == [path[1]];
    }
  }

  lemma QuotedField(k: nat, path: Path)
    requires StagedPath(path) && Holds(path, '"') && !Holds(path, ',')
    ensures CsvField(Join(Ups(k) + path, '/')) == Join(QuotedParts(Ups(k) + path), '/')
    ensures ',' !in CsvField(Join(Ups(k) + path, '/'))
  {
    var parts := Ups(k) + path;
    var s := Join(parts, '/');
    var i :| 0 <= i < |path| && '"' in path[i];
    assert parts[k + i] == path[i];
    JoinHas(parts, k + i, '"');
    assert NeedsQuotes(s);
    QuotedIsJoin(parts);
    UpsJoinWithout(k, path, ',');
    DoubledWithout(s, ',');
  }

  lemma QuotedTarget(k: nat, path: Path, rest: string)
    requires StagedPath(path) && Holds(path, '"') && !Holds(path, ',')
    ensures LineTarget(RowOf(k, path, rest)) == Target(Join(QuotedParts(Ups(k) + path), '/'))
  {
    QuotedField(k, path);
    SplitFirst(CsvField(Join(Ups(k) + path, '/')), rest, ',');
  }

  lemma QuotedEnds(parts: seq<string>, last: string)
    requires parts != [] && last == parts[|parts| - 1]
    requires forall i | 0 <= i < |parts| :: '/' !in parts[i] && '\\' !in parts[i]
    ensures var end := QuotedParts(parts)[|parts| - 1];
      '/' !in end && |end| > |last| && EndsWith(Target(Join(QuotedParts(parts), '/')), end)
  {
    QuotedPartsOk(parts);
    TargetEnds(QuotedParts(parts));
  }

  lemma QuoteMisses(k: nat, path: Path, rest: string)
    requires StagedPath(path) && Holds(path, '"') && !Holds(path, ',') && !Holds(path, '\\')
    ensures LineTarget(RowOf(k, path, rest)) != Rel(path)
  {
    var parts := Ups(k) + path;
    QuotedTarget(k, path, rest);
    UpsPartsWithout(k, path);
    QuotedEnds(parts, path[|path| - 1]);
    NoLongerEnd(path, QuotedParts(parts)[|parts| - 1]);
  }

  lemma UpsPartsWithout(k: nat, path: Path)
    requires StagedPath(path) && !Holds(path, '\\')
    ensures forall j | 0 <= j < k + |path| :: '/' !in (Ups(k) + path)[j] && '\\' !in (Ups(k) + path)[j]
  {
  }

  lemma LineOwnIff(k: nat, path: Path, rest: string)
    requires StagedPath(path) && Unbroken(path)
    ensures LineTarget(RowOf(k, path, rest)) == Rel(path) <==> Clean(path)
  {
    if Clean(path) {
      CleanRowTarget(k, path, rest);
    } else if Holds(path, '\\') {
      BackslashMisses(k, path, rest);
    } else if Holds(path, ',') {
      CommaMisses(k, path, rest);
    } else {
      QuoteMisses(k, path, rest);
    }
  }

  /** A row, down to its last line, points at the file it hashes exactly if the path is clean. */
  lemma OwnRowIff(k: nat, path: Path, rest: string)
    requires StagedPath(path) && NoBreaks(rest)
    ensures var r := RowLines(k, path, rest); r != [] && (LineTarget(r[|r| - 1]) == Rel(path) <==> Clean(path))
    ensures Clean(path) ==> |RowLines(k, path, rest)| == 1
  {
    if Unbroken(path) {
      RowIsLine(k, path, rest);
      LineOwnIff(k, path, rest + ['\n']);
    } else {
      BrokenMisses(k, path, rest);
    }
  }

  lemma RelInjective(a: Path, b: Path)
    requires StagedPath(a) && StagedPath(b) && Rel(a) == Rel(b)
    ensures a == b
  {
    JoinInjective(a, b);
  }

  /** Nothing of a row is left in RECORD. */
  predicate Goes(lines: seq<string>, removed: seq<Path>) {
    KeptLines(lines, Gone(removed)) == []
  }

  /** Some removed file, another than path if asked for, has the name that the line points at. */
  ghost predicate Hits(line: string, removed: seq<Path>, path: Path, another: bool) {
    exists i | 0 <= i < |removed| :: Rel(removed[i]) == LineTarget(line) && (another ==> removed[i] != path)
  }

  /** Every line of a row points at some removed file, and the last at another than its own. */
  ghost predicate HitsOthers(lines: seq<string>, removed: seq<Path>, path: Path) {
    forall i | 0 <= i < |lines| :: Hits(lines[i], removed, path, i == |lines| - 1)
  }

  lemma {:induction false} GoesIff(lines: seq<string>, removed: seq<Path>)
    ensures Goes(lines, removed) <==> forall i | 0 <= i < |lines| :: LineTarget(lines[i]) in Gone(removed)
  {
    if lines != [] {
      var front, last := lines[..|lines| - 1], lines[|lines| - 1];
      GoesIff(front, removed);
      assert Goes(lines, removed) <==> Goes(front, removed) && LineTarget(last) in Gone(removed);
      forall i | 0 <= i < |front|
        ensures front[i] == lines[i]
      {
      }
    }
  }

  lemma GoneIff(line: string, removed: seq<Path>, path: Path)
    ensures LineTarget(line) in Gone(removed) <==> Hits(line, removed, path, false)
    ensures Rel(path) != LineTarget(line) ==> (Hits(line, removed, path, false) <==> Hits(line, removed, path, true))
  {
    if Rel(path) != LineTarget(line) && Hits(line, removed, path, false) {
      var i :| 0 <= i < |removed| && Rel(removed[i]) == LineTarget(line);
      assert removed[i] != path;
    }
  }

  /**
   * Which rows go: that of a clean path exactly if its file was removed; that of any other path
   * exactly if files with other names were, whether or not its own was.
   */
  lemma RowGoesExactly(k: nat, path: Path, rest: string, removed: seq<Path>)
    requires StagedPath(path) && NoBreaks(rest) && AllStaged(removed)
    ensures Goes(RowLines(k, path, rest), removed) <==>
              if Clean(path) then path in removed else HitsOthers(RowLines(k, path, rest), removed, path)
  {
    var lines := RowLines(k, path, rest);
    OwnRowIff(k, path, rest);
    GoesIff(lines, removed);
    forall i | 0 <= i < |lines|
      ensures LineTarget(lines[i]) in Gone(removed) <==> Hits(lines[i], removed, path, false)
      ensures !Clean(path) && i == |lines| - 1 ==> (Hits(lines[i], removed, path, false) <==> Hits(lines[i], removed, path, true))
    {
      GoneIff(lines[i], removed, path);
    }
    if Clean(path) {
      OwnInGone(path, removed);
    }
  }

  lemma OwnInGone(path: Path, removed: seq<Path>)
    requires StagedPath(path) && AllStaged(removed)
    ensures Rel(path) in Gone(removed) <==> path in removed
  {
    if Rel(path) in Gone(removed) {
      var i :| 0 <= i < |removed| && Rel(removed[i]) == Rel(path);
      RelInjective(removed[i], path);
    }
    if path in removed {
      var i :| 0 <= i < |removed| && removed[i] == path;
    }
  }

  /** So the row of a removed file goes exactly if its path is clean or its lines hit other removed files. */
  lemma RowOfRemovedGoesIff(k: nat, path: Path, rest: string, removed: seq<Path>)
    requires StagedPath(path) && NoBreaks(rest) && AllStaged(removed) && path in removed
    ensures Goes(RowLines(k, path, rest), removed) <==> Clean(path) || HitsOthers(RowLines(k, path, rest), removed, path)
  {
    RowGoesExactly(k, path, rest, removed);
  }

  /** An unbroken row goes exactly if its one line points at a removed file. */
  lemma OneLineGoes(k: nat, path: Path, rest: string, removed: seq<Path>)
    requires Unbroken(path) && NoBreaks(rest)
    ensures Goes(RowLines(k, path, rest), removed) <==> LineTarget(RowOf(k, path, rest + ['\n'])) in Gone(removed)
  {
    RowIsLine(k, path, rest);
    GoesIff(RowLines(k, path, rest), removed);
  }

  // ---- a whole RECORD --------------------------------------------------------------------

  datatype Row = Row(k: nat, path: Path, rest: string)

  /** The RECORD that pip writes. */
  function RecordText(rows: seq<Row>): string {
    if rows == [] then ""
    else
      var row := rows[|rows| - 1];
      RecordText(rows[..|rows| - 1]) + (RowOf(row.k, row.path, row.rest) + "\r\n")
  }

  function RecordLines(rows: seq<Row>): seq<string> {
    Lines(Universal(RecordText(rows)))
  }

  /** The rows of the files that were not removed. */
  function Others(rows: seq<Row>, removed: seq<Path>): seq<Row> {
    if rows == [] then []
    else
      var front, row := Others(rows[..|rows| - 1], removed), rows[|rows| - 1];
      if row.path in removed then front else front + [row]
  }

  /** The lines of a RECORD are those of its rows, one row after the other. */
  lemma RecordMore(rows: seq<Row>, row: Row)
    ensures RecordLines(rows + [row]) == RecordLines(rows) + RowLines(row.k, row.path, row.rest)
  {
    var a, b := RecordText(rows), RowOf(row.k, row.path, row.rest) + "\r\n";
    assert (rows + [row])[..|rows|] == rows;
    RecordEnds(rows);
    UniversalAppend(a, b);
    LinesAppend(Universal(a), Universal(b));
  }

  lemma RecordEnds(rows: seq<Row>)
    ensures var a := RecordText(rows);
      a != "" ==> a[|a| - 1] == '\n' && Universal(a) != "" && Universal(a)[|Universal(a)| - 1] == '\n'
  {
    if rows != [] {
      var row := rows[|rows| - 1];
      var front := RecordText(rows[..|rows| - 1]) + RowOf(row.k, row.path, row.rest);
      assert RecordText(rows) == front + "\r\n";
      LineEnd("\r\n");
      UniversalAppend(front, "\r\n");
    }
  }

  predicate CleanRow(row: Row) {
    StagedPath(row.path) && Clean(row.path) && NoBreaks(row.rest)
  }

  predicate CleanRows(rows: seq<Row>) {
    forall i | 0 <= i < |rows| :: CleanRow(rows[i])
  }

  /** Where every path is clean, what is left of RECORD is what pip would have written without the removed files. */
  lemma {:induction false} RecordLeft(rows: seq<Row>, removed: seq<Path>)
    requires AllStaged(removed) && CleanRows(rows)
    ensures KeptLines(RecordLines(rows), Gone(removed)) == RecordLines(Others(rows, removed))
  {
    if rows != [] {
      var front, row := rows[..|rows| - 1], rows[|rows| - 1];
      RecordLeft(front, removed);
      LeftMore(front, row, removed);
      FrontAndLast(rows);
    }
  }

  /** Written back, it reads the same. */
  lemma RecordWritten(rows: seq<Row>, removed: seq<Path>)
    requires AllStaged(removed) && CleanRows(rows)
    ensures Flat(KeptLines(RecordLines(rows), Gone(removed))) == Universal(RecordText(Others(rows, removed)))
  {
    RecordLeft(rows, removed);
    FlatLines(Universal(RecordText(Others(rows, removed))));
  }

  lemma LeftMore(front: seq<Row>, row: Row, removed: seq<Path>)
    requires CleanRow(row) && AllStaged(removed)
    requires KeptLines(RecordLines(front), Gone(removed)) == RecordLines(Others(front, removed))
    ensures KeptLines(RecordLines(front + [row]), Gone(removed)) == RecordLines(Others(front + [row], removed))
  {
    assert (front + [row])[..|front|] == front;
    RecordMore(front, row);
    OneMoreRow(RecordLines(front), row, removed);
    RecordMore(Others(front, removed), row);
  }

  lemma OneMoreRow(lines: seq<string>, row: Row, removed: seq<Path>)
    requires CleanRow(row) && AllStaged(removed)
    ensures var more := RowLines(row.k, row.path, row.rest);
      KeptLines(lines + more, Gone(removed)) == KeptLines(lines, Gone(removed)) + if row.path in removed then [] else more
  {
    KeptJoin(lines, RowLines(row.k, row.path, row.rest), Gone(removed));
    CleanRowLeft(row, removed);
  }

  lemma CleanRowLeft(row: Row, removed: seq<Path>)
    requires CleanRow(row) && AllStaged(removed)
    ensures var lines := RowLines(row.k, row.path, row.rest);
      KeptLines(lines, Gone(removed)) == if row.path in removed then [] else lines
  {
    var lines := RowLines(row.k, row.path, row.rest);
    OwnRowIff(row.k, row.path, row.rest);
    OwnInGone(row.path, removed);
    assert lines[..0] == [];
    assert KeptLines(lines[..0], Gone(removed)) == [];
  }

  lemma OfTwo(a: string, b: string, c: char)
    ensures Unbroken([a, b]) <==> NoBreaks(a) && NoBreaks(b)
    ensures StagedPath([a, b]) <==> StagedPart(a) && StagedPart(b)
    ensures Holds([a, b], c) <==> c in a || c in b
  {
    assert [a, b][0] == a && [a, b][1] == b;
  }

  lemma OfThree(a: string, b: string, d: string, c: char)
    ensures Unbroken([a, b, d]) <==> NoBreaks(a) && NoBreaks(b) && NoBreaks(d)
    ensures StagedPath([a, b, d]) <==> StagedPart(a) && StagedPart(b) && StagedPart(d)
    ensures Holds([a, b, d], c) <==> c in a || c in b || c in d
  {
    assert [a, b, d][0] == a && [a, b, d][1] == b && [a, b, d][2] == d;
  }

  /** Parts without any of the characters that matter. */
  lemma ThreeParts(a: string, b: string, d: string)
    requires StagedPath([a, b, d]) && Clean([a, b, d])
    ensures PlainPart(a) && PlainPart(b) && PlainPart(d)
    ensures var name := b + "\\" + d;
      StagedPart(name) && Unbroken([a, name]) && forall c | c in {',', '"', '\r', '\n'} :: !Holds([a, name], c)
  {
    var name := b + "\\" + d;
    forall c | c in {',', '"', '\r', '\n', '\\'}
      ensures Holds([a, b, d], c) <==> c in a || c in b || c in d
      ensures Holds([a, name], c) <==> c in a || c in name
      ensures StagedPath([a, b, d]) <==> StagedPart(a) && StagedPart(b) && StagedPart(d)
    {
      OfThree(a, b, d, c);
      OfTwo(a, name, c);
    }
    assert name[|b|] == '\\';
    OfThree(a, b, d, '\\');
    OfTwo(a, name, '\\');
    NoBreaksJoin(b, "\\");
    NoBreaksJoin(b + "\\", d);
  }

  lemma TwoParts(a: string, b: string)
    requires StagedPath([a, b]) && Clean([a, b])
    ensures PlainPart(a) && PlainPart(b) && NoBreaks(a) && NoBreaks(b)
  {
    OfTwo(a, b, '\\');
  }

  /**
   * After the launchers are dropped, the RECORD of a distribution whose paths are all clean is the one
   * pip would have written without the removed files; no other file outside bin and Scripts changes.
   */
  lemma RecordAfterDrop(t: Stage, pre: set<Path>, removed: seq<Path>, dist: string, rows: seq<Row>)
    requires AllStaged(removed) && CleanRows(rows) && EndsWith(dist, ".dist-info")
    requires [dist, "RECORD"] in t && t[[dist, "RECORD"]] == File(RecordLines(rows))
    ensures var left := Rewritten(After(t, pre), Gone(removed));
      && [dist, "RECORD"] in left && left[[dist, "RECORD"]] == File(RecordLines(Others(rows, removed)))
      && forall p | p in t && (p == [] || (p[0] != "bin" && p[0] != "Scripts")) && !(|p| == 2 && p[1] == "RECORD") ::
           p in left && left[p] == t[p]
  {
    var record := [dist, "RECORD"];
    LauncherPlaces(t, record);
    assert dist[|dist| - 1] == 'o';
    RecordLeft(rows, removed);
    forall p | p in t && (p == [] || (p[0] != "bin" && p[0] != "Scripts"))
      ensures p in After(t, pre) && After(t, pre)[p] == t[p]
    {
      LauncherPlaces(t, p);
    }
  }

  // ---- what the other rows hit --------------------------------------------------------

  /** A backslash in a name is taken for a separator. */
  lemma BackslashHits(k: nat, dir: string, a: string, b: string, rest: string, removed: seq<Path>)
    requires StagedPath([dir, a, b]) && Clean([dir, a, b]) && NoBreaks(rest) && AllStaged(removed)
    ensures Goes(RowLines(k, [dir, a + "\\" + b], rest), removed) <==> [dir, a, b] in removed
  {
    BackslashTarget(k, dir, a, b, rest + ['\n']);
    ThreeParts(dir, a, b);
    OneLineGoes(k, [dir, a + "\\" + b], rest, removed);
    OwnInGone([dir, a, b], removed);
  }

  lemma BackslashTarget(k: nat, dir: string, a: string, b: string, rest: string)
    requires StagedPath([dir, a, b]) && Clean([dir, a, b])
    ensures LineTarget(RowOf(k, [dir, a + "\\" + b], rest)) == Rel([dir, a, b])
  {
    var path := [dir, a + "\\" + b];
    var s := Join(Ups(k) + path, '/');
    ThreeParts(dir, a, b);
    UpsJoinWithout(k, path, ',');
    UpsJoinWithout(k, path, '"');
    UpsJoinWithout(k, path, '\r');
    UpsJoinWithout(k, path, '\n');
    SplitFirst(s, rest, ',');
    SlashedBackslash(k, dir, a, b);
    ScriptRowTarget(s, k, [dir, a, b]);
  }

  lemma {:induction false} SlashedBackslash(k: nat, dir: string, a: string, b: string)
    requires Clean([dir, a, b])
    ensures Slashed(Join(Ups(k) + [dir, a + "\\" + b], '/')) == Join(Ups(k) + [dir, a, b], '/')
  {
    var before, after := Ups(k) + [dir, a + "\\" + b], Ups(k) + [dir, a, b];
    if k == 0 {
      assert before[1..] == [a + "\\" + b] && after[1..] == [a, b] && [a, b][1..] == [b];
      assert [a + "\\" + b][0] == a + "\\" + b;
      assert Join([a, b], '/') == a + ['/'] + b;
      assert before == [dir, a + "\\" + b] && after == [dir, a, b];
      assert Join(before, '/') == dir + ['/'] + (a + "\\" + b);
      assert Join(after, '/') == dir + ['/'] + (a + ['/'] + b);
      OfThree(dir, a, b, '\\');
      SlashedTwo(dir, a, b);
    } else {
      SlashedBackslash(k - 1, dir, a, b);
      assert before[1..] == Ups(k - 1) + [dir, a + "\\" + b] && after[1..] == Ups(k - 1) + [dir, a, b];
      SlashedUp(Join(before[1..], '/'));
    }
  }

  lemma SlashedTwo(dir: string, a: string, b: string)
    requires '\\' !in dir && '\\' !in a && '\\' !in b
    ensures Slashed(dir + ['/'] + (a + "\\" + b)) == dir + ['/'] + (a + ['/'] + b)
  {
  }

  lemma SlashedUp(rest: string)
    ensures Slashed(UP + ['/'] + rest) == UP + ['/'] + Slashed(rest)
  {
  }

  /** A name with a comma is cut there: two levels up, as rows of scripts are, its row hits the file named up to the comma. */
  lemma CommaHits(dir: string, stem: string, tail: string, rest: string, removed: seq<Path>)
    requires StagedPath([dir, stem]) && Clean([dir, stem]) && NoBreaks(tail) && NoBreaks(rest) && AllStaged(removed)
    ensures Goes(RowLines(2, [dir, stem + "," + tail], rest), removed) <==> [dir, stem] in removed
  {
    CommaTarget(dir, stem, tail, rest + ['\n']);
    TwoParts(dir, stem);
    OfTwo(dir, stem + "," + tail, ',');
    NoBreaksJoin(stem, ",");
    NoBreaksJoin(stem + ",", tail);
    OneLineGoes(2, [dir, stem + "," + tail], rest, removed);
    OwnInGone([dir, stem], removed);
  }

  /** A name with a break is cut there: its row goes exactly if the files named before and after the break did. */
  lemma BreakHits(k: nat, dir: string, a: string, c: char, b: string, rest: string, removed: seq<Path>)
    requires StagedPath([dir, a, b]) && Clean([dir, a, b]) && NoBreaks(rest) && AllStaged(removed)
    requires IsBreak(c) && c != '\r' && c != '\n'
    ensures Goes(RowLines(k, [dir, a + [c] + b], rest), removed) <==> [dir, a + [c]] in removed && [b] in removed
  {
    BreakLines(k, dir, a, c, b, rest);
    BreakTargets(k, dir, a, c, b, rest);
    var lines := RowLines(k, [dir, a + [c] + b], rest);
    GoesIff(lines, removed);
    assert LineTarget(lines[0]) == Rel([dir, a + [c]]) && LineTarget(lines[1]) == Rel([b]);
    OwnInGone([dir, a + [c]], removed);
    OwnInGone([b], removed);
  }

  lemma BreakLines(k: nat, dir: string, a: string, c: char, b: string, rest: string)
    requires StagedPath([dir, a, b]) && Clean([dir, a, b]) && NoBreaks(rest)
    requires IsBreak(c) && c != '\r' && c != '\n'
    ensures RowLines(k, [dir, a + [c] + b], rest) ==
              [Join(Ups(k) + [dir, a + [c]], '/'), RowOf(0, [b], rest + ['\n'])]
  {
    var name := a + [c] + b;
    var front, tail := Join(Ups(k) + [dir, a], '/'), [','] + rest;
    BrokenParts(dir, a, c, b);
    assert a + ([c] + b) == name;
    LongerName(Ups(k), dir, a, [c] + b);
    LongerName(Ups(k), dir, a, [c]);
    Assoc(front, [c], b);
    var field := front + [c] + b;
    FieldOf(k, [dir, name]);
    RowText(k, [dir, name], rest);
    UniversalPlain(field);
    FieldUnbroken(k, [dir, a]);
    FieldOf(k, [dir, a]);
    LinesOne(front, c);
    Assoc(front + [c], b, tail + ['\n']);
    LinesAppend(front + [c], b + (tail + ['\n']));
    FieldOf(0, [b]);
    assert Ups(0) + [b] == [b];
    RowText(0, [b], rest);
    UniversalPlain(b);
    RowIsLine(0, [b], rest);
  }

  lemma BrokenParts(dir: string, a: string, c: char, b: string)
    requires StagedPath([dir, a, b]) && Clean([dir, a, b]) && IsBreak(c) && c != '\r' && c != '\n'
    ensures PlainPart(dir) && PlainPart(a + [c]) && PlainPart(b)
    ensures StagedPath([dir, a + [c]]) && StagedPath([b]) && Clean([b])
    ensures Unbroken([dir, a]) && Unbroken([b])
    ensures forall x | x in {',', '"', '\r', '\n'} ::
              !Holds([dir, a + [c] + b], x) && !Holds([dir, a], x) && !Holds([b], x) && !Holds([dir, a + [c]], x)
    ensures !Holds([dir, a + [c]], '\\')
  {
    forall x | x in {',', '"', '\r', '\n', '\\'}
      ensures x !in dir && x !in a && x !in b && x != c
      ensures !Holds([dir, a + [c] + b], x) && !Holds([dir, a], x) && !Holds([b], x) && !Holds([dir, a + [c]], x)
    {
      OfThree(dir, a, b, x);
      OfTwo(dir, a + [c] + b, x);
      OfTwo(dir, a, x);
      OfTwo(dir, a + [c], x);
      assert [b][0] == b;
    }
    OfThree(dir, a, b, ',');
    OfTwo(dir, a, ',');
    OfTwo(dir, a + [c], ',');
    assert (a + [c])[|a|] == c;
  }

  lemma BreakTargets(k: nat, dir: string, a: string, c: char, b: string, rest: string)
    requires StagedPath([dir, a, b]) && Clean([dir, a, b]) && IsBreak(c) && c != '\r' && c != '\n'
    ensures StagedPath([dir, a + [c]]) && StagedPath([b])
    ensures LineTarget(Join(Ups(k) + [dir, a + [c]], '/')) == Rel([dir, a + [c]])
    ensures LineTarget(RowOf(0, [b], rest + ['\n'])) == Rel([b])
  {
    var path := [dir, a + [c]];
    var line := Join(Ups(k) + path, '/');
    BrokenParts(dir, a, c, b);
    FieldOf(k, path);
    SplitNone(line, ',');
    UpsJoinWithout(k, path, '\\');
    ScriptRowTarget(line, k, path);
    CleanRowTarget(0, [b], rest + ['\n']);
  }

  lemma CommaTarget(dir: string, stem: string, tail: string, rest: string)
    requires StagedPath([dir, stem]) && Clean([dir, stem])
    ensures LineTarget(RowOf(2, [dir, stem + "," + tail], rest)) == Rel([dir, stem])
  {
    var path := [dir, stem + "," + tail];
    var front := Join(Ups(2) + [dir, stem], '/');
    var s := Join(Ups(2) + path, '/');
    LongerName(Ups(2), dir, stem, "," + tail);
    assert stem + ("," + tail) == stem + "," + tail;
    UpsJoinWithout(2, [dir, stem], '"');
    UpsJoinWithout(2, [dir, stem], ',');
    TwoParts(dir, stem);
    DoubledAppend(front, "," + tail);
    DoubledPlain(front);
    var more := Doubled(tail) + ['"'] + [','] + rest;
    assert Doubled("," + tail) == [','] + Doubled(tail) by {
      assert ("," + tail)[1..] == tail;
    }
    assert s[|front|] == ',';
    QuotedRow(front, Doubled(tail), rest);
    SplitFirst(['"'] + front, more, ',');
    QuotedUpsTarget(dir, stem);
  }

  lemma QuotedRow(front: string, tail: string, rest: string)
    ensures ['"'] + ((front + ([','] + tail)) + ['"']) + [','] + rest ==
              (['"'] + front) + [','] + (tail + ['"'] + [','] + rest)
  {
  }

  /** A longer last name makes a longer path. */
  lemma LongerName(parts: seq<string>, dir: string, stem: string, tail: string)
    ensures Join(parts + [dir, stem + tail], '/') == Join(parts + [dir, stem], '/') + tail
  {
    var a, b := parts + [dir, stem], parts + [dir, stem + tail];
    if parts == [] {
      assert a[1..] == [stem] && b[1..] == [stem + tail];
      Assoc(dir + ['/'], stem, tail);
    } else {
      assert a[1..] == parts[1..] + [dir, stem] && b[1..] == parts[1..] + [dir, stem + tail];
      LongerName(parts[1..], dir, stem, tail);
      Assoc(parts[0] + ['/'], Join(a[1..], '/'), tail);
    }
  }

  lemma JoinFour(a: string, b: string, c: string, d: string)
    ensures Join([a, b, c, d], '/') == a + ['/'] + (b + ['/'] + (c + ['/'] + d))
  {
    assert [a, b, c, d][1..] == [b, c, d] && [b, c, d][1..] == [c, d] && [c, d][1..] == [d];
    assert Join([c, d], '/') == c + ['/'] + d;
    assert Join([b, c, d], '/') == b + ['/'] + Join([c, d], '/');
  }

  /** The opening quote is swallowed with the first climbing segment by the second. */
  lemma QuotedUpsTarget(dir: string, stem: string)
    requires PlainPart(dir) && PlainPart(stem)
    ensures Target(['"'] + Join(Ups(2) + [dir, stem], '/')) == Rel([dir, stem])
  {
    var quote := "\"..";
    var comps := [quote, UP, dir, stem];
    JoinFour(UP, UP, dir, stem);
    JoinFour(quote, UP, dir, stem);
    assert Ups(2) + [dir, stem] == [UP, UP, dir, stem];
    assert ['"'] + Join(Ups(2) + [dir, stem], '/') == Join(comps, '/');
    assert forall i | 0 <= i < 4 :: '/' !in comps[i] && '\\' !in comps[i];
    SlashedJoin(comps);
    SplitOfJoin(comps, '/');
    NormQuoted(quote, dir, stem);
    JoinStart(comps);
    RelativeNorm(Join(comps, '/'));
    PlainDoesNotClimb([dir, stem]);
  }

  lemma NormQuoted(quote: string, dir: string, stem: string)
    requires quote == "\".." && PlainPart(dir) && PlainPart(stem)
    ensures NormComps([quote, UP, dir, stem], false) == [dir, stem]
  {
    var comps := [quote, UP, dir, stem];
    assert quote[0] == '"' && |quote| == 3;
    assert comps[..3] == [quote, UP, dir] && comps[..3][..2] == [quote, UP] && [quote, UP][..1] == [quote] && [quote][..0] == [];
    assert NormComps([quote], false) == [quote];
    assert NormComps([quote, UP], false) == [];
    assert NormComps([quote, UP, dir], false) == [dir];
  }

  // ---- the rows around it ---------------------------------------------------------------

  lemma {:induction false} KeptJoin(a: seq<string>, b: seq<string>, gone: set<string>)
    ensures KeptLines(a + b, gone) == KeptLines(a, gone) + KeptLines(b, gone)
  {
    if b == [] {
      assert a + b == a;
    } else {
      KeptJoin(a, b[..|b| - 1], gone);
      FrontOfJoin(a, b);
    }
  }

  /** A row goes or stays by itself, and the rows around it keep their order. */
  lemma RowGoesIff(before: seq<string>, row: string, after: seq<string>, gone: set<string>)
    ensures KeptLines(before + [row] + after, gone) ==
              KeptLines(before, gone) + (if LineTarget(row) in gone then [] else [row]) + KeptLines(after, gone)
  {
    KeptJoin(before + [row], after, gone);
    KeptJoin(before, [row], gone);
    assert [row][..0] == [];
  }
}
