/** Tool names to id segments: the words of a name, in lower case, joined by underscores. */
module Segments {
  import opened Text

  predicate IsUpper(c: char) {
    'A' <= c <= 'Z'
  }

  predicate LowerOrDigit(c: char) {
    'a' <= c <= 'z' || '0' <= c <= '9'
  }

  predicate Alnum(c: char) {
    IsUpper(c) || LowerOrDigit(c)
  }

  predicate SegChar(c: char) {
    LowerOrDigit(c) || c == '_'
  }

  /** An underscore between a lower-case letter or digit and a capital. */
  function Snake(text: string): string {
    if |text| <= 1 then text
    else if LowerOrDigit(text[0]) && IsUpper(text[1]) then [text[0]] + (['_'] + Snake(text[1..]))
    else [text[0]] + Snake(text[1..])
  }

  /** Every run of characters that are not alphanumeric becomes one underscore. */
  function Fold(s: string): (r: string)
    ensures r == "" <==> s == ""
    ensures s != "" ==> r[0] == if Alnum(s[0]) then s[0] else '_'
    ensures forall i | 0 <= i < |r| :: Alnum(r[i]) || r[i] == '_'
    ensures forall i | 0 <= i < |r| - 1 :: r[i] != '_' || r[i + 1] != '_'
  {
    if s == "" then ""
    else
      var r := Fold(s[1..]);
      if Alnum(s[0]) then [s[0]] + r
      else if r != "" && r[0] == '_' then r
      else ['_'] + r
  }

  function LStrip(s: string, c: char): string {
    if s != "" && s[0] == c then LStrip(s[1..], c) else s
  }

  function Strip(s: string): string {
    RStrip(LStrip(s, '_'), '_')
  }

  function RunLength(s: string): (n: nat)
    ensures n <= |s|
    ensures s != "" && SegChar(s[0]) ==> n > 0
  {
    if s == "" || !SegChar(s[0]) then 0 else 1 + RunLength(s[1..])
  }

  /** _SEGMENT_RE.findall */
  function Runs(s: string): seq<string> {
    if s == "" then []
    else if !SegChar(s[0]) then Runs(s[1..])
    else [s[..RunLength(s)]] + Runs(s[RunLength(s)..])
  }

  /** _normalize_segment */
  function Normalize(text: string): string {
    Join(Runs(Lower(Strip(Fold(Snake(text))))), '_')
  }

  // ---- what it comes to -------------------------------------------------------------

  /** An alphanumeric character and its right neighbour belong to one word. */
  predicate Joined(a: char, b: char) {
    Alnum(a) && Alnum(b) && !(LowerOrDigit(a) && IsUpper(b))
  }

  /** The words of a name: cut at whatever is not alphanumeric, and where camel case starts a word. */
  function Words(text: string): (r: seq<string>)
    ensures text != "" && Alnum(text[0]) ==> r != []
  {
    if text == "" then []
    else
      var r := Words(text[1..]);
      if !Alnum(text[0]) then r
      else if |text| > 1 && Joined(text[0], text[1]) then [[text[0]] + r[0]] + r[1..]
      else [[text[0]]] + r
  }

  lemma {:induction false} RStripHead(c: char, s: string)
    requires RStrip(s, '_') != ""
    ensures RStrip([c] + s, '_') == [c] + RStrip(s, '_')
  {
    if s[|s| - 1] == '_' {
      RStripHead(c, s[..|s| - 1]);
      assert ([c] + s)[..|s|] == [c] + s[..|s| - 1];
    }
  }

  lemma {:induction false} RStripNone(c: char, s: string)
    requires RStrip(s, '_') == "" && c != '_'
    ensures RStrip([c] + s, '_') == [c]
  {
    if s != "" {
      RStripNone(c, s[..|s| - 1]);
      assert ([c] + s)[..|s|] == [c] + s[..|s| - 1];
    } else {
      assert [c] + s == [c];
    }
  }

  lemma {:induction false} RStripKeeps(s: string, i: nat)
    requires i < |s| && s[i] != '_'
    ensures i < |RStrip(s, '_')|
  {
    if s[|s| - 1] == '_' {
      RStripKeeps(s[..|s| - 1], i);
    }
  }

  lemma {:induction false} JoinHead(c: char, parts: seq<string>)
    requires parts != []
    ensures Join([[c] + parts[0]] + parts[1..], '_') == [c] + Join(parts, '_')
  {
    var p := [[c] + parts[0]] + parts[1..];
    assert p[1..] == parts[1..];
    if |parts| > 1 {
      assert [c] + parts[0] + ['_'] + Join(parts[1..], '_') == [c] + (parts[0] + ['_'] + Join(parts[1..], '_'));
    }
  }

  lemma JoinWord(c: char, parts: seq<string>)
    requires parts != []
    ensures Join([[c]] + parts, '_') == [c] + (['_'] + Join(parts, '_'))
  {
    assert ([[c]] + parts)[1..] == parts;
  }

  /** A letter in front of a folded text, with no underscore between. */
  lemma StripLetter(c: char, f: string)
    requires c != '_' && f != "" && f[0] != '_'
    ensures Strip([c] + f) == [c] + Strip(f)
  {
    RStripKeeps(f, 0);
    RStripHead(c, f);
  }

  /** A letter and one underscore in front of a text that starts with a letter. */
  lemma StripLetterGap(c: char, f: string)
    requires c != '_' && f != "" && f[0] != '_'
    ensures Strip([c] + (['_'] + f)) == [c] + (['_'] + Strip(f))
  {
    RStripKeeps(f, 0);
    RStripHead('_', f);
    RStripHead(c, ['_'] + f);
  }

  /** Dropping what separates the words, both ends included, leaves the words joined. */
  lemma {:induction false} StripIsWords(text: string)
    ensures Strip(Fold(Snake(text))) == Join(Words(text), '_')
    ensures Words(text) == [] <==> Join(Words(text), '_') == ""
  {
    if text != "" {
      var rest := text[1..];
      StripIsWords(rest);
      SnakeHead(text);
      if !Alnum(text[0]) {
        StripSeparator(text);
      } else if rest == "" {
        StripOne(text);
      } else if Joined(text[0], rest[0]) {
        StripJoined(text);
      } else if Alnum(rest[0]) {
        StripCamel(text);
      } else {
        StripGap(text);
      }
    }
  }

  lemma SnakeHead(text: string)
    requires text != ""
    ensures Snake(text) != "" && Snake(text)[0] == text[0]
    ensures Snake(text)[1..] == if |text| > 1 && LowerOrDigit(text[0]) && IsUpper(text[1]) then ['_'] + Snake(text[1..]) else Snake(text[1..])
  {
    if |text| == 1 {
      assert Snake(text)[1..] == "" == Snake(text[1..]);
    }
  }

  lemma StripSeparator(text: string)
    requires text != "" && !Alnum(text[0])
    ensures Strip(Fold(Snake(text))) == Strip(Fold(Snake(text[1..])))
  {
    SnakeHead(text);
    var f := Fold(Snake(text[1..]));
    if f == "" || f[0] != '_' {
      assert (['_'] + f)[1..] == f;
    }
  }

  lemma StripOne(text: string)
    requires |text| == 1 && Alnum(text[0])
    ensures Strip(Fold(Snake(text))) == text == Join(Words(text), '_')
  {
    SnakeHead(text);
    assert Snake(text[1..]) == "" && Fold(Snake(text)) == [text[0]];
    assert Words(text[1..]) == [] && Words(text) == [[text[0]]];
  }

  lemma StripJoined(text: string)
    requires |text| > 1 && Joined(text[0], text[1])
    requires Strip(Fold(Snake(text[1..]))) == Join(Words(text[1..]), '_')
    ensures Strip(Fold(Snake(text))) == Join(Words(text), '_') != ""
  {
    SnakeHead(text);
    SnakeHead(text[1..]);
    StripLetter(text[0], Fold(Snake(text[1..])));
    JoinHead(text[0], Words(text[1..]));
  }

  lemma StripCamel(text: string)
    requires |text| > 1 && LowerOrDigit(text[0]) && IsUpper(text[1])
    requires Strip(Fold(Snake(text[1..]))) == Join(Words(text[1..]), '_')
    ensures Strip(Fold(Snake(text))) == Join(Words(text), '_') != ""
  {
    SnakeHead(text);
    SnakeHead(text[1..]);
    var s := Snake(text[1..]);
    assert (['_'] + s)[1..] == s;
    assert Fold(['_'] + s) == ['_'] + Fold(s);
    StripLetterGap(text[0], Fold(s));
    JoinWord(text[0], Words(text[1..]));
  }

  lemma StripUnderscore(tail: string)
    requires tail == "" || tail[0] != '_'
    ensures Strip(['_'] + tail) == Strip(tail)
    ensures tail != "" ==> Strip(tail) != ""
  {
    assert (['_'] + tail)[1..] == tail;
    if tail != "" {
      RStripKeeps(tail, 0);
    }
  }

  lemma StripLetterUnderscore(c: char, tail: string)
    requires c != '_' && (tail == "" || tail[0] != '_')
    ensures Strip([c] + (['_'] + tail)) == if tail == "" then [c] else [c] + (['_'] + Strip(tail))
  {
    if tail == "" {
      assert ['_'] + tail == "_" && "_"[..0] == "";
      RStripNone(c, "_");
    } else {
      StripLetterGap(c, tail);
    }
  }

  lemma StripGap(text: string)
    requires |text| > 1 && Alnum(text[0]) && !Alnum(text[1])
    requires Strip(Fold(Snake(text[1..]))) == Join(Words(text[1..]), '_')
    requires Words(text[1..]) == [] <==> Join(Words(text[1..]), '_') == ""
    ensures Strip(Fold(Snake(text))) == Join(Words(text), '_') != ""
  {
    SnakeHead(text);
    SnakeHead(text[1..]);
    var f := Fold(Snake(text[1..]));
    var tail := f[1..];
    assert Fold(Snake(text)) == [text[0]] + f && f == ['_'] + tail;
    StripUnderscore(tail);
    StripLetterUnderscore(text[0], tail);
    if tail != "" {
      JoinWord(text[0], Words(text[1..]));
    }
  }

  // ---- the last step changes nothing ------------------------------------------------

  lemma {:induction false} RunsOfSegment(s: string)
    requires forall i | 0 <= i < |s| :: SegChar(s[i])
    ensures RunLength(s) == |s|
    ensures Join(Runs(s), '_') == s
  {
    if s != "" {
      RunsOfSegment(s[1..]);
      assert s[..|s|] == s && s[|s|..] == "";
      assert Runs(s) == [s];
    }
  }

  lemma {:induction false} StripChars(f: string)
    requires forall i | 0 <= i < |f| :: Alnum(f[i]) || f[i] == '_'
    requires forall i | 0 <= i < |f| - 1 :: f[i] != '_' || f[i + 1] != '_'
    ensures var r := Strip(f);
      && (forall i | 0 <= i < |r| :: Alnum(r[i]) || r[i] == '_')
      && (forall i | 0 <= i < |r| - 1 :: r[i] != '_' || r[i + 1] != '_')
      && (r != "" ==> r[0] != '_' && r[|r| - 1] != '_')
  {
    var l := LStrip(f, '_');
    LStripIsSuffix(f);
    RStripIsPrefix(l);
  }

  lemma {:induction false} LStripIsSuffix(s: string)
    ensures exists k :: 0 <= k <= |s| && LStrip(s, '_') == s[k..]
    ensures LStrip(s, '_') != "" ==> LStrip(s, '_')[0] != '_'
  {
    if s != "" && s[0] == '_' {
      LStripIsSuffix(s[1..]);
      var k :| 0 <= k <= |s[1..]| && LStrip(s[1..], '_') == s[1..][k..];
      assert s[1..][k..] == s[k + 1..];
    } else {
      assert s == s[0..];
    }
  }

  lemma {:induction false} RStripIsPrefix(s: string)
    ensures |RStrip(s, '_')| <= |s| && RStrip(s, '_') == s[..|RStrip(s, '_')|]
    ensures RStrip(s, '_') != "" ==> RStrip(s, '_')[|RStrip(s, '_')| - 1] != '_'
  {
    if s != "" && s[|s| - 1] == '_' {
      RStripIsPrefix(s[..|s| - 1]);
    }
  }

  /** One or more words of lower-case letters and digits, with single underscores between them. */
  predicate Canonical(s: string) {
    && (forall i | 0 <= i < |s| :: SegChar(s[i]))
    && (forall i | 0 <= i < |s| - 1 :: s[i] != '_' || s[i + 1] != '_')
    && (s != "" ==> s[0] != '_' && s[|s| - 1] != '_')
  }

  lemma LowerOfChar(c: char)
    requires Alnum(c) || c == '_'
    ensures SegChar(LowerChar(c)) && (LowerChar(c) == '_' <==> c == '_')
  {
  }

  lemma LowerCanonical(s: string)
    requires forall i | 0 <= i < |s| :: Alnum(s[i]) || s[i] == '_'
    requires forall i | 0 <= i < |s| - 1 :: s[i] != '_' || s[i + 1] != '_'
    requires s != "" ==> s[0] != '_' && s[|s| - 1] != '_'
    ensures Canonical(Lower(s))
  {
    var r := Lower(s);
    forall i | 0 <= i < |s|
      ensures SegChar(r[i]) && (r[i] == '_' <==> s[i] == '_')
    {
      LowerOfChar(s[i]);
    }
  }

  /** Normalising takes a name to its words, in lower case, joined by underscores. */
  lemma NormalizeIsWords(text: string)
    ensures Normalize(text) == Lower(Join(Words(text), '_'))
    ensures Canonical(Normalize(text))
    ensures Normalize(text) == "" <==> forall i | 0 <= i < |text| :: !Alnum(text[i])
  {
    StripIsWords(text);
    WordsEmptyIff(text);
    LowerOfFolded(Fold(Snake(text)));
  }

  lemma LowerOfFolded(f: string)
    requires forall i | 0 <= i < |f| :: Alnum(f[i]) || f[i] == '_'
    requires forall i | 0 <= i < |f| - 1 :: f[i] != '_' || f[i + 1] != '_'
    ensures Canonical(Lower(Strip(f))) && Join(Runs(Lower(Strip(f))), '_') == Lower(Strip(f))
  {
    StripChars(f);
    LowerCanonical(Strip(f));
    RunsOfSegment(Lower(Strip(f)));
  }

  lemma {:induction false} WordsEmptyIff(text: string)
    ensures Words(text) == [] <==> forall i | 0 <= i < |text| :: !Alnum(text[i])
  {
    if text != "" {
      WordsEmptyIff(text[1..]);
      assert forall i | 1 <= i < |text| :: text[i] == text[1..][i - 1];
    }
  }

  lemma {:induction false} WordsAreAlnum(text: string, k: nat)
    requires k < |Words(text)|
    ensures Words(text)[k] != "" && forall i | 0 <= i < |Words(text)[k]| :: Alnum(Words(text)[k][i])
  {
    var r := Words(text[1..]);
    if !Alnum(text[0]) {
      WordsAreAlnum(text[1..], k);
    } else if |text| > 1 && Joined(text[0], text[1]) {
      WordsAreAlnum(text[1..], k);
      if k == 0 {
        assert Words(text)[0] == [text[0]] + r[0];
      }
    } else if k > 0 {
      WordsAreAlnum(text[1..], k - 1);
    }
  }

  /** The pieces between a segment's underscores are the words of the name, in lower case. */
  lemma PiecesAreWords(text: string)
    requires Words(text) != []
    ensures var pieces := Split(Normalize(text), '_');
      |pieces| == |Words(text)| && forall i | 0 <= i < |pieces| :: pieces[i] == Lower(Words(text)[i])
  {
    var words := Words(text);
    forall p | p in words
      ensures '_' !in p
    {
      var k :| 0 <= k < |words| && words[k] == p;
      WordsAreAlnum(text, k);
    }
    NormalizeIsWords(text);
    SplitOfJoin(words, '_');
    LowerSplit(Join(words, '_'), '_');
  }

  // ---- fixed points -----------------------------------------------------------------

  lemma {:induction false} SnakeFixed(s: string)
    requires forall i | 0 <= i < |s| :: SegChar(s[i])
    ensures Snake(s) == s
  {
    if |s| > 1 {
      SnakeFixed(s[1..]);
    }
  }

  lemma {:induction false} FoldFixed(s: string)
    requires forall i | 0 <= i < |s| :: SegChar(s[i])
    requires forall i | 0 <= i < |s| - 1 :: s[i] != '_' || s[i + 1] != '_'
    ensures Fold(s) == s
  {
    if s != "" {
      assert forall i | 0 <= i < |s| - 1 :: s[1..][i] == s[i + 1];
      FoldFixed(s[1..]);
    }
  }

  /** The names that normalising leaves alone are exactly the canonical ones; so it is idempotent. */
  lemma FixedIffCanonical(s: string)
    ensures Normalize(s) == s <==> Canonical(s)
    ensures Normalize(Normalize(s)) == Normalize(s)
  {
    NormalizeIsWords(s);
    if Canonical(s) {
      CanonicalFixed(s);
    }
    CanonicalFixed(Normalize(s));
  }

  lemma CanonicalFixed(s: string)
    requires Canonical(s)
    ensures Normalize(s) == s
  {
    SnakeFixed(s);
    FoldFixed(s);
    assert Strip(s) == s;
    assert forall i | 0 <= i < |s| :: LowerChar(s[i]) == s[i];
    RunsOfSegment(Lower(s));
  }
}
