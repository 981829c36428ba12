/** Python string operations: split, join, ASCII case folding, code-point order. */
module Text {
  import opened Lists

  /** s.split(sep): one piece more than there are separators. */
  function Split(s: string, sep: char): (r: seq<string>)
    ensures |r| >= 1
    ensures forall p | p in r :: sep !in p
  {
    if s == "" then [""]
    else
      var r := Split(s[1..], sep);
      if s[0] == sep then [""] + r else [[s[0]] + r[0]] + r[1..]
  }

  /** sep.join(parts) */
  function Join(parts: seq<string>, sep: char): string {
    if parts == [] then ""
    else if |parts| == 1 then parts[0]
    else parts[0] + [sep] + Join(parts[1..], sep)
  }

  lemma {:induction false} JoinOfSplit(s: string, sep: char)
    ensures Join(Split(s, sep), sep) == s
  {
    if s != "" {
      JoinOfSplit(s[1..], sep);
      var r := Split(s[1..], sep);
      if s[0] == sep {
        assert Split(s, sep)[1..] == r;
      } else {
        assert Split(s, sep)[1..] == r[1..];
        if |r| > 1 {
          assert Join(Split(s, sep), sep) == [s[0]] + (r[0] + [sep] + Join(r[1..], sep));
        }
      }
      assert s == [s[0]] + s[1..];
    }
  }

  lemma {:induction false} SplitFirst(a: string, b: string, sep: char)
    requires sep !in a
    ensures Split(a + [sep] + b, sep) == [a] + Split(b, sep)
  {
    if a == "" {
      assert (a + [sep] + b)[1..] == b;
    } else {
      SplitFirst(a[1..], b, sep);
      assert (a + [sep] + b)[1..] == a[1..] + [sep] + b;
      assert [a[0]] + a[1..] == a;
    }
  }

  /** The first piece lies before any separator. */
  lemma {:induction false} SplitHead(a: string, b: string, sep: char)
    ensures Split(a + [sep] + b, sep)[0] <= a
  {
    var s := a + [sep] + b;
    if a == "" {
      assert s[1..] == b;
    } else {
      SplitHead(a[1..], b, sep);
      assert s[1..] == a[1..] + [sep] + b;
      assert [a[0]] + a[1..] == a;
    }
  }

  lemma {:induction false} SplitNone(a: string, sep: char)
    requires sep !in a
    ensures Split(a, sep) == [a]
  {
    if a != "" {
      SplitNone(a[1..], sep);
      assert [a[0]] + a[1..] == a;
    }
  }

  lemma {:induction false} SplitOfJoin(parts: seq<string>, sep: char)
    requires parts != [] && forall p | p in parts :: sep !in p
    ensures Split(Join(parts, sep), sep) == parts
  {
    if |parts| == 1 {
      SplitNone(parts[0], sep);
    } else {
      SplitOfJoin(parts[1..], sep);
      SplitFirst(parts[0], Join(parts[1..], sep), sep);
      assert parts == [parts[0]] + parts[1..];
    }
  }

  /** str.lower() where only ASCII results matter: besides A-Z, KELVIN SIGN also lowers to ASCII. */
  function LowerChar(c: char): char {
    if 'A' <= c <= 'Z' then (c as int + 32) as char
    else if c == '\U{212A}' then 'k'
    else c
  }

  function Lower(s: string): (r: string)
    ensures |r| == |s|
    ensures forall i | 0 <= i < |s| :: r[i] == LowerChar(s[i])
  {
    if s == "" then "" else [LowerChar(s[0])] + Lower(s[1..])
  }

  lemma {:induction false} LowerSplit(s: string, sep: char)
    requires LowerChar(sep) == sep && forall c: char | LowerChar(c) == sep :: c == sep
    ensures |Split(Lower(s), sep)| == |Split(s, sep)|
    ensures forall i | 0 <= i < |Split(s, sep)| :: Split(Lower(s), sep)[i] == Lower(Split(s, sep)[i])
  {
    if s != "" {
      LowerSplit(s[1..], sep);
      assert Lower(s)[1..] == Lower(s[1..]);
      var r := Split(s[1..], sep);
      if s[0] != sep {
        assert Lower([s[0]] + r[0]) == [LowerChar(s[0])] + Lower(r[0]);
      }
    }
  }

  lemma {:induction false} LowerFixed(s: string)
    requires forall i | 0 <= i < |s| :: LowerChar(s[i]) == s[i]
    ensures Lower(s) == s
  {
  }

  predicate EndsWith(s: string, suffix: string) {
    |suffix| <= |s| && s[|s| - |suffix|..] == suffix
  }

  predicate StartsWith(s: string, prefix: string) {
    |prefix| <= |s| && s[..|prefix|] == prefix
  }

  /** Where str.splitlines cuts. */
  predicate IsBreak(c: char) {
    || c == '\n' || c == '\r' || c == '\U{000B}' || c == '\U{000C}'
    || c == '\U{001C}' || c == '\U{001D}' || c == '\U{001E}'
    || c == '\U{0085}' || c == '\U{2028}' || c == '\U{2029}'
  }

  predicate NoBreaks(s: string) {
    forall i | 0 <= i < |s| :: !IsBreak(s[i])
  }

  /** A line end of two characters begins here. */
  predicate CrLf(s: string) {
    |s| > 1 && s[0] == '\r' && s[1] == '\n'
  }

  /** s.splitlines(keepends=True) */
  function Lines(s: string): seq<string> {
    if s == "" then []
    else
      var r := Lines(s[1..]);
      if r == [] || (IsBreak(s[0]) && !CrLf(s)) then [[s[0]]] + r else [[s[0]] + r[0]] + r[1..]
  }

  /** "".join(lines) */
  function Flat(lines: seq<string>): string {
    if lines == [] then "" else lines[0] + Flat(lines[1..])
  }

  /** Cutting loses nothing. */
  lemma {:induction false} FlatLines(s: string)
    ensures Flat(Lines(s)) == s
  {
    if s != "" {
      FlatLines(s[1..]);
      var r := Lines(s[1..]);
      assert s == [s[0]] + s[1..];
      if r != [] && !(IsBreak(s[0]) && !CrLf(s)) {
        assert Lines(s)[1..] == r[1..];
        Assoc([s[0]], r[0], Flat(r[1..]));
      } else {
        assert Lines(s)[1..] == r;
      }
    }
  }

  /** Reading in text mode: every kind of line end becomes a line feed. */
  function Universal(s: string): (r: string)
    ensures '\r' !in r
  {
    if s == "" then ""
    else (if CrLf(s) then "" else if s[0] == '\r' then ['\n'] else [s[0]]) + Universal(s[1..])
  }

  /** What is read in two parts is read as one, unless a line end is torn apart. */
  lemma {:induction false} UniversalAppend(a: string, b: string)
    requires a != "" && a[|a| - 1] == '\r' ==> b == "" || b[0] != '\n'
    ensures Universal(a + b) == Universal(a) + Universal(b)
  {
    if a == "" {
      assert a + b == b;
    } else {
      var rest := a[1..];
      TailOfJoin(a, b);
      assert CrLf(a + b) == CrLf(a);
      UniversalAppend(rest, b);
      Assoc(if CrLf(a) then "" else if a[0] == '\r' then ['\n'] else [a[0]], Universal(rest), Universal(b));
    }
  }

  lemma {:induction false} UniversalPlain(s: string)
    requires '\r' !in s
    ensures Universal(s) == s
  {
    if s != "" {
      UniversalPlain(s[1..]);
    }
  }

  /** Where a break ends the one part, the other is cut by itself. */
  lemma {:induction false} LinesAppend(a: string, b: string)
    requires a != "" ==> IsBreak(a[|a| - 1]) && a[|a| - 1] != '\r'
    ensures Lines(a + b) == Lines(a) + Lines(b)
    ensures a != "" ==> Lines(a) != []
  {
    if a == "" {
      assert a + b == b;
    } else {
      TailOfJoin(a, b);
      var rest := a[1..];
      LinesAppend(rest, b);
      if rest == "" {
        assert Lines(a) == [[a[0]]];
      } else {
        assert CrLf(a + b) == CrLf(a);
        LinesPrepend(a[0], Lines(rest), Lines(b));
      }
    }
  }

  lemma LinesPrepend(c: char, r: seq<string>, t: seq<string>)
    requires r != []
    ensures [[c]] + (r + t) == ([[c]] + r) + t
    ensures [[c] + (r + t)[0]] + (r + t)[1..] == ([[c] + r[0]] + r[1..]) + t
  {
  }

  lemma {:induction false} LinesOne(s: string, c: char)
    requires NoBreaks(s) && IsBreak(c)
    ensures Lines(s + [c]) == [s + [c]]
  {
    var t := s + [c];
    if s == "" {
      assert t[1..] == "" && t == [c];
    } else {
      assert t[1..] == s[1..] + [c];
      LinesOne(s[1..], c);
      assert t == [s[0]] + (s[1..] + [c]);
    }
  }

  /** Whatever comes before, the last line holds all of an unbroken end, and no break before it. */
  lemma {:induction false} LastLine(front: string, end: string)
    requires NoBreaks(end) && '\r' !in front
    ensures var r := Lines(front + (end + ['\n']));
      r != [] && exists u :: NoBreaks(u) && r[|r| - 1] == u + (end + ['\n'])
  {
    var tail := end + ['\n'];
    var s := front + tail;
    if front == "" {
      assert s == tail;
      LinesOne(end, '\n');
      assert [] + tail == tail && NoBreaks([]);
    } else {
      LastLine(front[1..], end);
      assert s[1..] == front[1..] + tail;
      var r := Lines(s[1..]);
      var u :| NoBreaks(u) && r[|r| - 1] == u + tail;
      if !IsBreak(s[0]) && |r| == 1 {
        Assoc([s[0]], u, tail);
        assert NoBreaks([s[0]] + u);
      }
    }
  }

  /** s.rstrip(c) */
  function RStrip(s: string, c: char): string {
    if s != "" && s[|s| - 1] == c then RStrip(s[..|s| - 1], c) else s
  }

  /** Code-point order, as sorted() compares strings. */
  predicate Le(a: string, b: string) {
    a == "" || (b != "" && (a[0] < b[0] || (a[0] == b[0] && Le(a[1..], b[1..]))))
  }

  /** a stands before b, or is b: it is a front of b, or smaller where the two first differ. */
  predicate Before(a: string, b: string) {
    a <= b || exists i | 0 <= i < |a| && i < |b| :: a[..i] == b[..i] && a[i] < b[i]
  }

  lemma {:induction false} LeIsBefore(a: string, b: string)
    ensures Le(a, b) <==> Before(a, b)
  {
    if a != "" && b != "" && a[0] == b[0] {
      var x, y := a[1..], b[1..];
      LeIsBefore(x, y);
      assert a == [a[0]] + x && b == [b[0]] + y;
      if x <= y {
        assert a <= b;
      }
      if a <= b {
        assert x <= y;
      }
      if i :| 0 <= i < |x| && i < |y| && x[..i] == y[..i] && x[i] < y[i] {
        assert a[..i + 1] == [a[0]] + x[..i] && b[..i + 1] == [b[0]] + y[..i];
        assert a[i + 1] < b[i + 1];
      }
      if i :| 0 <= i < |a| && i < |b| && a[..i] == b[..i] && a[i] < b[i] {
        assert i > 0;
        assert x[..i - 1] == a[..i][1..] && y[..i - 1] == b[..i][1..];
        assert x[i - 1] < y[i - 1];
      }
    } else if a != "" && b != "" {
      assert a[..0] == b[..0];
      if i :| 0 <= i < |a| && i < |b| && a[..i] == b[..i] && a[i] < b[i] {
        assert i > 0 ==> a[..i][0] == b[..i][0];
      }
    }
  }

  lemma {:induction false} LeTotal(a: string, b: string)
    ensures Le(a, b) || Le(b, a)
    ensures Le(a, b) && Le(b, a) ==> a == b
  {
    if a != "" && b != "" && a[0] == b[0] {
      LeTotal(a[1..], b[1..]);
      assert a == [a[0]] + a[1..] && b == [b[0]] + b[1..];
    }
  }

  lemma {:induction false} LeTransitive(a: string, b: string, c: string)
    requires Le(a, b) && Le(b, c)
    ensures Le(a, c)
  {
    if a != "" && a[0] == b[0] == c[0] {
      LeTransitive(a[1..], b[1..], c[1..]);
    }
  }
}
