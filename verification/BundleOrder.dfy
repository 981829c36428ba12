/** The order of a ZIP's entries does not matter to acceptance, nor to what is accepted. */
module BundleOrder {
  import opened Lists
  import opened Trees
  import opened SourceBundle

  lemma {:induction false} TwicePositions(a: seq<Entry>, x: Entry) returns (i: nat, j: nat)
    requires multiset(a)[x] >= 2
    ensures i < j < |a| && a[i] == a[j] == x
  {
    assert a == [a[0]] + a[1..];
    if a[0] == x {
      assert x in multiset(a[1..]);
      var k :| 0 <= k < |a[1..]| && a[1..][k] == x;
      i, j := 0, k + 1;
    } else {
      i, j := TwicePositions(a[1..], x);
      i, j := i + 1, j + 1;
    }
  }

  lemma PositionsTwice(b: seq<Entry>, i: nat, j: nat)
    requires i < j < |b| && b[i] == b[j]
    ensures multiset(b)[b[i]] >= 2
  {
    assert b == b[..j] + b[j..];
    assert b[..j][i] == b[i] && b[i] in multiset(b[..j]);
    assert b[j..][0] == b[j] && b[j] in multiset(b[j..]);
  }

  lemma SameElements(a: seq<Entry>, b: seq<Entry>, x: Entry)
    requires multiset(a) == multiset(b)
    ensures x in a <==> x in b
  {
    assert x in a <==> x in multiset(a);
    assert x in b <==> x in multiset(b);
  }

  lemma KeyDiffers(es: seq<Entry>, i: nat, j: nat)
    requires KeysDistinct(es) && i < |es| && j < |es| && i != j
    ensures Key(es[i]) != Key(es[j])
  {
  }

  lemma KeysOrder(a: seq<Entry>, b: seq<Entry>)
    requires multiset(a) == multiset(b) && KeysDistinct(a)
    ensures KeysDistinct(b)
  {
    forall i, j | 0 <= i < j < |b|
      ensures Key(b[i]) != Key(b[j])
    {
      if b[i] == b[j] {
        PositionsTwice(b, i, j);
        var m, n := TwicePositions(a, b[i]);
        KeyDiffers(a, m, n);
      } else {
        SameElements(a, b, b[i]);
        SameElements(a, b, b[j]);
        var m :| 0 <= m < |a| && a[m] == b[i];
        var n :| 0 <= n < |a| && a[n] == b[j];
        KeyDiffers(a, m, n);
      }
    }
  }

  lemma {:induction false} TotalAppend(a: seq<Entry>, b: seq<Entry>)
    ensures Total(a + b) == Total(a) + Total(b)
  {
    if b == [] {
      assert a + b == a;
    } else {
      TotalAppend(a, b[..|b| - 1]);
      FrontOfJoin(a, b);
    }
  }

  lemma TotalWithout(b: seq<Entry>, i: nat)
    requires i < |b|
    ensures Total(b) == Total(Without(b, i)) + Weight(b[i])
  {
    var one := [b[i]];
    CutAround(b, i);
    TotalAppend(b[..i] + one, b[i + 1..]);
    TotalAppend(b[..i], one);
    TotalAppend(b[..i], b[i + 1..]);
    assert one[..0] == [];
    assert Total(one) == Weight(b[i]);
  }

  lemma {:induction false} TotalOrder(a: seq<Entry>, b: seq<Entry>)
    requires multiset(a) == multiset(b)
    ensures Total(a) == Total(b)
  {
    SameLength(a, b);
    if a != [] {
      var x := a[|a| - 1];
      SameElements(a, b, x);
      var i :| 0 <= i < |b| && b[i] == x;
      MultisetFront(a);
      MultisetWithout(b, i);
      assert multiset(a[..|a| - 1]) == multiset(a) - multiset{x} == multiset(Without(b, i));
      TotalOrder(a[..|a| - 1], Without(b, i));
      TotalWithout(b, i);
    }
  }

  lemma OkOrder(a: seq<Entry>, b: seq<Entry>, py: Python)
    requires multiset(a) == multiset(b) && EntriesOk(a, py)
    ensures EntriesOk(b, py)
  {
    forall i | 0 <= i < |b|
      ensures EntryOk(b[i], py)
    {
      SameElements(a, b, b[i]);
      var j :| 0 <= j < |a| && a[j] == b[i];
    }
  }

  lemma ConflictOrder(a: seq<Entry>, b: seq<Entry>)
    requires multiset(a) == multiset(b) && Conflict(a)
    ensures Conflict(b)
  {
    var i, j :| 0 <= i < |a| && 0 <= j < |a| && !IsDir(a[j]) && Above(Folded(a[j]), Folded(a[i]));
    SameElements(a, b, a[i]);
    SameElements(a, b, a[j]);
    var m :| 0 <= m < |b| && b[m] == a[i];
    var n :| 0 <= n < |b| && b[n] == a[j];
    assert Above(Folded(b[n]), Folded(b[m]));
  }

  lemma AcceptableOrder(a: seq<Entry>, b: seq<Entry>, py: Python)
    requires multiset(a) == multiset(b) && Acceptable(a, py)
    ensures Acceptable(b, py)
  {
    assert |a| == |multiset(a)| == |multiset(b)| == |b|;
    OkOrder(a, b, py);
    KeysOrder(a, b);
    TotalOrder(a, b);
    if Conflict(b) {
      ConflictOrder(b, a);
    }
  }

  /** Every file entry keeps its bytes, and nothing else is in the map. */
  lemma {:induction false} SourcesHave(es: seq<Entry>, i: nat)
    requires KeysDistinct(es) && i < |es| && !IsDir(es[i])
    ensures Wanted(es[i]) in Sources(es) && Sources(es)[Wanted(es[i])] == es[i].data
  {
    var last := es[|es| - 1];
    if i < |es| - 1 {
      SourcesHave(es[..|es| - 1], i);
      assert Key(es[i]) != Key(last);
    }
  }

  lemma {:induction false} SourcesOnly(es: seq<Entry>, name: string) returns (i: nat)
    requires name in Sources(es)
    ensures i < |es| && !IsDir(es[i]) && Wanted(es[i]) == name
  {
    i := |es| - 1;
    if IsDir(es[i]) || Wanted(es[i]) != name {
      i := SourcesOnly(es[..|es| - 1], name);
    }
  }

  lemma SourcesSubset(a: seq<Entry>, b: seq<Entry>, name: string)
    requires multiset(a) == multiset(b) && KeysDistinct(a) && KeysDistinct(b) && name in Sources(a)
    ensures name in Sources(b) && Sources(b)[name] == Sources(a)[name]
  {
    var i := SourcesOnly(a, name);
    SourcesHave(a, i);
    SameElements(a, b, a[i]);
    var j :| 0 <= j < |b| && b[j] == a[i];
    SourcesHave(b, j);
  }

  /** Acceptance and the resulting map depend on which entries there are, not on their order. */
  lemma OrderIrrelevant(a: seq<Entry>, b: seq<Entry>, py: Python)
    requires multiset(a) == multiset(b)
    ensures Acceptable(a, py) <==> Acceptable(b, py)
    ensures Acceptable(a, py) ==> Sources(a) == Sources(b)
  {
    if Acceptable(b, py) {
      AcceptableOrder(b, a, py);
    }
    if Acceptable(a, py) {
      AcceptableOrder(a, b, py);
      forall name | name in Sources(a)
        ensures name in Sources(b) && Sources(b)[name] == Sources(a)[name]
      {
        SourcesSubset(a, b, name);
      }
      forall name | name in Sources(b)
        ensures name in Sources(a)
      {
        SourcesSubset(b, a, name);
      }
    }
  }
}
