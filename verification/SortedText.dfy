/** Sorting byte strings: slices.Sort and slices.Compact, Python's sorted. */
module SortedText {
  import opened Text

  /** slices.Sort, as insertion. */
  function Insert(x: string, s: seq<string>): seq<string> {
    if s == [] then [x]
    else if CompareText(x, s[0]) <= 0 then [x] + s
    else [s[0]] + Insert(x, s[1..])
  }

  function Sort(s: seq<string>): seq<string> {
    if s == [] then [] else Insert(s[0], Sort(s[1..]))
  }

  /** slices.Compact: drop an element equal to its successor. */
  function Compact(s: seq<string>): seq<string> {
    if |s| < 2 then s
    else if s[0] == s[1] then Compact(s[1..])
    else [s[0]] + Compact(s[1..])
  }

  ghost predicate Ascending(s: seq<string>) {
    forall i, j :: 0 <= i < j < |s| ==> CompareText(s[i], s[j]) <= 0
  }

  ghost predicate StrictlyAscending(s: seq<string>) {
    forall i, j :: 0 <= i < j < |s| ==> CompareText(s[i], s[j]) < 0
  }

  /** A lower bound in front of an ascending sequence keeps it ascending. */
  lemma AscendingCons(x: string, s: seq<string>)
    requires Ascending(s) && forall j :: 0 <= j < |s| ==> CompareText(x, s[j]) <= 0
    ensures Ascending([x] + s)
  {
  }

  lemma BelowAll(x: string, s: seq<string>)
    requires Ascending(s) && s != [] && CompareText(x, s[0]) <= 0
    ensures forall j :: 0 <= j < |s| ==> CompareText(x, s[j]) <= 0
    ensures CompareText(x, s[0]) < 0 ==> forall j :: 0 <= j < |s| ==> CompareText(x, s[j]) < 0
  {
    forall j | 0 < j < |s|
      ensures CompareText(x, s[j]) <= 0 && (CompareText(x, s[0]) < 0 ==> CompareText(x, s[j]) < 0)
    {
      CompareTextTransitive(x, s[0], s[j]);
    }
  }

  lemma {:induction false} InsertElements(x: string, s: seq<string>)
    ensures Elements(Insert(x, s)) == {x} + Elements(s)
  {
    ElementsConcat([x], s);
    if s != [] && CompareText(x, s[0]) > 0 {
      InsertElements(x, s[1..]);
      ElementsConcat([s[0]], Insert(x, s[1..]));
      ElementsConcat([s[0]], s[1..]);
      assert s == [s[0]] + s[1..];
    }
  }

  lemma {:induction false} InsertFacts(x: string, s: seq<string>)
    requires Ascending(s)
    ensures Ascending(Insert(x, s))
    ensures Elements(Insert(x, s)) == {x} + Elements(s)
  {
    InsertElements(x, s);
    if s == [] {
    } else if CompareText(x, s[0]) <= 0 {
      BelowAll(x, s);
      AscendingCons(x, s);
    } else {
      InsertFacts(x, s[1..]);
      CompareTextAntisymmetric(x, s[0]);
      HeadStaysBelow(x, s);
      AscendingCons(s[0], Insert(x, s[1..]));
    }
  }

  lemma HeadStaysBelow(x: string, s: seq<string>)
    requires s != [] && Ascending(s) && CompareText(s[0], x) <= 0
    ensures forall j :: 0 <= j < |Insert(x, s[1..])| ==> CompareText(s[0], Insert(x, s[1..])[j]) <= 0
  {
    var rest := Insert(x, s[1..]);
    InsertElements(x, s[1..]);
    forall j | 0 <= j < |rest| ensures CompareText(s[0], rest[j]) <= 0 {
      assert rest[j] in Elements(rest);
      if rest[j] != x {
        var i :| 0 <= i < |s[1..]| && s[1..][i] == rest[j];
      }
    }
  }

  lemma {:induction false} SortFacts(s: seq<string>)
    ensures Ascending(Sort(s))
    ensures Elements(Sort(s)) == Elements(s)
  {
    if s != [] {
      SortFacts(s[1..]);
      InsertFacts(s[0], Sort(s[1..]));
      ElementsConcat([s[0]], s[1..]);
      assert s == [s[0]] + s[1..];
    }
  }

  lemma StrictCons(x: string, s: seq<string>)
    requires StrictlyAscending(s) && forall j :: 0 <= j < |s| ==> CompareText(x, s[j]) < 0
    ensures StrictlyAscending([x] + s)
  {
  }

  lemma {:induction false} CompactElements(s: seq<string>)
    ensures Elements(Compact(s)) == Elements(s)
  {
    if |s| >= 2 {
      CompactElements(s[1..]);
      ElementsConcat([s[0]], s[1..]);
      assert s == [s[0]] + s[1..];
      ElementsConcat([s[0]], Compact(s[1..]));
      assert s[0] == s[1] ==> s[0] in Elements(s[1..]);
    }
  }

  lemma {:induction false} CompactFacts(s: seq<string>)
    requires Ascending(s)
    ensures StrictlyAscending(Compact(s))
    ensures Elements(Compact(s)) == Elements(s)
  {
    CompactElements(s);
    if |s| >= 2 {
      CompactFacts(s[1..]);
      if s[0] != s[1] {
        CompareTextAntisymmetric(s[0], s[1]);
        BelowAll(s[0], s[1..]);
        BelowElements(s[0], s[1..], Compact(s[1..]));
        StrictCons(s[0], Compact(s[1..]));
      }
    }
  }

  lemma BelowElements(x: string, s: seq<string>, t: seq<string>)
    requires Elements(s) == Elements(t) && forall j :: 0 <= j < |s| ==> CompareText(x, s[j]) < 0
    ensures forall j :: 0 <= j < |t| ==> CompareText(x, t[j]) < 0
  {
    forall j | 0 <= j < |t| ensures CompareText(x, t[j]) < 0 {
      assert t[j] in Elements(s);
      var i :| 0 <= i < |s| && s[i] == t[j];
    }
  }

  lemma {:induction false} AscendingUnique(a: seq<string>, b: seq<string>)
    requires StrictlyAscending(a) && StrictlyAscending(b) && Elements(a) == Elements(b)
    ensures a == b
  {
    if a == [] {
      ElementsEmpty(b);
    } else {
      assert a[0] in Elements(b) && (b != [] ==> b[0] in Elements(a));
      CompareTextAntisymmetric(a[0], b[0]);
      assert a[0] == b[0];
      TailElements(a);
      TailElements(b);
      AscendingUnique(a[1..], b[1..]);
      assert a == [a[0]] + a[1..] && b == [b[0]] + b[1..];
    }
  }

  lemma TailElements(a: seq<string>)
    requires a != [] && StrictlyAscending(a)
    ensures Elements(a[1..]) == Elements(a) - {a[0]}
  {
    assert a == [a[0]] + a[1..];
    forall i | 1 <= i < |a| ensures a[i] != a[0] {
      CompareTextAntisymmetric(a[0], a[i]);
    }
  }

  lemma StrictIsDistinct(s: seq<string>)
    requires StrictlyAscending(s)
    ensures Distinct(s)
  {
    forall i, j | 0 <= i < j < |s| ensures s[i] != s[j] {
      CompareTextAntisymmetric(s[i], s[j]);
    }
  }
}
