/** Scanning a list for its maximum under a comparator that need not be transitive: when the result is
    well defined, and when it depends on the order of the list.
 */
module MaxScan {
  import opened Text

  function Scan<T>(cmp: (T, T) -> int, cs: seq<T>): T
    requires cs != []
  {
    if |cs| == 1 then cs[0]
    else
      var best := Scan(cmp, cs[..|cs| - 1]);
      if cmp(best, cs[|cs| - 1]) < 0 then cs[|cs| - 1] else best
  }

  /** Between any two distinct elements exactly one wins. */
  ghost predicate Tournament<T>(cmp: (T, T) -> int, cs: seq<T>) {
    forall x, y :: x in cs && y in cs ==> cmp(x, y) == -cmp(y, x) && (x != y ==> cmp(x, y) != 0)
  }

  ghost predicate Transitive<T>(cmp: (T, T) -> int, cs: seq<T>) {
    forall x, y, z :: x in cs && y in cs && z in cs && cmp(x, y) < 0 && cmp(y, z) < 0 ==> cmp(x, z) < 0
  }

  /** `w` is in the list and beats every other element. */
  ghost predicate Dominant<T>(cmp: (T, T) -> int, cs: seq<T>, w: T) {
    w in cs && forall x :: x in cs && x != w ==> cmp(x, w) < 0
  }

  ghost predicate OrderIndependent<T(!new)>(cmp: (T, T) -> int, cs: seq<T>)
    requires cs != []
  {
    forall ds :: multiset(ds) == multiset(cs) && ds != [] ==> Scan(cmp, ds) == Scan(cmp, cs)
  }

  lemma SameMembers<T>(cs: seq<T>, ds: seq<T>)
    requires multiset(ds) == multiset(cs)
    ensures forall x :: x in ds <==> x in cs
  {
    assert forall x :: x in ds <==> x in multiset(ds);
    assert forall x :: x in cs <==> x in multiset(cs);
  }

  lemma {:induction false} ScanMember<T>(cmp: (T, T) -> int, cs: seq<T>)
    requires cs != []
    ensures Scan(cmp, cs) in cs
  {
    if |cs| > 1 {
      ScanMember(cmp, cs[..|cs| - 1]);
    }
  }

  lemma {:induction false} ScanFindsDominant<T>(cmp: (T, T) -> int, cs: seq<T>, w: T)
    requires cs != [] && Tournament(cmp, cs) && Dominant(cmp, cs, w)
    ensures Scan(cmp, cs) == w
  {
    var init, last := cs[..|cs| - 1], cs[|cs| - 1];
    LastSplit(cs);
    if init != [] {
      ScanMember(cmp, init);
      if w in init {
        ScanFindsDominant(cmp, init, w);
      }
    }
  }

  lemma {:induction false} ScanIsDominant<T>(cmp: (T, T) -> int, cs: seq<T>)
    requires cs != [] && Tournament(cmp, cs) && Transitive(cmp, cs)
    ensures Dominant(cmp, cs, Scan(cmp, cs))
  {
    ScanMember(cmp, cs);
    if |cs| > 1 {
      var init, last := cs[..|cs| - 1], cs[|cs| - 1];
      LastSplit(cs);
      ScanIsDominant(cmp, init);
    }
  }

  lemma MoveToEnd<T>(s: seq<T>, k: nat)
    requires k < |s|
    ensures multiset(s[..k] + s[k + 1..] + [s[k]]) == multiset(s)
  {
    assert s == s[..k] + [s[k]] + s[k + 1..];
  }

  lemma ScanSnoc<T>(cmp: (T, T) -> int, others: seq<T>, x: T)
    ensures var r := Scan(cmp, others + [x]);
            r == x || (others != [] && r == Scan(cmp, others) && cmp(r, x) >= 0)
  {
    assert (others + [x])[..|others|] == others;
  }

  lemma LoserMeetsWinner<T(!new)>(cmp: (T, T) -> int, cs: seq<T>, others: seq<T>, x: T)
    requires cs != [] && OrderIndependent(cmp, cs) && multiset(others + [x]) == multiset(cs)
    ensures Scan(cmp, cs) == x || cmp(Scan(cmp, cs), x) >= 0
  {
    ScanSnoc(cmp, others, x);
  }

  /** Moved to the end of the list, a loser meets the winner directly. */
  lemma LastInOrder<T(!new)>(cmp: (T, T) -> int, cs: seq<T>, x: T)
    requires cs != [] && OrderIndependent(cmp, cs) && Tournament(cmp, cs) && x in cs && x != Scan(cmp, cs)
    ensures cmp(x, Scan(cmp, cs)) < 0
  {
    assert cmp(Scan(cmp, cs), x) >= 0 by {
      var k :| 0 <= k < |cs| && cs[k] == x;
      MoveToEnd(cs, k);
      LoserMeetsWinner(cmp, cs, cs[..k] + cs[k + 1..], x);
    }
    ScanMember(cmp, cs);
  }

  /** The result does not depend on the order exactly when some element beats all others. */
  lemma OrderIndependentIff<T(!new)>(cmp: (T, T) -> int, cs: seq<T>)
    requires cs != [] && Tournament(cmp, cs)
    ensures OrderIndependent(cmp, cs) <==> exists w :: Dominant(cmp, cs, w)
  {
    if OrderIndependent(cmp, cs) {
      var w := Scan(cmp, cs);
      ScanMember(cmp, cs);
      forall x | x in cs && x != w ensures cmp(x, w) < 0 {
        LastInOrder(cmp, cs, x);
      }
      assert Dominant(cmp, cs, w);
    }
    if w :| Dominant(cmp, cs, w) {
      ScanFindsDominant(cmp, cs, w);
      forall ds | multiset(ds) == multiset(cs) && ds != [] ensures Scan(cmp, ds) == Scan(cmp, cs) {
        SameMembers(cs, ds);
        ScanFindsDominant(cmp, ds, w);
      }
    }
  }

  /** Three elements in a cycle make the result depend on the order. */
  lemma CycleBreaksOrder<T(!new)>(cmp: (T, T) -> int, a: T, b: T, c: T)
    requires Tournament(cmp, [a, b, c])
    requires cmp(a, b) < 0 && cmp(b, c) < 0 && cmp(c, a) < 0
    ensures !OrderIndependent(cmp, [a, b, c])
  {
    OrderIndependentIff(cmp, [a, b, c]);
    assert a in [a, b, c] && b in [a, b, c] && c in [a, b, c];
  }
}
