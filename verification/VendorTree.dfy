/** Building a directory tree from archive entries (scripts/extract_sbom_vendor.py): entries that fit
    together extract without a collision, into one tree that does not depend on their order.
 */
module VendorTree {
  import opened Wrappers
  import opened Text

  /** PurePosixPath.parts, relative to the extraction root. */
  type Path = seq<string>

  datatype Node = Dir | FileNode(content: string, mode: nat)

  type Fs = map<Path, Node>

  /** A validated archive member. */
  datatype Entry = Entry(path: Path, node: Node)

  function Parent(p: Path): Path
    requires p != []
  {
    p[..|p| - 1]
  }

  // ----- File system operations -----------------------------------------------------------------

  /** Path.mkdir(parents=True, exist_ok=True): a file in the way is an error. */
  function MkdirAll(fs: Fs, p: Path): Option<Fs> {
    if p in fs then (if fs[p] == Dir then Some(fs) else None)
    else if p == [] then None
    else
      var parent := MkdirAll(fs, Parent(p));
      if parent.None? then None else Some(parent.value[p := Dir])
  }

  /** open("xb"), write, chmod: the file must not exist, its directory must. */
  function CreateFile(fs: Fs, p: Path, node: Node): Option<Fs> {
    if p in fs || p == [] || Parent(p) !in fs || fs[Parent(p)] != Dir then None else Some(fs[p := node])
  }

  function ExtractOne(fs: Fs, e: Entry): Option<Fs> {
    if e.node == Dir then MkdirAll(fs, e.path)
    else if e.path == [] then None
    else
      var parent := MkdirAll(fs, Parent(e.path));
      if parent.None? then None else CreateFile(parent.value, e.path, e.node)
  }

  function ExtractAll(fs: Fs, es: seq<Entry>): Option<Fs> {
    if es == [] then Some(fs)
    else
      var before := ExtractAll(fs, es[..|es| - 1]);
      if before.None? then None else ExtractOne(before.value, es[|es| - 1])
  }

  /** Everything stands in a directory. */
  ghost predicate Nested(fs: Fs) {
    forall p :: p in fs && p != [] ==> Parent(p) in fs && fs[Parent(p)] == Dir
  }

  /** Nothing that is there changes. */
  ghost predicate Extends(fs: Fs, fs': Fs) {
    forall p :: p in fs ==> p in fs' && fs'[p] == fs[p]
  }

  lemma {:induction false} MkdirIsSafe(fs: Fs, p: Path)
    requires Nested(fs)
    ensures MkdirAll(fs, p).Some? ==>
              var fs' := MkdirAll(fs, p).value; Nested(fs') && Extends(fs, fs') && p in fs' && fs'[p] == Dir
  {
    if p !in fs && p != [] {
      MkdirIsSafe(fs, Parent(p));
      if MkdirAll(fs, Parent(p)).Some? {
        NewDirIsSafe(fs, MkdirAll(fs, Parent(p)).value, p);
      }
    }
  }

  lemma NewDirIsSafe(fs: Fs, parent: Fs, p: Path)
    requires p != [] && p !in fs && Nested(parent) && Extends(fs, parent)
    requires Parent(p) in parent && parent[Parent(p)] == Dir
    ensures var fs' := parent[p := Dir]; Nested(fs') && Extends(fs, fs')
  {
  }

  /** Extraction of one entry, if it succeeds, never overwrites, puts the entry in its place and everything into
      directories; a file must not have been there. */
  lemma ExtractionIsSafe(fs: Fs, e: Entry)
    requires Nested(fs) && ExtractOne(fs, e).Some?
    ensures var fs' := ExtractOne(fs, e).value;
            && Nested(fs') && Extends(fs, fs') && e.path in fs' && fs'[e.path] == e.node
            && (e.node.FileNode? ==> e.path !in fs)
  {
    if e.node == Dir {
      MkdirIsSafe(fs, e.path);
    } else {
      MkdirIsSafe(fs, Parent(e.path));
      var parent := MkdirAll(fs, Parent(e.path)).value;
      assert CreateFile(parent, e.path, e.node).Some?;
      NewFileIsSafe(fs, parent, e);
    }
  }

  lemma NewFileIsSafe(fs: Fs, parent: Fs, e: Entry)
    requires Nested(parent) && Extends(fs, parent) && CreateFile(parent, e.path, e.node).Some?
    ensures var fs' := CreateFile(parent, e.path, e.node).value;
            && Nested(fs') && Extends(fs, fs') && e.path in fs' && fs'[e.path] == e.node && e.path !in fs
  {
    var fs' := CreateFile(parent, e.path, e.node).value;
    forall p | p in fs' && p != [] ensures Parent(p) in fs' && fs'[Parent(p)] == Dir {
      if p != e.path {
        assert Parent(p) in parent && parent[Parent(p)] == Dir;
      }
    }
  }

  // ----- Entries that fit together --------------------------------------------------------------

  /** Distinct paths, and neither is a file where the other needs a directory. */
  ghost predicate Compatible(x: Entry, y: Entry) {
    && x.path != y.path
    && !(x.node.FileNode? && x.path < y.path)
    && !(y.node.FileNode? && y.path < x.path)
  }

  ghost predicate Fits(es: seq<Entry>, e: Entry) {
    e.path != [] && e.path[0] == "vendor" && forall x :: x in es ==> Compatible(x, e)
  }

  ghost predicate FitTogether(es: seq<Entry>) {
    es == [] || (FitTogether(es[..|es| - 1]) && Fits(es[..|es| - 1], es[|es| - 1]))
  }

  lemma {:induction false} EachFits(es: seq<Entry>, x: Entry)
    requires FitTogether(es) && x in es
    ensures x.path != [] && x.path[0] == "vendor"
    ensures forall y :: y in es && y != x ==> Compatible(x, y)
  {
    var init, last := es[..|es| - 1], es[|es| - 1];
    LastSplit(es);
    if x in init {
      EachFits(init, x);
    }
  }

  // ----- The tree -------------------------------------------------------------------------------

  /** A directory at every non-empty prefix of `p`. */
  ghost function DirsTo(p: Path): Fs {
    if p == [] then map[] else DirsTo(Parent(p))[p := Dir]
  }

  ghost function Contribution(e: Entry): Fs {
    if e.path == [] then map[] else DirsTo(Parent(e.path))[e.path := e.node]
  }

  ghost function Tree(es: seq<Entry>): Fs {
    if es == [] then map[] else Tree(es[..|es| - 1]) + Contribution(es[|es| - 1])
  }

  lemma PrefixOfParent(p: Path, q: Path)
    requires p != []
    ensures q <= p <==> q == p || q <= Parent(p)
  {
    assert p == Parent(p) + [p[|p| - 1]];
    if q <= p && q != p {
      assert q == p[..|q|] == Parent(p)[..|q|];
    }
  }

  lemma {:induction false} DirsToAt(p: Path, q: Path)
    ensures q in DirsTo(p) <==> q != [] && q <= p
    ensures q in DirsTo(p) ==> DirsTo(p)[q] == Dir
  {
    if p != [] {
      DirsToAt(Parent(p), q);
      PrefixOfParent(p, q);
    }
  }

  lemma ContributionAt(e: Entry, q: Path)
    ensures q in Contribution(e) <==> q != [] && q <= e.path
    ensures q in Contribution(e) ==> Contribution(e)[q] == if q == e.path then e.node else Dir
  {
    if e.path != [] {
      DirsToAt(Parent(e.path), q);
      PrefixOfParent(e.path, q);
    }
  }

  ghost predicate Needed(es: seq<Entry>, q: Path) {
    exists e :: e in es && q <= e.path
  }

  lemma NeededSnoc(es: seq<Entry>, e: Entry, q: Path)
    ensures Needed(es + [e], q) <==> Needed(es, q) || q <= e.path
  {
    assert e in es + [e];
    if Needed(es, q) {
      var x :| x in es && q <= x.path;
      assert x in es + [e];
    }
  }

  /** The tree holds exactly the entries' paths and all their proper ancestors; an entry's own path holds
      its node, every other path is a directory. */
  lemma {:induction false} TreeAt(es: seq<Entry>, q: Path)
    requires FitTogether(es)
    ensures q in Tree(es) <==> q != [] && Needed(es, q)
    ensures forall e :: e in es && e.path == q ==> q in Tree(es) && Tree(es)[q] == e.node
    ensures q in Tree(es) && (forall e :: e in es ==> e.path != q) ==> Tree(es)[q] == Dir
  {
    if es != [] {
      var init, last := es[..|es| - 1], es[|es| - 1];
      LastSplit(es);
      TreeAt(init, q);
      ContributionAt(last, q);
      NeededSnoc(init, last, q);
      forall e | e in es && e.path == q ensures q in Tree(es) && Tree(es)[q] == e.node {
        assert e in init || e == last;
        assert e in init ==> Compatible(e, last);
      }
    }
  }

  // ----- Extraction -----------------------------------------------------------------------------

  /** Every existing path lies in an existing directory. */
  ghost predicate Rooted(fs: Fs) {
    && [] in fs && fs[[]] == Dir
    && forall p :: p in fs && p != [] ==> Parent(p) in fs && fs[Parent(p)] == Dir
  }

  lemma {:induction false} AncestorsExist(fs: Fs, p: Path, q: Path)
    requires Rooted(fs) && p in fs && q <= p
    ensures q in fs && (q != p ==> fs[q] == Dir)
  {
    if q != p {
      PrefixOfParent(p, q);
      AncestorsExist(fs, Parent(p), q);
    }
  }

  lemma {:induction false} MkdirAllAdds(fs: Fs, p: Path)
    requires Rooted(fs)
    requires forall q :: q <= p && q in fs ==> fs[q] == Dir
    ensures MkdirAll(fs, p) == Some(fs + DirsTo(p))
  {
    if p in fs {
      forall q | q in DirsTo(p) ensures q in fs && DirsTo(p)[q] == fs[q] {
        DirsToAt(p, q);
        AncestorsExist(fs, p, q);
      }
      assert fs + DirsTo(p) == fs;
    } else {
      forall q | q <= Parent(p) && q in fs ensures fs[q] == Dir {
        PrefixOfParent(p, q);
      }
      MkdirAllAdds(fs, Parent(p));
      assert (fs + DirsTo(Parent(p)))[p := Dir] == fs + DirsTo(p);
    }
  }

  /** The destination check: the root exists and has no vendor entry. */
  ghost predicate Fresh(fs: Fs) {
    Rooted(fs) && ["vendor"] !in fs
  }

  lemma NothingBelowVendor(fs: Fs, q: Path)
    requires Fresh(fs) && q != [] && q[0] == "vendor"
    ensures q !in fs
  {
    if q in fs {
      assert ["vendor"] <= q;
      AncestorsExist(fs, q, ["vendor"]);
    }
  }

  lemma TreeIsNew(fs: Fs, es: seq<Entry>, q: Path)
    requires Fresh(fs) && FitTogether(es) && q in Tree(es)
    ensures q !in fs && q != [] && q[0] == "vendor"
  {
    TreeAt(es, q);
    var e :| e in es && q <= e.path;
    EachFits(es, e);
    NothingBelowVendor(fs, q);
  }

  /** Directories lie above everything in the tree. */
  lemma AncestorsAreDirs(es: seq<Entry>, e: Entry, q: Path)
    requires FitTogether(es) && e in es && q < e.path && q != []
    ensures q in Tree(es) && Tree(es)[q] == Dir
  {
    TreeAt(es, q);
    assert Needed(es, q);
    forall x | x in es && x.path == q ensures x.node == Dir {
      EachFits(es, x);
    }
  }

  lemma TreeRooted(fs: Fs, es: seq<Entry>)
    requires Fresh(fs) && FitTogether(es)
    ensures Rooted(fs + Tree(es))
  {
    var now := fs + Tree(es);
    forall p | p in now && p != [] ensures Parent(p) in now && now[Parent(p)] == Dir {
      if p in Tree(es) {
        TreeAt(es, p);
        if Parent(p) != [] {
          var e :| e in es && p <= e.path;
          PrefixOfParent(p, Parent(p));
          AncestorsAreDirs(es, e, Parent(p));
        } else if Parent(p) in Tree(es) {
          TreeIsNew(fs, es, Parent(p));
        }
      } else if Parent(p) in Tree(es) {
        TreeIsNew(fs, es, Parent(p));
      }
    }
    if [] in Tree(es) {
      TreeIsNew(fs, es, []);
    }
  }

  /** Where a proper ancestor of the next entry exists, it is a directory. */
  lemma RoomForNext(fs: Fs, es: seq<Entry>, e: Entry, q: Path)
    requires Fresh(fs) && FitTogether(es) && Fits(es, e) && q <= e.path && q in fs + Tree(es)
    ensures q != e.path || e.node == Dir ==> (fs + Tree(es))[q] == Dir
    ensures q == e.path ==> e.node == Dir
  {
    if q == [] {
      TreeAt(es, q);
    } else {
      assert q[0] == e.path[0];
      NothingBelowVendor(fs, q);
      TreeAt(es, q);
      var x :| x in es && q <= x.path;
      assert Compatible(x, e);
      forall y | y in es && y.path == q ensures y.node == Dir && q != e.path {
        assert Compatible(y, e);
      }
    }
  }

  lemma ExtractOneAdds(fs: Fs, es: seq<Entry>, e: Entry)
    requires Fresh(fs) && FitTogether(es) && Fits(es, e)
    ensures ExtractOne(fs + Tree(es), e) == Some(fs + Tree(es) + Contribution(e))
  {
    var now, p := fs + Tree(es), e.path;
    TreeRooted(fs, es);
    forall q | q <= p && q in now ensures (q != p || e.node == Dir ==> now[q] == Dir) && (q == p ==> e.node == Dir) {
      RoomForNext(fs, es, e, q);
    }
    if e.node == Dir {
      MkdirAllAdds(now, p);
      assert DirsTo(p) == Contribution(e);
    } else {
      forall q | q <= Parent(p) && q in now ensures now[q] == Dir {
        PrefixOfParent(p, q);
      }
      MkdirAllAdds(now, Parent(p));
      FileFits(now, e);
    }
  }

  lemma FileFits(now: Fs, e: Entry)
    requires e.path != [] && e.path !in now && [] in now && now[[]] == Dir
    ensures CreateFile(now + DirsTo(Parent(e.path)), e.path, e.node) == Some(now + Contribution(e))
  {
    var parent := Parent(e.path);
    DirsToAt(parent, e.path);
    DirsToAt(parent, parent);
    var made := now + DirsTo(parent);
    assert made[e.path := e.node] == now + Contribution(e);
  }

  lemma AddInTwoSteps(fs: Fs, a: Fs, b: Fs)
    ensures fs + a + b == fs + (a + b)
  {
  }

  /** Entries that fit together extract into a fresh root without a collision, and add exactly their tree. */
  lemma {:induction false} FittingEntriesExtract(fs: Fs, es: seq<Entry>)
    requires Fresh(fs) && FitTogether(es)
    ensures ExtractAll(fs, es) == Some(fs + Tree(es))
  {
    if es == [] {
      assert fs + Tree(es) == fs;
    } else {
      var init, last := es[..|es| - 1], es[|es| - 1];
      FittingEntriesExtract(fs, init);
      ExtractOneAdds(fs, init, last);
      AddInTwoSteps(fs, Tree(init), Contribution(last));
    }
  }

  /** The tree depends on the entries, not on their order. */
  lemma SameTree(a: seq<Entry>, b: seq<Entry>)
    requires FitTogether(a) && FitTogether(b) && Elements(a) == Elements(b)
    ensures Tree(a) == Tree(b)
  {
    forall e ensures e in a <==> e in b {
      assert e in a <==> e in Elements(a);
      assert e in b <==> e in Elements(b);
    }
    forall q ensures q in Tree(a) <==> q in Tree(b) {
      TreeAt(a, q);
      TreeAt(b, q);
    }
    forall q | q in Tree(a) ensures Tree(a)[q] == Tree(b)[q] {
      TreeAt(a, q);
      TreeAt(b, q);
    }
  }
}
