/** The traversal behind both query classes: walk the roots in order, skip the
    ones that do not exist, test a file root directly, and list a directory
    root, yielding the files (never the directories) that pass the filter;
    optionally drop every path already yielded. */
module Traversal {
  import opened Results
  import opened FileTree
  import Dedup

  /** The filter a query runs with: the default "is a file", or a predicate of
      the caller's. The file system is fixed during a query, so whatever a
      predicate reads about a file is a function of its path. */
  datatype Filter = IsFile | Custom(pred: Path -> bool)

  predicate Passes(f: Filter, e: Entry) {
    match f
    case IsFile => e.File?
    case Custom(pred) => pred(e.path)
  }

  /** The paths of the files among `es` that pass `f`, in order. */
  function FilesPassing(es: seq<Entry>, f: Filter): seq<Path> {
    if |es| == 0 then []
    else
      var e := es[|es| - 1];
      FilesPassing(es[..|es| - 1], f) + (if e.File? && Passes(f, e) then [e.path] else [])
  }

  lemma {:induction false} FilesPassingMembers(es: seq<Entry>, f: Filter, p: Path)
    ensures p in FilesPassing(es, f) <==> exists e :: e in es && e.File? && Passes(f, e) && e.path == p
  {
    if |es| > 0 {
      var init, e := es[..|es| - 1], es[|es| - 1];
      FilesPassingMembers(init, f, p);
      assert es == init + [e];
    }
  }

  /** What a root contributes to the stream before de-duplication: nothing
      when it is missing, itself when it is a file, and the listed files of a
      directory. A file root is judged by the filter alone, which for a file
      is the same as also asking that it be a file. */
  function Candidates(fs: FileSystem, root: Path, recursive: bool): seq<Entry> {
    match Lookup(fs, root)
    case None => []
    case Some(e) => if e.Dir? then Listing(e.children, recursive) else [e]
  }

  function RootMatches(fs: FileSystem, root: Path, recursive: bool, f: Filter): seq<Path> {
    FilesPassing(Candidates(fs, root, recursive), f)
  }

  /** The three root rules of `_iter_files`. */
  lemma RootRules(fs: FileSystem, root: Path, recursive: bool, f: Filter)
    ensures Lookup(fs, root).None? ==> RootMatches(fs, root, recursive, f) == []
    ensures Lookup(fs, root).Some? && Lookup(fs, root).value.File? ==>
      RootMatches(fs, root, recursive, f) == (if Passes(f, Lookup(fs, root).value) then [root] else [])
    ensures Lookup(fs, root).Some? && Lookup(fs, root).value.Dir? ==>
      forall p :: p in RootMatches(fs, root, recursive, f) <==>
        exists e :: e in Listing(Lookup(fs, root).value.children, recursive) && e.File? && Passes(f, e) && e.path == p
  {
    var cands := Candidates(fs, root, recursive);
    forall p {
      FilesPassingMembers(cands, f, p);
    }
    if Lookup(fs, root).Some? && Lookup(fs, root).value.File? {
      var e := Lookup(fs, root).value;
      assert cands == [e];
      assert [e][..0] == [];
      assert FilesPassing(cands, f) == FilesPassing([], f) + (if e.File? && Passes(f, e) then [e.path] else []);
    }
  }

  /** The stream over all roots, in root order, before de-duplication: what
      the first roots yield is a prefix of what all of them yield. */
  function Matches(fs: FileSystem, roots: seq<Path>, recursive: bool, f: Filter): (r: seq<Path>)
    ensures forall i :: 0 <= i <= |roots| ==> Matches(fs, roots[..i], recursive, f) <= r
  {
    if |roots| == 0 then []
    else
      var init := roots[..|roots| - 1];
      var r := Matches(fs, init, recursive, f) + RootMatches(fs, roots[|roots| - 1], recursive, f);
      assert forall i :: 0 <= i < |roots| ==> roots[..i] == init[..i];
      assert roots[..|roots|] == roots;
      r
  }

  /** One more root appends its own matches. */
  lemma MatchesNext(fs: FileSystem, roots: seq<Path>, i: nat, recursive: bool, f: Filter)
    requires i < |roots|
    ensures Matches(fs, roots[..i + 1], recursive, f)
         == Matches(fs, roots[..i], recursive, f) + RootMatches(fs, roots[i], recursive, f)
  {
    assert roots[..i + 1][..i] == roots[..i];
  }

  /** Everything yielded is an existing file that passes the filter, found
      under (or at) one of the roots. */
  lemma {:induction false} MatchesAreFiles(fs: FileSystem, roots: seq<Path>, recursive: bool, f: Filter, p: Path)
    requires p in Matches(fs, roots, recursive, f)
    ensures exists i, e :: 0 <= i < |roots| && e in Candidates(fs, roots[i], recursive) && e.File? && Passes(f, e) && e.path == p
  {
    var init, last := roots[..|roots| - 1], roots[|roots| - 1];
    if p in Matches(fs, init, recursive, f) {
      MatchesAreFiles(fs, init, recursive, f, p);
      var i, e :| 0 <= i < |init| && e in Candidates(fs, init[i], recursive) && e.File? && Passes(f, e) && e.path == p;
      assert roots[i] == init[i];
    } else {
      FilesPassingMembers(Candidates(fs, last, recursive), f, p);
      assert roots[|roots| - 1] == last;
    }
  }

  /** What is yielded from a stream, with or without de-duplication. */
  function Yielded(all: seq<Path>, distinct: bool): seq<Path> {
    if distinct then Dedup.FirstOccurrences(all) else all
  }

  /** The full output of `_iter_files`. */
  function Stream(fs: FileSystem, roots: seq<Path>, recursive: bool, f: Filter, distinct: bool): (r: seq<Path>)
    ensures distinct ==> Dedup.NoDuplicates(r)
    ensures forall p :: p in r <==> p in Matches(fs, roots, recursive, f)
  {
    Dedup.FirstOccurrencesFacts(Matches(fs, roots, recursive, f));
    Yielded(Matches(fs, roots, recursive, f), distinct)
  }

  /** `seen` holds exactly what has been yielded when de-duplicating, and
      stays empty otherwise. */
  ghost predicate Tracks(seen: set<Path>, out: seq<Path>, distinct: bool) {
    forall p :: p in seen <==> distinct && p in out
  }

  /** One passing file reaching the yield point of `_iter_files`: skipped if
      de-duplication has seen it, otherwise recorded and yielded. */
  function Offer(out: seq<Path>, seen: set<Path>, p: Path, distinct: bool): (seq<Path>, set<Path>) {
    if !distinct then (out + [p], seen)
    else if p in seen then (out, seen)
    else (out + [p], seen + {p})
  }

  /** Offering one more passing file keeps the output equal to the reference
      stream and `seen` in step with it. */
  lemma YieldStep(all: seq<Path>, out: seq<Path>, seen: set<Path>, p: Path, distinct: bool)
    requires out == Yielded(all, distinct)
    requires Tracks(seen, out, distinct)
    ensures Offer(out, seen, p, distinct).0 == Yielded(all + [p], distinct)
    ensures Tracks(Offer(out, seen, p, distinct).1, Offer(out, seen, p, distinct).0, distinct)
  {
    if distinct {
      Dedup.FirstOccurrencesFacts(all);
      Dedup.FirstOccurrencesSnoc(all, p);
    }
  }

  /** The passing files of one more candidate. */
  lemma FilesPassingNext(cands: seq<Entry>, j: nat, f: Filter)
    requires j < |cands|
    ensures FilesPassing(cands[..j + 1], f)
         == FilesPassing(cands[..j], f) + (if cands[j].File? && Passes(f, cands[j]) then [cands[j].path] else [])
  {
    assert cands[..j + 1][..j] == cands[..j];
  }

  /** The inner loop of `_iter_files` over one root's candidates. */
  method YieldRoot(cands: seq<Entry>, f: Filter, distinct: bool, ghost before: seq<Path>,
                   out0: seq<Path>, seen0: set<Path>)
    returns (out: seq<Path>, seen: set<Path>)
    requires out0 == Yielded(before, distinct)
    requires Tracks(seen0, out0, distinct)
    ensures out == Yielded(before + FilesPassing(cands, f), distinct)
    ensures Tracks(seen, out, distinct)
  {
    out, seen := out0, seen0;
    ghost var all := before;
    for j := 0 to |cands|
      invariant all == before + FilesPassing(cands[..j], f)
      invariant out == Yielded(all, distinct)
      invariant Tracks(seen, out, distinct)
    {
      var e := cands[j];
      FilesPassingNext(cands, j, f);
      if e.File? && Passes(f, e) {
        YieldStep(all, out, seen, e.path, distinct);
        out, seen := Offer(out, seen, e.path, distinct).0, Offer(out, seen, e.path, distinct).1;
        assert before + (FilesPassing(cands[..j], f) + [e.path]) == all + [e.path];
        all := all + [e.path];
      }
    }
    assert cands[..|cands|] == cands;
  }

  /** `_iter_files` as a loop: roots in order, the candidates of each root in
      order, and a set of the paths already yielded when de-duplicating. */
  method IterFiles(fs: FileSystem, roots: seq<Path>, recursive: bool, f: Filter, distinct: bool)
    returns (out: seq<Path>)
    ensures out == Stream(fs, roots, recursive, f, distinct)
  {
    out := [];
    var seen: set<Path> := {};
    for i := 0 to |roots|
      invariant out == Yielded(Matches(fs, roots[..i], recursive, f), distinct)
      invariant Tracks(seen, out, distinct)
    {
      out, seen := YieldRoot(Candidates(fs, roots[i], recursive), f, distinct,
                             Matches(fs, roots[..i], recursive, f), out, seen);
      MatchesNext(fs, roots, i, recursive, f);
    }
    assert roots[..|roots|] == roots;
  }

  /** The nested tree of the glob-versus-rglob example: a file at the top,
      one in a sub-directory, and one a level deeper. */
  const ExampleTree: FileSystem := [
    Dir("t", [
      File("t/root.txt"),
      Dir("t/sub1", [
        File("t/sub1/sub1.txt"),
        Dir("t/sub1/sub2", [File("t/sub1/sub2/deep.txt")])])])]

  /** The passing files of a concatenation are those of each part in turn. */
  lemma {:induction false} FilesPassingAppend(a: seq<Entry>, b: seq<Entry>, f: Filter)
    ensures FilesPassing(a + b, f) == FilesPassing(a, f) + FilesPassing(b, f)
    decreases |b|
  {
    if |b| == 0 {
      assert a + b == a;
    } else {
      var init, e := b[..|b| - 1], b[|b| - 1];
      assert (a + b)[..|a + b| - 1] == a + init;
      FilesPassingAppend(a, init, f);
    }
  }

  lemma FilesPassingOne(e: Entry, f: Filter)
    ensures FilesPassing([e], f) == if e.File? && Passes(f, e) then [e.path] else []
  {
    assert [e][..0] == [];
  }

  /** Files and directories alternating: only the files come through when
      the filter accepts each of them. */
  lemma {:induction false} FilesPassingAlternating(a: Entry, b: Entry, c: Entry, d: Entry, e: Entry, f: Filter)
    requires a.File? && b.Dir? && c.File? && d.Dir? && e.File?
    requires Passes(f, a) && Passes(f, c) && Passes(f, e)
    ensures FilesPassing([a, b], f) == [a.path]
    ensures FilesPassing([c, d], f) == [c.path]
    ensures FilesPassing([a, b, c, d, e], f) == [a.path, c.path, e.path]
  {
    FilesPassingOne(a, f);
    FilesPassingOne(b, f);
    FilesPassingOne(c, f);
    FilesPassingOne(d, f);
    FilesPassingOne(e, f);
    FilesPassingAppend([a], [b], f);
    FilesPassingAppend([c], [d], f);
    FilesPassingAppend([c, d], [e], f);
    FilesPassingAppend([a, b], [c, d, e], f);
    assert [a, b] + [c, d, e] == [a, b, c, d, e];
    assert [c, d] + [e] == [c, d, e];
  }

  /** The example's filter: the path ends in ".txt", standing in for
      `p.suffix == ".txt"` (the two agree on every path of the example). */
  predicate EndsInTxt(p: Path) {
    |p| >= 4 && p[|p| - 4..] == ".txt"
  }

  /** The listing of a three-level tree shaped like the example: a file and
      a sub-directory at each level, a single file at the bottom. */
  lemma {:induction false} ThreeLevels(t: Entry, top: Entry, sub1: Entry, mid: Entry, sub2: Entry, deep: Entry)
    requires t.Dir? && t.children == [top, sub1]
    requires sub1.Dir? && sub1.children == [mid, sub2]
    requires sub2.Dir? && sub2.children == [deep]
    requires top.File? && mid.File? && deep.File?
    ensures Flatten([t]) == [t] + Flatten(t.children)
    ensures Flatten(t.children) == [top, sub1, mid, sub2, deep]
  {
    BelowOne(deep);
    BelowOne(sub2);
    BelowOne(mid);
    BelowTwo(mid, sub2);
    assert Flatten([mid, sub2]) == [mid, sub2, deep];
    BelowOne(top);
    BelowOne(sub1);
    BelowTwo(top, sub1);
    BelowOne(t);
  }

  /** The entries of the example tree in listing order: a directory's own
      entries, then its sub-directories' listings. */
  lemma ExampleFlattened()
    ensures Flatten(ExampleTree) == [ExampleTree[0]] + Flatten(ExampleTree[0].children)
    ensures Flatten(ExampleTree[0].children)
         == [File("t/root.txt"), Dir("t/sub1", [File("t/sub1/sub1.txt"), Dir("t/sub1/sub2", [File("t/sub1/sub2/deep.txt")])]),
             File("t/sub1/sub1.txt"), Dir("t/sub1/sub2", [File("t/sub1/sub2/deep.txt")]), File("t/sub1/sub2/deep.txt")]
  {
    var t := ExampleTree[0];
    var sub1 := t.children[1];
    ThreeLevels(t, t.children[0], sub1, sub1.children[0], sub1.children[1], sub1.children[1].children[0]);
  }

  /** A directory holding a sub-directory with one file, then a file of its
      own: the recursive listing puts its own file before the deeper one. */
  lemma {:induction false} FileAfterSubdirectory(a: Entry, b: Entry, x: Entry, f: Filter)
    requires a.Dir? && a.children == [x] && x.File? && b.File?
    requires Passes(f, b) && Passes(f, x)
    ensures Listing([a, b], true) == [a, b, x]
    ensures FilesPassing([a, b, x], f) == [b.path, x.path]
  {
    BelowOne(x);
    BelowOne(a);
    BelowOne(b);
    BelowTwo(a, b);
    FilesPassingOne(a, f);
    FilesPassingOne(b, f);
    FilesPassingOne(x, f);
    FilesPassingAppend([a], [b], f);
    FilesPassingAppend([a, b], [x], f);
    assert [a] + [b] == [a, b];
    assert [a, b] + [x] == [a, b, x];
  }

  /** A directory's own files come before the files of its sub-directories,
      whatever order the directory lists them in: in `t` holding the
      directory `t/a` (with the file `t/a/x`) and then the file `t/b`,
      `t/b` comes first. */
  lemma {:induction false} OwnFilesFirst()
    ensures RootMatches([Dir("t", [Dir("t/a", [File("t/a/x")]), File("t/b")])], "t", true, IsFile) == ["t/b", "t/a/x"]
  {
    var x, b := File("t/a/x"), File("t/b");
    var a := Dir("t/a", [x]);
    var t := Dir("t", [a, b]);
    assert Flatten([t])[..1] == [t];
    assert Lookup([t], "t") == Some(t);
    FileAfterSubdirectory(a, b, x, IsFile);
  }

  /** Recursive against flat search on a tree shaped like the example, for
      a filter that accepts its three files. */
  lemma {:induction false} GlobVersusRglobShape(t: Entry, a: Entry, sub1: Entry, c: Entry, sub2: Entry, e: Entry, f: Filter)
    requires t.Dir? && t.children == [a, sub1]
    requires sub1.Dir? && sub1.children == [c, sub2]
    requires sub2.Dir? && sub2.children == [e]
    requires a.File? && c.File? && e.File?
    requires t.path != sub1.path && a.path != sub1.path
    requires Passes(f, a) && Passes(f, c) && Passes(f, e)
    ensures RootMatches([t], t.path, true, f) == [a.path, c.path, e.path]
    ensures RootMatches([t], t.path, false, f) == [a.path]
    ensures RootMatches([t], sub1.path, false, f) == [c.path]
  {
    ThreeLevels(t, a, sub1, c, sub2, e);
    var all := [t, a, sub1, c, sub2, e];
    assert Flatten([t]) == all;
    assert Lookup([t], t.path) == Some(t);
    assert Find(all[2..], sub1.path) == Some(sub1);
    assert Find(all[1..], sub1.path) == Some(sub1);
    assert Lookup([t], sub1.path) == Some(sub1);
    FilesPassingAlternating(a, sub1, c, sub2, e, f);
  }

  /** With the ".txt" filter, recursive search finds all three files, a flat
      one only the top file, and a flat search of the sub-directory only its
      own file. */
  lemma {:induction false} GlobVersusRglob()
    ensures RootMatches(ExampleTree, "t", true, Custom(EndsInTxt)) == ["t/root.txt", "t/sub1/sub1.txt", "t/sub1/sub2/deep.txt"]
    ensures RootMatches(ExampleTree, "t", false, Custom(EndsInTxt)) == ["t/root.txt"]
    ensures RootMatches(ExampleTree, "t/sub1", false, Custom(EndsInTxt)) == ["t/sub1/sub1.txt"]
  {
    var t := ExampleTree[0];
    var a, sub1 := t.children[0], t.children[1];
    var c, sub2 := sub1.children[0], sub1.children[1];
    var e := sub2.children[0];
    assert EndsInTxt(a.path) && EndsInTxt(c.path) && EndsInTxt(e.path);
    GlobVersusRglobShape(t, a, sub1, c, sub2, e, Custom(EndsInTxt));
  }
}
