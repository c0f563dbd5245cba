/** An abstract directory tree standing in for the real file system: the
    queries only ever ask whether a path exists, whether it is a directory
    or a file, and what `glob("*")` / `rglob("*")` list below a directory. */
module FileTree {
  import opened Results

  type Path = string

  datatype Entry = File(path: Path) | Dir(path: Path, children: seq<Entry>)

  /** The top-level entries of the tree. */
  type FileSystem = seq<Entry>

  /** `TPath(s)`: the empty string names the current directory. Other
      normalisation done by `pathlib` is not modelled. */
  function AsPath(s: string): (p: Path)
    ensures s == "" ==> p == "."
    ensures s != "" ==> p == s
  {
    if s == "" then "." else s
  }

  function AsPaths(ss: seq<string>): (ps: seq<Path>)
    ensures |ps| == |ss|
    ensures forall i :: 0 <= i < |ss| ==> ps[i] == AsPath(ss[i])
  {
    if |ss| == 0 then [] else [AsPath(ss[0])] + AsPaths(ss[1..])
  }

  /** What `rglob("*")` lists below a directory whose children are `es`:
      the children themselves, then, for each sub-directory in turn, its own
      recursive listing. This is the order of CPython 3.11's `rglob`, which
      walks the directories depth-first and lists each one's entries
      together; the order of `es` itself is the operating system's. */
  function Flatten(es: seq<Entry>): (r: seq<Entry>)
    ensures |es| <= |r| && r[..|es|] == es
    ensures forall e :: e in es ==> e in r
    decreases es, 1
  {
    es + Below(es)
  }

  /** The recursive listings of the sub-directories among `es`, in order. */
  function Below(es: seq<Entry>): seq<Entry>
    decreases es, 0
  {
    if |es| == 0 then []
    else (if es[0].Dir? then Flatten(es[0].children) else []) + Below(es[1..])
  }

  lemma BelowOne(e: Entry)
    ensures Below([e]) == if e.Dir? then Flatten(e.children) else []
  {
    assert [e][1..] == [];
  }

  lemma BelowTwo(x: Entry, y: Entry)
    ensures Below([x, y]) == Below([x]) + Below([y])
  {
    assert [x, y][1..] == [y];
    assert [x][1..] == [] && [y][1..] == [];
  }

  /** What a directory's `rglob("*")` (recursive) or `glob("*")` lists: in
      both cases its own entries come first, in the operating system's
      order. */
  function Listing(children: seq<Entry>, recursive: bool): (r: seq<Entry>)
    ensures !recursive ==> r == children
    ensures recursive ==> |children| <= |r| && r[..|children|] == children
  {
    if recursive then Flatten(children)
    else children
  }

  /** The first entry in `es` carrying path `p`. */
  function Find(es: seq<Entry>, p: Path): (r: Option<Entry>)
    ensures r.Some? ==> r.value in es && r.value.path == p
    ensures r.None? <==> forall i :: 0 <= i < |es| ==> es[i].path != p
  {
    if |es| == 0 then None
    else if es[0].path == p then Some(es[0])
    else Find(es[1..], p)
  }

  /** The entry a path names, if it exists. */
  function Lookup(fs: FileSystem, p: Path): Option<Entry> {
    Find(Flatten(fs), p)
  }

  /** Every entry listed below a sub-directory of `es` is in `Below(es)`. */
  lemma {:induction false} BelowContains(es: seq<Entry>, d: Entry, e: Entry)
    requires d in es && d.Dir? && e in Flatten(d.children)
    ensures e in Below(es)
    decreases es
  {
    if es[0] != d {
      BelowContains(es[1..], d, e);
    }
  }

  /** The recursive listing also reaches the grandchildren, after all of the
      directory's own entries. */
  lemma {:induction false} GrandchildrenListedRecursively(children: seq<Entry>, d: Entry)
    requires d in children && d.Dir?
    ensures forall e :: e in d.children ==> e in Listing(children, true)[|children|..]
  {
    forall e | e in d.children
      ensures e in Listing(children, true)[|children|..]
    {
      BelowContains(children, d, e);
      assert Flatten(children)[|children|..] == Below(children);
    }
  }

  /** The listing is closed under taking children: the children of every
      directory it reaches are reached too. */
  lemma {:induction false} FlattenClosed(es: seq<Entry>, d: Entry, e: Entry)
    requires d in Flatten(es) && d.Dir? && e in d.children
    ensures e in Flatten(es)
    decreases es, 1
  {
    if d in es {
      BelowContains(es, d, e);
    } else {
      BelowClosed(es, d, e);
    }
  }

  lemma {:induction false} BelowClosed(es: seq<Entry>, d: Entry, e: Entry)
    requires d in Below(es) && d.Dir? && e in d.children
    ensures e in Below(es)
    decreases es, 0
  {
    var first := if es[0].Dir? then Flatten(es[0].children) else [];
    assert Below(es) == first + Below(es[1..]);
    if d in first {
      FlattenClosed(es[0].children, d, e);
    } else {
      BelowClosed(es[1..], d, e);
    }
  }

  /** Nothing else is listed: every entry is one the listing starts from, or
      a child of a directory it reaches. */
  lemma {:induction false} FlattenOrigin(es: seq<Entry>, x: Entry)
    requires x in Flatten(es)
    ensures x in es || exists d :: d in Flatten(es) && d.Dir? && x in d.children
    decreases es, 1
  {
    if x !in es {
      BelowOrigin(es, x);
    }
  }

  lemma {:induction false} BelowOrigin(es: seq<Entry>, x: Entry)
    requires x in Below(es)
    ensures exists d :: d in Flatten(es) && d.Dir? && x in d.children
    decreases es, 0
  {
    var first := if es[0].Dir? then Flatten(es[0].children) else [];
    assert Below(es) == first + Below(es[1..]);
    if x in first {
      FlattenOrigin(es[0].children, x);
      if x in es[0].children {
        assert es[0] in Flatten(es);
      } else {
        var d :| d in first && d.Dir? && x in d.children;
        assert d in Below(es);
      }
    } else {
      BelowOrigin(es[1..], x);
      var d :| d in Flatten(es[1..]) && d.Dir? && x in d.children;
      if d in es[1..] {
        assert d in es;
      } else {
        assert d in Below(es[1..]);
        assert d in Below(es);
      }
    }
  }
}
