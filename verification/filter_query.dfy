/** The earlier, eager query of `src/tpath/pquery/_filter.py`: the roots are
    fixed by the constructor, `where()` replaces the filter, and every
    terminal operation walks the tree at once, refusing to run without a
    filter. */
module FilterQuery {
  import opened Results
  import opened FileTree
  import opened Traversal
  import PQuery

  datatype Query = Query(startPaths: seq<Path>, recursive: bool, queryFunc: Option<Path -> bool>)

  /** `PQuery(from_, recursive)` and the `pquery` factory: one path becomes a
      one-element root list, a list keeps its order. */
  function New(from: PQuery.PathArg, recursive: bool): (q: Query)
    ensures from.One? ==> q.startPaths == [AsPath(from.path)]
    ensures from.Many? ==> |q.startPaths| == |from.paths|
    ensures from.Many? ==> forall i :: 0 <= i < |from.paths| ==> q.startPaths[i] == AsPath(from.paths[i])
    ensures q.recursive == recursive && q.queryFunc.None?
  {
    match from
    case One(p) => Query([AsPath(p)], recursive, None)
    case Many(ps) => Query(AsPaths(ps), recursive, None)
  }

  /** `where(w)`: replaces whatever filter was there. */
  function Where(q: Query, w: Path -> bool): (r: Query)
    ensures r.queryFunc == Some(w)
    ensures r.startPaths == q.startPaths && r.recursive == q.recursive
  {
    q.(queryFunc := Some(w))
  }

  /** `files()`: the whole result list, or the error of a query without filter. */
  function Files(fs: FileSystem, q: Query): (r: Result<seq<Path>>)
    ensures r.Failure? <==> q.queryFunc.None?
    ensures r.Failure? ==> r.error == NoQuerySpecified
    ensures r.Success? ==> r.value == Matches(fs, q.startPaths, q.recursive, Custom(q.queryFunc.value))
    ensures r.Success? ==> forall p :: p in r.value <==> p in Matches(fs, q.startPaths, q.recursive, Custom(q.queryFunc.value))
  {
    match q.queryFunc
    case None => Failure(NoQuerySpecified)
    case Some(w) => Success(Stream(fs, q.startPaths, q.recursive, Custom(w), false))
  }

  /** `select(selector)`. */
  function Select<U>(fs: FileSystem, q: Query, selector: Path -> U): (r: Result<seq<U>>)
    ensures r.Failure? <==> Files(fs, q).Failure?
    ensures r.Success? ==> |r.value| == |Files(fs, q).value|
    ensures r.Success? ==> forall i :: 0 <= i < |r.value| ==> r.value[i] == selector(Files(fs, q).value[i])
  {
    match Files(fs, q)
    case Failure(e) => Failure(e)
    case Success(files) => Success(seq(|files|, i requires 0 <= i < |files| => selector(files[i])))
  }

  /** `first()`. */
  function First(fs: FileSystem, q: Query): (r: Result<Option<Path>>)
    ensures r.Failure? <==> Files(fs, q).Failure?
    ensures r.Success? ==> (r.value.Some? <==> Files(fs, q).value != [])
    ensures r.Success? && r.value.Some? ==> r.value.value == Files(fs, q).value[0]
  {
    match Files(fs, q)
    case Failure(e) => Failure(e)
    case Success(files) => Success(if files == [] then None else Some(files[0]))
  }

  /** `exists()`. */
  function Exists(fs: FileSystem, q: Query): (r: Result<bool>)
    ensures r.Failure? <==> Files(fs, q).Failure?
    ensures r.Success? ==> (r.value <==> Files(fs, q).value != [])
  {
    match Files(fs, q)
    case Failure(e) => Failure(e)
    case Success(files) => Success(files != [])
  }

  /** `count()`. */
  function Count(fs: FileSystem, q: Query): (r: Result<nat>)
    ensures r.Failure? <==> Files(fs, q).Failure?
    ensures r.Success? ==> r.value == |Files(fs, q).value|
  {
    match Files(fs, q)
    case Failure(e) => Failure(e)
    case Success(files) => Success(|files|)
  }

  /** Every terminal operation refuses a query that has no filter. */
  lemma NoFilterNoRun<U>(fs: FileSystem, from: PQuery.PathArg, recursive: bool, selector: Path -> U)
    ensures Files(fs, New(from, recursive)) == Failure(NoQuerySpecified)
    ensures Select(fs, New(from, recursive), selector) == Failure(NoQuerySpecified)
    ensures First(fs, New(from, recursive)) == Failure(NoQuerySpecified)
    ensures Exists(fs, New(from, recursive)) == Failure(NoQuerySpecified)
    ensures Count(fs, New(from, recursive)) == Failure(NoQuerySpecified)
  {
  }

  /** A second `where()` replaces the first. */
  lemma WhereReplaces(q: Query, w1: Path -> bool, w2: Path -> bool)
    ensures Where(Where(q, w1), w2) == Where(q, w2)
  {
  }

  /** `exists()`, `count()` and `first()` agree with one another. */
  lemma TerminalsAgree(fs: FileSystem, q: Query)
    requires q.queryFunc.Some?
    ensures Exists(fs, q).value <==> Count(fs, q).value > 0
    ensures Exists(fs, q).value <==> First(fs, q).value.Some?
    ensures Count(fs, q).value == |Files(fs, q).value|
  {
  }

  /** With at least one root given, the eager query with a filter returns what
      the lazy query built by `pquery` with the same filter returns. (With an
      empty root list the eager query returns nothing, while the lazy one falls
      back to "."). */
  lemma AgreesWithLazy(fs: FileSystem, from: PQuery.PathArg, recursive: bool, w: Path -> bool)
    requires from != PQuery.Many([])
    ensures PQuery.Where(PQuery.Factory(Some(from), recursive), w).Success?
    ensures Files(fs, Where(New(from, recursive), w)).value
         == PQuery.Files(fs, PQuery.Where(PQuery.Factory(Some(from), recursive), w).value).value
  {
    var lazy := PQuery.Where(PQuery.Factory(Some(from), recursive), w).value;
    assert PQuery.Prepare(lazy).startPaths == New(from, recursive).startPaths;
  }

  /** The difference for an empty root list. */
  lemma EmptyRootListDiffers(fs: FileSystem, recursive: bool, w: Path -> bool)
    ensures Files(fs, Where(New(PQuery.Many([]), recursive), w)) == Success([])
    ensures PQuery.Prepare(PQuery.Factory(Some(PQuery.Many([])), recursive)).startPaths == ["."]
  {
  }
}
