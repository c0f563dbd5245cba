/** The lazy fluent query of `src/tpath/pquery/_pquery.py`. Building a query
    only records what was asked for; the defaults (root ".", recursion on,
    filter "is a file") are filled in when a terminal operation first pulls
    from the traversal, and they stay in the query afterwards. */
module PQuery {
  import opened Results
  import opened FileTree
  import opened Traversal
  import Dedup
  import Ranking

  /** A `from_` argument: one path or a list of paths. */
  datatype PathArg = One(path: string) | Many(paths: seq<string>)

  /** The builder's state: the constructor arguments, kept for lazy
      evaluation, and the working state execution fills in. */
  datatype Query = Query(
    initFrom: Option<string>,
    initRecursive: Option<bool>,
    initWhere: Option<Path -> bool>,
    startPaths: seq<Path>,
    isRecursive: bool,
    queryFunc: Option<Filter>,
    useDistinct: bool)

  /** A terminal operation's answer together with the query it leaves behind. */
  datatype Ran<T> = Ran(value: T, query: Query)

  /** `PQuery(from_, recursive, where)`: nothing is resolved yet. */
  function New(from: Option<string>, recursive: Option<bool>, where: Option<Path -> bool>): (q: Query)
    ensures q.startPaths == [] && q.queryFunc.None? && !q.useDistinct
  {
    Query(from, recursive, where, [], true, None, false)
  }

  /** The arguments of `from_`, lists flattened one level. */
  function FlattenArgs(args: seq<PathArg>): (r: seq<string>)
    ensures r == [] <==> forall i :: 0 <= i < |args| ==> args[i] == Many([])
  {
    if |args| == 0 then []
    else
      var head := match args[0] case One(p) => [p] case Many(ps) => ps;
      head + FlattenArgs(args[1..])
  }

  /** Flattening keeps argument order: the paths of earlier arguments come first. */
  lemma {:induction false} FlattenArgsAppend(a: seq<PathArg>, b: seq<PathArg>)
    ensures FlattenArgs(a + b) == FlattenArgs(a) + FlattenArgs(b)
  {
    if |a| == 0 {
      assert a + b == b;
    } else {
      assert (a + b)[1..] == a[1..] + b;
      FlattenArgsAppend(a[1..], b);
    }
  }

  /** `_init_from or "."`, as a path. */
  function DefaultRoot(initFrom: Option<string>): Path {
    AsPath(initFrom.GetOr("."))
  }

  /** The roots a query runs on: the working list, or the default root while it is empty. */
  function EffectiveRoots(q: Query): (roots: seq<Path>)
    ensures roots != []
    ensures q.startPaths != [] ==> roots == q.startPaths
  {
    if q.startPaths == [] then [DefaultRoot(q.initFrom)] else q.startPaths
  }

  predicate IsLoneDot(roots: seq<Path>) {
    |roots| == 1 && roots[0] == "."
  }

  /** `from_(*paths)`: the flattened paths replace a lone "." root and are
      appended to anything else. */
  function From(q: Query, args: seq<PathArg>): (r: Result<Query>)
    ensures r.Failure? <==> FlattenArgs(args) == []
    ensures r.Failure? ==> r.error == NoPathsGiven
    ensures r.Success? ==> r.value == q.(startPaths := r.value.startPaths)
    ensures r.Success? ==>
      var added := AsPaths(FlattenArgs(args));
      var kept := |r.value.startPaths| - |added|;
      0 <= kept
      && r.value.startPaths[kept..] == added
      && r.value.startPaths[..kept] in {[], EffectiveRoots(q)}
      && (r.value.startPaths[..kept] == [] <==> IsLoneDot(EffectiveRoots(q)))
  {
    var flat := FlattenArgs(args);
    if flat == [] then Failure(NoPathsGiven)
    else
      var roots := EffectiveRoots(q);
      var added := AsPaths(flat);
      var sp := if IsLoneDot(roots) then added else roots + added;
      assert !IsLoneDot(roots) ==> sp[..|roots|] == roots && sp[|roots|..] == added;
      assert IsLoneDot(roots) ==> sp[..0] == [] && sp[0..] == added;
      Success(q.(startPaths := sp))
  }

  /** `distinct()`: only the flag changes, and execution prepares the query
      as before apart from it. */
  function Distinct(q: Query): (r: Query)
    ensures r == q.(useDistinct := true)
    ensures Prepare(r) == Prepare(q).(useDistinct := true)
  {
    q.(useDistinct := true)
  }

  /** `recursive(b)`: sets the working flag and the constructor argument
      alike, so execution walks recursively exactly when `b`. */
  function Recursive(q: Query, b: bool): (r: Query)
    ensures r == q.(isRecursive := b, initRecursive := Some(b))
    ensures Prepare(r).isRecursive == b
  {
    q.(isRecursive := b, initRecursive := Some(b))
  }

  /** `where(w)`: installs the filter unless one is installed already. */
  function Where(q: Query, w: Path -> bool): (r: Result<Query>)
    ensures r.Failure? <==> q.queryFunc.Some?
    ensures r.Failure? ==> r.error == MultipleWhere
    ensures r.Success? ==> r.value == q.(queryFunc := Some(Custom(w)))
  {
    if q.queryFunc.Some? then Failure(MultipleWhere)
    else Success(q.(queryFunc := Some(Custom(w))))
  }

  /** The defaults `_iter_files` applies before walking. */
  function Prepare(q: Query): (p: Query)
    ensures p.startPaths == EffectiveRoots(q) && p.startPaths != []
    ensures p.isRecursive == q.initRecursive.GetOr(true)
    ensures p.queryFunc.Some?
    ensures q.queryFunc.Some? ==> p.queryFunc == q.queryFunc
    ensures q.queryFunc.None? && q.initWhere.Some? ==> p.queryFunc == Some(Custom(q.initWhere.value))
    ensures q.queryFunc.None? && q.initWhere.None? ==> p.queryFunc == Some(IsFile)
    ensures p.initFrom == q.initFrom && p.initRecursive == q.initRecursive
    ensures p.initWhere == q.initWhere && p.useDistinct == q.useDistinct
  {
    var filter :=
      if q.queryFunc.Some? then q.queryFunc
      else match q.initWhere
        case None => Some(IsFile)
        case Some(w) => Some(Custom(w));
    q.(startPaths := EffectiveRoots(q),
       isRecursive := q.initRecursive.GetOr(true),
       queryFunc := filter)
  }

  /** Everything `_iter_files` yields, once exhausted. */
  function Run(fs: FileSystem, q: Query): seq<Path> {
    var p := Prepare(q);
    Stream(fs, p.startPaths, p.isRecursive, p.queryFunc.value, p.useDistinct)
  }

  /** `files()` and `__iter__()`, consumed to the end: the matching files of
      the prepared roots, in traversal order, each once under `distinct()`. */
  function Files(fs: FileSystem, q: Query): (r: Ran<seq<Path>>)
    ensures r.query == Prepare(q)
    ensures var p := Prepare(q);
      forall x :: x in r.value <==> x in Matches(fs, p.startPaths, p.isRecursive, p.queryFunc.value)
    ensures var p := Prepare(q);
      !q.useDistinct ==> r.value == Matches(fs, p.startPaths, p.isRecursive, p.queryFunc.value)
    ensures q.useDistinct ==> Dedup.NoDuplicates(r.value)
  {
    Ran(Run(fs, q), Prepare(q))
  }

  /** `select(selector)`, consumed to the end. */
  function Select<U>(fs: FileSystem, q: Query, selector: Path -> U): (r: Ran<seq<U>>)
    ensures |r.value| == |Files(fs, q).value|
    ensures forall i :: 0 <= i < |r.value| ==> r.value[i] == selector(Files(fs, q).value[i])
    ensures r.query == Files(fs, q).query
  {
    var files := Run(fs, q);
    Ran(seq(|files|, i requires 0 <= i < |files| => selector(files[i])), Prepare(q))
  }

  /** `first()`. */
  function First(fs: FileSystem, q: Query): (r: Ran<Option<Path>>)
    ensures r.value.Some? <==> Files(fs, q).value != []
    ensures r.value.Some? ==> r.value.value == Files(fs, q).value[0]
    ensures r.query == Files(fs, q).query
  {
    var files := Run(fs, q);
    Ran(if files == [] then None else Some(files[0]), Prepare(q))
  }

  /** `exists()`. */
  function Exists(fs: FileSystem, q: Query): (r: Ran<bool>)
    ensures r.value <==> Files(fs, q).value != []
    ensures r.query == Files(fs, q).query
  {
    Ran(Run(fs, q) != [], Prepare(q))
  }

  /** `count()`. */
  function Count(fs: FileSystem, q: Query): (r: Ran<nat>)
    ensures r.value == |Files(fs, q).value|
    ensures r.query == Files(fs, q).query
  {
    Ran(|Run(fs, q)|, Prepare(q))
  }

  /** `sort(key, reverse)`: all results, stably sorted. */
  function Sort(fs: FileSystem, q: Query, key: Path -> int, reverse: bool): (r: Ran<seq<Path>>)
    ensures multiset(r.value) == multiset(Files(fs, q).value)
    ensures !reverse ==> forall i, j :: 0 <= i < j < |r.value| ==> key(r.value[i]) <= key(r.value[j])
    ensures reverse ==> forall i, j :: 0 <= i < j < |r.value| ==> key(r.value[i]) >= key(r.value[j])
    ensures Ranking.Stable(Files(fs, q).value, r.value, key)
    ensures r.query == Files(fs, q).query
  {
    Ran(Ranking.SortBy(Run(fs, q), key, reverse), Prepare(q))
  }

  /** `take(n, key, reverse)`. Without a key, the first `n` results. With a
      key, the bounded selection of `heapq.nlargest` / `heapq.nsmallest`;
      for `n <= 0` those return before pulling from the traversal, so the
      query's defaults are not applied. */
  method Take(fs: FileSystem, q: Query, n: int, key: Option<Path -> int>, reverse: bool)
    returns (r: Ran<seq<Path>>)
    ensures key.None? ==>
      r.value == Files(fs, q).value[..Ranking.TakeCount(n, |Files(fs, q).value|)] && r.query == Files(fs, q).query
    ensures key.Some? && n <= 0 ==> r.value == [] && r.query == q
    ensures key.Some? && n > 0 ==>
      r.value == Sort(fs, q, key.value, reverse).value[..Ranking.TakeCount(n, |Files(fs, q).value|)]
      && r.query == Files(fs, q).query
  {
    if key.None? {
      var taken := Ranking.TakeFirst(Run(fs, q), n);
      return Ran(taken, Prepare(q));
    }
    if n <= 0 {
      return Ran([], q);
    }
    var best := Ranking.TopK(Run(fs, q), n, key.value, reverse);
    return Ran(best, Prepare(q));
  }

  /** `pquery(from_, recursive)`: a single path or a list replaces the
      working root list directly. */
  function Factory(from: Option<PathArg>, recursive: bool): (q: Query)
    ensures q.initFrom.None? && q.initRecursive == Some(recursive) && q.queryFunc.None?
  {
    var q := Recursive(New(None, None, None), recursive);
    match from
    case None => q
    case Some(One(p)) => q.(startPaths := [AsPath(p)])
    case Some(Many(ps)) => q.(startPaths := AsPaths(ps))
  }

  // ---------------------------------------------------------------------
  // Properties of the builder

  /** Before execution the working root list is empty; execution fills it
      with the constructor path or ".", turns recursion on unless told
      otherwise, and installs the constructor filter or "is a file". */
  lemma DefaultsAtExecution(from: Option<string>, recursive: Option<bool>, where: Option<Path -> bool>)
    ensures New(from, recursive, where).startPaths == []
    ensures Prepare(New(from, recursive, where)).startPaths == [DefaultRoot(from)]
    ensures from.None? ==> Prepare(New(from, recursive, where)).startPaths == ["."]
    ensures Prepare(New(from, recursive, where)).isRecursive == (recursive != Some(false))
    ensures where.None? ==> Prepare(New(from, recursive, where)).queryFunc == Some(IsFile)
    ensures where.Some? ==> Prepare(New(from, recursive, where)).queryFunc == Some(Custom(where.value))
  {
  }

  /** Applying the defaults a second time changes nothing, so running a
      query again walks the same roots with the same settings. */
  lemma PrepareIdempotent(q: Query)
    ensures Prepare(Prepare(q)) == Prepare(q)
  {
  }

  lemma RunTwiceSame(fs: FileSystem, q: Query)
    ensures Files(fs, Files(fs, q).query).value == Files(fs, q).value
  {
    PrepareIdempotent(q);
  }

  /** `recursive(b)` wins over the constructor argument, whatever it was. */
  lemma RecursiveWins(q: Query, b: bool)
    ensures Prepare(Recursive(q, b)).isRecursive == b
    ensures Prepare(Recursive(New(None, Some(!b), None), b)).isRecursive == b
  {
  }

  /** A second `where()` is rejected. */
  lemma SecondWhereFails(q: Query, w1: Path -> bool, w2: Path -> bool)
    requires Where(q, w1).Success?
    ensures Where(Where(q, w1).value, w2) == Failure(MultipleWhere)
  {
  }

  /** After any terminal operation that pulled from the traversal, a `where()`
      is rejected, because execution installed the default filter. For
      `files()` this is the state once its generator has yielded or finished;
      the generator it returns has not run yet. */
  lemma WhereAfterRunFails(fs: FileSystem, q: Query, w: Path -> bool)
    ensures Where(Files(fs, q).query, w) == Failure(MultipleWhere)
    ensures Where(First(fs, q).query, w) == Failure(MultipleWhere)
    ensures Where(Count(fs, q).query, w) == Failure(MultipleWhere)
  {
  }

  /** A `take` with a key and `n <= 0` never starts the traversal, so a fresh
      query still accepts its `where()` afterwards. */
  method TakeNothingKeepsQueryOpen(fs: FileSystem, n: int, key: Path -> int, w: Path -> bool)
    returns (r: Ran<seq<Path>>)
    requires n <= 0
    ensures r.value == [] && Where(r.query, w).Success?
  {
    r := Take(fs, New(None, None, None), n, Some(key), true);
  }

  /** The constructor's filter is only a fallback: one later `where()`
      replaces it. */
  lemma ConstructorWhereIsFallback(from: Option<string>, recursive: Option<bool>, w0: Path -> bool, w: Path -> bool)
    ensures Where(New(from, recursive, Some(w0)), w).Success?
    ensures Prepare(Where(New(from, recursive, Some(w0)), w).value).queryFunc == Some(Custom(w))
  {
  }

  /** With no constructor path, the first `from_` replaces the implicit "."
      and a later one appends. */
  lemma FromReplacesThenAppends(first: seq<PathArg>, second: seq<PathArg>)
    requires FlattenArgs(first) != [] && FlattenArgs(second) != []
    requires !IsLoneDot(AsPaths(FlattenArgs(first)))
    ensures From(New(None, None, None), first).Success?
    ensures From(New(None, None, None), first).value.startPaths == AsPaths(FlattenArgs(first))
    ensures From(From(New(None, None, None), first).value, second).Success?
    ensures From(From(New(None, None, None), first).value, second).value.startPaths
         == AsPaths(FlattenArgs(first)) + AsPaths(FlattenArgs(second))
  {
    var q1 := From(New(None, None, None), first).value;
    assert q1.startPaths == AsPaths(FlattenArgs(first));
  }

  /** With a constructor path, `from_` appends after it. */
  lemma FromAppendsToConstructorPath(p: string, args: seq<PathArg>)
    requires AsPath(p) != "."
    requires FlattenArgs(args) != []
    ensures From(New(Some(p), None, None), args).Success?
    ensures From(New(Some(p), None, None), args).value.startPaths == [AsPath(p)] + AsPaths(FlattenArgs(args))
  {
  }

  /** A lone root "." is replaced by the next `from_`. */
  lemma FromReplacesLoneDot(q: Query, args: seq<PathArg>)
    requires IsLoneDot(EffectiveRoots(q))
    requires FlattenArgs(args) != []
    ensures From(q, args) == Success(q.(startPaths := AsPaths(FlattenArgs(args))))
  {
  }

  /** A root that is exactly "." is taken for the implicit default, even when
      it was given explicitly: the next `from_` drops it. */
  lemma FromDropsExplicitDot(args: seq<PathArg>)
    requires FlattenArgs(args) != []
    ensures From(New(Some("."), None, None), args).value.startPaths == AsPaths(FlattenArgs(args))
    ensures From(From(New(None, None, None), [One(".")]).value, args).value.startPaths
         == AsPaths(FlattenArgs(args))
  {
    FromReplacesLoneDot(New(Some("."), None, None), args);
    var q1 := From(New(None, None, None), [One(".")]);
    assert FlattenArgs([One(".")]) == ["."];
    assert q1.value.startPaths == ["."];
    FromReplacesLoneDot(q1.value, args);
  }

  /** `from_()` with nothing, or with only empty lists, is an error. */
  lemma FromNeedsAPath(q: Query)
    ensures From(q, []) == Failure(NoPathsGiven)
    ensures From(q, [Many([]), Many([])]) == Failure(NoPathsGiven)
  {
  }

  /** The factory's roots, and the fallback to "." for an empty list. */
  lemma FactoryRoots(p: string, ps: seq<string>, recursive: bool)
    ensures Prepare(Factory(Some(One(p)), recursive)).startPaths == [AsPath(p)]
    ensures ps != [] ==> Prepare(Factory(Some(Many(ps)), recursive)).startPaths == AsPaths(ps)
    ensures Prepare(Factory(Some(Many([])), recursive)).startPaths == ["."]
    ensures Prepare(Factory(None, recursive)).startPaths == ["."]
    ensures Prepare(Factory(None, recursive)).isRecursive == recursive
  {
  }

  // ---------------------------------------------------------------------
  // Properties of the results

  /** `distinct()` yields the plain results with every later repeat removed. */
  lemma DistinctKeepsFirstOccurrences(fs: FileSystem, q: Query)
    ensures Files(fs, Distinct(q)).value == Dedup.FirstOccurrences(Files(fs, Distinct(q).(useDistinct := false)).value)
    ensures !q.useDistinct ==> Files(fs, Distinct(q)).value == Dedup.FirstOccurrences(Files(fs, q).value)
    ensures Dedup.NoDuplicates(Files(fs, Distinct(q)).value)
  {
    assert Distinct(q).(useDistinct := false) == q.(useDistinct := false);
  }

  /** Every result is an existing file that passes the filter, listed at or
      under one of the roots. */
  lemma ResultsAreFiles(fs: FileSystem, q: Query, p: Path)
    requires p in Files(fs, q).value
    ensures exists i, e ::
      && 0 <= i < |Prepare(q).startPaths|
      && e in Candidates(fs, Prepare(q).startPaths[i], Prepare(q).isRecursive)
      && e.File? && Passes(Prepare(q).queryFunc.value, e) && e.path == p
  {
    var pq := Prepare(q);
    MatchesAreFiles(fs, pq.startPaths, pq.isRecursive, pq.queryFunc.value, p);
  }

  /** `exists()`, `count()` and `first()` agree with one another. */
  lemma TerminalsAgree(fs: FileSystem, q: Query)
    ensures Exists(fs, q).value <==> Count(fs, q).value > 0
    ensures Exists(fs, q).value <==> First(fs, q).value.Some?
    ensures Count(fs, q).value == |Files(fs, q).value|
    ensures First(fs, q).value.Some? ==> First(fs, q).value.value in Files(fs, q).value
  {
  }
}
