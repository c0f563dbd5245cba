# tpath query and calendar-window core, in Dafny

This project models two parts of the `tpath` library and proves properties of them.

**Calendar windows** (`Cal.win_*`). The model covers `normalize_weekday` and the
`win_minutes`, `win_hours`, `win_days`, `win_weeks`, `win_months`,
`win_quarters` and `win_years` windows, in both `src/tpath/chronos/_cal.py` and
the older `src/tpath/_cal.py`. Each window asks whether a target time lies
within `[start, end]` calendar units of a base time. Unit 0 is the unit that
holds the base time. The two files compute the same windows with the same
arithmetic. The older file has no `win_weeks` and no `normalize_weekday`. The
same Dafny members therefore model both files.

- Times are integer microsecond ticks since 0001-01-01T00:00:00, a Monday.
  Truncating a `datetime` to a minute, hour or day is floor division by the
  unit.
- The month, quarter and year windows read only (year, month). They receive
  it as a `Period`.
- Every window's contract is a closed form: the window holds iff the
  target's unit number minus the base's unit number lies between `start` and
  `end`, in either order. The model proves that each boundary computation of
  the source (truncation, carry/borrow loops, linear month or quarter index)
  meets it.
- `datetime` holds the instants of years 1 to 9999 only, and adding a
  `timedelta` that leaves that range raises `OverflowError`. The minute,
  hour, day and week windows build such instants, so they return a
  `Result`: each contract says exactly for which base and offsets the
  arithmetic overflows. The month, quarter and year windows compute with
  plain integers and never raise.

**Path queries** (`PQuery`). There are two query builders.

- The lazy, fluent one in `src/tpath/pquery/_pquery.py`. It records the
  constructor arguments and fills in its defaults only when a terminal
  operation first pulls from the traversal. The defaults are the root ".",
  recursion on, and the filter "is a file".
- The earlier, eager one in `src/tpath/pquery/_filter.py`. It fixes its roots
  in the constructor and refuses to run without a `where()`.

The file system is an immutable tree of `File` and `Dir` entries. `glob("*")`
lists a directory's children. `rglob("*")` lists everything below it in the
order of CPython 3.11: the directory's own entries first, then, for each
sub-directory in turn, that sub-directory's own recursive listing. The order
of the entries inside one directory is the operating system's, and the tree
fixes it. The traversal `_iter_files` has two forms:

- a reference definition (`Traversal.Stream`);
- a loop with a `seen` set, proved equal to the reference (`Traversal.IterFiles`).

A terminal operation returns its answer together with the query it leaves
behind. This makes the builder's state changes visible: defaults installed
at execution, a later `where()` rejected. `sort` is a stable insertion sort
on an integer key. `take` with a key is a bounded top-k buffer, proved equal
to the first `n` elements of the sort.

Modules, one per file:

| file | module | content |
|---|---|---|
| `results.dfy` | `Results` | `Option`, `Result`, the error kinds the source raises |
| `seqs.dfy` | `Seqs` | first position of an element in a sequence |
| `weekday.dfy` | `Weekday` | `normalize_weekday` |
| `calendar.dfy` | `Calendar` | the `win_*` windows |
| `dedup.dfy` | `Dedup` | first-occurrence de-duplication (`distinct()`) |
| `ranking.dfy` | `Ranking` | stable sort and top-k (`sort`, `take`) |
| `file_tree.dfy` | `FileTree` | the directory tree, `glob`/`rglob`, path lookup |
| `traversal.dfy` | `Traversal` | `_iter_files`, shared by both query classes |
| `pquery.dfy` | `PQuery` | the lazy query of `_pquery.py` |
| `filter_query.dfy` | `FilterQuery` | the eager query of `_filter.py` |

## Model

| member | source | states |
|---|---|---|
| Weekday.NormalizeWeekday | src/tpath/chronos/_cal.py:29-89 | The result is a weekday number below 7, found in the full-name, three-letter or two-letter table under the lower-cased, stripped, "w-"-less key. It fails exactly when no table holds the key, and the error carries the normalised key. |
| Weekday.NamesRoundTrip | src/tpath/chronos/_cal.py:58-77 | Every full name, three-letter and two-letter abbreviation maps back to its own weekday number, Monday 0 to Sunday 6. |
| Weekday.CaseInsensitive | src/tpath/chronos/_cal.py:51 | Upper-casing a specification never changes the outcome. |
| Weekday.PrefixedStyle | src/tpath/chronos/_cal.py:53-55 | "w-" followed by any table name selects the same weekday as the bare name. |
| Weekday.PrefixChangesNothing | src/tpath/chronos/_cal.py:53-55 | A string of lower-case letters, the empty one included, is normalised to the same result with or without the "w-" prefix, accepted or rejected. |
| Weekday.RejectsUnknown | test/chronos/test_chronos_cal.py:197-205 | "invalid" and "xyz" are rejected. |
| Calendar.Normalize | src/tpath/chronos/_cal.py:122-127 | After defaulting `end` to `start` and swapping, `lo <= hi`, and `{lo, hi}` is the pair of offsets given. |
| Calendar.ShiftInRange | src/tpath/chronos/_cal.py:132 | An instant moved by `k` whole units stays within years 1..9999 iff its unit number stays within the range's units. |
| Calendar.UnitStart | src/tpath/chronos/_cal.py:132-136 | Truncating the base moved by `k` units gives the first instant of unit `base / u + k`. |
| Calendar.UnitRange | src/tpath/chronos/_cal.py:136-138 | An instant lies between the start of unit `a` and the end of unit `b` (half-open) iff its unit number is in `a..b`. |
| Calendar.AlignedWindow | src/tpath/chronos/_cal.py:129-138 | The boundary arithmetic overflows iff the first unit of the window precedes the range or its last unit is the range's final unit. Otherwise the half-open test holds iff the target's unit number minus the base's lies in the span. |
| Calendar.WinMinutes | src/tpath/chronos/_cal.py:109-138 | Raises `OverflowError` iff the first window minute precedes 0001-01-01 or the last one is the final minute of 9999-12-31 or later. Otherwise the target is in the window iff its minute number minus the base's lies between `start` and `end` (or equals `start` when `end` is absent). |
| Calendar.WinHours | src/tpath/chronos/_cal.py:140-170 | The same overflow condition and closed form on hour numbers. |
| Calendar.DateWindow | src/tpath/chronos/_cal.py:189-197 | The inclusive date comparison overflows iff either shifted date leaves the calendar. Otherwise it holds iff the target's date minus the base's lies in the span. |
| Calendar.WinDays | src/tpath/chronos/_cal.py:172-197 | Raises `OverflowError` iff the base date shifted by `start` or by `end` leaves years 1..9999. Otherwise the same closed form on calendar dates. |
| Calendar.DaysAreAlignedWindows | src/tpath/_cal.py:102-108 | Where the aligned form does not overflow, the inclusive date comparison of the day window gives the same answer as a half-open window aligned to midnight. |
| Calendar.YesterdayIsNotToday | test/chronos/test_chronos_cal.py:57-69 | A target on the day before the base is in `win_days(-1)` and `win_days(-1, 0)` but not in `win_days(0)`, and none of the three raises. |
| Calendar.LastMinuteOverflows | src/tpath/chronos/_cal.py:135-136 | For a base in the last minute of 9999-12-31, `win_minutes(0)` raises `OverflowError`: the end of that minute is not representable. |
| Calendar.CurrentWeekStart | src/tpath/chronos/_cal.py:365-369 | The week start is the latest day not after the base day whose weekday is the chosen start day. It has a closed form in week numbers. |
| Calendar.WeekStartClosedForm | src/tpath/chronos/_cal.py:368-369 | Stepping back `(weekday - week_start) % 7` days lands on the start day and skips no earlier start day. |
| Calendar.WeekWindow | src/tpath/chronos/_cal.py:364-378 | With the start day known, the date arithmetic overflows iff the base's week or the window's first week starts before 0001-01-01, or its last week ends after 9999-12-31. Otherwise the date test holds iff the target's week number minus the base's lies in `lo..hi`. |
| Calendar.WinWeeks | src/tpath/chronos/_cal.py:335-378 | A rejected week-start name fails first, with its error. Otherwise it raises `OverflowError` exactly under the week overflow condition, and holds iff the week-number difference lies between the offsets. |
| Calendar.DefaultWeekStartIsMonday | src/tpath/chronos/_cal.py:335-337 | The default "monday" is never rejected (the only possible error is the overflow), and weeks then start on weekday 0. |
| Calendar.LastWeekIsNotThisWeek | test/chronos/test_chronos_cal.py:72-99 | Away from the calendar's first and last week, a target seven days before the base is in last week and not in this week, for every accepted week start. |
| Calendar.SundayWeekBeforeFirstDay | src/tpath/chronos/_cal.py:368-369 | For a base on 0001-01-01, a Monday, `win_weeks(0, "sunday")` raises `OverflowError`: its week would start the day before. |
| Calendar.CarryIntoYear | src/tpath/chronos/_cal.py:222-240 | The carry and borrow loops end with a unit number in `1..perYear` and keep the linear index `year * perYear + unit`. |
| Calendar.WinMonths | src/tpath/chronos/_cal.py:199-247 | The target is in the window iff its linear month index minus the base's lies between the offsets. |
| Calendar.QuarterOf | src/tpath/chronos/_cal.py:272 | The computed quarter is the one whose three months hold the month. It is in `1..4` for a month in `1..12`. |
| Calendar.WinQuarters | src/tpath/chronos/_cal.py:249-305 | The target is in the window iff its linear quarter index minus the base's lies between the offsets. |
| Calendar.WinYears | src/tpath/chronos/_cal.py:307-333 | The target is in the window iff the year difference lies between the offsets. |
| Calendar.WindowsOrderIndependent | src/tpath/_cal.py:35-40 | The minute, hour, day and week windows (on ticks) and the year window (on years) give the same answer, or the same error, for `(a, b)` and `(b, a)`, and a single offset `n` means `(n, n)`. For the month and quarter windows, which are methods, the same follows from their `Between` postconditions. |
| Calendar.SameSpanSameWindows | src/tpath/_cal.py:35-40 | The minute, hour, day and year windows depend on the offsets only through the normalised span. |
| Calendar.SameSpanSameWeeks | src/tpath/chronos/_cal.py:356-360 | So does the week window. |
| Calendar.NeighbourLinear | src/tpath/_cal.py:133-151 | One step forward or back through the calendar keeps the unit valid and moves the linear index by one. |
| Calendar.StepMovesLinearIndex | src/tpath/_cal.py:133-151 | Walking `k` months or quarters one at a time moves the linear index by exactly `k`. |
| Calendar.LinearInjective | src/tpath/_cal.py:154-158 | Two valid periods with the same linear index are equal. |
| Calendar.LinearIndexMatchesEnumeration | src/tpath/_cal.py:154-158 | The linear-index comparison holds iff walking the base by some offset between `start` and `end` lands exactly on the target's period. |
| Calendar.JanuaryBorrowsFromPreviousYear | src/tpath/_cal.py:133-158 | The borrow loop applied to month 0 of a year gives December of the year before, and `win_months(-1)` from a January base holds for that December. |
| Dedup.FirstOccurrencesFacts | src/tpath/pquery/_pquery.py:232-235 | De-duplication keeps exactly the elements of the stream, each once, and never lengthens it. |
| Dedup.FirstOccurrencesSnoc | src/tpath/pquery/_pquery.py:232-235 | One more element is appended exactly when it has not occurred before. |
| Dedup.FirstOccurrencesOfDistinct | src/tpath/pquery/_pquery.py:119-131 | A stream without repeats passes through unchanged. |
| Dedup.Idempotent | src/tpath/pquery/_pquery.py:132 | De-duplicating twice is the same as de-duplicating once. |
| Dedup.FirstOccurrenceOrder | src/tpath/pquery/_pquery.py:130 | The kept elements appear in the order of their first occurrence. |
| Ranking.InsertPermutes | src/tpath/pquery/_pquery.py:405-408 | Inserting an element adds exactly that element to the multiset. |
| Ranking.InsertKeepsOrder | src/tpath/pquery/_pquery.py:405-408 | Inserting into a key-ascending list keeps it key-ascending. |
| Ranking.InsertKeyClass | src/tpath/pquery/_pquery.py:405-408 | Insertion behind all equal keys keeps every key class in arrival order, which is the stability of `sorted`. |
| Ranking.SortAsc | src/tpath/pquery/_pquery.py:405-408 | The result is a permutation of the input, ordered by ascending key. |
| Ranking.SortAscStable | src/tpath/pquery/_pquery.py:405-408 | Elements with equal keys keep their input order. |
| Ranking.SortBy | src/tpath/pquery/_pquery.py:374-408 | `sorted(files, key, reverse)` is a permutation, in ascending or (with `reverse`) descending key order, and stable in both directions. |
| Ranking.TakeFirst | src/tpath/pquery/_pquery.py:359-366 | `take(n)` without a key returns the first `n` items, or all of them when there are fewer. |
| Ranking.TakeCount | src/tpath/pquery/_pquery.py:359-366 | The number of items taken is `n` capped by the length, and 0 when `n <= 0`. |
| Ranking.InsertTruncated | src/tpath/pquery/_pquery.py:368-372 | Inserting into a full buffer and cutting it back gives the prefix of inserting into the untruncated list. |
| Ranking.TopK | src/tpath/pquery/_pquery.py:368-372 | The bounded buffer ends as the first `min(n, len)` elements of the stable sort, so `nsmallest`/`nlargest` agree with `sorted(...)[:n]`. |
| FileTree.AsPath | src/tpath/pquery/_pquery.py:83-86 | The empty string names "." and any other string names itself. |
| FileTree.AsPaths | src/tpath/pquery/_pquery.py:88-93 | Converting a list converts each element in place. |
| FileTree.Flatten | src/tpath/pquery/_pquery.py:226-227 | The recursive listing starts with the directory's own entries, in the directory's order, and so contains each of them. |
| FileTree.Listing | src/tpath/pquery/_pquery.py:226-227 | `glob("*")` lists exactly the directory's own entries. `rglob("*")` lists those same entries first, in the same order, and everything deeper after them. |
| FileTree.Find | src/tpath/pquery/_pquery.py:209-212 | A path is found iff some entry carries it, and what is found carries it. |
| FileTree.FlattenClosed | src/tpath/pquery/_pquery.py:224-227 | The recursive listing is closed under children: the children of every directory it reaches are in it too. |
| FileTree.FlattenOrigin | src/tpath/pquery/_pquery.py:224-227 | Everything the recursive listing holds is a starting entry or a child of a directory in the listing. |
| FileTree.BelowContains | src/tpath/pquery/_pquery.py:226-227 | Everything in a sub-directory's recursive listing comes after the parent's own entries in the parent's recursive listing. |
| FileTree.GrandchildrenListedRecursively | test/test_pfilter.py:148-173 | `rglob` also reaches the children of a sub-directory, and lists them after all of the directory's own entries. |
| Traversal.FilesPassingMembers | src/tpath/pquery/_pquery.py:226-235 | A path is yielded from a listing iff it is a file of the listing that passes the filter. |
| Traversal.FilesPassingAppend | src/tpath/pquery/_pquery.py:226-235 | The files of a concatenated listing are those of each part, in order. |
| Traversal.RootRules | src/tpath/pquery/_pquery.py:208-241 | A missing root yields nothing. A non-directory root yields itself iff it passes the filter. A directory root yields the passing files of its listing. |
| Traversal.Matches | src/tpath/pquery/_pquery.py:208-241 | Roots are walked in list order: what the first `i` roots yield is a prefix of what all of them yield. |
| Traversal.MatchesNext | src/tpath/pquery/_pquery.py:208 | Each root's files follow those of the roots before it. |
| Traversal.MatchesAreFiles | src/tpath/pquery/_pquery.py:208-235 | Everything yielded is a file passing the filter, found at or under one of the roots. |
| Traversal.Stream | src/tpath/pquery/_pquery.py:191-241 | The yielded paths are exactly the matching paths. With `distinct` none repeats. |
| Traversal.YieldStep | src/tpath/pquery/_pquery.py:232-235 | Offering one file keeps the output equal to the reference stream and `seen` equal to the set of yielded paths. |
| Traversal.FilesPassingNext | src/tpath/pquery/_pquery.py:226-228 | One more listed entry adds its path iff it is a passing file. |
| Traversal.YieldRoot | src/tpath/pquery/_pquery.py:224-238 | The inner loop over one root's listing extends the output exactly as the reference stream does, keeping `seen` in step. |
| Traversal.IterFiles | src/tpath/pquery/_pquery.py:191-241 | The loop over the roots with its `seen` set yields exactly the reference stream. |
| Traversal.FilesPassingOne | src/tpath/pquery/_pquery.py:226-228 | A single entry contributes its path iff it is a passing file. |
| Traversal.FilesPassingAlternating | src/tpath/pquery/_pquery.py:226-228 | Directories in a listing contribute nothing, and files the filter accepts come through in order. |
| Traversal.ThreeLevels | src/tpath/pquery/_pquery.py:226-227 | On a three-level tree with a file and a sub-directory at each level, `rglob` lists the top entries, then the middle entries, then the bottom file. |
| Traversal.ExampleFlattened | test/test_pfilter.py:148-173 | The example tree lists the top directory's two entries, then the sub-directory's two entries, then the deepest file. |
| Traversal.FileAfterSubdirectory | src/tpath/pquery/_pquery.py:226-228 | When a directory lists a sub-directory before a file of its own, its own file is still yielded before the sub-directory's file. |
| Traversal.OwnFilesFirst | src/tpath/pquery/_pquery.py:226-228 | In `t` holding `t/a` (with file `t/a/x`) and then file `t/b`, a recursive search yields `t/b` before `t/a/x`. |
| Traversal.GlobVersusRglobShape | test/test_pfilter.py:148-173 | On any tree shaped like the example, with a filter accepting its three files, the recursive search finds all three in listing order, a flat search only the top one, and a flat search of the sub-directory only its own. |
| Traversal.GlobVersusRglob | test/test_pfilter.py:148-173 | On the nested example tree with the ".txt" filter, a recursive search finds all three files. A flat search finds only the top-level one, and a flat search of the sub-directory finds only its own. The filter tests that the path ends in ".txt", which agrees with `suffix == ".txt"` on every path of the example. |
| PQuery.New | src/tpath/pquery/_pquery.py:21-51 | The constructor resolves nothing: no roots, no filter, no de-duplication. |
| PQuery.FlattenArgs | src/tpath/pquery/_pquery.py:72-81 | The flattened argument list is empty iff every argument is an empty list. |
| PQuery.FlattenArgsAppend | src/tpath/pquery/_pquery.py:72-78 | Flattening keeps argument order. |
| PQuery.EffectiveRoots | src/tpath/pquery/_pquery.py:83-86 | The roots are never empty; an explicit root list is kept as it is. |
| PQuery.From | src/tpath/pquery/_pquery.py:53-94 | `from_` fails exactly when no path is given. Otherwise only the root list changes: it ends with the given paths, preceded by the old roots, or by nothing exactly when the old roots are the lone ".". |
| PQuery.Distinct | src/tpath/pquery/_pquery.py:96-133 | `distinct()` sets only the de-duplication flag, and execution then prepares the query exactly as before apart from that flag. |
| PQuery.Recursive | src/tpath/pquery/_pquery.py:135-153 | `recursive(b)` sets the working flag and the constructor argument to `b` and changes nothing else, so execution walks recursively exactly when `b`. |
| PQuery.Where | src/tpath/pquery/_pquery.py:155-189 | `where` fails exactly when a filter is installed already. Otherwise it installs the given one and changes nothing else. |
| PQuery.Prepare | src/tpath/pquery/_pquery.py:191-203 | Execution installs the effective roots (the working list, or the constructor path or "." while it is empty), recursion from the constructor argument defaulting to on, and the filter: an installed one is kept, else the constructor's, else "is a file". It keeps the constructor arguments and the `distinct` flag. |
| PQuery.Files | src/tpath/pquery/_pquery.py:243-258 | `files()`, once its generator has run, leaves the defaults installed in the query. It yields the same set of paths as the matching paths of the prepared roots; without `distinct` it yields exactly that list, and with `distinct` nothing repeats. |
| PQuery.Select | src/tpath/pquery/_pquery.py:262-280 | `select` maps the selector over the results, one for one and in order. |
| PQuery.First | src/tpath/pquery/_pquery.py:282-295 | `first` is the first result, or none iff there is no result. |
| PQuery.Exists | src/tpath/pquery/_pquery.py:297-311 | `exists` holds iff there is a result. |
| PQuery.Count | src/tpath/pquery/_pquery.py:313-323 | `count` is the number of results. |
| PQuery.Sort | src/tpath/pquery/_pquery.py:374-408 | `sort` returns a permutation of the results, ordered by key ascending or descending, stable. |
| PQuery.Take | src/tpath/pquery/_pquery.py:325-372 | Without a key, `take` returns the first `n` results. With a key and `n <= 0`, it returns nothing and leaves the query untouched. Otherwise it returns the first `n` of the sort. |
| PQuery.Factory | src/tpath/pquery/_pquery.py:415-459 | The factory sets recursion explicitly and leaves the constructor path and the filter unset. |
| PQuery.DefaultsAtExecution | test/pquery/test_lazy_initialization.py:10-42 | Before execution the roots are empty. Execution installs the constructor path or ".", recursion unless turned off, and the constructor filter or "is a file". |
| PQuery.PrepareIdempotent | src/tpath/pquery/_pquery.py:193-203 | Installing the defaults twice is the same as once. |
| PQuery.RunTwiceSame | src/tpath/pquery/_pquery.py:410-412 | Running a query again after a terminal operation gives the same results. |
| PQuery.RecursiveWins | src/tpath/pquery/_pquery.py:148-152 | `recursive(b)` decides recursion whatever the constructor said. |
| PQuery.SecondWhereFails | test/pquery/test_multiple_where_detection.py:9-18 | A second `where()` is rejected. |
| PQuery.WhereAfterRunFails | src/tpath/pquery/_pquery.py:202-203 | After `first()` or `count()`, and after the generator of `files()` has been pulled at least once, `where()` is rejected, because execution installed the default filter. |
| PQuery.TakeNothingKeepsQueryOpen | test/pquery/test_take_and_sort.py:297-303 | `take(n <= 0, key)` returns nothing, and a `where()` afterwards is still accepted. |
| PQuery.ConstructorWhereIsFallback | test/pquery/test_lazy_initialization.py:128-146 | The constructor's filter is replaced by one later `where()`. |
| PQuery.FromReplacesThenAppends | src/tpath/pquery/_pquery.py:83-93 | Without a constructor path, the first `from_` replaces the implicit "." and the next appends. |
| PQuery.FromAppendsToConstructorPath | src/tpath/pquery/_pquery.py:83-93 | With a constructor path other than ".", `from_` appends after it. |
| PQuery.FromReplacesLoneDot | src/tpath/pquery/_pquery.py:88-90 | A lone root "." is replaced by the paths of the next `from_`. |
| PQuery.FromDropsExplicitDot | src/tpath/pquery/_pquery.py:88-90 | A "." given explicitly, by the constructor or by `from_(".")`, is dropped by the next `from_` as if it were the default. |
| PQuery.FromNeedsAPath | src/tpath/pquery/_pquery.py:69-81 | `from_()` without a path, or with only empty lists, is an error. |
| PQuery.FactoryRoots | src/tpath/pquery/_pquery.py:447-459 | The factory's single path or non-empty list becomes the root list. An empty list or no path falls back to "." at execution. |
| PQuery.DistinctKeepsFirstOccurrences | src/tpath/pquery/_pquery.py:96-133 | `distinct()` yields the plain results with every later repeat removed, and nothing repeats. |
| PQuery.ResultsAreFiles | src/tpath/pquery/_pquery.py:224-235 | Every result is a file passing the filter, at or under one of the roots. |
| PQuery.TerminalsAgree | src/tpath/pquery/_pquery.py:282-323 | `exists`, `count` and `first` agree with each other and with `files`. |
| FilterQuery.New | src/tpath/pquery/_filter.py:20-35 | A single path becomes a one-root list, and a list keeps its order. There is no filter yet. |
| FilterQuery.Files | src/tpath/pquery/_filter.py:53-97 | Without a filter, `files` fails with "no query specified". Otherwise it returns the matching paths of the roots in traversal order, repeats included. |
| FilterQuery.Where | src/tpath/pquery/_filter.py:37-51 | `where` installs the given filter, replacing any earlier one, and keeps the roots and the recursion flag. |
| FilterQuery.Select | src/tpath/pquery/_filter.py:99-113 | `select` fails with `files` and otherwise maps the selector over its results in order. |
| FilterQuery.First | src/tpath/pquery/_filter.py:115-128 | `first` fails with `files` and otherwise is its first result or none. |
| FilterQuery.Exists | src/tpath/pquery/_filter.py:130-144 | `exists` fails with `files` and otherwise holds iff there is a result. |
| FilterQuery.Count | src/tpath/pquery/_filter.py:146-156 | `count` fails with `files` and otherwise is the number of results. |
| FilterQuery.NoFilterNoRun | src/tpath/pquery/_filter.py:55-56 | Every terminal operation of a query without `where()` fails. |
| FilterQuery.WhereReplaces | src/tpath/pquery/_filter.py:37-51 | A second `where()` replaces the first. |
| FilterQuery.TerminalsAgree | src/tpath/pquery/_filter.py:130-156 | `exists`, `count` and `first` agree with each other. |
| FilterQuery.AgreesWithLazy | src/tpath/pquery/_filter.py:58-85 | With at least one root, the eager query and the lazy `pquery` with the same filter return the same list. |
| FilterQuery.EmptyRootListDiffers | src/tpath/pquery/_filter.py:29-32 | With an empty root list the eager query returns nothing, while the lazy factory falls back to ".". |

## Left out

- File-system access is replaced by an immutable tree. This covers `exists()`, `is_dir()`, `is_file()`, `glob` and `rglob`. The tree does not change during a query.
- The `OSError`/`PermissionError` branches of `_iter_files` are not modelled: in the model no access fails.
- Paths are compared as strings. `pathlib` normalisation is not modelled, apart from `""` naming `"."`. So `"./a"` and `"a"` are different roots, and symbolic links are not followed.
- `files()`, `select()` and `__iter__()` return generators; the model returns the fully consumed list. `first`, `exists` and key-less `take` stop early in the source. That changes no answer, because nothing can change the tree mid-query.
- PQuery.Files and PQuery.WhereAfterRunFails describe the query once the generator of `files()` has been pulled at least once. A generator that is never started runs none of `_iter_files`, so `q.files(); q.where(w)` is accepted in the source; the model has no state for an unstarted generator.
- A filter is a total function of the path. Filters that raise are not modelled.
- PQuery.Sort, PQuery.Take and Ranking.SortBy take only integer-valued keys. Tuple keys, other comparable key types, and `sort()`/`take()` without a key (`Path` ordering) are not modelled.
- Default arguments are explicit parameters of the model, left to the caller: `start = 0` of every `win_*` window (`chronos/_cal.py:109`, `140`, `172`, `199`, `249`, `307`, `335`), `b = True` of `recursive()` (`_pquery.py:135`) and `recursive = True` of the eager constructor (`_filter.py:20`).
- PQuery.Sort and PQuery.Take take `reverse` as an explicit parameter. The source's defaults, `reverse=True` for `take` (`_pquery.py:326`) and `reverse=False` for `sort` (`_pquery.py:375`), are left to the caller.
- The `n == 1` shortcut inside `heapq` returns the same element as the general path and is not modelled separately.
- `paginate`, `map_parallel` and other parts of `tpath` outside the two query classes are not part of this model, nor are the legacy `pfilter`/`pfind`-style helpers.
- Calendar.WinMonths, Calendar.WinQuarters and Calendar.WinYears compute with plain integers on the (year, month) fields and never build a `datetime`, so they never raise; the model accepts any integer year, which agrees with the source for every year a `datetime` can hold.
- The legacy file's `win_minutes`, `win_hours` and `win_days` do the same `timedelta` arithmetic and raise `OverflowError` under the same conditions; the same members model them.
- Time zones, sub-microsecond precision and floating-point timestamps are not modelled. The base time is a parameter, where the source reads the clock.
- Weekday.NormalizeWeekday lower-cases ASCII letters only. Python's `str.lower` also maps other letters. The only non-ASCII letter whose lower case is ASCII is the Kelvin sign, giving "k", and no weekday name contains a "k". So the difference can change only the text of the error, never whether a specification is accepted. Non-string inputs (`str(x)` conversion) are not modelled.
- The error messages' wording is not modelled: errors are the kinds in `Results.Error`, and `InvalidDaySpec` carries the normalised key.
- PQuery.Files, PQuery.First, PQuery.Take, PQuery.Select, FilterQuery.Files, FilterQuery.First and FilterQuery.Select state their results in the order of CPython 3.11's `rglob` (`_pquery.py:226-227`, `_filter.py:73-74`): a directory's own entries, then each sub-directory's listing in turn. Some other Python versions keep a directory's own entries together and before that directory's deeper entries, but may visit sibling sub-directories in another order. Under such a version these orderings do not hold; the membership contracts, the root order (Traversal.Matches) and the de-duplication still do.
- `where()` in `_pquery.py` rejects a second call (`_pquery.py:155-189`); conditions are not combined.
- Root-by-root independence of the traversal (`Matches` of a concatenation of root lists) is not stated beyond the prefix property of `Traversal.Matches` and the one-root step `Traversal.MatchesNext`.
