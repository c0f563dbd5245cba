/** First-occurrence de-duplication, as `distinct()` performs it with its
    set of already-yielded paths: an element is kept only if it has not been
    seen earlier in the stream. */
module Dedup {
  import opened Seqs

  predicate NoDuplicates<T(==, !new)>(xs: seq<T>) {
    forall i, j :: 0 <= i < j < |xs| ==> xs[i] != xs[j]
  }

  /** The stream with every later repeat dropped. */
  function FirstOccurrences<T(==, !new)>(xs: seq<T>): seq<T> {
    if |xs| == 0 then []
    else
      var init, x := xs[..|xs| - 1], xs[|xs| - 1];
      FirstOccurrences(init) + (if x in init then [] else [x])
  }

  /** The kept elements are exactly the stream's elements, each once. */
  lemma {:induction false} FirstOccurrencesFacts<T(!new)>(xs: seq<T>)
    ensures forall x :: x in FirstOccurrences(xs) <==> x in xs
    ensures NoDuplicates(FirstOccurrences(xs))
    ensures |FirstOccurrences(xs)| <= |xs|
  {
    if |xs| > 0 {
      var init, x := xs[..|xs| - 1], xs[|xs| - 1];
      FirstOccurrencesFacts(init);
      assert xs == init + [x];
    }
  }

  lemma SnocPrefix<T>(xs: seq<T>, x: T)
    ensures (xs + [x])[..|xs|] == xs
  {
  }

  /** Feeding one more element: it is appended exactly when it is new. */
  lemma FirstOccurrencesSnoc<T(!new)>(xs: seq<T>, x: T)
    ensures FirstOccurrences(xs + [x]) == FirstOccurrences(xs) + (if x in xs then [] else [x])
  {
    SnocPrefix(xs, x);
  }

  /** A stream that already has no repeats is left as it is. */
  lemma {:induction false} FirstOccurrencesOfDistinct<T(!new)>(xs: seq<T>)
    requires NoDuplicates(xs)
    ensures FirstOccurrences(xs) == xs
  {
    if |xs| > 0 {
      var init := xs[..|xs| - 1];
      assert NoDuplicates(init);
      FirstOccurrencesOfDistinct(init);
      assert xs[|xs| - 1] !in init;
      assert init + [xs[|xs| - 1]] == xs;
    }
  }

  /** Applying the de-duplication twice is the same as once. */
  lemma Idempotent<T(!new)>(xs: seq<T>)
    ensures FirstOccurrences(FirstOccurrences(xs)) == FirstOccurrences(xs)
  {
    FirstOccurrencesFacts(xs);
    FirstOccurrencesOfDistinct(FirstOccurrences(xs));
  }

  /** The kept elements appear in the order of their first occurrence in the stream. */
  lemma {:induction false} FirstOccurrenceOrder<T(!new)>(xs: seq<T>)
    ensures forall i, j :: 0 <= i < j < |FirstOccurrences(xs)| ==>
      && FirstOccurrences(xs)[i] in xs && FirstOccurrences(xs)[j] in xs
      && FirstIndex(xs, FirstOccurrences(xs)[i]) < FirstIndex(xs, FirstOccurrences(xs)[j])
  {
    FirstOccurrencesFacts(xs);
    if |xs| > 0 {
      var init, x := xs[..|xs| - 1], xs[|xs| - 1];
      FirstOccurrenceOrder(init);
      FirstOccurrencesFacts(init);
      assert xs == init + [x];
      var r0 := FirstOccurrences(init);
      var r := FirstOccurrences(xs);
      forall y | y in init
        ensures FirstIndex(xs, y) == FirstIndex(init, y)
      {
        var a, b := FirstIndex(xs, y), FirstIndex(init, y);
        assert xs[b] == y;
        assert a <= b;
        assert init[a] == y;
      }
      forall i, j | 0 <= i < j < |r|
        ensures FirstIndex(xs, r[i]) < FirstIndex(xs, r[j])
      {
        assert r[i] in init by { assert r[i] == r0[i]; }
        if j < |r0| {
          assert r[j] == r0[j];
        } else {
          assert r[j] == x && x !in init;
          assert FirstIndex(xs, x) == |init|;
        }
      }
    }
  }
}
