/**
 * Generic sequence vocabulary shared by every report: projecting rows onto one
 * column, selecting the rows with a given value, counting occurrences, the set of
 * distinct values, and the distinct values in first-seen order (the iteration
 * order of a JavaScript object or `Map` filled while scanning the rows).
 */
module Sequences {

  /** `rows.map(f)`. */
  function Project<A, B>(s: seq<A>, f: A -> B): (r: seq<B>)
    ensures |r| == |s|
    ensures forall i :: 0 <= i < |s| ==> r[i] == f(s[i])
  {
    if s == [] then [] else Project(s[..|s| - 1], f) + [f(s[|s| - 1])]
  }

  /** `rows.filter(v => f(v) === x)`. */
  function Filter<A, T(==)>(s: seq<A>, f: A -> T, x: T): (r: seq<A>)
    ensures |r| <= |s|
  {
    if s == [] then []
    else Filter(s[..|s| - 1], f, x) + (if f(s[|s| - 1]) == x then [s[|s| - 1]] else [])
  }

  /** Number of occurrences of `x` in `s`. */
  function Count<T(==)>(s: seq<T>, x: T): nat {
    if s == [] then 0 else Count(s[..|s| - 1], x) + (if s[|s| - 1] == x then 1 else 0)
  }

  /** `new Set(s)`, as a mathematical set. */
  function Elems<T>(s: seq<T>): set<T> {
    set x | x in s
  }

  predicate Distinct<T(==)>(s: seq<T>) {
    forall i, j :: 0 <= i < j < |s| ==> s[i] != s[j]
  }

  /** The distinct elements of `s`, each at the place where it first occurs. */
  function Dedup<T(==)>(s: seq<T>): (r: seq<T>)
    ensures Distinct(r) && Elems(r) == Elems(s)
  {
    if s == [] then []
    else
      var init := Dedup(s[..|s| - 1]);
      assert s == s[..|s| - 1] + [s[|s| - 1]];
      ElemsSnoc(s[..|s| - 1], s[|s| - 1]);
      ElemsSnoc(init, s[|s| - 1]);
      if s[|s| - 1] in init then init else init + [s[|s| - 1]]
  }

  /** Sum over the entries of `keys` of the number of times each occurs in `s`. */
  function Total<T(==)>(keys: seq<T>, s: seq<T>): nat {
    if keys == [] then 0 else Total(keys[..|keys| - 1], s) + Count(s, keys[|keys| - 1])
  }

  /** `arr.slice(0, n)`. */
  function Take<T>(s: seq<T>, n: nat): (r: seq<T>)
    ensures |r| == if n < |s| then n else |s|
    ensures r == s[..|r|]
  {
    if n < |s| then s[..n] else s
  }

  lemma SnocPrefix<T>(s: seq<T>, i: nat)
    requires i < |s|
    ensures s[..i + 1][..i] == s[..i] && s[..i + 1] == s[..i] + [s[i]]
  {
  }

  lemma ProjectSnoc<A, B>(s: seq<A>, a: A, f: A -> B)
    ensures Project(s + [a], f) == Project(s, f) + [f(a)]
  {
    assert (s + [a])[..|s|] == s;
  }

  lemma FilterSnoc<A, T>(s: seq<A>, a: A, f: A -> T, x: T)
    ensures Filter(s + [a], f, x) == Filter(s, f, x) + (if f(a) == x then [a] else [])
  {
    assert (s + [a])[..|s|] == s;
  }

  /** Every selected row comes from `s` and has the value `x` in the column. */
  lemma {:induction false} FilterMembers<A, T>(s: seq<A>, f: A -> T, x: T)
    ensures forall a :: a in Filter(s, f, x) ==> a in s && f(a) == x
  {
    if s != [] {
      FilterMembers(s[..|s| - 1], f, x);
    }
  }

  /** Every row of `s` whose column is `x` is selected. */
  lemma {:induction false} FilterKeeps<A, T>(s: seq<A>, f: A -> T, x: T)
    ensures forall a :: a in s && f(a) == x ==> a in Filter(s, f, x)
  {
    if s != [] {
      FilterKeeps(s[..|s| - 1], f, x);
      assert s == s[..|s| - 1] + [s[|s| - 1]];
    }
  }

  /** Two columns that agree on every row of `s` select the same rows. */
  lemma {:induction false} FilterSameColumn<A, T>(s: seq<A>, f: A -> T, g: A -> T, x: T)
    requires forall a :: a in s ==> f(a) == g(a)
    ensures Filter(s, f, x) == Filter(s, g, x)
  {
    if s != [] {
      assert s[|s| - 1] in s;
      FilterSameColumn(s[..|s| - 1], f, g, x);
    }
  }

  lemma {:induction false} FilterConcat<A, T>(a: seq<A>, b: seq<A>, f: A -> T, x: T)
    ensures Filter(a + b, f, x) == Filter(a, f, x) + Filter(b, f, x)
  {
    if b != [] {
      var b' := b[..|b| - 1];
      FilterConcat(a, b', f, x);
      assert (a + b)[..|a + b| - 1] == a + b';
    } else {
      assert a + b == a;
    }
  }

  /** The first selected row is the first row of `s` whose column is `x`. */
  lemma {:induction false} FilterFirst<A, T>(s: seq<A>, f: A -> T, x: T)
    requires Filter(s, f, x) != []
    ensures exists i :: (0 <= i < |s| && s[i] == Filter(s, f, x)[0] && f(s[i]) == x
      && forall j :: 0 <= j < i ==> f(s[j]) != x)
  {
    var init := s[..|s| - 1];
    if Filter(init, f, x) != [] {
      FilterFirst(init, f, x);
      var i :| (0 <= i < |init| && init[i] == Filter(init, f, x)[0] && f(init[i]) == x
        && forall j :: 0 <= j < i ==> f(init[j]) != x);
      assert s[i] == init[i];
      assert forall j :: 0 <= j < i ==> s[j] == init[j];
    } else {
      FilterKeeps(init, f, x);
      var i := |s| - 1;
      forall j | 0 <= j < i ensures f(s[j]) != x {
        assert s[j] == init[j] && init[j] in init;
      }
    }
  }

  lemma DedupSnoc<T>(s: seq<T>, x: T)
    ensures Dedup(s + [x]) == if x in s then Dedup(s) else Dedup(s) + [x]
  {
    assert (s + [x])[..|s|] == s;
    assert x in Dedup(s) <==> x in Elems(Dedup(s));
  }

  /** A value occurs among the distinct values exactly when it occurs at all. */
  lemma DedupMembers<T>(s: seq<T>)
    ensures forall x :: x in Dedup(s) <==> x in s
  {
    forall x ensures x in Dedup(s) <==> x in s {
      assert x in Dedup(s) <==> x in Elems(Dedup(s));
    }
  }

  lemma ElemsSnoc<T>(s: seq<T>, x: T)
    ensures Elems(s + [x]) == Elems(s) + {x}
  {
  }

  lemma CountSnoc<T>(s: seq<T>, y: T, x: T)
    ensures Count(s + [y], x) == Count(s, x) + (if y == x then 1 else 0)
  {
    assert (s + [y])[..|s|] == s;
  }

  /** Selecting the rows whose column equals `x` keeps exactly as many rows as `x` occurs in that column. */
  lemma {:induction false} FilterLength<A, T>(s: seq<A>, f: A -> T, x: T)
    ensures |Filter(s, f, x)| == Count(Project(s, f), x)
  {
    if s != [] {
      var init, last := s[..|s| - 1], s[|s| - 1];
      FilterLength(init, f, x);
      assert s == init + [last];
      ProjectSnoc(init, last, f);
      FilterSnoc(init, last, f, x);
      CountSnoc(Project(init, f), f(last), x);
    }
  }

  /** No row is selected for a value that does not occur in the column. */
  lemma FilterAbsent<A, T>(s: seq<A>, f: A -> T, x: T)
    requires x !in Project(s, f)
    ensures Filter(s, f, x) == []
  {
    FilterLength(s, f, x);
    CountPositive(Project(s, f), x);
  }

  lemma SubsetCardinality<T>(a: set<T>, b: set<T>)
    requires a <= b
    ensures |a| <= |b|
  {
    assert b == a + (b - a);
  }

  /** A value occurs in `s` exactly when it is counted at least once. */
  lemma {:induction false} CountPositive<T>(s: seq<T>, x: T)
    ensures Count(s, x) > 0 <==> x in s
  {
    if s != [] {
      CountPositive(s[..|s| - 1], x);
      assert s == s[..|s| - 1] + [s[|s| - 1]];
    }
  }

  /** A sequence has at least as many entries as distinct values, and at least one value when non-empty. */
  lemma {:induction false} ElemsBound<T>(s: seq<T>)
    ensures |Elems(s)| <= |s|
    ensures s != [] ==> |Elems(s)| >= 1
  {
    if s != [] {
      var init := s[..|s| - 1];
      ElemsBound(init);
      assert s == init + [s[|s| - 1]];
      ElemsSnoc(init, s[|s| - 1]);
      assert s[|s| - 1] in Elems(s);
    }
  }

  /** A sequence without repetitions has as many distinct values as entries. */
  lemma {:induction false} DistinctCardinality<T>(s: seq<T>)
    requires Distinct(s)
    ensures |Elems(s)| == |s|
  {
    if s != [] {
      var init := s[..|s| - 1];
      assert s == init + [s[|s| - 1]];
      DistinctCardinality(init);
      ElemsSnoc(init, s[|s| - 1]);
    }
  }

  /** In a sequence without repetitions, each member occurs exactly once. */
  lemma {:induction false} DistinctCount<T>(keys: seq<T>, x: T)
    requires Distinct(keys) && x in keys
    ensures Count(keys, x) == 1
  {
    var init := keys[..|keys| - 1];
    var last := keys[|keys| - 1];
    assert keys == init + [last];
    if x == last {
      CountPositive(init, x);
    } else {
      DistinctCount(init, x);
    }
  }

  lemma {:induction false} TotalSnoc<T>(keys: seq<T>, s: seq<T>, y: T)
    ensures Total(keys, s + [y]) == Total(keys, s) + Count(keys, y)
  {
    if keys != [] {
      TotalSnoc(keys[..|keys| - 1], s, y);
      CountSnoc(s, y, keys[|keys| - 1]);
    }
  }

  /**
   * Conservation: when `keys` lists every value of `s` exactly once, the per-key
   * counts add up to the length of `s`.
   */
  lemma {:induction false} CountsSumToLength<T>(keys: seq<T>, s: seq<T>)
    requires Distinct(keys)
    requires forall x :: x in s ==> x in keys
    ensures Total(keys, s) == |s|
  {
    if s == [] {
      TotalOfEmpty(keys);
    } else {
      var init := s[..|s| - 1];
      assert s == init + [s[|s| - 1]];
      CountsSumToLength(keys, init);
      TotalSnoc(keys, init, s[|s| - 1]);
      DistinctCount(keys, s[|s| - 1]);
    }
  }

  /** Sum of a sequence of counts. */
  function Sum(s: seq<nat>): nat {
    if s == [] then 0 else Sum(s[..|s| - 1]) + s[|s| - 1]
  }

  /** A list holding, key by key, the number of occurrences of each key sums to `Total`. */
  lemma {:induction false} SumMatchesTotal<T>(counts: seq<nat>, keys: seq<T>, s: seq<T>)
    requires |counts| == |keys|
    requires forall i :: 0 <= i < |keys| ==> counts[i] == Count(s, keys[i])
    ensures Sum(counts) == Total(keys, s)
  {
    if keys != [] {
      SumMatchesTotal(counts[..|counts| - 1], keys[..|keys| - 1], s);
    }
  }

  lemma {:induction false} TotalOfEmpty<T>(keys: seq<T>)
    ensures Total(keys, []) == 0
  {
    if keys != [] {
      TotalOfEmpty(keys[..|keys| - 1]);
    }
  }
}
