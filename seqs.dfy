/** `Array.prototype.filter`, the elements that pass a test in their original
    order, and grouping by a key, as a `forEach` that pushes onto the array
    filed under each element's key does it. */
module Seqs {

  function Filter<T>(s: seq<T>, p: T -> bool): (r: seq<T>)
    ensures |r| <= |s|
    ensures forall x :: x in r ==> x in s && p(x)
  {
    if |s| == 0 then []
    else
      var init := Filter(s[..|s| - 1], p);
      assert forall x :: x in s[..|s| - 1] ==> x in s;
      init + (if p(s[|s| - 1]) then [s[|s| - 1]] else [])
  }

  /** Nothing that passes the test is lost. */
  lemma {:induction false} FilterKeeps<T>(s: seq<T>, p: T -> bool, x: T)
    requires x in s && p(x)
    ensures x in Filter(s, p)
  {
    var n := |s| - 1;
    if s[n] != x {
      assert x in s[..n] by {
        var i :| 0 <= i < |s| && s[i] == x;
        assert i < n && s[..n][i] == x;
      }
      FilterKeeps(s[..n], p, x);
    }
  }

  /** Filtering is stable: it distributes over concatenation, so elements keep
      their relative order. */
  lemma {:induction false} FilterAppend<T>(a: seq<T>, b: seq<T>, p: T -> bool)
    ensures Filter(a + b, p) == Filter(a, p) + Filter(b, p)
    decreases |b|
  {
    if |b| == 0 {
      assert a + b == a;
    } else {
      var n := |b| - 1;
      assert (a + b)[..|a + b| - 1] == a + b[..n];
      FilterAppend(a, b[..n], p);
    }
  }

  /** Filtering a one-element sequence. */
  lemma FilterSingleton<T>(x: T, p: T -> bool)
    ensures Filter([x], p) == if p(x) then [x] else []
  {
    assert [x][..0] == [];
  }
  /** Some element passes the test exactly when one of `init`, all but the
      last, does or the last does. */
  lemma AnyLast<T>(s: seq<T>, init: seq<T>, p: T -> bool)
    requires |s| > 0 && init == s[..|s| - 1]
    ensures (exists i :: 0 <= i < |s| && p(s[i])) <==>
      (exists i :: 0 <= i < |init| && p(init[i])) || p(s[|s| - 1])
  {
    if exists i :: 0 <= i < |s| && p(s[i]) {
      var i :| 0 <= i < |s| && p(s[i]);
      if i < |init| { assert init[i] == s[i]; }
    }
    if exists i :: 0 <= i < |init| && p(init[i]) {
      var i :| 0 <= i < |init| && p(init[i]);
      assert s[i] == init[i];
    }
  }

  /** The elements whose key is `key`, in their original order. */
  function Select<T, K(==)>(s: seq<T>, keyOf: T -> K, key: K): (r: seq<T>)
    ensures |r| <= |s|
    ensures forall x :: x in r ==> x in s && keyOf(x) == key
  {
    if |s| == 0 then []
    else
      var init := Select(s[..|s| - 1], keyOf, key);
      assert forall x :: x in s[..|s| - 1] ==> x in s;
      init + (if keyOf(s[|s| - 1]) == key then [s[|s| - 1]] else [])
  }

  /** Every element with the key is selected. */
  lemma {:induction false} SelectKeeps<T, K>(s: seq<T>, keyOf: T -> K, key: K, x: T)
    requires x in s && keyOf(x) == key
    ensures x in Select(s, keyOf, key)
  {
    var n := |s| - 1;
    if s[n] != x {
      assert x in s[..n] by {
        var i :| 0 <= i < |s| && s[i] == x;
        assert i < n && s[..n][i] == x;
      }
      SelectKeeps(s[..n], keyOf, key, x);
    }
  }

  /** Selection distributes over concatenation, so elements keep their relative order. */
  lemma {:induction false} SelectAppend<T, K>(a: seq<T>, b: seq<T>, keyOf: T -> K, key: K)
    ensures Select(a + b, keyOf, key) == Select(a, keyOf, key) + Select(b, keyOf, key)
    decreases |b|
  {
    if |b| == 0 {
      assert a + b == a;
    } else {
      var n := |b| - 1;
      assert (a + b)[..|a + b| - 1] == a + b[..n];
      SelectAppend(a, b[..n], keyOf, key);
    }
  }

  /** The elements filed under their keys, each group in original order. */
  ghost function GroupBy<T, K>(s: seq<T>, keyOf: T -> K): map<K, seq<T>> {
    if |s| == 0 then map[]
    else
      var groups := GroupBy(s[..|s| - 1], keyOf);
      var key := keyOf(s[|s| - 1]);
      groups[key := (if key in groups then groups[key] else []) + [s[|s| - 1]]]
  }

  /** Filing one more element. */
  lemma GroupByStep<T, K>(s: seq<T>, i: nat, keyOf: T -> K)
    requires i < |s|
    ensures var groups := GroupBy(s[..i], keyOf);
      GroupBy(s[..i + 1], keyOf) == groups[keyOf(s[i]) := (if keyOf(s[i]) in groups then groups[keyOf(s[i])] else []) + [s[i]]]
  {
    assert s[..i + 1][..i] == s[..i];
  }

  /** A key is filed exactly when some element has it, and its group is the
      selection of that key. */
  lemma {:induction false} GroupByAt<T, K>(s: seq<T>, keyOf: T -> K, key: K)
    ensures key in GroupBy(s, keyOf) <==> Select(s, keyOf, key) != []
    ensures key in GroupBy(s, keyOf) ==> GroupBy(s, keyOf)[key] == Select(s, keyOf, key)
  {
    if |s| > 0 {
      var n := |s| - 1;
      GroupByAt(s[..n], keyOf, key);
    }
  }
}
