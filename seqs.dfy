/** The array idioms the pages use over and over, as total functions on
    sequences: `map` with a conditional rewrite, `filter`, `findIndex`, `find`,
    `some` and the keep-first-occurrence de-duplication
    `xs.filter((x, i, self) => i === self.findIndex(y => y.id === x.id))`. */
module Seqs {
  import opened Wrappers

  /** `s` is obtained from `t` by deleting elements, keeping the order. */
  ghost predicate IsSubsequence<T>(s: seq<T>, t: seq<T>)
    decreases |t|
  {
    if s == [] then true
    else if t == [] then false
    else if s[0] == t[0] then IsSubsequence(s[1..], t[1..])
    else IsSubsequence(s, t[1..])
  }

  /** `xs.map(x => pick(x) ? change(x) : x)`: same length, same order, and only
      the elements that `pick` selects are rewritten. */
  function MapWhere<T>(xs: seq<T>, pick: T -> bool, change: T -> T): (r: seq<T>)
    ensures |r| == |xs|
    ensures forall i :: 0 <= i < |xs| && pick(xs[i]) ==> r[i] == change(xs[i])
    ensures forall i :: 0 <= i < |xs| && !pick(xs[i]) ==> r[i] == xs[i]
  {
    if xs == [] then []
    else [if pick(xs[0]) then change(xs[0]) else xs[0]] + MapWhere(xs[1..], pick, change)
  }

  /** `xs.filter(keep)`: exactly the kept elements, each as often as in `xs`,
      in their original order. */
  function Filter<T(!new)>(xs: seq<T>, keep: T -> bool): (r: seq<T>)
    ensures |r| <= |xs|
    ensures forall x :: x in r <==> x in xs && keep(x)
    ensures forall x :: multiset(r)[x] == if keep(x) then multiset(xs)[x] else 0
    ensures IsSubsequence(r, xs)
  {
    if xs == [] then []
    else
      var rest := Filter(xs[1..], keep);
      assert xs == [xs[0]] + xs[1..];
      if keep(xs[0]) then [xs[0]] + rest else rest
  }

  /** `xs.findIndex(p)`: the first index whose element satisfies `p`, or -1. */
  function FirstIndex<T>(xs: seq<T>, p: T -> bool): (k: int)
    ensures -1 <= k < |xs|
    ensures k == -1 <==> forall i :: 0 <= i < |xs| ==> !p(xs[i])
    ensures k >= 0 ==> p(xs[k]) && forall j :: 0 <= j < k ==> !p(xs[j])
  {
    if xs == [] then -1
    else if p(xs[0]) then 0
    else
      var k := FirstIndex(xs[1..], p);
      if k == -1 then -1 else k + 1
  }

  /** `xs.find(p) || null`: the first element satisfying `p`. */
  function FindFirst<T>(xs: seq<T>, p: T -> bool): (r: Option<T>)
    ensures r.None? <==> forall i :: 0 <= i < |xs| ==> !p(xs[i])
    ensures r.Some? ==> exists k :: 0 <= k < |xs| && xs[k] == r.value && p(xs[k])
                          && forall j :: 0 <= j < k ==> !p(xs[j])
  {
    var k := FirstIndex(xs, p);
    if k == -1 then None else Some(xs[k])
  }

  /** `xs.some(p)`. */
  function Any<T>(xs: seq<T>, p: T -> bool): (b: bool)
    ensures b <==> exists i :: 0 <= i < |xs| && p(xs[i])
  {
    if xs == [] then false
    else p(xs[0]) || Any(xs[1..], p)
  }

  /** The predicate `y => key(y) === k`. */
  function KeyIs<T>(key: T -> string, k: string): T -> bool
  {
    y => key(y) == k
  }

  /** The set of keys occurring in `xs`. */
  ghost function Keys<T>(xs: seq<T>, key: T -> string): set<string>
  {
    set x | x in xs :: key(x)
  }

  /** `xs.filter((x, i, self) => i === self.findIndex(y => key(y) === key(x)))`
      restricted to the first `n` positions. */
  function KeepFirstUpTo<T>(xs: seq<T>, key: T -> string, n: nat): (r: seq<T>)
    requires n <= |xs|
    ensures KeptFirst(r, xs, key, n) && KeptInOrder(r, xs, key, n)
    decreases n
  {
    if n == 0 then []
    else
      var prev := KeepFirstUpTo(xs, key, n - 1);
      if FirstIndex(xs, KeyIs(key, key(xs[n - 1]))) == n - 1 then
        KeepNewKey(xs, key, n, prev);
        AppendFirstOrder(xs, key, n, prev);
        prev + [xs[n - 1]]
      else
        KeepSeenKey(xs, key, n, prev);
        prev
  }

  /** What the de-duplication of the first `n` positions promises: distinct
      keys, the same keys as those positions, each kept element the first of
      its key in the whole of `xs`, and the order of `xs`. */
  ghost predicate KeptFirst<T>(r: seq<T>, xs: seq<T>, key: T -> string, n: nat)
    requires n <= |xs|
  {
    && (forall i, j :: 0 <= i < j < |r| ==> key(r[i]) != key(r[j]))
    && Keys(r, key) == Keys(xs[..n], key)
    && (forall y :: y in r ==> FindFirst(xs, KeyIs(key, key(y))) == Some(y))
    && IsSubsequence(r, xs[..n])
  }

  /** The keys of `r` come in the order of their first occurrences in `xs`,
      all of them before position `n`. */
  ghost predicate KeptInOrder<T>(r: seq<T>, xs: seq<T>, key: T -> string, n: nat)
  {
    && (forall i :: 0 <= i < |r| ==> FirstIndex(xs, KeyIs(key, key(r[i]))) < n)
    && (forall i, j :: 0 <= i < j < |r| ==>
          FirstIndex(xs, KeyIs(key, key(r[i]))) < FirstIndex(xs, KeyIs(key, key(r[j]))))
  }

  /** Filtering a sequence with one more element at the end. */
  lemma {:induction false} FilterSnoc<T(!new)>(xs: seq<T>, x: T, keep: T -> bool)
    ensures Filter(xs + [x], keep) == Filter(xs, keep) + (if keep(x) then [x] else [])
  {
    var ys := xs + [x];
    if xs == [] {
      assert ys[1..] == [];
    } else {
      assert ys[0] == xs[0] && ys[1..] == xs[1..] + [x];
      FilterSnoc(xs[1..], x, keep);
    }
  }

  lemma TakeSnoc<T>(xs: seq<T>, n: nat)
    requires 1 <= n <= |xs|
    ensures xs[..n] == xs[..n - 1] + [xs[n - 1]]
  {
  }

  /** Position `n - 1` holds the first element of its key: it is appended. */
  lemma KeepNewKey<T>(xs: seq<T>, key: T -> string, n: nat, prev: seq<T>)
    requires 1 <= n <= |xs| && KeptFirst(prev, xs, key, n - 1)
    requires FirstIndex(xs, KeyIs(key, key(xs[n - 1]))) == n - 1
    ensures KeptFirst(prev + [xs[n - 1]], xs, key, n)
  {
    var x := xs[n - 1];
    var r := prev + [x];
    var before := xs[..n - 1];
    TakeSnoc(xs, n);
    assert key(x) !in Keys(before, key) by {
      forall y | y in before ensures key(y) != key(x) {
        var j :| 0 <= j < n - 1 && before[j] == y;
        assert !KeyIs(key, key(x))(xs[j]);
      }
    }
    assert forall i, j :: 0 <= i < j < |r| ==> key(r[i]) != key(r[j]) by {
      forall i, j | 0 <= i < j < |r| ensures key(r[i]) != key(r[j]) {
        if j == |prev| {
          assert r[i] in prev;
        }
      }
    }
    assert Keys(r, key) == Keys(xs[..n], key) by {
      KeysSnoc(prev, x, key);
      KeysSnoc(before, x, key);
    }
    assert FindFirst(xs, KeyIs(key, key(x))) == Some(x);
    assert forall y :: y in r ==> FindFirst(xs, KeyIs(key, key(y))) == Some(y) by {
      forall y | y in r ensures FindFirst(xs, KeyIs(key, key(y))) == Some(y) {
        if y != x {
          assert y in prev;
        }
      }
    }
    SubsequenceSnoc(prev, before, x);
  }

  /** Appending the element at `n - 1`, first of its key, keeps the keys in
      the order of their first occurrences. */
  lemma AppendFirstOrder<T>(xs: seq<T>, key: T -> string, n: nat, prev: seq<T>)
    requires 1 <= n <= |xs| && KeptInOrder(prev, xs, key, n - 1)
    requires FirstIndex(xs, KeyIs(key, key(xs[n - 1]))) == n - 1
    ensures KeptInOrder(prev + [xs[n - 1]], xs, key, n)
  {
    var r := prev + [xs[n - 1]];
    var first := y => FirstIndex(xs, KeyIs(key, key(y)));
    assert forall i :: 0 <= i < |prev| ==> first(r[i]) == first(prev[i]) < n - 1;
    assert first(r[|prev|]) == n - 1;
    forall i, j | 0 <= i < j < |r| ensures first(r[i]) < first(r[j]) {
      if j < |prev| {
        assert first(prev[i]) < first(prev[j]);
      }
    }
  }

  /** Position `n - 1` repeats an earlier key: nothing is appended. */
  lemma KeepSeenKey<T>(xs: seq<T>, key: T -> string, n: nat, prev: seq<T>)
    requires 1 <= n <= |xs| && KeptFirst(prev, xs, key, n - 1)
    requires FirstIndex(xs, KeyIs(key, key(xs[n - 1]))) != n - 1
    ensures KeptFirst(prev, xs, key, n)
  {
    var x := xs[n - 1];
    var before := xs[..n - 1];
    TakeSnoc(xs, n);
    var k := FirstIndex(xs, KeyIs(key, key(x)));
    assert 0 <= k < n - 1 && key(xs[k]) == key(x);
    assert Keys(prev, key) == Keys(xs[..n], key) by {
      assert xs[k] in before;
      KeysSnoc(before, x, key);
    }
    SubsequenceExtend(prev, before, x);
  }

  /** Keep-first-occurrence de-duplication by key over the whole sequence. */
  function KeepFirstByKey<T>(xs: seq<T>, key: T -> string): (r: seq<T>)
    ensures forall i, j :: 0 <= i < j < |r| ==> key(r[i]) != key(r[j])
    ensures forall i, j :: 0 <= i < j < |r| ==>
              FirstIndex(xs, KeyIs(key, key(r[i]))) < FirstIndex(xs, KeyIs(key, key(r[j])))
    ensures Keys(r, key) == Keys(xs, key)
    ensures forall y :: y in r ==> FindFirst(xs, KeyIs(key, key(y))) == Some(y)
    ensures IsSubsequence(r, xs)
  {
    assert xs[..|xs|] == xs;
    KeepFirstUpTo(xs, key, |xs|)
  }

  lemma {:induction false} SubsequenceSnoc<T>(s: seq<T>, t: seq<T>, x: T)
    requires IsSubsequence(s, t)
    ensures IsSubsequence(s + [x], t + [x])
    decreases |t|
  {
    if s == [] {
      assert s + [x] == [x];
      SubsequenceOfSingleton(t, x);
    } else {
      assert t != [];
      assert (s + [x])[1..] == s[1..] + [x];
      assert (t + [x])[1..] == t[1..] + [x];
      if s[0] == t[0] {
        SubsequenceSnoc(s[1..], t[1..], x);
      } else {
        SubsequenceSnoc(s, t[1..], x);
      }
    }
  }

  lemma KeysSnoc<T>(xs: seq<T>, x: T, key: T -> string)
    ensures Keys(xs + [x], key) == Keys(xs, key) + {key(x)}
  {
    assert forall y :: y in xs + [x] <==> y in xs || y == x;
  }

  lemma {:induction false} SubsequenceOfSingleton<T>(t: seq<T>, x: T)
    ensures IsSubsequence([x], t + [x])
    decreases |t|
  {
    if t != [] {
      assert (t + [x])[1..] == t[1..] + [x];
      if t[0] != x {
        SubsequenceOfSingleton(t[1..], x);
      }
    }
  }

  lemma {:induction false} SubsequenceExtend<T>(s: seq<T>, t: seq<T>, x: T)
    requires IsSubsequence(s, t)
    ensures IsSubsequence(s, t + [x])
    decreases |t|
  {
    if s != [] {
      assert t != [];
      assert (t + [x])[1..] == t[1..] + [x];
      if s[0] == t[0] {
        SubsequenceExtend(s[1..], t[1..], x);
      } else {
        SubsequenceExtend(s, t[1..], x);
      }
    }
  }

  /** A match in the first part is found before anything in the second. */
  lemma FindFirstConcat<T>(xs: seq<T>, ys: seq<T>, p: T -> bool)
    requires exists i :: 0 <= i < |xs| && p(xs[i])
    ensures FindFirst(xs + ys, p) == FindFirst(xs, p)
  {
    var k := FirstIndex(xs, p);
    var m := FirstIndex(xs + ys, p);
    assert (xs + ys)[k] == xs[k];
    assert forall j :: 0 <= j < |xs| ==> (xs + ys)[j] == xs[j];
    assert m == k;
  }
}
