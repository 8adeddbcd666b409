/** Generic sequence helpers shared by the finance and session models:
    removal of every element carrying a key (the `filter(x => x.id !== id)`
    idiom), first-match search (`find` / `findIndex`) and key uniqueness. */
module Seqs {
  import opened Wrappers

  /** `a` is `b` with zero or more elements deleted, the rest kept in order. */
  ghost predicate IsSubsequence<T>(a: seq<T>, b: seq<T>)
    decreases |b|
  {
    if |a| == 0 then true
    else if |b| == 0 then false
    else (a[0] == b[0] && IsSubsequence(a[1..], b[1..])) || IsSubsequence(a, b[1..])
  }

  /** Some element of `xs` carries key `k`. */
  predicate HasKey<T>(xs: seq<T>, key: T -> string, k: string) {
    exists i :: 0 <= i < |xs| && key(xs[i]) == k
  }

  /** No two positions of `xs` carry the same key. */
  predicate KeysUnique<T>(xs: seq<T>, key: T -> string) {
    forall i, j :: 0 <= i < j < |xs| ==> key(xs[i]) != key(xs[j])
  }

  /** `xs` without the elements whose key is `k`: no such element survives,
      every other element keeps its multiplicity, and the survivors keep
      their relative order. */
  function RemoveKey<T(==)>(xs: seq<T>, key: T -> string, k: string): (r: seq<T>)
    ensures forall i :: 0 <= i < |r| ==> key(r[i]) != k
    ensures forall e :: e in r ==> e in xs
    ensures forall e {:trigger multiset(r)[e]} :: e in xs && key(e) != k ==> multiset(r)[e] == multiset(xs)[e]
    ensures IsSubsequence(r, xs)
    ensures !HasKey(xs, key, k) ==> r == xs
  {
    if |xs| == 0 then []
    else
      var rest := RemoveKey(xs[1..], key, k);
      assert xs == [xs[0]] + xs[1..];
      if key(xs[0]) == k then
        rest
      else
        var r := [xs[0]] + rest;
        assert r[1..] == rest;
        r
  }

  /** Removing by key keeps the keys of the survivors pairwise distinct. */
  lemma {:induction false} RemoveKeyKeepsUnique<T>(xs: seq<T>, key: T -> string, k: string)
    requires KeysUnique(xs, key)
    ensures KeysUnique(RemoveKey(xs, key, k), key)
  {
    if |xs| > 0 {
      var tail := xs[1..];
      assert KeysUnique(tail, key) by {
        forall i, j | 0 <= i < j < |tail| ensures key(tail[i]) != key(tail[j]) {
          assert tail[i] == xs[i + 1] && tail[j] == xs[j + 1];
        }
      }
      RemoveKeyKeepsUnique(tail, key, k);
      var rest := RemoveKey(tail, key, k);
      if key(xs[0]) != k {
        var r := [xs[0]] + rest;
        forall i, j | 0 <= i < j < |r| ensures key(r[i]) != key(r[j]) {
          if i == 0 {
            assert r[j] in rest;
            var m :| 0 <= m < |tail| && tail[m] == r[j];
            assert xs[m + 1] == r[j];
          } else {
            assert r[i] == rest[i - 1] && r[j] == rest[j - 1];
          }
        }
      }
    }
  }

  /** With distinct keys, removing a key that is present drops exactly one element. */
  lemma {:induction false} RemoveKeyDropsOne<T>(xs: seq<T>, key: T -> string, k: string)
    requires KeysUnique(xs, key)
    requires HasKey(xs, key, k)
    ensures |RemoveKey(xs, key, k)| == |xs| - 1
  {
    var tail := xs[1..];
    if key(xs[0]) == k {
      assert !HasKey(tail, key, k) by {
        forall m | 0 <= m < |tail| ensures key(tail[m]) != k {
          assert tail[m] == xs[m + 1];
        }
      }
    } else {
      var n :| 0 <= n < |xs| && key(xs[n]) == k;
      assert tail[n - 1] == xs[n];
      assert KeysUnique(tail, key) by {
        forall i, j | 0 <= i < j < |tail| ensures key(tail[i]) != key(tail[j]) {
          assert tail[i] == xs[i + 1] && tail[j] == xs[j + 1];
        }
      }
      RemoveKeyDropsOne(tail, key, k);
    }
  }

  /** Putting an element with a fresh key in front keeps keys distinct. */
  lemma PrependFreshKeepsUnique<T>(x: T, xs: seq<T>, key: T -> string)
    requires KeysUnique(xs, key)
    requires !HasKey(xs, key, key(x))
    ensures KeysUnique([x] + xs, key)
  {
    var r := [x] + xs;
    forall i, j | 0 <= i < j < |r| ensures key(r[i]) != key(r[j]) {
      assert r[j] == xs[j - 1];
      if i > 0 {
        assert r[i] == xs[i - 1];
      }
    }
  }

  /** Index of the first element satisfying `p` (JavaScript's `findIndex`,
      with `None` for -1). */
  function FindFirst<T>(xs: seq<T>, p: T -> bool): (r: Option<nat>)
    ensures r.Some? ==> r.value < |xs| && p(xs[r.value])
    ensures r.Some? ==> forall j :: 0 <= j < r.value ==> !p(xs[j])
    ensures r.None? <==> forall j :: 0 <= j < |xs| ==> !p(xs[j])
  {
    if |xs| == 0 then None
    else if p(xs[0]) then Some(0)
    else
      match FindFirst(xs[1..], p)
      case None => None
      case Some(i) => Some(i + 1)
  }
}
