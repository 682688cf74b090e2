/**
 * Python's `sorted(items, key=score, reverse=True)`, which the score helpers
 * and the collaborative recommender apply to a dictionary's items. The sort is
 * stable even when reversed, so the result orders positions by descending score
 * and, among equal scores, by ascending original position. The model computes
 * the permutation of positions by insertion.
 */
module StableSort {

  /** Position `a` comes before position `b` in a descending stable sort of `keys`. */
  predicate Before(keys: seq<real>, a: nat, b: nat) {
    a < |keys| && b < |keys| && (keys[a] > keys[b] || (keys[a] == keys[b] && a < b))
  }

  predicate InRange(keys: seq<real>, s: seq<nat>) {
    forall i :: 0 <= i < |s| ==> s[i] < |keys|
  }

  /** `s` lists positions of `keys` in strictly `Before` order (so without repeats). */
  predicate Ordered(keys: seq<real>, s: seq<nat>) {
    forall i, j :: 0 <= i < j < |s| ==> Before(keys, s[i], s[j])
  }

  /** Insert position `x` after every position that comes before it. */
  function Insert(keys: seq<real>, s: seq<nat>, x: nat): (r: seq<nat>)
    requires InRange(keys, s) && x < |keys|
    ensures |r| == |s| + 1
    ensures InRange(keys, r)
    ensures forall y: nat :: y in r <==> y == x || y in s
    ensures Ordered(keys, s) && x !in s ==> Ordered(keys, r)
  {
    if |s| == 0 then [x]
    else if Before(keys, s[0], x) then
      var t := Insert(keys, s[1..], x);
      assert Ordered(keys, s) && x !in s ==> Ordered(keys, [s[0]] + t) by {
        if Ordered(keys, s) && x !in s {
          forall k | 0 <= k < |t| ensures Before(keys, s[0], t[k]) {
            assert t[k] in t;
            if t[k] != x {
              var m :| 0 <= m < |s[1..]| && s[1..][m] == t[k];
              assert s[m + 1] == t[k];
            }
          }
          OrderedCons(keys, s[0], t);
        }
      }
      [s[0]] + t
    else
      assert Ordered(keys, s) && x !in s ==> Before(keys, x, s[0]);
      [x] + s
  }

  lemma OrderedCons(keys: seq<real>, h: nat, t: seq<nat>)
    requires Ordered(keys, t)
    requires forall k :: 0 <= k < |t| ==> Before(keys, h, t[k])
    ensures Ordered(keys, [h] + t)
  {
    var r := [h] + t;
    forall i, j | 0 <= i < j < |r| ensures Before(keys, r[i], r[j]) {
      if i > 0 { assert r[i] == t[i - 1] && r[j] == t[j - 1]; } else { assert r[j] == t[j - 1]; }
    }
  }

  /** The sorted permutation of the positions `0 .. n-1`. */
  function SortPrefix(keys: seq<real>, n: nat): (r: seq<nat>)
    requires n <= |keys|
    ensures |r| == n
    ensures InRange(keys, r)
    ensures Ordered(keys, r)
    ensures forall y: nat :: y in r <==> y < n
  {
    if n == 0 then [] else Insert(keys, SortPrefix(keys, n - 1), n - 1)
  }

  /** The permutation `perm` such that `[keys[p] for p in perm]` is what
      `sorted(..., reverse=True)` yields: every position exactly once, scores
      non-increasing, equal scores in their original order. */
  function SortDescending(keys: seq<real>): (perm: seq<nat>)
    ensures |perm| == |keys|
    ensures forall y: nat :: y in perm <==> y < |keys|
    ensures forall i, j :: 0 <= i < j < |perm| ==> perm[i] < |keys| && perm[j] < |keys| && keys[perm[i]] >= keys[perm[j]]
    ensures forall i, j :: 0 <= i < j < |perm| ==> perm[i] < |keys| && perm[j] < |keys| && (keys[perm[i]] == keys[perm[j]] ==> perm[i] < perm[j])
  {
    SortPrefix(keys, |keys|)
  }
}
