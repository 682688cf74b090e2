/**
 * The score helpers: min-max normalisation, order-preserving deduplication,
 * and the weighted merge of two `(id, score)` rankings. The dictionary that the
 * merge fills is modelled by its insertion order (`order`) and its values
 * (`table`); `Tallies` ties that pair to the list of contributions read so far,
 * and the collaborative recommender reuses it for its own score dictionary.
 */
module ScoreUtils {
  import StableSort

  // ---------------------------------------------------------------- normalize_scores

  /** numpy's `min` of a non-empty list. */
  function Min(s: seq<real>): (m: real)
    requires |s| > 0
    ensures m in s
    ensures forall i :: 0 <= i < |s| ==> m <= s[i]
  {
    if |s| == 1 then s[0]
    else
      var t := Min(s[1..]);
      assert forall i :: 1 <= i < |s| ==> s[i] == s[1..][i - 1];
      if s[0] <= t then s[0] else t
  }

  /** numpy's `max` of a non-empty list. */
  function Max(s: seq<real>): (m: real)
    requires |s| > 0
    ensures m in s
    ensures forall i :: 0 <= i < |s| ==> s[i] <= m
  {
    if |s| == 1 then s[0]
    else
      var t := Max(s[1..]);
      assert forall i :: 1 <= i < |s| ==> s[i] == s[1..][i - 1];
      if s[0] >= t then s[0] else t
  }

  /** Every score lies between `lo` and `hi`. */
  predicate Within(scores: seq<real>, lo: real, hi: real) {
    forall k :: 0 <= k < |scores| ==> lo <= scores[k] <= hi
  }

  /** The element-wise `(s - lo) / (hi - lo)` of a numpy array. */
  function Rescale(scores: seq<real>, lo: real, hi: real): (r: seq<real>)
    requires lo < hi
    ensures |r| == |scores|
    ensures forall i :: 0 <= i < |scores| ==> r[i] == (scores[i] - lo) / (hi - lo)
  {
    seq(|scores|, i requires 0 <= i < |scores| => (scores[i] - lo) / (hi - lo))
  }

  /** Min-max scaling: `(s - min) / (max - min)`, or 1.0 for every score when
      they are all equal (the degenerate "all equally relevant" case). */
  function NormalizeScores(scores: seq<real>): (r: seq<real>)
    ensures |r| == |scores|
  {
    if |scores| == 0 then []
    else if Min(scores) == Max(scores) then seq(|scores|, _ => 1.0)
    else Rescale(scores, Min(scores), Max(scores))
  }

  /** The two non-empty cases of `NormalizeScores`, with the bounds the scaling uses. */
  lemma NormalizeCases(scores: seq<real>)
    requires |scores| > 0
    ensures Within(scores, Min(scores), Max(scores))
    ensures Min(scores) == Max(scores) ==> forall i :: 0 <= i < |scores| ==> NormalizeScores(scores)[i] == 1.0
    ensures Min(scores) != Max(scores) ==>
      Min(scores) < Max(scores) && NormalizeScores(scores) == Rescale(scores, Min(scores), Max(scores))
  {
  }

  /** Scaling by bounds that enclose the scores lands in [0, 1]. */
  lemma RescaleBounds(scores: seq<real>, lo: real, hi: real)
    requires lo < hi && Within(scores, lo, hi)
    ensures forall i :: 0 <= i < |scores| ==> 0.0 <= Rescale(scores, lo, hi)[i] <= 1.0
  {
    forall i | 0 <= i < |scores| ensures 0.0 <= Rescale(scores, lo, hi)[i] <= 1.0 {
      ScaleBounds(scores[i] - lo, hi - lo);
    }
  }

  /** Scaling sends `lo` to 0.0 and `hi` to 1.0. */
  lemma RescaleEndpoints(scores: seq<real>, lo: real, hi: real)
    requires lo < hi
    ensures forall i :: 0 <= i < |scores| && scores[i] == lo ==> Rescale(scores, lo, hi)[i] == 0.0
    ensures forall i :: 0 <= i < |scores| && scores[i] == hi ==> Rescale(scores, lo, hi)[i] == 1.0
  {
    ScaleEndpoints(hi - lo);
  }

  /** Scaling keeps the order of the scores, strictly for strictly ordered ones. */
  lemma RescaleMonotone(scores: seq<real>, lo: real, hi: real)
    requires lo < hi
    ensures forall i, j :: 0 <= i < |scores| && 0 <= j < |scores| && scores[i] <= scores[j] ==>
      Rescale(scores, lo, hi)[i] <= Rescale(scores, lo, hi)[j]
    ensures forall i, j :: 0 <= i < |scores| && 0 <= j < |scores| && scores[i] < scores[j] ==>
      Rescale(scores, lo, hi)[i] < Rescale(scores, lo, hi)[j]
  {
    var r := Rescale(scores, lo, hi);
    forall i, j | 0 <= i < |scores| && 0 <= j < |scores|
      ensures scores[i] <= scores[j] ==> r[i] <= r[j]
      ensures scores[i] < scores[j] ==> r[i] < r[j]
    {
      ScaleMonotone(scores[i] - lo, scores[j] - lo, hi - lo);
    }
  }

  /** Every normalised score lies in [0, 1]. */
  lemma NormalizeBounds(scores: seq<real>)
    ensures forall i :: 0 <= i < |scores| ==> 0.0 <= NormalizeScores(scores)[i] <= 1.0
  {
    if |scores| > 0 {
      NormalizeCases(scores);
      if Min(scores) != Max(scores) {
        RescaleBounds(scores, Min(scores), Max(scores));
      }
    }
  }

  /** When all scores are equal, every output is exactly 1.0. */
  lemma NormalizeUniform(scores: seq<real>)
    requires forall i, j :: 0 <= i < |scores| && 0 <= j < |scores| ==> scores[i] == scores[j]
    ensures forall i :: 0 <= i < |scores| ==> NormalizeScores(scores)[i] == 1.0
  {
    if |scores| > 0 {
      var lo, hi := Min(scores), Max(scores);
      assert lo in scores && hi in scores;
      assert lo == hi;
      NormalizeCases(scores);
    }
  }

  /** With at least two distinct scores, the minimum maps to 0.0 and the maximum to 1.0. */
  lemma NormalizeExtremes(scores: seq<real>)
    requires exists i, j :: 0 <= i < |scores| && 0 <= j < |scores| && scores[i] != scores[j]
    ensures forall i :: 0 <= i < |scores| && scores[i] == Min(scores) ==> NormalizeScores(scores)[i] == 0.0
    ensures forall i :: 0 <= i < |scores| && scores[i] == Max(scores) ==> NormalizeScores(scores)[i] == 1.0
  {
    var i0, j0 :| 0 <= i0 < |scores| && 0 <= j0 < |scores| && scores[i0] != scores[j0];
    NormalizeCases(scores);
    assert Min(scores) <= scores[i0] <= Max(scores);
    assert Min(scores) <= scores[j0] <= Max(scores);
    RescaleEndpoints(scores, Min(scores), Max(scores));
  }

  /** Normalisation preserves the order of the scores, strictly when they are not all equal. */
  lemma NormalizeMonotone(scores: seq<real>)
    ensures forall i, j :: 0 <= i < |scores| && 0 <= j < |scores| && scores[i] <= scores[j] ==>
      NormalizeScores(scores)[i] <= NormalizeScores(scores)[j]
    ensures forall i, j :: 0 <= i < |scores| && 0 <= j < |scores| && scores[i] < scores[j] ==>
      NormalizeScores(scores)[i] < NormalizeScores(scores)[j]
  {
    if |scores| > 0 {
      NormalizeCases(scores);
      if Min(scores) != Max(scores) {
        RescaleMonotone(scores, Min(scores), Max(scores));
      } else {
        forall i, j | 0 <= i < |scores| && 0 <= j < |scores| ensures scores[i] == scores[j] {
        }
      }
    }
  }

  lemma ScaleEndpoints(d: real)
    requires d > 0.0
    ensures 0.0 / d == 0.0 && d / d == 1.0
  {
  }

  lemma ScaleBounds(a: real, d: real)
    requires d > 0.0 && 0.0 <= a <= d
    ensures 0.0 <= a / d <= 1.0
  {
    assert a / d * d == a;
  }

  lemma ScaleMonotone(a: real, b: real, d: real)
    requires d > 0.0
    ensures a <= b ==> a / d <= b / d
    ensures a < b ==> a / d < b / d
  {
    assert b / d - a / d == (b - a) / d;
  }

  // ---------------------------------------------------------------- deduplicate_list

  predicate NoDuplicates<T(==,!new)>(s: seq<T>) {
    forall i, j :: 0 <= i < j < |s| ==> s[i] != s[j]
  }

  /** The first occurrence of every element, in the order of first occurrence. */
  function Deduplicated<T(==,!new)>(s: seq<T>): (r: seq<T>)
    ensures NoDuplicates(r)
    ensures forall x :: x in r <==> x in s
    ensures |r| <= |s|
  {
    if |s| == 0 then []
    else
      var p := Deduplicated(s[..|s| - 1]);
      assert forall x :: x in s <==> x in s[..|s| - 1] || x == s[|s| - 1] by {
        assert s == s[..|s| - 1] + [s[|s| - 1]];
      }
      if s[|s| - 1] in p then p else p + [s[|s| - 1]]
  }

  /** Position of the first occurrence of `x` in `s`. */
  function FirstIndex<T(==,!new)>(s: seq<T>, x: T): (k: nat)
    requires x in s
    ensures k < |s| && s[k] == x
    ensures forall j :: 0 <= j < k ==> s[j] != x
  {
    if s[0] == x then 0 else 1 + FirstIndex(s[1..], x)
  }

  lemma FirstIndexAppend<T(!new)>(s: seq<T>, x: T, y: T)
    requires y in s
    ensures y in s + [x] && FirstIndex(s + [x], y) == FirstIndex(s, y)
  {
    var k := FirstIndex(s, y);
    var k' := FirstIndex(s + [x], y);
    assert (s + [x])[k] == y;
    assert k' <= k;
    assert s[k'] == (s + [x])[k'];
  }

  lemma FirstIndexOfNew<T(!new)>(s: seq<T>, x: T)
    requires x !in s
    ensures x in s + [x] && FirstIndex(s + [x], x) == |s|
  {
    assert forall j :: 0 <= j < |s| ==> (s + [x])[j] == s[j];
  }

  /** Deduplication lists the survivors in the order of their first occurrences. */
  lemma {:induction false} DeduplicatedOrder<T(!new)>(s: seq<T>)
    ensures forall i, j :: 0 <= i < j < |Deduplicated(s)| ==>
      FirstIndex(s, Deduplicated(s)[i]) < FirstIndex(s, Deduplicated(s)[j])
  {
    if |s| > 0 {
      var q, x := s[..|s| - 1], s[|s| - 1];
      assert s == q + [x];
      DeduplicatedOrder(q);
      var p := Deduplicated(q);
      var r := Deduplicated(s);
      forall i, j | 0 <= i < j < |r| ensures FirstIndex(s, r[i]) < FirstIndex(s, r[j]) {
        assert r[i] == p[i];
        FirstIndexAppend(q, x, p[i]);
        if j < |p| {
          assert r[j] == p[j];
          FirstIndexAppend(q, x, p[j]);
        } else {
          assert r[j] == x && x !in q;
          FirstIndexOfNew(q, x);
        }
      }
    }
  }

  /** A list without duplicates is returned unchanged. */
  lemma {:induction false} DeduplicatedOfDistinct<T(!new)>(s: seq<T>)
    requires NoDuplicates(s)
    ensures Deduplicated(s) == s
  {
    if |s| > 0 {
      var q := s[..|s| - 1];
      assert NoDuplicates(q);
      DeduplicatedOfDistinct(q);
      assert s[|s| - 1] !in q;
      assert s == q + [s[|s| - 1]];
    }
  }

  /** Deduplicating twice is deduplicating once. */
  lemma DeduplicatedIdempotent<T(!new)>(s: seq<T>)
    ensures Deduplicated(Deduplicated(s)) == Deduplicated(s)
  {
    DeduplicatedOfDistinct(Deduplicated(s));
  }

  /** `deduplicate_list`: a `seen` set and a `result` list filled in one pass. */
  method DeduplicateList<T(==,!new)>(items: seq<T>) returns (result: seq<T>)
    ensures result == Deduplicated(items)
    ensures NoDuplicates(result)
    ensures forall x :: x in result <==> x in items
  {
    var seen: set<T> := {};
    result := [];
    for i := 0 to |items|
      invariant result == Deduplicated(items[..i])
      invariant forall x :: x in seen <==> x in result
    {
      assert items[..i + 1][..i] == items[..i];
      if items[i] !in seen {
        seen := seen + {items[i]};
        result := result + [items[i]];
      }
    }
    assert items[..|items|] == items;
  }

  // ---------------------------------------------------------------- score dictionaries

  /** The ids of a list of `(id, score)` pairs. */
  function Ids<K>(pairs: seq<(K, real)>): (ids: seq<K>)
    ensures |ids| == |pairs|
    ensures forall i :: 0 <= i < |pairs| ==> ids[i] == pairs[i].0
  {
    seq(|pairs|, i requires 0 <= i < |pairs| => pairs[i].0)
  }

  /** The scores of a list of `(id, score)` pairs. */
  function Scores<K>(pairs: seq<(K, real)>): (scores: seq<real>)
    ensures |scores| == |pairs|
    ensures forall i :: 0 <= i < |pairs| ==> scores[i] == pairs[i].1
  {
    seq(|pairs|, i requires 0 <= i < |pairs| => pairs[i].1)
  }

  /** The sum of the scores paired with `k`. */
  function SumFor<K(==,!new)>(pairs: seq<(K, real)>, k: K): real {
    if |pairs| == 0 then 0.0
    else SumFor(pairs[..|pairs| - 1], k) + (if pairs[|pairs| - 1].0 == k then pairs[|pairs| - 1].1 else 0.0)
  }

  /** An id that never occurs sums to zero. */
  lemma {:induction false} SumForAbsent<K(!new)>(pairs: seq<(K, real)>, k: K)
    requires k !in Ids(pairs)
    ensures SumFor(pairs, k) == 0.0
  {
    if |pairs| > 0 {
      var q := pairs[..|pairs| - 1];
      assert Ids(pairs)[|pairs| - 1] == pairs[|pairs| - 1].0;
      assert forall i :: 0 <= i < |q| ==> Ids(q)[i] == Ids(pairs)[i];
      SumForAbsent(q, k);
    }
  }

  /** A score dictionary built by `d[k] = d.get(k, 0) + v` over `pairs`, in order:
      its keys in insertion order are the distinct ids, and each value is a sum. */
  ghost predicate Tallies<K(!new)>(order: seq<K>, table: map<K, real>, pairs: seq<(K, real)>) {
    && order == Deduplicated(Ids(pairs))
    && (forall k :: k in table <==> k in order)
    && (forall k :: k in table ==> table[k] == SumFor(pairs, k))
  }

  lemma TalliesEmpty<K(!new)>(pairs: seq<(K, real)>)
    requires pairs == []
    ensures Tallies([], map[], pairs)
  {
  }

  lemma IdsSnoc<K>(pairs: seq<(K, real)>, k: K, v: real)
    ensures Ids(pairs + [(k, v)]) == Ids(pairs) + [k]
  {
  }

  lemma DeduplicatedSnoc<T(!new)>(s: seq<T>, x: T)
    ensures Deduplicated(s + [x]) == if x in s then Deduplicated(s) else Deduplicated(s) + [x]
  {
    assert (s + [x])[..|s|] == s;
  }

  lemma SumForSnoc<K(!new)>(pairs: seq<(K, real)>, k: K, v: real, j: K)
    ensures SumFor(pairs + [(k, v)], j) == SumFor(pairs, j) + (if j == k then v else 0.0)
  {
    assert (pairs + [(k, v)])[..|pairs|] == pairs;
  }

  /** One `d[k] = d.get(k, 0) + v` step keeps the dictionary in step with the pairs. */
  lemma TallyStep<K(!new)>(order: seq<K>, table: map<K, real>, pairs: seq<(K, real)>, k: K, v: real)
    requires Tallies(order, table, pairs)
    ensures Tallies(if k in table then order else order + [k],
                    table[k := (if k in table then table[k] else 0.0) + v],
                    pairs + [(k, v)])
  {
    if k in table {
      TallyExisting(order, table, pairs, k, v);
    } else {
      TallyNew(order, table, pairs, k, v);
    }
  }

  lemma TallyExisting<K(!new)>(order: seq<K>, table: map<K, real>, pairs: seq<(K, real)>, k: K, v: real)
    requires Tallies(order, table, pairs) && k in table
    ensures Tallies(order, table[k := table[k] + v], pairs + [(k, v)])
  {
    IdsSnoc(pairs, k, v);
    DeduplicatedSnoc(Ids(pairs), k);
    var table' := table[k := table[k] + v];
    forall j | j in table' ensures table'[j] == SumFor(pairs + [(k, v)], j) {
      SumForSnoc(pairs, k, v, j);
    }
  }

  lemma TallyNew<K(!new)>(order: seq<K>, table: map<K, real>, pairs: seq<(K, real)>, k: K, v: real)
    requires Tallies(order, table, pairs) && k !in table
    ensures Tallies(order + [k], table[k := 0.0 + v], pairs + [(k, v)])
  {
    IdsSnoc(pairs, k, v);
    DeduplicatedSnoc(Ids(pairs), k);
    SumForAbsent(pairs, k);
    var table' := table[k := 0.0 + v];
    forall j | j in table' ensures table'[j] == SumFor(pairs + [(k, v)], j) {
      SumForSnoc(pairs, k, v, j);
    }
  }

  /** `d.items()`: the dictionary's `(key, value)` pairs in insertion order. */
  function DictItems<K(==,!new)>(order: seq<K>, table: map<K, real>): (items: seq<(K, real)>)
    requires forall k :: k in order ==> k in table
    ensures Ids(items) == order
  {
    seq(|order|, i requires 0 <= i < |order| => (order[i], table[order[i]]))
  }

  /** `sorted(items, key=lambda x: x[1], reverse=True)`. */
  function SortByScore<K>(items: seq<(K, real)>): seq<(K, real)> {
    var keys := seq(|items|, i requires 0 <= i < |items| => items[i].1);
    var perm := StableSort.SortDescending(keys);
    seq(|perm|, i requires 0 <= i < |perm| => items[perm[i]])
  }

  /** The totals of every id of `pairs`, one entry per distinct id in first-occurrence order. */
  function TotalsInOrder<K(==,!new)>(pairs: seq<(K, real)>): seq<(K, real)> {
    var keys := Deduplicated(Ids(pairs));
    seq(|keys|, i requires 0 <= i < |keys| => (keys[i], SumFor(pairs, keys[i])))
  }

  /** The ranking of the totals: what sorting a dictionary that `Tallies` the pairs yields. */
  function RankedTotals<K(==,!new)>(pairs: seq<(K, real)>): seq<(K, real)> {
    SortByScore(TotalsInOrder(pairs))
  }

  /** Sorting the items of a dictionary that tallies `pairs` gives `RankedTotals(pairs)`. */
  lemma SortedItemsAreRankedTotals<K(!new)>(order: seq<K>, table: map<K, real>, pairs: seq<(K, real)>)
    requires Tallies(order, table, pairs)
    ensures forall k :: k in order ==> k in table
    ensures SortByScore(DictItems(order, table)) == RankedTotals(pairs)
  {
    assert DictItems(order, table) == TotalsInOrder(pairs);
  }

  /** Every id of the pairs appears in the ranking exactly once, with its total. */
  lemma RankedTotalsExactlyOnce<K(!new)>(pairs: seq<(K, real)>)
    ensures |RankedTotals(pairs)| == |Deduplicated(Ids(pairs))|
    ensures NoDuplicates(Ids(RankedTotals(pairs)))
    ensures forall k :: k in Ids(RankedTotals(pairs)) <==> k in Ids(pairs)
    ensures forall i :: 0 <= i < |RankedTotals(pairs)| ==>
      RankedTotals(pairs)[i].1 == SumFor(pairs, RankedTotals(pairs)[i].0)
  {
    var keys := Deduplicated(Ids(pairs));
    var items := TotalsInOrder(pairs);
    var scores := seq(|items|, i requires 0 <= i < |items| => items[i].1);
    var perm := StableSort.SortDescending(scores);
    var r := RankedTotals(pairs);
    assert forall i :: 0 <= i < |r| ==> r[i] == items[perm[i]] && r[i].0 == keys[perm[i]];
    forall i, j | 0 <= i < j < |r| ensures Ids(r)[i] != Ids(r)[j] {
      assert StableSort.Before(scores, perm[i], perm[j]);
    }
    forall k | k in Ids(pairs) ensures k in Ids(r) {
      assert k in keys;
      var a :| 0 <= a < |keys| && keys[a] == k;
      assert a in perm;
      var i :| 0 <= i < |perm| && perm[i] == a;
      assert Ids(r)[i] == k;
    }
    forall k | k in Ids(r) ensures k in Ids(pairs) {
      var i :| 0 <= i < |r| && Ids(r)[i] == k;
      assert keys[perm[i]] in keys;
    }
  }

  /** The ranking is by non-increasing total; equal totals keep the order in
      which their ids first appeared among the pairs. */
  lemma RankedTotalsOrder<K(!new)>(pairs: seq<(K, real)>)
    ensures forall i, j :: 0 <= i < j < |RankedTotals(pairs)| ==>
      RankedTotals(pairs)[i].1 >= RankedTotals(pairs)[j].1
    ensures forall i, j :: 0 <= i < j < |RankedTotals(pairs)| && RankedTotals(pairs)[i].1 == RankedTotals(pairs)[j].1 ==>
      RankedTotals(pairs)[i].0 in Ids(pairs) && RankedTotals(pairs)[j].0 in Ids(pairs) &&
      FirstIndex(Ids(pairs), RankedTotals(pairs)[i].0) < FirstIndex(Ids(pairs), RankedTotals(pairs)[j].0)
  {
    var keys := Deduplicated(Ids(pairs));
    var items := TotalsInOrder(pairs);
    var scores := seq(|items|, i requires 0 <= i < |items| => items[i].1);
    var perm := StableSort.SortDescending(scores);
    var r := RankedTotals(pairs);
    assert forall i :: 0 <= i < |r| ==> r[i] == items[perm[i]] && r[i].0 == keys[perm[i]] && r[i].1 == scores[perm[i]];
    DeduplicatedOrder(Ids(pairs));
    forall i, j | 0 <= i < j < |r| && r[i].1 == r[j].1
      ensures r[i].0 in Ids(pairs) && r[j].0 in Ids(pairs) && FirstIndex(Ids(pairs), r[i].0) < FirstIndex(Ids(pairs), r[j].0)
    {
      assert perm[i] < perm[j];
      assert keys[perm[i]] in keys && keys[perm[j]] in keys;
    }
  }

  // ---------------------------------------------------------------- merge_recommendations

  /** One pair with its score multiplied by `weight`. */
  function WeightPair<K>(p: (K, real), weight: real): (q: (K, real))
    ensures q.0 == p.0
  {
    (p.0, p.1 * weight)
  }

  /** `(id, score * weight)` for every pair. */
  function Weighted<K>(recs: seq<(K, real)>, weight: real): (w: seq<(K, real)>)
    ensures |w| == |recs|
    ensures forall i :: 0 <= i < |recs| ==> w[i] == WeightPair(recs[i], weight)
  {
    seq(|recs|, i requires 0 <= i < |recs| => WeightPair(recs[i], weight))
  }

  lemma {:induction false} SumForAppend<K(!new)>(a: seq<(K, real)>, b: seq<(K, real)>, k: K)
    ensures SumFor(a + b, k) == SumFor(a, k) + SumFor(b, k)
  {
    if |b| > 0 {
      var b' := b[..|b| - 1];
      assert (a + b)[..|a + b| - 1] == a + b';
      SumForAppend(a, b', k);
    } else {
      assert a + b == a;
    }
  }

  /** How `Weighted` grows along a prefix of its input. */
  lemma WeightedPrefix<K>(recs: seq<(K, real)>, weight: real, n: nat)
    requires n < |recs|
    ensures Weighted(recs[..n + 1], weight) == Weighted(recs[..n], weight) + [WeightPair(recs[n], weight)]
    ensures Weighted(recs, weight)[..n] == Weighted(recs[..n], weight)
  {
  }

  lemma {:induction false} SumForWeighted<K(!new)>(recs: seq<(K, real)>, weight: real, k: K)
    ensures SumFor(Weighted(recs, weight), k) == weight * SumFor(recs, k)
  {
    if |recs| > 0 {
      var q := recs[..|recs| - 1];
      WeightedPrefix(recs, weight, |recs| - 1);
      SumForWeighted(q, weight, k);
    }
  }

  /** The total of an id in a merge is weight1 times its summed scores in the
      first list plus weight2 times its summed scores in the second. */
  lemma MergedTotal<K(!new)>(recs1: seq<(K, real)>, recs2: seq<(K, real)>, weight1: real, weight2: real, k: K)
    ensures SumFor(Weighted(recs1, weight1) + Weighted(recs2, weight2), k)
         == weight1 * SumFor(recs1, k) + weight2 * SumFor(recs2, k)
  {
    SumForAppend(Weighted(recs1, weight1), Weighted(recs2, weight2), k);
    SumForWeighted(recs1, weight1, k);
    SumForWeighted(recs2, weight2, k);
  }

  /** The result `merge_recommendations` specifies: the weighted totals of both
      lists, ranked. */
  function Merged<K(==,!new)>(recs1: seq<(K, real)>, recs2: seq<(K, real)>, weight1: real, weight2: real): seq<(K, real)> {
    RankedTotals(Weighted(recs1, weight1) + Weighted(recs2, weight2))
  }

  /** The merged ranking lists every id of either list exactly once, with its
      weighted total, in non-increasing order of total. */
  lemma MergeRanking<K(!new)>(recs1: seq<(K, real)>, recs2: seq<(K, real)>, weight1: real, weight2: real)
    ensures NoDuplicates(Ids(Merged(recs1, recs2, weight1, weight2)))
    ensures forall k :: k in Ids(Merged(recs1, recs2, weight1, weight2)) <==> k in Ids(recs1) || k in Ids(recs2)
    ensures forall i :: 0 <= i < |Merged(recs1, recs2, weight1, weight2)| ==>
      Merged(recs1, recs2, weight1, weight2)[i].1
        == SumFor(Weighted(recs1, weight1), Merged(recs1, recs2, weight1, weight2)[i].0)
         + SumFor(Weighted(recs2, weight2), Merged(recs1, recs2, weight1, weight2)[i].0)
    ensures forall i, j :: 0 <= i < j < |Merged(recs1, recs2, weight1, weight2)| ==>
      Merged(recs1, recs2, weight1, weight2)[i].1 >= Merged(recs1, recs2, weight1, weight2)[j].1
  {
    var pairs := Weighted(recs1, weight1) + Weighted(recs2, weight2);
    var merged := Merged(recs1, recs2, weight1, weight2);
    RankedTotalsExactlyOnce(pairs);
    RankedTotalsOrder(pairs);
    IdsOfMerge(recs1, recs2, weight1, weight2);
    forall i | 0 <= i < |merged|
      ensures merged[i].1 == SumFor(Weighted(recs1, weight1), merged[i].0) + SumFor(Weighted(recs2, weight2), merged[i].0)
    {
      SumForAppend(Weighted(recs1, weight1), Weighted(recs2, weight2), merged[i].0);
    }
  }

  /** The ids of the concatenated weighted lists are those of either input. */
  lemma IdsOfMerge<K(!new)>(recs1: seq<(K, real)>, recs2: seq<(K, real)>, weight1: real, weight2: real)
    ensures forall k :: k in Ids(Weighted(recs1, weight1) + Weighted(recs2, weight2)) <==> k in Ids(recs1) || k in Ids(recs2)
  {
    var pairs := Weighted(recs1, weight1) + Weighted(recs2, weight2);
    assert Ids(pairs) == Ids(recs1) + Ids(recs2);
  }

  /** One `for item_id, score in recs: d[item_id] = d.get(item_id, 0) + score * weight`
      loop over a dictionary that already holds the tallies of `pairs`. */
  method AccumulateWeighted<K(==,!new)>(order: seq<K>, table: map<K, real>, ghost pairs: seq<(K, real)>,
                                        recs: seq<(K, real)>, weight: real)
    returns (order': seq<K>, table': map<K, real>)
    requires Tallies(order, table, pairs)
    ensures Tallies(order', table', pairs + Weighted(recs, weight))
  {
    order', table' := order, table;
    ghost var done := pairs;
    assert pairs + Weighted(recs[..0], weight) == pairs;
    for i := 0 to |recs|
      invariant done == pairs + Weighted(recs[..i], weight)
      invariant Tallies(order', table', done)
    {
      var (itemId, weighted) := WeightPair(recs[i], weight);
      assert done + [(itemId, weighted)] == pairs + Weighted(recs[..i + 1], weight) by {
        WeightedPrefix(recs, weight, i);
      }
      assert Tallies(if itemId in table' then order' else order' + [itemId],
                     table'[itemId := (if itemId in table' then table'[itemId] else 0.0) + weighted],
                     done + [(itemId, weighted)]) by {
        TallyStep(order', table', done, itemId, weighted);
      }
      if itemId !in table' { order' := order' + [itemId]; }
      table' := table'[itemId := (if itemId in table' then table'[itemId] else 0.0) + weighted];
      done := done + [(itemId, weighted)];
    }
    assert recs[..|recs|] == recs;
  }

  /** `merge_recommendations`: accumulate both weighted lists into one score
      dictionary, then sort its items by descending score. */
  method MergeRecommendations<K(==,!new)>(recs1: seq<(K, real)>, recs2: seq<(K, real)>, weight1: real, weight2: real)
    returns (merged: seq<(K, real)>)
    ensures merged == Merged(recs1, recs2, weight1, weight2)
    ensures NoDuplicates(Ids(merged))
    ensures forall k :: k in Ids(merged) <==> k in Ids(recs1) || k in Ids(recs2)
    ensures forall i :: 0 <= i < |merged| ==>
      merged[i].1 == SumFor(Weighted(recs1, weight1), merged[i].0) + SumFor(Weighted(recs2, weight2), merged[i].0)
    ensures forall i, j :: 0 <= i < j < |merged| ==> merged[i].1 >= merged[j].1
  {
    ghost var none: seq<(K, real)> := [];
    TalliesEmpty(none);
    var order, scoreMap := AccumulateWeighted([], map[], none, recs1, weight1);
    assert none + Weighted(recs1, weight1) == Weighted(recs1, weight1);
    order, scoreMap := AccumulateWeighted(order, scoreMap, Weighted(recs1, weight1), recs2, weight2);
    SortedItemsAreRankedTotals(order, scoreMap, Weighted(recs1, weight1) + Weighted(recs2, weight2));
    merged := SortByScore(DictItems(order, scoreMap));
    MergeRanking(recs1, recs2, weight1, weight2);
  }
}
