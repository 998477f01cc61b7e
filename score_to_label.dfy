/** ScoreToLabelConverter: turns a vector of prediction scores into the labels of the
    `top_n` best-scoring classes, best first.

    The source argsorts the scores, keeps the slice `[-top_n:]` of the sorted indices,
    reverses it and looks every index up in the label list. Only `<` is ever applied to
    scores, so they are modelled as reals. numpy's default argsort is not stable: the order
    among equal scores is unspecified, so every property of the selection below is proved
    for ANY order that argsorts the scores (`IsArgsort`), and `Argsort` is one such order. */
module ScoreToLabel {
  import opened Errors

  /** A converter as `__init__` leaves it: the class labels of the model metadata and the
      number of labels to keep (the metadata file itself is read by the caller). */
  datatype Converter = Converter(labels: seq<string>, topN: int)

  /** Every entry of `order` is an index into a sequence of length n. */
  ghost predicate InRange(order: seq<nat>, n: nat)
  {
    forall p :: 0 <= p < |order| ==> order[p] < n
  }

  /** No index occurs twice in `order`. */
  ghost predicate Distinct(order: seq<nat>)
  {
    forall p, q :: 0 <= p < q < |order| ==> order[p] != order[q]
  }

  /** Scores read along `order` never decrease. */
  ghost predicate Ascending(scores: seq<real>, order: seq<nat>)
    requires InRange(order, |scores|)
  {
    forall p, q :: 0 <= p <= q < |order| ==> scores[order[p]] <= scores[order[q]]
  }

  /** `order` is a permutation of the indices of `scores` along which the scores never
      decrease: what `scores.argsort()` may return. */
  ghost predicate IsArgsort(scores: seq<real>, order: seq<nat>)
  {
    && |order| == |scores|
    && InRange(order, |scores|)
    && Distinct(order)
    && (forall k :: 0 <= k < |scores| ==> k in order)
    && Ascending(scores, order)
  }

  /** Inserts index i into `order` after every index whose score is not larger. */
  function InsertByScore(scores: seq<real>, order: seq<nat>, i: nat): (r: seq<nat>)
    requires i < |scores| && InRange(order, |scores|)
    ensures |r| == |order| + 1 && InRange(r, |scores|)
    ensures forall x :: x in r <==> x in order || x == i
    ensures Ascending(scores, order) ==> Ascending(scores, r)
    ensures Distinct(order) && i !in order ==> Distinct(r)
  {
    if order == [] || scores[i] < scores[order[0]] then [i] + order
    else
      var rest := InsertByScore(scores, order[1..], i);
      assert Distinct(order) ==> order[0] !in order[1..] by {
        if Distinct(order) { HeadNotInTail(order); }
      }
      assert Ascending(scores, order) ==>
        forall q :: 0 <= q < |rest| ==> scores[order[0]] <= scores[rest[q]] by {
        if Ascending(scores, order) { HeadLowest(scores, order, i, rest); }
      }
      [order[0]] + rest
  }

  /** Without repetitions, the first entry does not occur again. */
  lemma HeadNotInTail(order: seq<nat>)
    requires order != [] && Distinct(order)
    ensures order[0] !in order[1..]
  {
    forall q | 0 <= q < |order[1..]| ensures order[1..][q] != order[0] {
      assert order[1..][q] == order[q + 1];
    }
  }

  /** In ascending order the first entry scores no higher than the rest, nor than an index
      that scores at least as high. */
  lemma HeadLowest(scores: seq<real>, order: seq<nat>, i: nat, rest: seq<nat>)
    requires i < |scores| && InRange(order, |scores|) && order != []
    requires Ascending(scores, order) && scores[order[0]] <= scores[i]
    requires InRange(rest, |scores|)
    requires forall x :: x in rest <==> x in order[1..] || x == i
    ensures forall q :: 0 <= q < |rest| ==> scores[order[0]] <= scores[rest[q]]
  {
    forall q | 0 <= q < |rest| ensures scores[order[0]] <= scores[rest[q]] {
      assert rest[q] in rest;
      if rest[q] != i {
        var j :| 0 <= j < |order[1..]| && order[1..][j] == rest[q];
        assert order[j + 1] == rest[q];
      }
    }
  }

  /** The indices 0 .. n-1 sorted by score. */
  function ArgsortPrefix(scores: seq<real>, n: nat): (r: seq<nat>)
    requires n <= |scores|
    ensures |r| == n && InRange(r, |scores|) && Distinct(r) && Ascending(scores, r)
    ensures forall x :: x in r <==> 0 <= x < n
  {
    if n == 0 then [] else InsertByScore(scores, ArgsortPrefix(scores, n - 1), n - 1)
  }

  /** One argsort of `scores` (insertion order among ties). */
  function Argsort(scores: seq<real>): (r: seq<nat>)
    ensures IsArgsort(scores, r)
  {
    ArgsortPrefix(scores, |scores|)
  }

  /** Where Python starts the slice `s[start:]` of a sequence of length n. */
  function SliceStart(n: nat, start: int): (k: nat)
    ensures k <= n
  {
    if start < 0 then (if n + start < 0 then 0 else n + start)
    else if start > n then n
    else start
  }

  /** Python's `s[::-1]`. */
  function Reverse<T>(s: seq<T>): (r: seq<T>)
  {
    seq(|s|, k requires 0 <= k < |s| => s[|s| - 1 - k])
  }

  /** `ScoreToLabelConverter._get_top_n_indices` applied to the order `scores.argsort()`
      returned: `sorted_indices[-top_n:][::-1]`. numpy's default sort does not fix the
      order among equal scores, so the order is a parameter, and the lemmas below hold
      for any order that argsorts the scores (`IsArgsort`). Because `-0 == 0`, top_n == 0 keeps every index;
      a negative top_n drops the |top_n| lowest-scoring ones. */
  function SelectTopN(order: seq<nat>, topN: int): (r: seq<nat>)
    ensures |r| == if topN == 0 then |order|
                   else if topN > 0 then (if topN < |order| then topN else |order|)
                   else (if |order| + topN < 0 then 0 else |order| + topN)
  {
    Reverse(order[SliceStart(|order|, -topN)..])
  }

  /** `ScoreToLabelConverter.convert_top_n`: the label of every selected index, in the same
      order, or IndexError as soon as a selected index lies beyond the label list. It
      holds for whichever argsort of the scores numpy returned. */
  function ConvertTopN(c: Converter, scores: seq<real>, order: seq<nat>): (r: Result<seq<string>>)
    requires IsArgsort(scores, order)
    ensures var indices := SelectTopN(order, c.topN);
      && (r.Ok? <==> forall p :: 0 <= p < |indices| ==> indices[p] < |c.labels|)
      && (r.Err? ==> r.error == IndexError)
      && (r.Ok? ==> |r.value| == |indices| &&
                    forall p :: 0 <= p < |indices| ==> r.value[p] == c.labels[indices[p]])
  {
    var indices := SelectTopN(order, c.topN);
    if forall p :: 0 <= p < |indices| ==> indices[p] < |c.labels| then
      Ok(seq(|indices|, p requires 0 <= p < |indices| => c.labels[indices[p]]))
    else
      Err(IndexError)
  }

  /** The i-th selected index is the i-th index counted from the end of the argsort. */
  lemma SelectTopNAt(order: seq<nat>, topN: int, q: nat)
    requires q < |SelectTopN(order, topN)|
    ensures SliceStart(|order|, -topN) <= |order| - 1 - q
    ensures SelectTopN(order, topN)[q] == order[|order| - 1 - q]
  {
  }

  /** The selected indices are distinct indices of `scores`, since they are taken from
      a permutation of those indices. */
  lemma TopNIndicesDistinctInRange(scores: seq<real>, order: seq<nat>, topN: int)
    requires IsArgsort(scores, order)
    ensures InRange(SelectTopN(order, topN), |scores|)
    ensures Distinct(SelectTopN(order, topN))
  {
    var r := SelectTopN(order, topN);
    forall p | 0 <= p < |r| ensures r[p] < |scores| {
      SelectTopNAt(order, topN, p);
    }
    forall p, q | 0 <= p < q < |r| ensures r[p] != r[q] {
      SelectTopNAt(order, topN, p);
      SelectTopNAt(order, topN, q);
    }
  }

  /** Scores read along the selected indices never increase: best first. Nothing is said
      about the order of equal scores. */
  lemma TopNIndicesDescending(scores: seq<real>, order: seq<nat>, topN: int)
    requires IsArgsort(scores, order)
    ensures var r := SelectTopN(order, topN);
      forall p, q :: 0 <= p <= q < |r| ==> r[p] < |scores| && r[q] < |scores| &&
                                           scores[r[q]] <= scores[r[p]]
  {
    var r := SelectTopN(order, topN);
    forall p, q | 0 <= p <= q < |r|
      ensures r[p] < |scores| && r[q] < |scores| && scores[r[q]] <= scores[r[p]]
    {
      SelectTopNAt(order, topN, p);
      SelectTopNAt(order, topN, q);
    }
  }

  /** Top-N dominance: an index that is not selected scores no higher than any selected one. */
  lemma TopNDominatesRest(scores: seq<real>, order: seq<nat>, topN: int)
    requires IsArgsort(scores, order)
    ensures var r := SelectTopN(order, topN);
      forall j, q :: 0 <= j < |scores| && j !in r && 0 <= q < |r| ==>
        r[q] < |scores| && scores[j] <= scores[r[q]]
  {
    var r := SelectTopN(order, topN);
    var n := |order|;
    var start := SliceStart(n, -topN);
    forall j, q | 0 <= j < |scores| && j !in r && 0 <= q < |r|
      ensures r[q] < |scores| && scores[j] <= scores[r[q]]
    {
      SelectTopNAt(order, topN, q);
      assert j in order;
      var a :| 0 <= a < n && order[a] == j;
      if a >= start {
        SelectTopNAt(order, topN, n - 1 - a);
        assert false;
      }
      assert scores[order[a]] <= scores[order[n - 1 - q]];
    }
  }

  /** With top_n == 0 (the slice `[-0:]` is the whole array) or top_n at least the number
      of scores, every index is selected. */
  lemma TopNSelectsAllWhenZeroOrLarge(scores: seq<real>, order: seq<nat>, topN: int)
    requires IsArgsort(scores, order)
    requires topN == 0 || topN >= |scores|
    ensures var r := SelectTopN(order, topN);
      |r| == |scores| && forall k :: 0 <= k < |scores| ==> k in r
  {
    var r := SelectTopN(order, topN);
    var n := |order|;
    forall k | 0 <= k < |scores| ensures k in r {
      assert k in order;
      var a :| 0 <= a < n && order[a] == k;
      SelectTopNAt(order, topN, n - 1 - a);
      assert r[n - 1 - a] == k;
    }
  }

  /** `t` without the first occurrence of x. */
  function RemoveOne(t: seq<nat>, x: nat): (r: seq<nat>)
    requires x in t
    ensures |r| == |t| - 1
    ensures forall y :: y in t && y != x ==> y in r
  {
    if t[0] == x then t[1..] else [t[0]] + RemoveOne(t[1..], x)
  }

  /** Pigeonhole: a sequence without repetitions whose entries all occur in t is no longer than t. */
  lemma {:induction false} DistinctIncludedNoLonger(s: seq<nat>, t: seq<nat>)
    requires Distinct(s)
    requires forall x :: x in s ==> x in t
    ensures |s| <= |t|
  {
    if s != [] {
      var t' := RemoveOne(t, s[0]);
      forall x | x in s[1..] ensures x in t' {
        var j :| 0 <= j < |s[1..]| && s[1..][j] == x;
        assert s[j + 1] == x && s[0] != x;
      }
      DistinctIncludedNoLonger(s[1..], t');
    }
  }

  /** Two argsorts can disagree only on the order of equal scores: position p of one never
      holds a smaller score than position p of the other. */
  lemma ArgsortsNotSmallerAt(scores: seq<real>, o1: seq<nat>, o2: seq<nat>, p: nat)
    requires IsArgsort(scores, o1) && IsArgsort(scores, o2) && p < |scores|
    ensures scores[o2[p]] <= scores[o1[p]]
  {
    if scores[o1[p]] < scores[o2[p]] {
      var low := o1[..p + 1];
      forall x | x in low ensures x in o2[..p] {
        var b :| 0 <= b <= p && o1[b] == x;
        assert scores[x] <= scores[o1[p]];
        assert x in o2;
        var a :| 0 <= a < |o2| && o2[a] == x;
        if a >= p {
          assert false;
        }
        assert o2[..p][a] == x;
      }
      DistinctIncludedNoLonger(low, o2[..p]);
      assert false;
    }
  }

  /** The scores of the selected indices do not depend on which argsort was used: under
      ties the labels may differ, but they are always labels of the best `top_n` scores. */
  lemma TopNScoresIgnoreTieOrder(scores: seq<real>, o1: seq<nat>, o2: seq<nat>, topN: int)
    requires IsArgsort(scores, o1) && IsArgsort(scores, o2)
    ensures var r1, r2 := SelectTopN(o1, topN), SelectTopN(o2, topN);
      |r1| == |r2| &&
      forall q :: 0 <= q < |r1| ==> r1[q] < |scores| && r2[q] < |scores| && scores[r1[q]] == scores[r2[q]]
  {
    var r1, r2 := SelectTopN(o1, topN), SelectTopN(o2, topN);
    forall q | 0 <= q < |r1|
      ensures r1[q] < |scores| && r2[q] < |scores| && scores[r1[q]] == scores[r2[q]]
    {
      SelectTopNAt(o1, topN, q);
      SelectTopNAt(o2, topN, q);
      ArgsortsNotSmallerAt(scores, o1, o2, |scores| - 1 - q);
      ArgsortsNotSmallerAt(scores, o2, o1, |scores| - 1 - q);
    }
  }

  /** When the label list covers every score, conversion never fails, and it returns the
      labels of the selected indices. */
  lemma ConvertTopNSucceeds(c: Converter, scores: seq<real>, order: seq<nat>)
    requires IsArgsort(scores, order)
    requires |scores| <= |c.labels|
    ensures ConvertTopN(c, scores, order).Ok?
    ensures |ConvertTopN(c, scores, order).value| == |SelectTopN(order, c.topN)|
  {
    TopNIndicesDistinctInRange(scores, order, c.topN);
  }
}
