/**
 * `split_into_train_and_test`: the length-stratified train/validation split.
 * Trajectory ids are ordered by length (the `np.argsort` permutation), cut into
 * four quartile slices at rounded 25/50/75 % positions, each slice is shuffled
 * (one `np.random.permutation` per quartile, drawn in quartile order) and the
 * first `round(k * train_ratio)` ids of a slice of size `k` go to training.
 * Both permutations are parameters that satisfy the contract of a permutation.
 */
module TrainValSplit {
  import opened PyOps
  import opened Trajectories

  /** `p` rearranges 0..n-1, as `np.argsort` and `np.random.permutation` do. */
  predicate IsPermutation(p: seq<nat>, n: nat) {
    && |p| == n
    && (forall i :: 0 <= i < n ==> p[i] < n)
    && Distinct(p)
    && (forall k :: 0 <= k < n ==> k in p)
  }

  /** `s[p]` for an index array `p`. */
  function Permute<T>(s: seq<T>, p: seq<nat>): (r: seq<T>)
    requires IsPermutation(p, |s|)
    ensures |r| == |s|
    ensures forall i :: 0 <= i < |s| ==> r[i] == s[p[i]]
  {
    seq(|s|, i requires 0 <= i < |s| => s[p[i]])
  }

  /** Permuting loses and duplicates nothing. */
  lemma PermuteKeepsElements<T>(s: seq<T>, p: seq<nat>)
    requires IsPermutation(p, |s|)
    requires Distinct(s)
    ensures Distinct(Permute(s, p))
    ensures multiset(Permute(s, p)) == multiset(s)
  {
    var r := Permute(s, p);
    forall x | x in s ensures x in r {
      var k :| 0 <= k < |s| && s[k] == x;
      assert k in p;
      var i :| 0 <= i < |s| && p[i] == k;
      assert r[i] == x;
    }
    SameElementsSameMultiset(r, s);
  }

  /** The lengths of the trajectories in the order of `ids`. */
  function Lengths(ts: Store, ids: seq<string>): (ls: seq<nat>)
    requires forall i :: 0 <= i < |ids| ==> ids[i] in ts.entries
    ensures |ls| == |ids|
    ensures forall i :: 0 <= i < |ids| ==> ls[i] == Length(ts.entries[ids[i]])
  {
    seq(|ids|, i requires 0 <= i < |ids| => Length(ts.entries[ids[i]]))
  }

  /** What `np.argsort(lengths)` promises: a permutation listing the lengths in ascending order. */
  predicate IsArgsort(order: seq<nat>, lengths: seq<nat>) {
    && IsPermutation(order, |lengths|)
    && forall i, j :: 0 <= i < j < |lengths| ==> lengths[order[i]] <= lengths[order[j]]
  }

  /** `[0, round(n*0.25), round(n*0.5), round(n*0.75), n]`, computed on exact quarters of n. */
  function QuartileBounds(n: nat): (b: seq<nat>)
    ensures |b| == 5 && b[0] == 0 && b[4] == n
    ensures forall i, j :: 0 <= i <= j < 5 ==> b[i] <= b[j]
  {
    RoundQuarterMonotone(0, n);
    RoundQuarterMonotone(n, 2 * n);
    RoundQuarterMonotone(2 * n, 3 * n);
    RoundQuarterMonotone(3 * n, 4 * n);
    [0, RoundQuarter(n), RoundQuarter(2 * n), RoundQuarter(3 * n), n]
  }

  /** The bounds are Python's rounded 25, 50 and 75 % positions, ties going to the even index. */
  lemma QuartileBoundsAreRounded(n: nat)
    ensures QuartileBounds(n)[1] == RoundHalfEven(n as real * 0.25)
    ensures QuartileBounds(n)[2] == RoundHalfEven(n as real * 0.5)
    ensures QuartileBounds(n)[3] == RoundHalfEven(n as real * 0.75)
  {
    RoundQuarterIsRound(n);
    RoundQuarterIsRound(2 * n);
    RoundQuarterIsRound(3 * n);
    assert n as real * 0.25 == n as real / 4.0;
    assert n as real * 0.5 == (2 * n) as real / 4.0;
    assert n as real * 0.75 == (3 * n) as real / 4.0;
  }

  function QuartileSize(n: nat, q: nat): nat
    requires q < 4
  {
    var b := QuartileBounds(n);
    b[q + 1] - b[q]
  }

  /** The two permutations the split consumes: the argsort order and one shuffle per quartile. */
  predicate Drawn(n: nat, order: seq<nat>, shuffles: seq<seq<nat>>) {
    && IsPermutation(order, n)
    && |shuffles| == 4
    && forall q :: 0 <= q < 4 ==> IsPermutation(shuffles[q], QuartileSize(n, q))
  }

  /** `sorted_ids[quantiles_indices[q]:quantiles_indices[q + 1]]`. */
  function QuartileIds(ids: seq<string>, order: seq<nat>, q: nat): (r: seq<string>)
    requires IsPermutation(order, |ids|) && q < 4
    ensures |r| == QuartileSize(|ids|, q)
  {
    var b := QuartileBounds(|ids|);
    Permute(ids, order)[b[q]..b[q + 1]]
  }

  /** `np.random.permutation(q_ids)`. */
  function ShuffledQuartile(ids: seq<string>, order: seq<nat>, shuffles: seq<seq<nat>>, q: nat): (r: seq<string>)
    requires Drawn(|ids|, order, shuffles) && q < 4
    ensures |r| == QuartileSize(|ids|, q)
  {
    Permute(QuartileIds(ids, order, q), shuffles[q])
  }

  /** `train_idx = round(len(q_ids) * train_ratio)`. */
  function TrainCut(k: nat, trainRatio: real): int {
    RoundHalfEven(k as real * trainRatio)
  }

  /** `q_ids[:train_idx]` for a shuffled quartile `p`. */
  function TrainShare(p: seq<string>, trainRatio: real): seq<string> {
    Slice(p, 0, TrainCut(|p|, trainRatio))
  }

  /** `q_ids[train_idx:]` for a shuffled quartile `p`. */
  function ValShare(p: seq<string>, trainRatio: real): seq<string> {
    Slice(p, TrainCut(|p|, trainRatio), |p|)
  }

  /** How many ids the first `m` quartiles hand to training: `round(k * train_ratio)` of each quartile of size `k`. */
  function TrainCount(n: nat, trainRatio: real, m: nat): int
    requires m <= 4
  {
    if m == 0 then 0 else TrainCount(n, trainRatio, m - 1) + TrainCut(QuartileSize(n, m - 1), trainRatio)
  }

  /** `train_ids` after the first `m` quartiles: never more than those quartiles hold, and for a ratio in [0, 1] their rounded shares. */
  function TrainIds(ids: seq<string>, order: seq<nat>, shuffles: seq<seq<nat>>, trainRatio: real, m: nat): (r: seq<string>)
    requires Drawn(|ids|, order, shuffles) && m <= 4
    ensures |r| <= QuartileBounds(|ids|)[m]
    ensures 0.0 <= trainRatio <= 1.0 ==> |r| == TrainCount(|ids|, trainRatio, m)
  {
    if m == 0 then []
    else
      ShareSizes(ShuffledQuartile(ids, order, shuffles, m - 1), trainRatio);
      TrainIds(ids, order, shuffles, trainRatio, m - 1) + TrainShare(ShuffledQuartile(ids, order, shuffles, m - 1), trainRatio)
  }

  /** `val_ids` after the first `m` quartiles: never more than those quartiles hold, and for a ratio in [0, 1] the rest of them. */
  function ValIds(ids: seq<string>, order: seq<nat>, shuffles: seq<seq<nat>>, trainRatio: real, m: nat): (r: seq<string>)
    requires Drawn(|ids|, order, shuffles) && m <= 4
    ensures |r| <= QuartileBounds(|ids|)[m]
    ensures 0.0 <= trainRatio <= 1.0 ==> |r| == QuartileBounds(|ids|)[m] - TrainCount(|ids|, trainRatio, m)
  {
    if m == 0 then []
    else
      ShareSizes(ShuffledQuartile(ids, order, shuffles, m - 1), trainRatio);
      ValIds(ids, order, shuffles, trainRatio, m - 1) + ValShare(ShuffledQuartile(ids, order, shuffles, m - 1), trainRatio)
  }

  /** For a ratio in [0, 1], `round(k * train_ratio)` is a cut inside the quartile. */
  lemma TrainCutInRange(k: nat, trainRatio: real)
    requires 0.0 <= trainRatio <= 1.0
    ensures 0 <= TrainCut(k, trainRatio) <= k
  {
    RoundedShareBounds(k, trainRatio);
  }

  /** A quartile of size k gives `round(k * train_ratio)` ids to training (clamped as Python slicing
      clamps) and the rest to validation; for a ratio in [0, 1] no clamping happens. */
  lemma ShareSizes(p: seq<string>, trainRatio: real)
    ensures |TrainShare(p, trainRatio)| == SliceBound(TrainCut(|p|, trainRatio), |p|)
    ensures |TrainShare(p, trainRatio)| + |ValShare(p, trainRatio)| == |p|
    ensures 0.0 <= trainRatio <= 1.0 ==>
      && |TrainShare(p, trainRatio)| == TrainCut(|p|, trainRatio)
      && |ValShare(p, trainRatio)| == |p| - TrainCut(|p|, trainRatio)
  {
    if 0.0 <= trainRatio <= 1.0 {
      TrainCutInRange(|p|, trainRatio);
    }
  }

  /** A shuffled quartile is exactly its train share followed by its validation share. */
  lemma SharesRecombine(p: seq<string>, trainRatio: real)
    ensures TrainShare(p, trainRatio) + ValShare(p, trainRatio) == p
  {
    var c := SliceBound(TrainCut(|p|, trainRatio), |p|);
    assert TrainShare(p, trainRatio) == p[..c];
    assert ValShare(p, trainRatio) == p[c..];
    assert p[..c] + p[c..] == p;
  }

  /** A shuffled quartile holds the same ids as the slice of the sorted ids it was drawn from. */
  lemma ShuffledQuartileElements(ids: seq<string>, order: seq<nat>, shuffles: seq<seq<nat>>, q: nat)
    requires Distinct(ids) && Drawn(|ids|, order, shuffles) && q < 4
    ensures var b := QuartileBounds(|ids|);
      multiset(ShuffledQuartile(ids, order, shuffles, q)) == multiset(Permute(ids, order)[b[q]..b[q + 1]])
  {
    var b := QuartileBounds(|ids|);
    var sorted := Permute(ids, order);
    PermuteKeepsElements(ids, order);
    var slice := QuartileIds(ids, order, q);
    assert slice == sorted[b[q]..b[q + 1]];
    assert Distinct(slice);
    PermuteKeepsElements(slice, shuffles[q]);
  }

  /** Appending one quartile's shares adds exactly that quartile's ids. */
  lemma AppendShares(train: seq<string>, val: seq<string>, p: seq<string>, trainRatio: real)
    ensures multiset(train + TrainShare(p, trainRatio)) + multiset(val + ValShare(p, trainRatio))
      == multiset(train) + multiset(val) + multiset(p)
  {
    SharesRecombine(p, trainRatio);
    assert multiset(TrainShare(p, trainRatio)) + multiset(ValShare(p, trainRatio)) == multiset(p);
  }

  /** After m quartiles, the train and validation ids together are the m lowest-length slices. */
  lemma {:induction false} SplitSoFar(ids: seq<string>, order: seq<nat>, shuffles: seq<seq<nat>>, trainRatio: real, m: nat)
    requires Distinct(ids) && Drawn(|ids|, order, shuffles) && m <= 4
    ensures multiset(TrainIds(ids, order, shuffles, trainRatio, m)) + multiset(ValIds(ids, order, shuffles, trainRatio, m))
      == multiset(Permute(ids, order)[..QuartileBounds(|ids|)[m]])
  {
    if m > 0 {
      var sorted := Permute(ids, order);
      var b := QuartileBounds(|ids|);
      SplitSoFar(ids, order, shuffles, trainRatio, m - 1);
      var p := ShuffledQuartile(ids, order, shuffles, m - 1);
      AppendShares(TrainIds(ids, order, shuffles, trainRatio, m - 1), ValIds(ids, order, shuffles, trainRatio, m - 1), p, trainRatio);
      ShuffledQuartileElements(ids, order, shuffles, m - 1);
      assert sorted[..b[m]] == sorted[..b[m - 1]] + sorted[b[m - 1]..b[m]];
    }
  }

  /** Two sequences whose elements together make up a duplicate-free sequence partition it. */
  lemma PartitionOfMultiset(ids: seq<string>, train: seq<string>, val: seq<string>)
    requires Distinct(ids)
    requires multiset(train) + multiset(val) == multiset(ids)
    ensures Distinct(train) && Distinct(val)
    ensures forall x :: x in train ==> x !in val
    ensures forall x :: x in ids <==> x in train || x in val
    ensures |train| + |val| == |ids|
  {
    DistinctIffSingleCounts(ids);
    DistinctIffSingleCounts(train);
    forall x ensures multiset(train)[x] <= 1 && multiset(val)[x] <= 1 {
      assert multiset(ids)[x] == multiset(train)[x] + multiset(val)[x];
    }
    DistinctIffSingleCounts(val);
    forall x | x in train ensures x !in val {
      assert multiset(ids)[x] == multiset(train)[x] + multiset(val)[x];
    }
    forall x ensures x in ids <==> x in train || x in val {
      assert multiset(ids)[x] == multiset(train)[x] + multiset(val)[x];
    }
    assert |multiset(train) + multiset(val)| == |multiset(ids)|;
  }

  /** The split loses no id and duplicates none. */
  lemma SplitIsPartition(ids: seq<string>, order: seq<nat>, shuffles: seq<seq<nat>>, trainRatio: real)
    requires Distinct(ids) && Drawn(|ids|, order, shuffles)
    ensures var train, val := TrainIds(ids, order, shuffles, trainRatio, 4), ValIds(ids, order, shuffles, trainRatio, 4);
      && Distinct(train) && Distinct(val)
      && (forall x :: x in train ==> x !in val)
      && (forall x :: x in ids <==> x in train || x in val)
      && |train| + |val| == |ids|
  {
    SplitSoFar(ids, order, shuffles, trainRatio, 4);
    var sorted := Permute(ids, order);
    PermuteKeepsElements(ids, order);
    assert sorted[..|ids|] == sorted;
    PartitionOfMultiset(ids, TrainIds(ids, order, shuffles, trainRatio, 4), ValIds(ids, order, shuffles, trainRatio, 4));
  }

  /** The quartiles stratify by length: every id of a lower quartile is no longer than any id of a higher one. */
  lemma QuartilesOrderedByLength(ts: Store, ids: seq<string>, order: seq<nat>, q: nat, r: nat, i: nat, j: nat)
    requires forall k :: 0 <= k < |ids| ==> ids[k] in ts.entries
    requires IsArgsort(order, Lengths(ts, ids))
    requires q < r < 4
    requires i < |QuartileIds(ids, order, q)| && j < |QuartileIds(ids, order, r)|
    ensures QuartileIds(ids, order, q)[i] in ts.entries && QuartileIds(ids, order, r)[j] in ts.entries
    ensures Length(ts.entries[QuartileIds(ids, order, q)[i]]) <= Length(ts.entries[QuartileIds(ids, order, r)[j]])
  {
    var b := QuartileBounds(|ids|);
    var ls := Lengths(ts, ids);
    assert QuartileIds(ids, order, q)[i] == ids[order[b[q] + i]];
    assert QuartileIds(ids, order, r)[j] == ids[order[b[r] + j]];
    assert b[q] + i < b[r] + j;
    assert ls[order[b[q] + i]] <= ls[order[b[r] + j]];
  }

  /** `{k: trajectories[k] for k in ids}` built by assignment in the order of `ids`. */
  method SubStore(trajectories: Store, ids: seq<string>) returns (out: Store)
    requires trajectories.Valid()
    requires Distinct(ids)
    requires forall i :: 0 <= i < |ids| ==> ids[i] in trajectories.entries
    ensures out.Valid()
    ensures out.keys == ids
    ensures forall k :: k in out.entries ==> k in trajectories.entries && out.entries[k] == trajectories.entries[k]
  {
    out := EmptyStore;
    for i := 0 to |ids|
      invariant out.Valid()
      invariant out.keys == ids[..i]
      invariant forall k :: k in out.entries ==> k in trajectories.entries && out.entries[k] == trajectories.entries[k]
    {
      assert forall j :: 0 <= j < i ==> ids[j] != ids[i];
      assert ids[i] !in out.keys;
      out := out.Insert(ids[i], trajectories.entries[ids[i]]);
      assert ids[..i + 1] == ids[..i] + [ids[i]];
    }
    assert ids[..|ids|] == ids;
  }

  /** `split_into_train_and_test(trajectories, train_ratio, seed)`, with the random draws as parameters. */
  method SplitIntoTrainAndTest(trajectories: Store, trainRatio: real, order: seq<nat>, shuffles: seq<seq<nat>>)
    returns (train: Store, val: Store)
    requires trajectories.Valid()
    requires IsArgsort(order, Lengths(trajectories, trajectories.keys))
    requires Drawn(|trajectories.keys|, order, shuffles)
    ensures train.Valid() && val.Valid()
    ensures train.keys == TrainIds(trajectories.keys, order, shuffles, trainRatio, 4)
    ensures val.keys == ValIds(trajectories.keys, order, shuffles, trainRatio, 4)
    ensures forall k :: k in train.entries ==> k !in val.entries
    ensures forall k :: k in trajectories.entries <==> k in train.entries || k in val.entries
    ensures forall k :: k in train.entries ==> train.entries[k] == trajectories.entries[k]
    ensures forall k :: k in val.entries ==> val.entries[k] == trajectories.entries[k]
    ensures |train.keys| + |val.keys| == |trajectories.keys|
  {
    var ids := trajectories.keys;
    var sortedIds := Permute(ids, order);
    var bounds := QuartileBounds(|ids|);
    var trainIds, valIds := [], [];
    for q := 1 to 5
      invariant trainIds == TrainIds(ids, order, shuffles, trainRatio, q - 1)
      invariant valIds == ValIds(ids, order, shuffles, trainRatio, q - 1)
    {
      var qIds := sortedIds[bounds[q - 1]..bounds[q]];
      assert qIds == QuartileIds(ids, order, q - 1);
      qIds := Permute(qIds, shuffles[q - 1]);
      assert qIds == ShuffledQuartile(ids, order, shuffles, q - 1);
      var trainIdx := TrainCut(|qIds|, trainRatio);
      ghost var oldTrain, oldVal := trainIds, valIds;
      trainIds := trainIds + Slice(qIds, 0, trainIdx);
      valIds := valIds + Slice(qIds, trainIdx, |qIds|);
      assert trainIds == oldTrain + TrainShare(qIds, trainRatio);
      assert valIds == oldVal + ValShare(qIds, trainRatio);
    }
    SplitIsPartition(ids, order, shuffles, trainRatio);
    train := SubStore(trajectories, trainIds);
    val := SubStore(trajectories, valIds);
  }
}
