/** The per-batch bookkeeping of `Trainer.train`: which samples count as old classes, which as
    new ones, and the one-hot targets built for the new ones. */
module Batch {
  import opened Basics

  /** The fixed label range [0, BaseClassCount) that `train` treats as old classes. */
  const BaseClassCount := 50

  predicate IsBaseClass(c: int)
  {
    0 <= c < BaseClassCount
  }

  /** `weight_vector`: starting from zeros, add `(target == elem)` for every elem in
      range(0, 50). A sample's weight is 1 when its label is in [0, 50), otherwise 0. */
  method OldClassWeights(target: seq<int>) returns (w: seq<int>)
    ensures |w| == |target|
    ensures forall i :: 0 <= i < |target| ==> w[i] == if IsBaseClass(target[i]) then 1 else 0
  {
    w := seq(|target|, i => 0);
    for elem := 0 to BaseClassCount
      invariant |w| == |target|
      invariant forall i :: 0 <= i < |target| ==> w[i] == if 0 <= target[i] < elem then 1 else 0
    {
      w := seq(|target|, i requires 0 <= i < |w| => w[i] + if target[i] == elem then 1 else 0);
    }
  }

  /** `torch.nonzero(mask)` for a one-dimensional mask, from position `from` on: the positions
      where the mask holds, in ascending order. */
  function Nonzero(mask: seq<bool>, from: nat): (idx: seq<int>)
    requires from <= |mask|
    ensures forall k :: 0 <= k < |idx| ==> from <= idx[k] < |mask| && mask[idx[k]]
    ensures forall i :: from <= i < |mask| && mask[i] ==> i in idx
    ensures forall k, l :: 0 <= k < l < |idx| ==> idx[k] < idx[l]
    decreases |mask| - from
  {
    if from == |mask| then []
    else (if mask[from] then [from] else []) + Nonzero(mask, from + 1)
  }

  /** A position is listed exactly when it is in range and the mask holds there. */
  lemma NonzeroMembers(mask: seq<bool>)
    ensures forall i :: i in Nonzero(mask, 0) <==> 0 <= i < |mask| && mask[i]
  {
    var idx := Nonzero(mask, 0);
    forall i | i in idx ensures 0 <= i < |mask| && mask[i] {
      var k :| 0 <= k < |idx| && idx[k] == i;
    }
  }

  /** Two complementary masks select, between them, every position exactly once. */
  lemma {:induction false} NonzeroComplementSizes(m1: seq<bool>, m2: seq<bool>, from: nat)
    requires |m1| == |m2| && from <= |m1|
    requires forall i :: 0 <= i < |m1| ==> m1[i] != m2[i]
    ensures |Nonzero(m1, from)| + |Nonzero(m2, from)| == |m1| - from
    decreases |m1| - from
  {
    if from < |m1| {
      NonzeroComplementSizes(m1, m2, from + 1);
    }
  }

  /** Lines 171-176 of the training step: the indices of old-class samples (weight > 0) and of
      new-class samples (weight == 0). Together they list every sample once, each in
      ascending order, and index i is old exactly when target[i] is in [0, 50). */
  method PartitionBatch(target: seq<int>) returns (oldIdx: seq<int>, newIdx: seq<int>)
    ensures forall i :: i in oldIdx <==> 0 <= i < |target| && IsBaseClass(target[i])
    ensures forall i :: i in newIdx <==> 0 <= i < |target| && !IsBaseClass(target[i])
    ensures forall k, l :: 0 <= k < l < |oldIdx| ==> oldIdx[k] < oldIdx[l]
    ensures forall k, l :: 0 <= k < l < |newIdx| ==> newIdx[k] < newIdx[l]
    ensures |oldIdx| + |newIdx| == |target|
  {
    var w := OldClassWeights(target);
    var isOld := seq(|w|, i requires 0 <= i < |w| => w[i] > 0);
    var isNew := seq(|w|, i requires 0 <= i < |w| => w[i] == 0);
    assert forall i :: 0 <= i < |target| ==> (isOld[i] <==> IsBaseClass(target[i])) && (isNew[i] <==> !isOld[i]);
    oldIdx := Nonzero(isOld, 0);
    newIdx := Nonzero(isNew, 0);
    NonzeroMembers(isOld);
    NonzeroMembers(isNew);
    NonzeroComplementSizes(isOld, isNew, 0);
  }

  /** `t[idx]`: the entries of `t` at the given positions. */
  function Gather(t: seq<int>, idx: seq<int>): (r: seq<int>)
    requires forall k :: 0 <= k < |idx| ==> 0 <= idx[k] < |t|
  {
    seq(|idx|, k requires 0 <= k < |idx| => t[idx[k]])
  }

  /** One row of `y_onehot` after `scatter_`: zeros, with a 1 in column c. */
  function OneHotRow(c: int, width: nat): seq<int>
  {
    if width == 0 then [] else OneHotRow(c, width - 1) + [if width - 1 == c then 1 else 0]
  }

  /** How many entries of `row` equal `v`. */
  function Count(row: seq<int>, v: int): nat
  {
    if row == [] then 0 else Count(row[..|row| - 1], v) + if row[|row| - 1] == v then 1 else 0
  }

  /** A row has `width` columns, 1 in column c and 0 elsewhere. */
  lemma {:induction false} OneHotRowAt(c: int, width: nat)
    ensures |OneHotRow(c, width)| == width
    ensures forall j :: 0 <= j < width ==> OneHotRow(c, width)[j] == if j == c then 1 else 0
  {
    if width > 0 {
      OneHotRowAt(c, width - 1);
    }
  }

  /** A row holds exactly one 1 when its column is in range, and none otherwise. */
  lemma {:induction false} OneHotRowSingleOne(c: int, width: nat)
    ensures Count(OneHotRow(c, width), 1) == if 0 <= c < width then 1 else 0
  {
    if width > 0 {
      OneHotRowSingleOne(c, width - 1);
      var row := OneHotRow(c, width);
      assert row[..|row| - 1] == OneHotRow(c, width - 1);
    }
  }

  /** `y_onehot` for the new-class labels: one row per label, or None when some label is not a
      valid column (`scatter_` rejects the index). */
  function OneHot(labels: seq<int>, width: nat): Option<seq<seq<int>>>
  {
    if forall r :: 0 <= r < |labels| ==> 0 <= labels[r] < width
    then Some(seq(|labels|, r requires 0 <= r < |labels| => OneHotRow(labels[r], width)))
    else None
  }

  /** The one-hot targets of a batch's new-class samples: built exactly when every new-class
      label is below the class count; then row r has a single 1, at the column of the r-th
      new-class sample's label, which is never one of the base classes [0, 50). */
  lemma NewClassOneHot(target: seq<int>, newIdx: seq<int>, classes: nat)
    requires forall i :: i in newIdx <==> 0 <= i < |target| && !IsBaseClass(target[i])
    ensures forall k :: 0 <= k < |newIdx| ==> 0 <= newIdx[k] < |target|
    ensures var labels := Gather(target, newIdx);
      && (OneHot(labels, classes).Some? <==> forall k :: 0 <= k < |labels| ==> 0 <= labels[k] < classes)
      && (forall k :: 0 <= k < |labels| ==> !IsBaseClass(labels[k]))
      && (OneHot(labels, classes).Some? ==>
            forall r :: 0 <= r < |labels| ==>
              var row := OneHot(labels, classes).value[r];
              |row| == classes && Count(row, 1) == 1 && row[labels[r]] == 1)
  {
    forall k | 0 <= k < |newIdx| ensures 0 <= newIdx[k] < |target| && !IsBaseClass(target[newIdx[k]]) {
      assert newIdx[k] in newIdx;
    }
    var labels := Gather(target, newIdx);
    if OneHot(labels, classes).Some? {
      forall r | 0 <= r < |labels|
        ensures var row := OneHot(labels, classes).value[r];
          |row| == classes && Count(row, 1) == 1 && row[labels[r]] == 1
      {
        OneHotRowAt(labels[r], classes);
        OneHotRowSingleOne(labels[r], classes);
      }
    }
  }
}
