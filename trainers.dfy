/** The trainers' class-schedule and exemplar-budget state: `all_classes` (the release order,
    consumed from its tail), `left_over` (the revealed classes awaiting a budget) and
    `older_classes` (the classes that have been given bounded exemplar memory). */
module Trainers {
  import opened Basics
  import opened Datasets
  import opened Schedule
  import opened Budget

  /** The incremental trainer. `train` is the training iterator's dataset, which is also the
      `train_loader` that receives the limit requests. */
  class Trainer {
    var allClasses: seq<int>
    var leftOver: seq<int>
    var olderClasses: seq<int>
    const train: ClassDataset
    const ideal: ClassDataset
    const test: ClassDataset
    const stepSize: int
    const memoryBudget: int
    const noHerding: bool

    /** The three datasets are distinct objects; no id is both pending and awaiting a budget,
        or twice in either list; `older_classes` has no duplicates. */
    ghost predicate Valid()
      reads this
    {
      train != ideal && train != test && ideal != test &&
      Distinct(allClasses + leftOver) &&
      Distinct(olderClasses)
    }

    /** `GenericTrainer.__init__`: the release order is a seeded shuffle of the ids 0 .. classes-1;
        `draws` stands for the seeded random source. */
    constructor (classes: nat, draws: seq<int>, train: ClassDataset, ideal: ClassDataset,
                 test: ClassDataset, stepSize: int, memoryBudget: int, noHerding: bool)
      requires |draws| == classes && forall i :: 0 <= i < classes ==> 0 <= draws[i] <= i
      requires train != ideal && train != test && ideal != test
      ensures Valid()
      ensures IsClassPermutation(allClasses, classes)
      ensures leftOver == [] && olderClasses == []
      ensures this.train == train && this.ideal == ideal && this.test == test
      ensures this.stepSize == stepSize && this.memoryBudget == memoryBudget && this.noHerding == noHerding
    {
      var shuffled := InitialOrder(classes, draws);
      this.train, this.ideal, this.test := train, ideal, test;
      this.stepSize, this.memoryBudget, this.noHerding := stepSize, memoryBudget, noHerding;
      allClasses, leftOver, olderClasses := shuffled, [], [];
      assert shuffled + [] == shuffled;
    }

    /** `Trainer.increment_classes`: pops `step_size` ids; each goes to `add_class` on the train,
        ideal and test datasets and is appended to `left_over`. When fewer ids remain, every
        remaining one is handled and the next `pop()` raises (`ok` is false). */
    method IncrementClasses(classGroup: int) returns (ok: bool)
      requires Valid()
      modifies this, train, ideal, test
      ensures Valid()
      ensures ok <==> stepSize <= |old(allClasses)|
      ensures var n := PopCount(stepSize, |old(allClasses)|);
        var p := Popped(old(allClasses), n);
        && allClasses == old(allClasses)[..|old(allClasses)| - n]
        && leftOver == old(leftOver) + p
        && train.log == old(train.log) + AddCalls(p)
        && ideal.log == old(ideal.log) + AddCalls(p)
        && test.log == old(test.log) + AddCalls(p)
      ensures olderClasses == old(olderClasses)
    {
      ghost var all := allClasses;
      ghost var p: seq<int> := [];
      ok := true;
      var temp := classGroup;
      while temp < classGroup + stepSize
        invariant Valid()
        invariant classGroup <= temp && (temp == classGroup || temp <= classGroup + stepSize)
        invariant temp - classGroup <= |all| && p == Popped(all, temp - classGroup)
        invariant allClasses == all[..|all| - (temp - classGroup)]
        invariant leftOver == old(leftOver) + p
        invariant train.log == old(train.log) + AddCalls(p)
        invariant ideal.log == old(ideal.log) + AddCalls(p)
        invariant test.log == old(test.log) + AddCalls(p)
        invariant ok && olderClasses == old(olderClasses)
      {
        if allClasses == [] {
          ok := false;
          break;
        }
        PopStep(all, temp - classGroup);
        var popVal := RevealOne();
        AddCallsAppend(p, popVal);
        p := p + [popVal];
        temp := temp + 1;
      }
    }

    /** `Trainer.increment_classes_2`: pops `end - start` ids without touching `left_over`.
        The ideal and test datasets receive `add_class(pop_val)` followed by
        `limit_class(temp, 0)`, where `temp` is the loop index in [start, end), not the popped id. */
    method IncrementClasses2(start: int, end: int) returns (ok: bool)
      requires Valid()
      modifies this, train, ideal, test
      ensures Valid()
      ensures ok <==> end - start <= |old(allClasses)|
      ensures var n := PopCount(end - start, |old(allClasses)|);
        var p := Popped(old(allClasses), n);
        && allClasses == old(allClasses)[..|old(allClasses)| - n]
        && train.log == old(train.log) + AddCalls(p)
        && ideal.log == old(ideal.log) + AddThenHide(p, start)
        && test.log == old(test.log) + AddThenHide(p, start)
      ensures leftOver == old(leftOver) && olderClasses == old(olderClasses)
    {
      ghost var all := allClasses;
      ghost var p: seq<int> := [];
      ok := true;
      var temp := start;
      while temp < end
        invariant Valid()
        invariant start <= temp && (temp == start || temp <= end)
        invariant temp - start <= |all| && p == Popped(all, temp - start) && |p| == temp - start
        invariant allClasses == all[..|all| - (temp - start)]
        invariant train.log == old(train.log) + AddCalls(p)
        invariant ideal.log == old(ideal.log) + AddThenHide(p, start)
        invariant test.log == old(test.log) + AddThenHide(p, start)
        invariant ok && leftOver == old(leftOver) && olderClasses == old(olderClasses)
      {
        if allClasses == [] {
          ok := false;
          break;
        }
        PopStep(all, temp - start);
        var popVal := RevealHidden(temp);
        AddCallsAppend(p, popVal);
        AddThenHideAppend(p, popVal, start);
        p := p + [popVal];
        temp := temp + 1;
      }
    }

    /** The body of the `increment_classes` loop: the last pending id moves to `left_over`
        and is added to the three datasets. */
    method RevealOne() returns (popVal: int)
      requires Valid() && allClasses != []
      modifies this, train, ideal, test
      ensures Valid()
      ensures popVal == old(allClasses)[|old(allClasses)| - 1]
      ensures allClasses == old(allClasses)[..|old(allClasses)| - 1]
      ensures leftOver == old(leftOver) + [popVal]
      ensures train.log == old(train.log) + [Add(popVal)]
      ensures ideal.log == old(ideal.log) + [Add(popVal)]
      ensures test.log == old(test.log) + [Add(popVal)]
      ensures olderClasses == old(olderClasses)
    {
      DistinctMoveLast(allClasses, leftOver);
      popVal := allClasses[|allClasses| - 1];
      allClasses := allClasses[..|allClasses| - 1];
      train.AddClass(popVal);
      ideal.AddClass(popVal);
      test.AddClass(popVal);
      leftOver := leftOver + [popVal];
    }

    /** The body of the `increment_classes_2` loop for index `temp`. */
    method RevealHidden(temp: int) returns (popVal: int)
      requires Valid() && allClasses != []
      modifies this, train, ideal, test
      ensures Valid()
      ensures popVal == old(allClasses)[|old(allClasses)| - 1]
      ensures allClasses == old(allClasses)[..|old(allClasses)| - 1]
      ensures train.log == old(train.log) + [Add(popVal)]
      ensures ideal.log == old(ideal.log) + [Add(popVal), Limit(temp, 0)]
      ensures test.log == old(test.log) + [Add(popVal), Limit(temp, 0)]
      ensures leftOver == old(leftOver) && olderClasses == old(olderClasses)
    {
      DistinctMoveLast(allClasses, leftOver);
      popVal := allClasses[|allClasses| - 1];
      allClasses := allClasses[..|allClasses| - 1];
      train.AddClass(popVal);
      ideal.AddClass(popVal);
      ideal.LimitClass(temp, 0);
      test.AddClass(popVal);
      test.LimitClass(temp, 0);
    }

    /** `Trainer.limit_class`: one limit request to the training dataset (herding selects
        `limit_class_and_sort`), then n is recorded in `older_classes` unless already there. */
    method LimitClass(n: int, k: int, herding: bool)
      requires Valid()
      modifies this, train
      ensures Valid()
      ensures train.log == old(train.log) + [LimitCall(n, k, herding)]
      ensures olderClasses == Remember(old(olderClasses), n)
      ensures n in olderClasses && old(olderClasses) <= olderClasses
      ensures allClasses == old(allClasses) && leftOver == old(leftOver)
    {
      if !herding {
        train.LimitClass(n, k);
      } else {
        train.LimitClassAndSort(n, k);
      }
      if n !in olderClasses {
        DistinctAppend(olderClasses, n);
        olderClasses := olderClasses + [n];
      }
    }

    /** `Trainer.setup_training` (its exemplar part): every `left_over` id, in order, is limited
        to int(memory_budget / len(left_over)) exemplars, with herding unless `no_herding`.
        `left_over` itself is kept, so the divisor counts every class revealed so far; an empty
        `left_over` makes no request and never divides. */
    method SetupTraining()
      requires Valid()
      modifies this, train
      ensures Valid()
      ensures train.log == old(train.log) + SetupCalls(leftOver, memoryBudget, !noHerding)
      ensures olderClasses == RememberAll(old(olderClasses), leftOver)
      ensures allClasses == old(allClasses) && leftOver == old(leftOver)
    {
      if leftOver == [] {
        return;
      }
      var i := 0;
      while i < |leftOver|
        invariant Valid()
        invariant 0 <= i <= |leftOver|
        invariant leftOver == old(leftOver) && allClasses == old(allClasses)
        invariant train.log == old(train.log) +
          LimitCalls(leftOver[..i], TruncDiv(memoryBudget, |leftOver|), !noHerding)
        invariant olderClasses == RememberAll(old(olderClasses), leftOver[..i])
      {
        var val := leftOver[i];
        var k := TruncDiv(memoryBudget, |leftOver|);
        SetupStep(leftOver, i, k, !noHerding, old(olderClasses));
        LimitClass(val, k, !noHerding);
        i := i + 1;
      }
      assert leftOver[..i] == leftOver;
    }
  }

  /** The requests the ideal and test datasets receive from `increment_classes_2` for the popped
      ids `p`: `add_class(p[i])` followed by `limit_class(start + i, 0)`. */
  function AddThenHide(p: seq<int>, start: int): seq<DatasetCall>
  {
    if p == [] then []
    else AddThenHide(p[..|p| - 1], start) + [Add(p[|p| - 1]), Limit(start + |p| - 1, 0)]
  }

  lemma AddThenHideAppend(p: seq<int>, x: int, start: int)
    ensures AddThenHide(p + [x], start) == AddThenHide(p, start) + [Add(x), Limit(start + |p|, 0)]
  {
    assert (p + [x])[..|p|] == p;
  }

  /** The 2i-th request adds the i-th popped id; the next limits the class numbered by the
      loop index start + i to zero exemplars, whatever id was popped. */
  lemma {:induction false} AddThenHideAt(p: seq<int>, start: int)
    ensures |AddThenHide(p, start)| == 2 * |p|
    ensures forall i :: 0 <= i < |p| ==>
      AddThenHide(p, start)[2 * i] == Add(p[i]) && AddThenHide(p, start)[2 * i + 1] == Limit(start + i, 0)
  {
    if p != [] {
      AddThenHideAt(p[..|p| - 1], start);
    }
  }

  /** The distiller: it reveals classes by index without consuming `all_classes`, and has
      its own copies of `limit_class` and `setup_training`. */
  class Distiller {
    var allClasses: seq<int>
    var leftOver: seq<int>
    var olderClasses: seq<int>
    const train: ClassDataset
    const memoryBudget: int
    const noHerding: bool

    ghost predicate Valid()
      reads this
    {
      Distinct(olderClasses)
    }

    /** `GenericTrainer.__init__`, as inherited by the distiller. */
    constructor (classes: nat, draws: seq<int>, train: ClassDataset, memoryBudget: int, noHerding: bool)
      requires |draws| == classes && forall i :: 0 <= i < classes ==> 0 <= draws[i] <= i
      ensures Valid()
      ensures IsClassPermutation(allClasses, classes)
      ensures leftOver == [] && olderClasses == []
      ensures this.train == train && this.memoryBudget == memoryBudget && this.noHerding == noHerding
    {
      var shuffled := InitialOrder(classes, draws);
      this.train, this.memoryBudget, this.noHerding := train, memoryBudget, noHerding;
      allClasses, leftOver, olderClasses := shuffled, [], [];
    }

    /** `Distiller.increment_classes`: `add_class(all_classes[t])` on the given iterator's dataset
        for t = g0, ..., g1-1 in turn, stopping at the first index Python rejects (`ok` false).
        `all_classes` is only read. */
    method IncrementClasses(g0: int, g1: int, loader: ClassDataset) returns (ok: bool)
      modifies loader
      ensures loader.log == old(loader.log) + AddCalls(LookupRange(allClasses, g0, g1).0)
      ensures ok == LookupRange(allClasses, g0, g1).1
    {
      ghost var fetched: seq<int> := [];
      ok := true;
      var temp := g0;
      while temp < g1
        invariant g0 <= temp && (temp == g0 || temp <= g1)
        invariant loader.log == old(loader.log) + AddCalls(fetched)
        invariant LookupRange(allClasses, g0, temp) == (fetched, true)
        decreases g1 - temp
      {
        var x := PyIndex(allClasses, temp);
        if x.None? {
          ok := false;
          assert LookupRange(allClasses, g0, temp + 1) == (fetched, false);
          LookupRangeStopsAtFailure(allClasses, g0, temp + 1, g1);
          return;
        }
        loader.AddClass(x.value);
        AddCallsAppend(fetched, x.value);
        fetched := fetched + [x.value];
        temp := temp + 1;
      }
      if g1 <= g0 {
        assert LookupRange(allClasses, g0, g0) == LookupRange(allClasses, g0, g1);
      }
    }

    /** `Distiller.limit_class`: the same behaviour as the trainer's. */
    method LimitClass(n: int, k: int, herding: bool)
      requires Valid()
      modifies this, train
      ensures Valid()
      ensures train.log == old(train.log) + [LimitCall(n, k, herding)]
      ensures olderClasses == Remember(old(olderClasses), n)
      ensures n in olderClasses && old(olderClasses) <= olderClasses
      ensures allClasses == old(allClasses) && leftOver == old(leftOver)
    {
      if !herding {
        train.LimitClass(n, k);
      } else {
        train.LimitClassAndSort(n, k);
      }
      if n !in olderClasses {
        DistinctAppend(olderClasses, n);
        olderClasses := olderClasses + [n];
      }
    }

    /** `Distiller.setup_training`: the same budget loop as the trainer's. */
    method SetupTraining()
      requires Valid()
      modifies this, train
      ensures Valid()
      ensures train.log == old(train.log) + SetupCalls(leftOver, memoryBudget, !noHerding)
      ensures olderClasses == RememberAll(old(olderClasses), leftOver)
      ensures allClasses == old(allClasses) && leftOver == old(leftOver)
    {
      if leftOver == [] {
        return;
      }
      var i := 0;
      while i < |leftOver|
        invariant Valid()
        invariant 0 <= i <= |leftOver|
        invariant leftOver == old(leftOver) && allClasses == old(allClasses)
        invariant train.log == old(train.log) +
          LimitCalls(leftOver[..i], TruncDiv(memoryBudget, |leftOver|), !noHerding)
        invariant olderClasses == RememberAll(old(olderClasses), leftOver[..i])
      {
        var val := leftOver[i];
        var k := TruncDiv(memoryBudget, |leftOver|);
        SetupStep(leftOver, i, k, !noHerding, old(olderClasses));
        LimitClass(val, k, !noHerding);
        i := i + 1;
      }
      assert leftOver[..i] == leftOver;
    }
  }
}
