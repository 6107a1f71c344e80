/** Client runs of the trainer's schedule, for any seeded shuffle of ten classes. */
module Scenarios {
  import opened Basics
  import opened Datasets
  import opened Schedule
  import opened Budget
  import opened Trainers

  /** Two reveals of five classes exhaust a ten-class schedule; a third reveal raises. */
  method TwoStepsExhaustTenClasses(draws: seq<int>) returns (first: bool, second: bool, remaining: seq<int>, third: bool)
    requires |draws| == 10 && forall i :: 0 <= i < 10 ==> 0 <= draws[i] <= i
    ensures first && second && remaining == [] && !third
  {
    var train := new ClassDataset();
    var ideal := new ClassDataset();
    var test := new ClassDataset();
    var t := new Trainer(10, draws, train, ideal, test, 5, 100, false);
    first := t.IncrementClasses(0);
    assert |t.allClasses| == 5;
    second := t.IncrementClasses(5);
    remaining := t.allClasses;
    third := t.IncrementClasses(10);
  }

  /** One cycle of the driver: reveal the next two classes, then run the budget setup. Every
      class ever revealed is then in `older_classes`, and no class is lost or duplicated. */
  method RevealAndSetup(t: Trainer, cycle: int, ghost universe: multiset<int>)
    requires t.Valid() && t.stepSize == 2 && |t.allClasses| >= 2
    requires multiset(t.allClasses) + multiset(t.leftOver) == universe
    requires forall x :: x in t.leftOver ==> x in t.olderClasses
    modifies t, t.train, t.ideal, t.test
    ensures t.Valid() && |t.allClasses| == |old(t.allClasses)| - 2
    ensures multiset(t.allClasses) + multiset(t.leftOver) == universe
    ensures forall x :: x in t.leftOver ==> x in t.olderClasses
  {
    ghost var all, left := t.allClasses, t.leftOver;
    assert PopCount(2, |all|) == 2;
    var ok := t.IncrementClasses(2 * cycle);
    PopKeepsClasses(all, left, 2);
    ghost var before := t.olderClasses;
    t.SetupTraining();
    RememberAllMembers(before, t.leftOver);
  }

  /** Popping c ids and appending them to `left_over` neither loses nor duplicates a class. */
  lemma PopKeepsClasses(all: seq<int>, left: seq<int>, c: nat)
    requires c <= |all|
    ensures multiset(all[..|all| - c]) + multiset(left + Popped(all, c)) == multiset(all) + multiset(left)
  {
    PoppedIsTail(all, c);
    assert all == all[..|all| - c] + all[|all| - c..];
  }

  /** Five reveal-and-setup cycles of two classes each put all ten classes in `older_classes`
      and leave the release order empty. */
  method FiveCyclesRecordEveryClass(draws: seq<int>) returns (t: Trainer)
    requires |draws| == 10 && forall i :: 0 <= i < 10 ==> 0 <= draws[i] <= i
    ensures t.allClasses == []
    ensures forall c :: 0 <= c < 10 ==> c in t.olderClasses
  {
    var train := new ClassDataset();
    var ideal := new ClassDataset();
    var test := new ClassDataset();
    t := new Trainer(10, draws, train, ideal, test, 2, 100, false);
    ghost var initial := t.allClasses;
    ghost var universe := multiset(initial);
    var cycle := 0;
    while cycle < 5
      invariant 0 <= cycle <= 5
      invariant t.Valid() && t.stepSize == 2
      invariant fresh(t) && fresh(t.train) && fresh(t.ideal) && fresh(t.test)
      invariant |t.allClasses| == 10 - 2 * cycle
      invariant multiset(t.allClasses) + multiset(t.leftOver) == universe
      invariant forall x :: x in t.leftOver ==> x in t.olderClasses
    {
      RevealAndSetup(t, cycle, universe);
      cycle := cycle + 1;
    }
    assert multiset(t.allClasses) == multiset{};
    assert multiset(t.leftOver) == universe;
    forall c | 0 <= c < 10 ensures c in t.olderClasses {
      assert c in initial;
      assert c in multiset(t.leftOver);
    }
  }
}
