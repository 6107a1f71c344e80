/** The exemplar budget: how `setup_training` shares the memory budget among the
    `left_over` classes and how `limit_class` records classes in `older_classes`. */
module Budget {
  import opened Basics
  import opened Datasets

  /** Python's `int(a / b)` for a positive divisor: the quotient truncated toward zero. */
  function TruncDiv(a: int, b: int): (q: int)
    requires b > 0
    ensures a >= 0 ==> 0 <= q && q * b <= a < (q + 1) * b
    ensures a < 0 ==> q <= 0 && (q - 1) * b < a <= q * b
  {
    if a >= 0 then DivBounds(a, b); a / b
    else DivBounds(-a, b); -((-a) / b)
  }

  lemma DivBounds(a: nat, b: int)
    requires b > 0
    ensures 0 <= a / b && (a / b) * b <= a < (a / b + 1) * b
  {
    var q, r := a / b, a % b;
    assert a == q * b + r && 0 <= r < b;
    assert (q + 1) * b == q * b + b;
  }

  /** More classes never get a larger share: the per-class budget shrinks as `left_over` grows. */
  lemma ShareShrinks(budget: int, m: int, n: int)
    requires budget >= 0 && 0 < m <= n
    ensures TruncDiv(budget, n) <= TruncDiv(budget, m)
  {
    var qn, qm := TruncDiv(budget, n), TruncDiv(budget, m);
    MulMonotone(qn, m, n);
    if qn > qm {
      MulMonotone(m, qm + 1, qn);
      assert false;
    }
  }

  lemma {:induction false} MulMonotone(a: nat, b: int, c: int)
    requires b <= c
    ensures a * b <= a * c
  {
    if a > 0 {
      MulMonotone(a - 1, b, c);
      assert a * b == (a - 1) * b + b && a * c == (a - 1) * c + c;
    }
  }

  /** `older_classes` after `limit_class(n, ...)`: n is appended only when it is absent. */
  function Remember(older: seq<int>, n: int): seq<int>
  {
    if n in older then older else older + [n]
  }

  /** `older_classes` after `limit_class` has run for each of `ids` in turn. */
  function RememberAll(older: seq<int>, ids: seq<int>): seq<int>
  {
    if ids == [] then older else Remember(RememberAll(older, ids[..|ids| - 1]), ids[|ids| - 1])
  }

  /** `older_classes` only grows: its old contents stay a prefix. */
  lemma {:induction false} RememberAllGrows(older: seq<int>, ids: seq<int>)
    ensures older <= RememberAll(older, ids)
  {
    if ids != [] {
      RememberAllGrows(older, ids[..|ids| - 1]);
    }
  }

  /** Afterwards every limited id is in `older_classes`, and nothing else was added. */
  lemma {:induction false} RememberAllMembers(older: seq<int>, ids: seq<int>)
    ensures forall x :: x in RememberAll(older, ids) <==> x in older || x in ids
  {
    if ids != [] {
      var init := ids[..|ids| - 1];
      RememberAllMembers(older, init);
      assert ids == init + [ids[|ids| - 1]];
    }
  }

  /** A duplicate-free `older_classes` stays duplicate-free. */
  lemma {:induction false} RememberAllDistinct(older: seq<int>, ids: seq<int>)
    requires Distinct(older)
    ensures Distinct(RememberAll(older, ids))
  {
    if ids != [] {
      RememberAllDistinct(older, ids[..|ids| - 1]);
      var prev := RememberAll(older, ids[..|ids| - 1]);
      if ids[|ids| - 1] !in prev {
        DistinctAppend(prev, ids[|ids| - 1]);
      }
    }
  }

  /** Limiting classes that are all already recorded leaves `older_classes` unchanged;
      so repeating the same round of `limit_class` calls changes nothing. */
  lemma {:induction false} RememberAllKnown(older: seq<int>, ids: seq<int>)
    requires forall x :: x in ids ==> x in older
    ensures RememberAll(older, ids) == older
  {
    if ids != [] {
      RememberAllKnown(older, ids[..|ids| - 1]);
    }
  }

  /** A second identical round of limits leaves `older_classes` as the first round left it. */
  lemma RememberAllIdempotent(older: seq<int>, ids: seq<int>)
    ensures RememberAll(RememberAll(older, ids), ids) == RememberAll(older, ids)
  {
    RememberAllMembers(older, ids);
    RememberAllKnown(RememberAll(older, ids), ids);
  }

  /** The limit requests for `ids`, one per id, all with the same `k` and herding flag. */
  function LimitCalls(ids: seq<int>, k: int, herding: bool): seq<DatasetCall>
  {
    if ids == [] then [] else LimitCalls(ids[..|ids| - 1], k, herding) + [LimitCall(ids[|ids| - 1], k, herding)]
  }

  /** One more id of `left_over` handled: one more request, one more `Remember`. */
  lemma SetupStep(ids: seq<int>, i: int, k: int, herding: bool, older: seq<int>)
    requires 0 <= i < |ids|
    ensures LimitCalls(ids[..i + 1], k, herding) == LimitCalls(ids[..i], k, herding) + [LimitCall(ids[i], k, herding)]
    ensures RememberAll(older, ids[..i + 1]) == Remember(RememberAll(older, ids[..i]), ids[i])
  {
    assert ids[..i + 1][..i] == ids[..i];
  }

  /** The requests `setup_training` sends to the training dataset: one per `left_over` id,
      each with k = int(budget / len(left_over)); none at all when `left_over` is empty. */
  function SetupCalls(leftOver: seq<int>, budget: int, herding: bool): seq<DatasetCall>
  {
    if leftOver == [] then [] else LimitCalls(leftOver, TruncDiv(budget, |leftOver|), herding)
  }

  /** The i-th limit request is for the i-th id, with the shared k, and goes to
      `limit_class_and_sort` exactly when herding is on. */
  lemma {:induction false} LimitCallsAt(ids: seq<int>, k: int, herding: bool)
    ensures |LimitCalls(ids, k, herding)| == |ids|
    ensures forall i :: 0 <= i < |ids| ==>
      var c := LimitCalls(ids, k, herding)[i];
      !c.Add? && c.id == ids[i] && c.k == k && (c.LimitAndSort? <==> herding)
  {
    if ids != [] {
      LimitCallsAt(ids[..|ids| - 1], k, herding);
    }
  }

  /** With a non-negative budget and a non-empty `left_over`, every class gets the same share k,
      the shares together never exceed the budget, and less than one more share is left unused. */
  lemma SetupCallsShareBudget(leftOver: seq<int>, budget: int, herding: bool)
    requires leftOver != [] && budget >= 0
    ensures var calls := SetupCalls(leftOver, budget, herding);
      |calls| == |leftOver| &&
      forall i :: 0 <= i < |calls| ==>
        !calls[i].Add? && calls[i].id == leftOver[i] &&
        calls[i].k * |leftOver| <= budget < (calls[i].k + 1) * |leftOver|
  {
    LimitCallsAt(leftOver, TruncDiv(budget, |leftOver|), herding);
  }

  /** A budget of 100 over `left_over` = [3, 7] gives each class 50 exemplars. */
  lemma SetupCallsExample()
    ensures SetupCalls([3, 7], 100, true) == [LimitAndSort(3, 50), LimitAndSort(7, 50)]
    ensures SetupCalls([3, 7], 100, false) == [Limit(3, 50), Limit(7, 50)]
  {
    assert [3, 7][..1] == [3] && [3][..0] == [];
    assert TruncDiv(100, 2) == 50;
  }
}
