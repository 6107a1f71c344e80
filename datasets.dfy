/** The data collaborators (the datasets behind the train, ideal and test iterators),
    seen only through the requests the trainers send them. */
module Datasets {
  import opened Basics

  /** One request to a dataset: `add_class(id)`, `limit_class(id, k)` or
      `limit_class_and_sort(id, k, frozen_model)` (the frozen model argument is not recorded). */
  datatype DatasetCall =
    | Add(id: int)
    | Limit(id: int, k: int)
    | LimitAndSort(id: int, k: int)

  /** A dataset that records, in order, every request it receives. */
  class ClassDataset {
    ghost var log: seq<DatasetCall>

    constructor ()
      ensures log == []
    {
      log := [];
    }

    method AddClass(id: int)
      modifies this
      ensures log == old(log) + [Add(id)]
    {
      log := log + [Add(id)];
    }

    method LimitClass(id: int, k: int)
      modifies this
      ensures log == old(log) + [Limit(id, k)]
    {
      log := log + [Limit(id, k)];
    }

    method LimitClassAndSort(id: int, k: int)
      modifies this
      ensures log == old(log) + [LimitAndSort(id, k)]
    {
      log := log + [LimitAndSort(id, k)];
    }
  }

  /** The `add_class` requests for `ids`, one per id, in the order of `ids`. */
  function AddCalls(ids: seq<int>): seq<DatasetCall>
  {
    if ids == [] then [] else AddCalls(ids[..|ids| - 1]) + [Add(ids[|ids| - 1])]
  }

  /** The i-th request adds the i-th id. */
  lemma {:induction false} AddCallsAt(ids: seq<int>)
    ensures |AddCalls(ids)| == |ids|
    ensures forall i :: 0 <= i < |ids| ==> AddCalls(ids)[i] == Add(ids[i])
  {
    if ids != [] {
      AddCallsAt(ids[..|ids| - 1]);
    }
  }

  lemma AddCallsAppend(ids: seq<int>, x: int)
    ensures AddCalls(ids + [x]) == AddCalls(ids) + [Add(x)]
  {
    assert (ids + [x])[..|ids|] == ids;
  }

  /** Each id is requested as often as it occurs in `ids`, and nothing but `add_class` is requested. */
  lemma {:induction false} AddCallsMultiplicity(ids: seq<int>, x: int)
    ensures multiset(AddCalls(ids))[Add(x)] == multiset(ids)[x]
    ensures forall c :: c in AddCalls(ids) ==> c.Add?
  {
    if ids != [] {
      var init, last := ids[..|ids| - 1], ids[|ids| - 1];
      assert ids == init + [last];
      AddCallsMultiplicity(init, x);
    }
  }

  /** For duplicate-free `ids`: every id in `ids` is requested exactly once, every other id never. */
  lemma AddCallsExactlyOnce(ids: seq<int>, x: int)
    requires Distinct(ids)
    ensures x in ids ==> multiset(AddCalls(ids))[Add(x)] == 1
    ensures x !in ids ==> Add(x) !in AddCalls(ids)
  {
    AddCallsMultiplicity(ids, x);
    DistinctIffSingleCopies(ids);
  }

  /** The request `limit_class` issues to the training dataset: herding selects `limit_class_and_sort`. */
  function LimitCall(n: int, k: int, herding: bool): DatasetCall
  {
    if herding then LimitAndSort(n, k) else Limit(n, k)
  }
}
