/** Small shared vocabulary: an optional value and duplicate-free sequences of class ids. */
module Basics {

  datatype Option<+T> = None | Some(value: T)

  /** No class id occurs twice in `s`. */
  ghost predicate Distinct(s: seq<int>)
  {
    forall i, j :: 0 <= i < j < |s| ==> s[i] != s[j]
  }

  /** A sequence is duplicate-free exactly when its multiset holds every value at most once. */
  lemma {:induction false} DistinctIffSingleCopies(s: seq<int>)
    ensures Distinct(s) <==> forall v :: multiset(s)[v] <= 1
  {
    if s != [] {
      var h, t := s[0], s[1..];
      assert s == [h] + t;
      DistinctIffSingleCopies(t);
      assert multiset(s) == multiset{h} + multiset(t);
      if Distinct(s) {
        assert Distinct(t) by {
          forall i, j | 0 <= i < j < |t| ensures t[i] != t[j] {
            assert t[i] == s[i + 1] && t[j] == s[j + 1];
          }
        }
        assert h !in t by {
          forall j | 0 <= j < |t| ensures t[j] != h {
            assert t[j] == s[j + 1];
          }
        }
        forall v ensures multiset(s)[v] <= 1 {
          if v == h {
            assert multiset(t)[h] == 0;
          }
        }
      }
      if forall v :: multiset(s)[v] <= 1 {
        assert multiset(s)[h] == 1 + multiset(t)[h] <= 1;
        assert h !in t;
        assert Distinct(t) by {
          forall v ensures multiset(t)[v] <= 1 {
            assert multiset(t)[v] <= multiset(s)[v];
          }
        }
        forall i, j | 0 <= i < j < |s| ensures s[i] != s[j] {
          assert s[j] == t[j - 1];
          if i > 0 {
            assert s[i] == t[i - 1];
          } else {
            assert t[j - 1] in t;
          }
        }
      }
    }
  }

  /** Appending an id that is absent keeps a sequence duplicate-free. */
  lemma DistinctAppend(s: seq<int>, x: int)
    requires Distinct(s) && x !in s
    ensures Distinct(s + [x])
  {
    forall i, j | 0 <= i < j < |s + [x]| ensures (s + [x])[i] != (s + [x])[j] {
      if j == |s| {
        assert (s + [x])[i] == s[i];
      }
    }
  }

  /** Moving the last id of `a` to the end of `l` keeps the pair duplicate-free, and so does
      dropping it. */
  lemma DistinctMoveLast(a: seq<int>, l: seq<int>)
    requires a != [] && Distinct(a + l)
    ensures Distinct(a[..|a| - 1] + l)
    ensures Distinct(a[..|a| - 1] + (l + [a[|a| - 1]]))
  {
    var init, x := a[..|a| - 1], a[|a| - 1];
    assert a == init + [x];
    assert multiset(init + (l + [x])) == multiset(a + l);
    assert multiset(init + l) <= multiset(a + l);
    DistinctIffSingleCopies(a + l);
    DistinctIffSingleCopies(init + l);
    DistinctIffSingleCopies(init + (l + [x]));
  }
}
