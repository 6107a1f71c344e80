/** The class schedule: the shuffled release order of class ids and the ids that
    `pop()` and indexing take from it. */
module Schedule {
  import opened Basics

  /** `all_classes` is a permutation of the class ids 0 .. n-1. */
  ghost predicate IsClassPermutation(s: seq<int>, n: nat)
  {
    |s| == n && Distinct(s) && forall x :: x in s <==> 0 <= x < n
  }

  /** `list(range(n))` after `sort(reverse=True)`: the ids 0 .. n-1, largest first. */
  function Descending(n: nat): (r: seq<int>)
    ensures |r| == n
    ensures forall x :: x in r <==> 0 <= x < n
    ensures forall i :: 0 <= i < n ==> 0 <= r[i] < n
    ensures forall i, j :: 0 <= i < j < n ==> r[i] > r[j]
  {
    if n == 0 then [] else [n - 1] + Descending(n - 1)
  }

  /** Python's `random.shuffle`: for i from |s|-1 down to 1, swap position i with a drawn
      position j in [0, i]. `draws[i]` is the draw made for position i. */
  method Shuffle(s: seq<int>, draws: seq<int>) returns (r: seq<int>)
    requires |draws| == |s|
    requires forall i :: 0 <= i < |s| ==> 0 <= draws[i] <= i
    ensures multiset(r) == multiset(s)
  {
    r := s;
    var i := |r|;
    while i > 1
      invariant 0 <= i <= |r| == |s|
      invariant multiset(r) == multiset(s)
    {
      i := i - 1;
      var j := draws[i];
      r := r[i := r[j]][j := r[i]];
    }
  }

  /** The release order built when a trainer is constructed: the descending ids, shuffled. */
  method InitialOrder(classes: nat, draws: seq<int>) returns (order: seq<int>)
    requires |draws| == classes
    requires forall i :: 0 <= i < classes ==> 0 <= draws[i] <= i
    ensures IsClassPermutation(order, classes)
  {
    var sorted := Descending(classes);
    order := Shuffle(sorted, draws);
    DistinctIffSingleCopies(sorted);
    DistinctIffSingleCopies(order);
    assert forall x :: x in order <==> x in multiset(order);
    assert forall x :: x in sorted <==> x in multiset(sorted);
  }

  /** How many `pop()` calls succeed when `requested` are attempted on a list of `available` ids. */
  function PopCount(requested: int, available: nat): nat
  {
    if requested <= 0 then 0 else if requested <= available then requested else available
  }

  /** The ids that `c` successive `pop()` calls return from `s`, in the order they are returned. */
  function Popped(s: seq<int>, c: nat): seq<int>
    requires c <= |s|
  {
    if c == 0 then [] else Popped(s, c - 1) + [s[|s| - c]]
  }

  /** One more `pop()` on what is left after c pops returns the id at position |s|-1-c. */
  lemma PopStep(s: seq<int>, c: nat)
    requires c < |s|
    ensures Popped(s, c + 1) == Popped(s, c) + [s[|s| - 1 - c]]
    ensures s[..|s| - c][|s| - c - 1] == s[|s| - 1 - c]
    ensures s[..|s| - c][..|s| - c - 1] == s[..|s| - (c + 1)]
  {
  }

  /** The i-th popped id is the i-th id from the tail. */
  lemma {:induction false} PoppedAt(s: seq<int>, c: nat)
    requires c <= |s|
    ensures |Popped(s, c)| == c
    ensures forall i :: 0 <= i < c ==> Popped(s, c)[i] == s[|s| - 1 - i]
  {
    if c > 0 {
      PoppedAt(s, c - 1);
    }
  }

  /** Popping takes exactly the ids of the last `c` positions, each once. */
  lemma PoppedIsTail(s: seq<int>, c: nat)
    requires c <= |s|
    ensures multiset(Popped(s, c)) == multiset(s[|s| - c..])
  {
    PoppedAt(s, c);
    PoppedIsReversed(s[|s| - c..], Popped(s, c));
  }

  /** A sequence read back to front has the same multiset. */
  lemma {:induction false} PoppedIsReversed(t: seq<int>, p: seq<int>)
    requires |p| == |t|
    requires forall i :: 0 <= i < |t| ==> p[i] == t[|t| - 1 - i]
    ensures multiset(p) == multiset(t)
  {
    if t != [] {
      var n := |t|;
      PoppedIsReversed(t[1..], p[..n - 1]);
      assert t == [t[0]] + t[1..];
      assert p == p[..n - 1] + [t[0]];
    }
  }

  /** From a duplicate-free list, the popped ids are duplicate-free and none of them remains
      in the list; in particular the next id to pop has not been popped before. */
  lemma PoppedFresh(s: seq<int>, c: nat)
    requires c <= |s| && Distinct(s)
    ensures Distinct(Popped(s, c))
    ensures forall x :: x in s[..|s| - c] ==> x !in Popped(s, c)
  {
    PoppedAt(s, c);
    var p := Popped(s, c);
    forall i, j | 0 <= i < j < |p| ensures p[i] != p[j] {
      assert p[i] == s[|s| - 1 - i] && p[j] == s[|s| - 1 - j];
    }
    forall x | x in s[..|s| - c] ensures x !in p {
      var m :| 0 <= m < |s| - c && s[m] == x;
      forall i | 0 <= i < |p| ensures p[i] != x {
        assert p[i] == s[|s| - 1 - i];
      }
    }
  }

  /** Python's `s[t]` for a list: a negative index counts from the end; anything else out of
      range raises `IndexError` (None). */
  function PyIndex(s: seq<int>, t: int): (r: Option<int>)
    ensures r.Some? <==> -|s| <= t < |s|
    ensures r.Some? ==> r.value in s
    ensures 0 <= t < |s| ==> r == Some(s[t])
    ensures -|s| <= t < 0 ==> r == Some(s[|s| + t])
  {
    if 0 <= t < |s| then Some(s[t]) else if -|s| <= t < 0 then Some(s[|s| + t]) else None
  }

  /** A negative index reads the same id as the non-negative index |s| positions higher;
      so every successful read is a read of some position in [0, |s|). */
  lemma PyIndexNegative(s: seq<int>, t: int)
    requires -|s| <= t < 0
    ensures PyIndex(s, t) == PyIndex(s, t + |s|) == Some(s[|s| + t])
  {
  }

  /** `s[t]` for t = lo, lo+1, ..., hi-1 in turn: the ids read before the first `IndexError`,
      and whether every read succeeded. A failed read ends the range. */
  function LookupRange(s: seq<int>, lo: int, hi: int): (seq<int>, bool)
    decreases hi - lo
  {
    if hi <= lo then ([], true)
    else
      var prev := LookupRange(s, lo, hi - 1);
      if !prev.1 then prev
      else match PyIndex(s, hi - 1)
        case None => (prev.0, false)
        case Some(x) => (prev.0 + [x], true)
  }

  /** Once a read has failed, later indices are never read. */
  lemma {:induction false} LookupRangeStopsAtFailure(s: seq<int>, lo: int, mid: int, hi: int)
    requires mid <= hi && !LookupRange(s, lo, mid).1
    ensures LookupRange(s, lo, hi) == LookupRange(s, lo, mid)
    decreases hi - mid
  {
    if mid < hi {
      LookupRangeStopsAtFailure(s, lo, mid, hi - 1);
    }
  }

  /** Within bounds the reads return the slice s[lo..hi] and all succeed. */
  lemma {:induction false} LookupRangeInBounds(s: seq<int>, lo: int, hi: int)
    requires 0 <= lo <= hi <= |s|
    ensures LookupRange(s, lo, hi) == (s[lo..hi], true)
    decreases hi - lo
  {
    if lo < hi {
      LookupRangeInBounds(s, lo, hi - 1);
      assert s[lo..hi] == s[lo..hi - 1] + [s[hi - 1]];
    } else {
      assert s[lo..hi] == [];
    }
  }

  /** A non-empty range of reads succeeds exactly when both of its ends are valid Python indices. */
  lemma {:induction false} LookupRangeSucceeds(s: seq<int>, lo: int, hi: int)
    requires lo < hi
    ensures LookupRange(s, lo, hi).1 <==> -|s| <= lo && hi <= |s|
    decreases hi - lo
  {
    if lo < hi - 1 {
      LookupRangeSucceeds(s, lo, hi - 1);
    }
  }
}
