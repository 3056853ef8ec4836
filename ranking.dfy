/** Ranking of DNS servers: the extremum finder `find_idx`, the comparators it
    is run with, and the "all absent" checks (src/dns_tester.py:76-167). */
module Ranking {
  import opened Wrappers

  /** One evaluated server: average round-trip time, its standard deviation
      (both absent when ping is not supported) and whether every site
      resolved. `L` is the type of a latency: the raw text of the ping
      statistics as `evaluate_dns` returns it, or a number as the comparators
      rank it. */
  datatype ServerResult<L> = ServerResult(avg: Option<L>, stddev: Option<L>, found: bool)

  function Sign(x: int): int {
    if x > 0 then 1 else if x < 0 then -1 else 0
  }

  // ---------------------------------------------------------------------------
  // What a comparator means
  // ---------------------------------------------------------------------------

  /** `cmp(a, b) > 0` reads "a beats b", `== 0` "a ties with b". The comparator
      describes a total preorder when swapping the arguments flips the sign and
      "at least as good" is transitive. */
  ghost predicate TotalPreorder<T(!new)>(cmp: (T, T) -> int) {
    && (forall a, b :: Sign(cmp(a, b)) == -Sign(cmp(b, a)))
    && (forall a, b, c {:trigger cmp(a, b), cmp(b, c), cmp(a, c)} :: cmp(a, b) >= 0 && cmp(b, c) >= 0 ==> cmp(a, c) >= 0)
  }

  /** Two comparators that agree in sign on every pair. */
  ghost predicate SameSigns<T(!new)>(c1: (T, T) -> int, c2: (T, T) -> int) {
    forall a, b :: Sign(c1(a, b)) == Sign(c2(a, b))
  }

  /** No element among the first `n` beats element `j`. */
  predicate IsMaximal<T>(lst: seq<T>, cmp: (T, T) -> int, n: nat, j: nat)
    requires n <= |lst| && j < |lst|
  {
    forall i :: 0 <= i < n ==> cmp(lst[i], lst[j]) <= 0
  }

  predicate StrictlyIncreasing(s: seq<nat>) {
    forall p, q :: 0 <= p < q < |s| ==> s[p] < s[q]
  }

  // ---------------------------------------------------------------------------
  // find_idx
  // ---------------------------------------------------------------------------

  /** The tie list `find_idx` holds after scanning the first `n` elements: the
      scan starts from index 0; an element that beats the current best (the
      element at the head of the list) restarts the list, one that ties with
      it is appended, any other is skipped. */
  function ScanPrefix<T>(lst: seq<T>, cmp: (T, T) -> int, n: nat): (idx: seq<nat>)
    requires 0 < n <= |lst|
    ensures idx != [] && StrictlyIncreasing(idx)
    ensures forall k :: 0 <= k < |idx| ==> idx[k] < n
    decreases n
  {
    if n == 1 then [0]
    else
      var prev := ScanPrefix(lst, cmp, n - 1);
      var res := cmp(lst[n - 1], lst[prev[0]]);
      if res > 0 then [n - 1]
      else if res == 0 then prev + [n - 1]
      else prev
  }

  /** `find_idx(lst, cmp)`: `None` for an empty list, otherwise the indices
      of the best elements in ascending order; for a comparator that is a
      total preorder these are exactly the indices no element beats. */
  method FindIdx<T(!new)>(lst: seq<T>, cmp: (T, T) -> int) returns (r: Option<seq<nat>>)
    ensures r == None <==> lst == []
    ensures r.Some? ==> r.value != [] && StrictlyIncreasing(r.value)
    ensures r.Some? ==> forall k :: 0 <= k < |r.value| ==> r.value[k] < |lst|
    ensures lst != [] ==> r == Some(ScanPrefix(lst, cmp, |lst|))
    ensures lst != [] && TotalPreorder(cmp) ==> r == Some(MaximalIndices(lst, cmp))
  {
    if |lst| == 0 {
      return None;
    }
    var idxList: seq<nat> := [0];
    var item := lst[0];
    for i := 0 to |lst| - 1
      invariant idxList == ScanPrefix(lst, cmp, i + 1)
      invariant item == lst[idxList[0]]
    {
      var res := cmp(lst[i + 1], item);
      if res > 0 {
        idxList := [i + 1];
        item := lst[i + 1];
      } else if res == 0 {
        idxList := idxList + [i + 1];
      }
    }
    if TotalPreorder(cmp) {
      ScanIsMaximalIndices(lst, cmp);
    }
    return Some(idxList);
  }

  /** Reference definition: the ascending indices below `m` of the elements
      that no element of the whole list beats. */
  function MaximalBelow<T>(lst: seq<T>, cmp: (T, T) -> int, m: nat): (r: seq<nat>)
    requires m <= |lst|
    ensures StrictlyIncreasing(r)
    ensures forall k :: 0 <= k < |r| ==> r[k] < m
    ensures forall j: nat :: j in r <==> j < m && IsMaximal(lst, cmp, |lst|, j)
  {
    if m == 0 then []
    else
      MaximalBelow(lst, cmp, m - 1)
        + (if IsMaximal(lst, cmp, |lst|, m - 1) then [m - 1] else [])
  }

  function MaximalIndices<T>(lst: seq<T>, cmp: (T, T) -> int): seq<nat> {
    MaximalBelow(lst, cmp, |lst|)
  }

  /** Whatever the comparator, every index after the current best either ties
      with it (and is in the list) or loses to it (and is not). */
  lemma {:induction false} ScanLeader<T>(lst: seq<T>, cmp: (T, T) -> int, n: nat)
    requires 0 < n <= |lst|
    ensures var idx := ScanPrefix(lst, cmp, n);
      forall j :: idx[0] < j < n ==>
        cmp(lst[j], lst[idx[0]]) <= 0 && (j in idx <==> cmp(lst[j], lst[idx[0]]) == 0)
  {
    if n > 1 {
      ScanLeader(lst, cmp, n - 1);
    }
  }

  /** Only the sign of the comparator decides the result. */
  lemma {:induction false} ScanSignOnly<T(!new)>(lst: seq<T>, c1: (T, T) -> int, c2: (T, T) -> int, n: nat)
    requires 0 < n <= |lst|
    requires SameSigns(c1, c2)
    ensures ScanPrefix(lst, c1, n) == ScanPrefix(lst, c2, n)
  {
    if n > 1 {
      ScanSignOnly(lst, c1, c2, n - 1);
      var prev := ScanPrefix(lst, c1, n - 1);
      assert Sign(c1(lst[n - 1], lst[prev[0]])) == Sign(c2(lst[n - 1], lst[prev[0]]));
    }
  }

  /** Under a total preorder the current best is beaten by nothing scanned so
      far, and beats everything scanned before it. */
  lemma {:induction false} ScanLeaderDominates<T(!new)>(lst: seq<T>, cmp: (T, T) -> int, n: nat)
    requires 0 < n <= |lst|
    requires TotalPreorder(cmp)
    ensures var best := ScanPrefix(lst, cmp, n)[0];
      && (forall i :: 0 <= i < n ==> cmp(lst[i], lst[best]) <= 0)
      && (forall i :: 0 <= i < best ==> cmp(lst[i], lst[best]) < 0)
  {
    var best := ScanPrefix(lst, cmp, n)[0];
    TiesWithItself(cmp, lst[best]);
    if n > 1 {
      ScanLeaderDominates(lst, cmp, n - 1);
      var prevBest := ScanPrefix(lst, cmp, n - 1)[0];
      var x := lst[n - 1];
      if cmp(x, lst[prevBest]) > 0 {
        forall i | 0 <= i < n - 1
          ensures cmp(lst[i], x) < 0
        {
          LosesToWinner(cmp, lst[i], lst[prevBest], x);
        }
      }
    }
  }

  lemma TiesWithItself<T(!new)>(cmp: (T, T) -> int, a: T)
    requires TotalPreorder(cmp)
    ensures cmp(a, a) == 0
  {
    assert Sign(cmp(a, a)) == -Sign(cmp(a, a));
  }

  /** Whatever is no better than `p` loses to what beats `p`. */
  lemma LosesToWinner<T(!new)>(cmp: (T, T) -> int, y: T, p: T, x: T)
    requires TotalPreorder(cmp)
    requires cmp(y, p) <= 0 && cmp(x, p) > 0
    ensures cmp(y, x) < 0
  {
    assert Sign(cmp(y, p)) == -Sign(cmp(p, y));
    assert Sign(cmp(x, p)) == -Sign(cmp(p, x));
    assert cmp(p, y) >= 0 && cmp(y, x) >= 0 ==> cmp(p, x) >= 0;
  }

  /** Under a total preorder the scan keeps exactly the indices that nothing
      beats. */
  lemma ScanIsMaximal<T(!new)>(lst: seq<T>, cmp: (T, T) -> int)
    requires lst != []
    requires TotalPreorder(cmp)
    ensures var idx := ScanPrefix(lst, cmp, |lst|);
      forall j :: 0 <= j < |lst| ==> (j in idx <==> IsMaximal(lst, cmp, |lst|, j))
  {
    var n := |lst|;
    var idx := ScanPrefix(lst, cmp, n);
    var best := idx[0];
    ScanLeader(lst, cmp, n);
    ScanLeaderDominates(lst, cmp, n);
    forall j | 0 <= j < n
      ensures j in idx <==> IsMaximal(lst, cmp, n, j)
    {
      assert Sign(cmp(lst[j], lst[best])) == -Sign(cmp(lst[best], lst[j]));
      assert Sign(cmp(lst[best], lst[best])) == -Sign(cmp(lst[best], lst[best]));
      if cmp(lst[j], lst[best]) == 0 {
        forall i | 0 <= i < n
          ensures cmp(lst[i], lst[j]) <= 0
        {
          assert Sign(cmp(lst[i], lst[j])) == -Sign(cmp(lst[j], lst[i]));
          assert Sign(cmp(lst[i], lst[best])) == -Sign(cmp(lst[best], lst[i]));
          assert cmp(lst[j], lst[best]) >= 0 && cmp(lst[best], lst[i]) >= 0 ==> cmp(lst[j], lst[i]) >= 0;
        }
        assert j >= best;
        assert j > best ==> j in idx;
      } else {
        assert cmp(lst[best], lst[j]) > 0;
        assert !IsMaximal(lst, cmp, n, j);
        forall k | 0 <= k < |idx|
          ensures idx[k] != j
        {
          if k > 0 {
            assert idx[k] > best && idx[k] in idx;
          }
        }
      }
    }
  }

  /** Two strictly increasing sequences with the same elements are equal. */
  lemma {:induction false} IncreasingUnique(s: seq<nat>, t: seq<nat>)
    requires StrictlyIncreasing(s) && StrictlyIncreasing(t)
    requires forall x :: x in s <==> x in t
    ensures s == t
    decreases |s|
  {
    if s != [] {
      assert s[0] in t;
      assert t != [];
      assert t[0] in s;
      assert s[0] == t[0];
      forall x
        ensures x in s[1..] <==> x in t[1..]
      {
        assert x in s[1..] <==> x in s && x != s[0];
        assert x in t[1..] <==> x in t && x != t[0];
      }
      IncreasingUnique(s[1..], t[1..]);
      assert s == [s[0]] + s[1..] && t == [t[0]] + t[1..];
    } else {
      HeadIn(t);
    }
  }

  lemma HeadIn(t: seq<nat>)
    ensures t != [] ==> t[0] in t
  {
  }

  /** Under a total preorder, `find_idx` computes the reference definition. */
  lemma ScanIsMaximalIndices<T(!new)>(lst: seq<T>, cmp: (T, T) -> int)
    requires lst != []
    requires TotalPreorder(cmp)
    ensures ScanPrefix(lst, cmp, |lst|) == MaximalIndices(lst, cmp)
  {
    var idx := ScanPrefix(lst, cmp, |lst|);
    ScanIsMaximal(lst, cmp);
    IncreasingUnique(idx, MaximalIndices(lst, cmp));
  }

  /** Every index `find_idx` returns ties with every other one it returns. */
  lemma ScanTiesPairwise<T(!new)>(lst: seq<T>, cmp: (T, T) -> int)
    requires lst != []
    requires TotalPreorder(cmp)
    ensures var idx := ScanPrefix(lst, cmp, |lst|);
      forall p, q :: 0 <= p < |idx| && 0 <= q < |idx| ==> cmp(lst[idx[p]], lst[idx[q]]) == 0
  {
    var idx := ScanPrefix(lst, cmp, |lst|);
    ScanIsMaximal(lst, cmp);
    forall p, q | 0 <= p < |idx| && 0 <= q < |idx|
      ensures cmp(lst[idx[p]], lst[idx[q]]) == 0
    {
      assert idx[p] in idx && idx[q] in idx;
      assert IsMaximal(lst, cmp, |lst|, idx[q]) && IsMaximal(lst, cmp, |lst|, idx[p]);
      assert cmp(lst[idx[p]], lst[idx[q]]) <= 0;
      assert cmp(lst[idx[q]], lst[idx[p]]) <= 0;
      assert Sign(cmp(lst[idx[p]], lst[idx[q]])) == -Sign(cmp(lst[idx[q]], lst[idx[p]]));
    }
  }

  // ---------------------------------------------------------------------------
  // The comparators
  // ---------------------------------------------------------------------------

  /** `mfind_none`: an absent value beats a present one; two absent values
      tie, and so do two present ones, whatever they hold. */
  function NoneCmp<T>(a: Option<T>, b: Option<T>): (r: int)
    ensures r > 0 <==> a.None? && b.Some?
    ensures r < 0 <==> a.Some? && b.None?
  {
    if a.None? && b.None? then 0
    else if a.None? && b.Some? then 1
    else if a.Some? && b.None? then -1
    else 0
  }

  /** `mfind_min`: a present value beats an absent one, a smaller value beats
      a larger one; two absent values tie, and so do two equal ones. */
  function MinCmp(a: Option<int>, b: Option<int>): (r: int)
    ensures r > 0 <==> a.Some? && (b.None? || a.value < b.value)
    ensures r == 0 <==> a == b
  {
    if a.None? && b.None? then 0
    else if a.None? && b.Some? then -1
    else if a.Some? && b.None? then 1
    else b.value - a.value
  }

  /** `mfind_fastest_avg`: `mfind_min` on the average latency. */
  function FastestAvgCmp(a: ServerResult<int>, b: ServerResult<int>): (r: int)
    ensures r > 0 <==> a.avg.Some? && (b.avg.None? || a.avg.value < b.avg.value)
    ensures r == 0 <==> a.avg == b.avg
  {
    MinCmp(a.avg, b.avg)
  }

  /** `mfind_most_stable`: `mfind_min` on the standard deviation. */
  function MostStableCmp(a: ServerResult<int>, b: ServerResult<int>): (r: int)
    ensures r > 0 <==> a.stddev.Some? && (b.stddev.None? || a.stddev.value < b.stddev.value)
    ensures r == 0 <==> a.stddev == b.stddev
  {
    MinCmp(a.stddev, b.stddev)
  }

  /** `mfind_all_found`: a server that found every site beats one that did
      not; equal flags tie. */
  function AllFoundCmp<L>(a: ServerResult<L>, b: ServerResult<L>): (r: int)
    ensures r > 0 <==> a.found && !b.found
    ensures r == 0 <==> a.found == b.found
  {
    if a.found && b.found then 0
    else if a.found && !b.found then 1
    else if !a.found && b.found then -1
    else 0
  }

  lemma NoneCmpIsTotalPreorder<T(!new)>()
    ensures TotalPreorder((a: Option<T>, b: Option<T>) => NoneCmp(a, b))
  {
  }

  lemma MinCmpIsTotalPreorder()
    ensures TotalPreorder(MinCmp)
  {
  }

  lemma FastestAvgCmpIsTotalPreorder()
    ensures TotalPreorder(FastestAvgCmp)
  {
  }

  lemma MostStableCmpIsTotalPreorder()
    ensures TotalPreorder(MostStableCmp)
  {
  }

  lemma AllFoundCmpIsTotalPreorder<L(!new)>()
    ensures TotalPreorder((a: ServerResult<L>, b: ServerResult<L>) => AllFoundCmp(a, b))
  {
  }

  // ---------------------------------------------------------------------------
  // mavg_all_none, mstddev_all_none
  // ---------------------------------------------------------------------------

  /** `mavg_all_none`: no server has an average latency. */
  function AvgAllNone<L>(lst: seq<ServerResult<L>>): (r: bool)
    ensures r <==> forall k :: 0 <= k < |lst| ==> lst[k].avg.None?
  {
    if lst == [] then true else lst[0].avg.None? && AvgAllNone(lst[1..])
  }

  /** `mstddev_all_none`: no server has a standard deviation. */
  function StddevAllNone<L>(lst: seq<ServerResult<L>>): (r: bool)
    ensures r <==> forall k :: 0 <= k < |lst| ==> lst[k].stddev.None?
  {
    if lst == [] then true else lst[0].stddev.None? && StddevAllNone(lst[1..])
  }
}
