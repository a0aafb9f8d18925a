/**
  The weight bookkeeping of `$.fn.tagcloud` (assets/js/core.js): every tag's `rel` weight
  is collected, sorted with `compareWeights`, and the first and last entries give the
  lowest and highest weight and the range between them.
 */
module Weights {

  /** `compareWeights(a, b)`: negative, zero or positive as `a` sorts before, with, or after `b`. */
  function CompareWeights(a: int, b: int): (r: int)
    ensures r < 0 <==> a < b
    ensures r == 0 <==> a == b
  {
    a - b
  }

  /** Ascending in the order `compareWeights` defines. */
  predicate SortedByWeight(s: seq<int>) {
    forall i, j :: 0 <= i < j < |s| ==> CompareWeights(s[i], s[j]) <= 0
  }

  /** One step of the sort: `x` placed before the first element it does not follow. */
  function Insert(x: int, s: seq<int>): (r: seq<int>)
    requires SortedByWeight(s)
    ensures SortedByWeight(r)
    ensures multiset(r) == multiset(s) + multiset{x}
  {
    if s == [] || CompareWeights(x, s[0]) <= 0 then
      PrependBeforeHead(x, s);
      [x] + s
    else
      var t := Insert(x, s[1..]);
      assert s == [s[0]] + s[1..];
      InsertedAfterHead(x, s, t);
      PrependSorted(s[0], t);
      [s[0]] + t
  }

  /** An element that sorts before everything in an ascending sequence can go in front. */
  lemma PrependSorted(h: int, t: seq<int>)
    requires SortedByWeight(t)
    requires forall k :: 0 <= k < |t| ==> CompareWeights(h, t[k]) <= 0
    ensures SortedByWeight([h] + t)
  {
    var r := [h] + t;
    forall i, j | 0 <= i < j < |r|
      ensures CompareWeights(r[i], r[j]) <= 0
    {
      if i > 0 {
        assert r[i] == t[i - 1] && r[j] == t[j - 1];
      } else {
        assert r[j] == t[j - 1];
      }
    }
  }

  /** An element that sorts before the head of an ascending sequence can go in front. */
  lemma PrependBeforeHead(x: int, s: seq<int>)
    requires SortedByWeight(s)
    requires s == [] || CompareWeights(x, s[0]) <= 0
    ensures SortedByWeight([x] + s)
  {
    forall k | 0 <= k < |s|
      ensures CompareWeights(x, s[k]) <= 0
    {
      if k > 0 {
        assert CompareWeights(s[0], s[k]) <= 0;
      }
    }
    PrependSorted(x, s);
  }

  /** Everything inserted behind the head of a sorted sequence sorts after that head. */
  lemma InsertedAfterHead(x: int, s: seq<int>, t: seq<int>)
    requires SortedByWeight(s) && |s| > 0 && CompareWeights(x, s[0]) > 0
    requires multiset(t) == multiset(s[1..]) + multiset{x}
    ensures forall k :: 0 <= k < |t| ==> CompareWeights(s[0], t[k]) <= 0
  {
    forall k | 0 <= k < |t|
      ensures CompareWeights(s[0], t[k]) <= 0
    {
      assert t[k] in multiset(t);
      if t[k] != x {
        assert t[k] in s[1..];
        var j :| 0 <= j < |s[1..]| && s[1..][j] == t[k];
        assert s[j + 1] == t[k];
      }
    }
  }

  /** `Array.prototype.sort(compareWeights)` on the weights. */
  function SortWeights(ws: seq<int>): (r: seq<int>)
    ensures SortedByWeight(r)
    ensures multiset(r) == multiset(ws)
  {
    if ws == [] then []
    else
      assert ws == [ws[0]] + ws[1..];
      Insert(ws[0], SortWeights(ws[1..]))
  }

  /** The head of an ascending sequence is at most each of its elements. */
  lemma HeadIsLeast(s: seq<int>, x: int)
    requires SortedByWeight(s) && x in multiset(s)
    ensures |s| > 0 && CompareWeights(s[0], x) <= 0
  {
    var j :| 0 <= j < |s| && s[j] == x;
    if j > 0 {
      assert CompareWeights(s[0], s[j]) <= 0;
    }
  }

  /** The rest of a sequence holds its elements but the head. */
  lemma TailMultiset(s: seq<int>)
    requires |s| > 0
    ensures multiset(s[1..]) == multiset(s) - multiset{s[0]}
  {
    assert s == [s[0]] + s[1..];
    assert multiset(s) == multiset{s[0]} + multiset(s[1..]);
  }

  /** JavaScript leaves the sorting algorithm open; it does not matter, because two
      ascending orderings of the same weights are the same sequence. */
  lemma {:induction false} SortedPermutationUnique(a: seq<int>, b: seq<int>)
    requires SortedByWeight(a) && SortedByWeight(b)
    requires multiset(a) == multiset(b)
    ensures a == b
    decreases |a|
  {
    if |a| == 0 {
      assert |b| == |multiset(b)| == 0;
    } else {
      SameHead(a, b);
      TailMultiset(a);
      TailMultiset(b);
      SortedTail(a);
      SortedTail(b);
      SortedPermutationUnique(a[1..], b[1..]);
      assert a == [a[0]] + a[1..] && b == [b[0]] + b[1..];
    }
  }

  /** Two non-empty ascending orderings of the same weights start with the same weight. */
  lemma SameHead(a: seq<int>, b: seq<int>)
    requires SortedByWeight(a) && SortedByWeight(b)
    requires multiset(a) == multiset(b) && |a| > 0
    ensures |b| > 0 && a[0] == b[0]
  {
    assert a[0] in multiset(a);
    HeadIsLeast(b, a[0]);
    assert b[0] in multiset(b);
    HeadIsLeast(a, b[0]);
  }

  /** Dropping the head keeps a sequence ascending. */
  lemma SortedTail(s: seq<int>)
    requires SortedByWeight(s) && |s| > 0
    ensures SortedByWeight(s[1..])
  {
    forall i, j | 0 <= i < j < |s| - 1
      ensures CompareWeights(s[1..][i], s[1..][j]) <= 0
    {
      assert s[1..][i] == s[i + 1] && s[1..][j] == s[j + 1];
    }
  }

  /** The last element of an ascending sequence is at least each of its elements. */
  lemma LastIsGreatest(s: seq<int>, x: int)
    requires SortedByWeight(s) && x in multiset(s)
    ensures |s| > 0 && CompareWeights(x, s[|s| - 1]) <= 0
  {
    var j :| 0 <= j < |s| && s[j] == x;
    if j < |s| - 1 {
      assert CompareWeights(s[j], s[|s| - 1]) <= 0;
    }
  }

  /** The ends of an ascending ordering of the weights are weights, and every weight lies
      between them. */
  lemma SortedEnds(sorted: seq<int>, ws: seq<int>)
    requires |ws| > 0 && SortedByWeight(sorted) && multiset(sorted) == multiset(ws)
    ensures |sorted| == |ws| && sorted[0] in ws && sorted[|sorted| - 1] in ws
    ensures forall k :: 0 <= k < |ws| ==> sorted[0] <= ws[k] <= sorted[|sorted| - 1]
  {
    assert |sorted| == |multiset(sorted)| == |ws|;
    assert sorted[0] in multiset(sorted) && sorted[|sorted| - 1] in multiset(sorted);
    forall k | 0 <= k < |ws|
      ensures sorted[0] <= ws[k] <= sorted[|sorted| - 1]
    {
      assert ws[k] in multiset(ws);
      HeadIsLeast(sorted, ws[k]);
      LastIsGreatest(sorted, ws[k]);
    }
  }

  /** Line 9, `lowest = tagWeights[0]`: the smallest weight. */
  function LowestWeight(ws: seq<int>): (lo: int)
    requires |ws| > 0
    ensures lo in ws
    ensures forall k :: 0 <= k < |ws| ==> lo <= ws[k]
  {
    var sorted := SortWeights(ws);
    SortedEnds(sorted, ws);
    sorted[0]
  }

  /** Line 10, `highest = tagWeights.pop()`: the largest weight. */
  function HighestWeight(ws: seq<int>): (hi: int)
    requires |ws| > 0
    ensures hi in ws
    ensures forall k :: 0 <= k < |ws| ==> ws[k] <= hi
  {
    var sorted := SortWeights(ws);
    SortedEnds(sorted, ws);
    sorted[|ws| - 1]
  }

  /** Line 11, `range = highest - lowest`. */
  function WeightRange(ws: seq<int>): (r: nat)
    requires |ws| > 0
    ensures r == 0 <==> forall j, k :: 0 <= j < |ws| && 0 <= k < |ws| ==> ws[j] == ws[k]
  {
    var lo := LowestWeight(ws);
    var hi := HighestWeight(ws);
    hi - lo
  }

  /** Line 21: a tag's offset from the lowest weight lies between 0 and the range. */
  lemma WeightingWithinRange(ws: seq<int>, k: nat)
    requires k < |ws|
    ensures 0 <= ws[k] - LowestWeight(ws) <= WeightRange(ws)
  {
  }
}
