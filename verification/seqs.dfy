/** The array operations the screens are built from (`filter`, `find`,
    `some`, `map`, and the replace-by-key `map` idiom), as functions on
    sequences with their order and multiplicity behaviour stated. */
module Seqs {
  import opened Wrappers

  /** `sub` is obtained from `xs` by deleting elements, the rest keeping their order. */
  ghost predicate IsSubsequence<T>(sub: seq<T>, xs: seq<T>)
    decreases |xs|
  {
    if |sub| == 0 then true
    else if |xs| == 0 then false
    else (sub[0] == xs[0] && IsSubsequence(sub[1..], xs[1..])) || IsSubsequence(sub, xs[1..])
  }

  /** `xs.filter(p)`: the elements `p` accepts, in order, each as often as in `xs`. */
  function Filter<T(!new)>(xs: seq<T>, p: T -> bool): (r: seq<T>)
    ensures |r| <= |xs|
    ensures forall x :: x in r <==> x in xs && p(x)
    ensures forall x :: multiset(r)[x] == if p(x) then multiset(xs)[x] else 0
    ensures IsSubsequence(r, xs)
  {
    if |xs| == 0 then []
    else
      assert xs == [xs[0]] + xs[1..];
      var rest := Filter(xs[1..], p);
      if p(xs[0]) then [xs[0]] + rest else rest
  }

  /** One step of `Filter`: the head is kept exactly when `p` accepts it. */
  lemma FilterCons<T(!new)>(xs: seq<T>, p: T -> bool)
    requires |xs| > 0
    ensures Filter(xs, p) == (if p(xs[0]) then [xs[0]] else []) + Filter(xs[1..], p)
  {
  }

  /** Filtering a concatenation filters each part. */
  lemma {:induction false} FilterAppend<T(!new)>(a: seq<T>, b: seq<T>, p: T -> bool)
    ensures Filter(a + b, p) == Filter(a, p) + Filter(b, p)
    decreases |a|
  {
    if |a| == 0 {
      assert a + b == b;
    } else {
      assert (a + b)[1..] == a[1..] + b;
      FilterAppend(a[1..], b, p);
    }
  }

  /** Filtering out the head when every other element passes leaves the tail. */
  lemma FilterDropsHead<T(!new)>(xs: seq<T>, p: T -> bool)
    requires |xs| > 0 && !p(xs[0])
    requires forall i :: 0 < i < |xs| ==> p(xs[i])
    ensures Filter(xs, p) == xs[1..]
  {
    FilterKeepsAll(xs[1..], p);
  }

  /** Filtering with a selector every element passes keeps the list. */
  lemma {:induction false} FilterKeepsAll<T(!new)>(xs: seq<T>, p: T -> bool)
    requires forall i :: 0 <= i < |xs| ==> p(xs[i])
    ensures Filter(xs, p) == xs
    decreases |xs|
  {
    if |xs| > 0 {
      FilterKeepsAll(xs[1..], p);
    }
  }

  /** What `p` keeps of a single element. */
  function Kept<T>(x: T, p: T -> bool): seq<T>
  {
    if p(x) then [x] else []
  }

  /** Filtering four elements keeps each one `p` accepts. */
  lemma {:induction false} FilterFour<T(!new)>(xs: seq<T>, p: T -> bool)
    requires |xs| == 4
    ensures Filter(xs, p) == Kept(xs[0], p) + (Kept(xs[1], p) + (Kept(xs[2], p) + Kept(xs[3], p)))
  {
    var s3 := xs[3..];
    var s2 := xs[2..];
    var s1 := xs[1..];
    assert s3[1..] == [];
    FilterCons(s3, p);
    assert Filter(s3, p) == Kept(xs[3], p);
    assert s2[1..] == s3;
    FilterCons(s2, p);
    assert Filter(s2, p) == Kept(xs[2], p) + Kept(xs[3], p);
    assert s1[1..] == s2;
    FilterCons(s1, p);
    assert Filter(s1, p) == Kept(xs[1], p) + (Kept(xs[2], p) + Kept(xs[3], p));
    FilterCons(xs, p);
  }

  /** The number of elements `p` accepts (`xs.filter(p).length`). */
  function Count<T(!new)>(xs: seq<T>, p: T -> bool): nat
  {
    |Filter(xs, p)|
  }

  /** The positions of `xs` whose element `p` accepts, among the first `n`. */
  ghost function Positions<T>(xs: seq<T>, p: T -> bool, n: nat): set<nat>
    requires n <= |xs|
  {
    set i: nat | i < n && p(xs[i])
  }

  /** One more position adds one exactly when `p` accepts the element there. */
  lemma PositionsStep<T>(xs: seq<T>, p: T -> bool, n: nat)
    requires n < |xs|
    ensures |Positions(xs, p, n + 1)| == |Positions(xs, p, n)| + if p(xs[n]) then 1 else 0
  {
    var before, after := Positions(xs, p, n), Positions(xs, p, n + 1);
    forall i | i in after ensures i in before || i == n { }
    forall i | i in before ensures i in after { }
    if p(xs[n]) {
      assert n in after && n !in before;
      assert after == before + {n};
    } else {
      assert after == before;
    }
  }

  /** Counting a prefix by filtering agrees with counting its positions. */
  lemma {:induction false} CountPrefixIsPositionCount<T(!new)>(xs: seq<T>, p: T -> bool, n: nat)
    requires n <= |xs|
    ensures Count(xs[..n], p) == |Positions(xs, p, n)|
  {
    if n == 0 {
      assert Positions(xs, p, 0) == {};
    } else {
      CountPrefixIsPositionCount(xs, p, n - 1);
      assert xs[..n] == xs[..n - 1] + [xs[n - 1]];
      FilterAppend(xs[..n - 1], [xs[n - 1]], p);
      PositionsStep(xs, p, n - 1);
    }
  }

  /** Counting by filtering agrees with counting positions. */
  lemma CountIsPositionCount<T(!new)>(xs: seq<T>, p: T -> bool)
    ensures Count(xs, p) == |Positions(xs, p, |xs|)|
  {
    CountPrefixIsPositionCount(xs, p, |xs|);
    assert xs[..|xs|] == xs;
  }

  /** Every element of a subsequence occurs in the sequence. */
  lemma {:induction false} SubsequenceMembers<T>(sub: seq<T>, xs: seq<T>)
    requires IsSubsequence(sub, xs)
    ensures forall x :: x in sub ==> x in xs
    decreases |xs|
  {
    if |sub| > 0 {
      if sub[0] == xs[0] && IsSubsequence(sub[1..], xs[1..]) {
        SubsequenceMembers(sub[1..], xs[1..]);
        assert sub == [sub[0]] + sub[1..];
      } else {
        SubsequenceMembers(sub, xs[1..]);
      }
    }
  }

  /** No two elements share a key. */
  ghost predicate DistinctBy<T, K>(xs: seq<T>, key: T -> K)
  {
    forall i, j :: 0 <= i < j < |xs| ==> key(xs[i]) != key(xs[j])
  }

  /** The keys the elements carry. */
  ghost function Keys<T, K>(xs: seq<T>, key: T -> K): set<K>
  {
    set i | 0 <= i < |xs| :: key(xs[i])
  }

  /** The keys of a non-empty sequence: the head's key and the tail's keys. */
  lemma KeysCons<T, K>(xs: seq<T>, key: T -> K)
    requires |xs| > 0
    ensures Keys(xs, key) == {key(xs[0])} + Keys(xs[1..], key)
  {
    var tail := xs[1..];
    forall k | k in Keys(xs, key) ensures k in {key(xs[0])} + Keys(tail, key) {
      var i :| 0 <= i < |xs| && key(xs[i]) == k;
      if i > 0 { assert key(tail[i - 1]) == k; }
    }
    forall k | k in Keys(tail, key) ensures k in Keys(xs, key) {
      var i :| 0 <= i < |tail| && key(tail[i]) == k;
      assert key(xs[i + 1]) == k;
    }
  }

  /** There are never more keys than elements, and exactly as many when no
      two elements share a key. */
  lemma {:induction false} KeysCount<T, K>(xs: seq<T>, key: T -> K)
    ensures |Keys(xs, key)| <= |xs|
    ensures |Keys(xs, key)| == |xs| <==> DistinctBy(xs, key)
    decreases |xs|
  {
    if |xs| > 0 {
      var tail := xs[1..];
      KeysCount(tail, key);
      KeysCons(xs, key);
      if DistinctBy(xs, key) {
        assert DistinctBy(tail, key);
        forall i | 0 <= i < |tail| ensures key(tail[i]) != key(xs[0]) {
          assert tail[i] == xs[i + 1];
        }
        assert key(xs[0]) !in Keys(tail, key);
      } else {
        var i, j :| 0 <= i < j < |xs| && key(xs[i]) == key(xs[j]);
        if i == 0 {
          assert key(xs[0]) == key(tail[j - 1]);
          assert key(xs[0]) in Keys(tail, key);
          assert Keys(xs, key) == Keys(tail, key);
        } else {
          assert key(tail[i - 1]) == key(tail[j - 1]);
          assert !DistinctBy(tail, key);
        }
      }
    } else {
      assert Keys(xs, key) == {};
    }
  }

  /** Dropping elements keeps keys distinct. */
  lemma {:induction false} SubsequenceKeepsDistinct<T, K>(sub: seq<T>, xs: seq<T>, key: T -> K)
    requires IsSubsequence(sub, xs) && DistinctBy(xs, key)
    ensures DistinctBy(sub, key)
    decreases |xs|
  {
    if |sub| > 0 {
      assert DistinctBy(xs[1..], key);
      if sub[0] == xs[0] && IsSubsequence(sub[1..], xs[1..]) {
        SubsequenceKeepsDistinct(sub[1..], xs[1..], key);
        SubsequenceMembers(sub[1..], xs[1..]);
        forall j | 0 < j < |sub| ensures key(sub[0]) != key(sub[j]) {
          assert sub[j] in sub[1..];
          var m :| 0 <= m < |xs[1..]| && xs[1..][m] == sub[j];
          assert xs[m + 1] == sub[j];
        }
      } else {
        SubsequenceKeepsDistinct(sub, xs[1..], key);
      }
    }
  }

  /** `xs.some(p)` */
  predicate Any<T>(xs: seq<T>, p: T -> bool)
  {
    exists i :: 0 <= i < |xs| && p(xs[i])
  }

  /** The position of the first element `p` accepts (`xs.findIndex(p)`, with -1 as None). */
  function FirstIndex<T>(xs: seq<T>, p: T -> bool): (r: Option<nat>)
    ensures r.None? <==> !Any(xs, p)
    ensures r.Some? ==> r.value < |xs| && p(xs[r.value])
    ensures r.Some? ==> forall j :: 0 <= j < r.value ==> !p(xs[j])
  {
    if |xs| == 0 then None
    else if p(xs[0]) then Some(0)
    else
      match FirstIndex(xs[1..], p)
      case None =>
        assert forall i :: 0 < i < |xs| ==> xs[i] == xs[1..][i - 1];
        None
      case Some(k) => Some(k + 1)
  }

  /** `xs.find(p)`: the first element `p` accepts, or None when there is none. */
  function Find<T>(xs: seq<T>, p: T -> bool): (r: Option<T>)
    ensures r.None? <==> !Any(xs, p)
    ensures r.Some? ==> r.value in xs && p(r.value)
    ensures r.Some? ==> exists k :: 0 <= k < |xs| && xs[k] == r.value && forall j :: 0 <= j < k ==> !p(xs[j])
  {
    match FirstIndex(xs, p)
    case None => None
    case Some(k) => Some(xs[k])
  }

  /** When the accepted element is the only one, `find` returns it. */
  lemma FindOnly<T>(xs: seq<T>, p: T -> bool, k: nat)
    requires k < |xs| && p(xs[k])
    requires forall j :: 0 <= j < |xs| && j != k ==> !p(xs[j])
    ensures Find(xs, p) == Some(xs[k])
  {
    var i := FirstIndex(xs, p).value;
    assert i == k;
  }

  /** `xs.map(f)` */
  function Map<T, U>(xs: seq<T>, f: T -> U): (r: seq<U>)
    ensures |r| == |xs|
    ensures forall i :: 0 <= i < |xs| ==> r[i] == f(xs[i])
    decreases |xs|
  {
    if |xs| == 0 then [] else [f(xs[0])] + Map(xs[1..], f)
  }

  /** The `xs.map(x => p(x) ? u : x)` idiom: every element `p` selects becomes `u`. */
  function ReplaceWhere<T>(xs: seq<T>, p: T -> bool, u: T): (r: seq<T>)
    ensures |r| == |xs|
    ensures forall i :: 0 <= i < |xs| ==> r[i] == if p(xs[i]) then u else xs[i]
  {
    if |xs| == 0 then []
    else [if p(xs[0]) then u else xs[0]] + ReplaceWhere(xs[1..], p, u)
  }

  /** Replacing where nothing is selected changes nothing. */
  lemma ReplaceWhereNothingSelected<T>(xs: seq<T>, p: T -> bool, u: T)
    requires !Any(xs, p)
    ensures ReplaceWhere(xs, p, u) == xs
  {
  }

  /** Replacing twice is replacing once. */
  lemma ReplaceWhereIdempotent<T>(xs: seq<T>, p: T -> bool, u: T)
    ensures ReplaceWhere(ReplaceWhere(xs, p, u), p, u) == ReplaceWhere(xs, p, u)
  {
  }
}
