// The longest run of tokens that two sequences have in common, with two rows instead of a table
// (common/common.cpp:1221-1268). The source speaks of a subsequence; its reset to 0 on a mismatch makes
// it a contiguous run.
module Lcs {

  predicate CommonRun<T(==)>(a: seq<T>, b: seq<T>, i: nat, j: nat, len: nat) {
    i + len <= |a| && j + len <= |b| && a[i..i + len] == b[j..j + len]
  }

  // The length of the longest run that ends before i in a and before j in b.
  function RunEnding<T(==)>(a: seq<T>, b: seq<T>, i: nat, j: nat): (n: nat)
    requires i <= |a| && j <= |b|
    ensures n <= i && n <= j
  {
    if i == 0 || j == 0 || a[i - 1] != b[j - 1] then 0 else RunEnding(a, b, i - 1, j - 1) + 1
  }

  // It is a common run, and every common run that ends there is a part of it.
  lemma {:induction false} RunEndingLongest<T>(a: seq<T>, b: seq<T>, i: nat, j: nat, len: nat)
    requires i <= |a| && j <= |b| && len <= i && len <= j
    ensures CommonRun(a, b, i - len, j - len, len) <==> len <= RunEnding(a, b, i, j)
    decreases i
  {
    if len > 0 {
      RunEndingLongest(a, b, i - 1, j - 1, len - 1);
      var k, l := i - len, j - len;
      assert a[k..k + len] == a[k..k + (len - 1)] + [a[i - 1]];
      assert b[l..l + len] == b[l..l + (len - 1)] + [b[j - 1]];
      assert a[k..k + len][len - 1] == a[i - 1] && b[l..l + len][len - 1] == b[j - 1];
      assert a[k..k + len][..len - 1] == a[k..k + (len - 1)] && b[l..l + len][..len - 1] == b[l..l + (len - 1)];
    }
  }

  // The best among the first i rows and the first j entries of the next.
  predicate IsBest<T(==)>(a: seq<T>, b: seq<T>, i: nat, j: nat, best: nat) {
    && i <= |a| && j <= |b|
    && (forall k: nat, l: nat | Before(k, l, i, j) && k <= |a| && l <= |b| :: RunEnding(a, b, k, l) <= best)
    && exists k: nat, l: nat :: k <= |a| && l <= |b| && RunEnding(a, b, k, l) == best
  }

  predicate Before(k: nat, l: nat, i: nat, j: nat) {
    k < i || (k == i && l <= j)
  }

  // The inner loop: row i from the row before it, and the best run so far.
  method FillRow<T(==)>(a: seq<T>, b: seq<T>, i: nat, prev: array<nat>, curr: array<nat>, best: nat) returns (r: nat)
    requires 1 <= i <= |a| && prev != curr && prev.Length == curr.Length == |b| + 1
    requires (forall l: nat | l <= |b| :: prev[l] == RunEnding(a, b, i - 1, l)) && curr[0] == 0
    requires IsBest(a, b, i - 1, |b|, best)
    modifies curr
    ensures (forall l: nat | l <= |b| :: curr[l] == RunEnding(a, b, i, l)) && IsBest(a, b, i, |b|, r)
  {
    hide IsBest;
    NextRow(a, b, i, best);
    r := best;
    var j := 1;
    while j <= |b|
      invariant 1 <= j <= |b| + 1
      invariant forall l: nat | l < j :: curr[l] == RunEnding(a, b, i, l)
      invariant IsBest(a, b, i, j - 1, r)
    {
      ghost var before := r;
      if a[i - 1] == b[j - 1] {
        if i == 1 || j == 1 {
          curr[j] := 1;
        } else {
          curr[j] := prev[j - 1] + 1;
        }
        if curr[j] > r {
          r := curr[j];
        }
      } else {
        curr[j] := 0;
      }
      OneMore(a, b, i, j, before, r);
      j := j + 1;
    }
  }

  // Some run of this length is common to both, and none is longer.
  ghost predicate LongestRun<T>(a: seq<T>, b: seq<T>, r: nat) {
    && (exists i: nat, j: nat :: CommonRun(a, b, i, j, r))
    && forall i: nat, j: nat, len: nat :: CommonRun(a, b, i, j, len) ==> len <= r
  }

  method CommonLcs<T(==)>(a: seq<T>, b: seq<T>) returns (r: nat)
    ensures LongestRun(a, b, r)
  {
    if |a| == 0 || |b| == 0 {
      assert CommonRun(a, b, 0, 0, 0);
      return 0;
    }
    hide CommonRun, IsBest;
    NothingBest(a, b);
    r := 0;
    var prev := new nat[|b| + 1](_ => 0);
    var curr := new nat[|b| + 1](_ => 0);
    var i := 1;
    while i <= |a|
      invariant 1 <= i <= |a| + 1
      invariant forall l: nat | l <= |b| :: prev[l] == RunEnding(a, b, i - 1, l)
      invariant curr[0] == 0
      invariant IsBest(a, b, i - 1, |b|, r)
    {
      r := FillRow(a, b, i, prev, curr, r);
      forall l | 0 <= l < prev.Length {
        prev[l] := curr[l];
      }
      i := i + 1;
    }
    BestIsLongest(a, b, r);
  }

  lemma NothingBest<T>(a: seq<T>, b: seq<T>)
    ensures IsBest(a, b, 0, |b|, 0)
  {
    assert RunEnding(a, b, 0, 0) == 0;
  }

  lemma NextRow<T>(a: seq<T>, b: seq<T>, i: nat, best: nat)
    requires 1 <= i <= |a| && IsBest(a, b, i - 1, |b|, best)
    ensures IsBest(a, b, i, 0, best)
  {
    forall k: nat, l: nat | Before(k, l, i, 0) && k <= |a| && l <= |b|
      ensures RunEnding(a, b, k, l) <= best
    {
      assert k < i ==> Before(k, l, i - 1, |b|);
    }
  }

  lemma OneMore<T>(a: seq<T>, b: seq<T>, i: nat, j: nat, before: nat, best: nat)
    requires i <= |a| && 1 <= j <= |b| && IsBest(a, b, i, j - 1, before)
    requires best == if RunEnding(a, b, i, j) > before then RunEnding(a, b, i, j) else before
    ensures IsBest(a, b, i, j, best)
  {
    forall k: nat, l: nat | Before(k, l, i, j) && k <= |a| && l <= |b|
      ensures RunEnding(a, b, k, l) <= best
    {
      assert Before(k, l, i, j - 1) || (k == i && l == j);
    }
  }

  lemma BestIsLongest<T>(a: seq<T>, b: seq<T>, best: nat)
    requires IsBest(a, b, |a|, |b|, best)
    ensures LongestRun(a, b, best)
  {
    var k: nat, l: nat :| k <= |a| && l <= |b| && RunEnding(a, b, k, l) == best;
    RunEndingLongest(a, b, k, l, best);
    assert CommonRun(a, b, k - best, l - best, best);
    forall i: nat, j: nat, len: nat | CommonRun(a, b, i, j, len)
      ensures len <= best
    {
      RunEndingLongest(a, b, i + len, j + len, len);
      assert Before(i + len, j + len, |a|, |b|);
    }
  }

  // ---------- the subsequence the source speaks of ----------

  // s comes from t by leaving elements out.
  predicate IsSub<T(==)>(s: seq<T>, t: seq<T>)
    decreases |t|
  {
    s == [] || (t != [] && ((s[0] == t[0] && IsSub(s[1..], t[1..])) || IsSub(s, t[1..])))
  }

  // The length of the longest common subsequence.
  function Subsequence<T(==)>(a: seq<T>, b: seq<T>): nat
    decreases |a| + |b|
  {
    if a == [] || b == [] then 0
    else if a[0] == b[0] then Subsequence(a[1..], b[1..]) + 1
    else
      var x, y := Subsequence(a[1..], b), Subsequence(a, b[1..]);
      if x > y then x else y
  }

  lemma {:induction false} SubTail<T>(s: seq<T>, t: seq<T>)
    requires s != [] && IsSub(s, t)
    ensures t != [] && IsSub(s[1..], t[1..])
    decreases |t|
  {
    if IsSub(s, t[1..]) {
      SubTail(s, t[1..]);
    }
  }

  lemma {:induction false} SubKeeps<T>(s: seq<T>, t: seq<T>, x: T)
    requires IsSub(s, t)
    ensures |s| <= |t| && (x in s ==> x in t)
    decreases |t|
  {
    if s != [] {
      if IsSub(s, t[1..]) {
        SubKeeps(s, t[1..], x);
      } else {
        SubKeeps(s[1..], t[1..], x);
      }
    }
  }

  // No common subsequence is longer.
  lemma {:induction false} NoLongerSub<T>(s: seq<T>, a: seq<T>, b: seq<T>)
    requires IsSub(s, a) && IsSub(s, b)
    ensures |s| <= Subsequence(a, b)
    decreases |a| + |b|
  {
    if s != [] {
      if a[0] == b[0] {
        SubTail(s, a);
        SubTail(s, b);
        NoLongerSub(s[1..], a[1..], b[1..]);
      } else if s[0] != a[0] {
        NoLongerSub(s, a[1..], b);
      } else {
        NoLongerSub(s, a, b[1..]);
      }
    }
  }

  lemma {:induction false} SomeSub<T>(a: seq<T>, b: seq<T>) returns (s: seq<T>)
    ensures IsSub(s, a) && IsSub(s, b) && |s| == Subsequence(a, b)
    decreases |a| + |b|
  {
    if a == [] || b == [] {
      s := [];
    } else if a[0] == b[0] {
      var rest := SomeSub(a[1..], b[1..]);
      s := [a[0]] + rest;
      assert s[1..] == rest;
    } else if Subsequence(a[1..], b) > Subsequence(a, b[1..]) {
      s := SomeSub(a[1..], b);
    } else {
      s := SomeSub(a, b[1..]);
    }
  }

  // Subsequence is that length, as its recursion alone does not say.
  lemma SubsequenceMeaning<T>(a: seq<T>, b: seq<T>, n: nat)
    ensures n == Subsequence(a, b) <==>
            && (exists s: seq<T> :: IsSub(s, a) && IsSub(s, b) && |s| == n)
            && forall s: seq<T> :: IsSub(s, a) && IsSub(s, b) ==> |s| <= n
  {
    var w := SomeSub(a, b);
    forall s: seq<T> | IsSub(s, a) && IsSub(s, b)
      ensures |s| <= Subsequence(a, b)
    {
      NoLongerSub(s, a, b);
    }
  }

  lemma {:induction false} PartIsSub<T>(t: seq<T>, i: nat, len: nat)
    requires i + len <= |t|
    ensures IsSub(t[i..i + len], t)
    decreases |t|
  {
    if i > 0 {
      PartIsSub(t[1..], i - 1, len);
      assert t[1..][i - 1..i - 1 + len] == t[i..i + len];
    } else if len > 0 {
      PartIsSub(t[1..], 0, len - 1);
      assert t[0..len][1..] == t[1..][0..len - 1];
    }
  }

  // The computed length never exceeds the promised one.
  lemma RunWithinSub<T>(a: seq<T>, b: seq<T>, r: nat)
    requires LongestRun(a, b, r)
    ensures r <= Subsequence(a, b)
  {
    var i: nat, j: nat :| CommonRun(a, b, i, j, r);
    PartIsSub(a, i, r);
    PartIsSub(b, j, r);
    NoLongerSub(a[i..i + r], a, b);
  }

  lemma RunMembers<T>(a: seq<T>, b: seq<T>, i: nat, j: nat, len: nat)
    requires CommonRun(a, b, i, j, len)
    ensures forall l :: j <= l < j + len ==> b[l] in a
  {
    forall l | j <= l < j + len
      ensures b[l] in a
    {
      assert b[l] == b[j..j + len][l - j] == a[i..i + len][l - j] == a[i + (l - j)];
    }
  }

  // An element that a does not have, between two that it has, parts the run but not the subsequence.
  lemma PartedRun<T>(a: seq<T>, z: T)
    requires |a| >= 2 && z !in a
    ensures LongestRun(a, [a[0], z, a[1]], 1) && Subsequence(a, [a[0], z, a[1]]) >= 2
  {
    var b := [a[0], z, a[1]];
    assert CommonRun(a, b, 0, 0, 1) && b[1] == z;
    forall i: nat, j: nat, len: nat | CommonRun(a, b, i, j, len)
      ensures len <= 1
    {
      RunMembers(a, b, i, j, len);
    }
    var s := [a[0], a[1]];
    PartIsSub(a, 0, 2);
    assert a[0..2] == s && s[1..] == [a[1]] && b[1..] == [z, a[1]] && b[1..][1..] == [a[1]];
    assert IsSub([a[1]], [a[1]]) && IsSub([a[1]], [z, a[1]]) && IsSub(s, b);
    NoLongerSub(s, a, b);
  }

  lemma ShortList<T>(a: seq<T>, b: seq<T>, r: nat)
    requires |a| <= 1 && LongestRun(a, b, r)
    ensures r == Subsequence(a, b)
  {
    RunWithinSub(a, b, r);
    var s := SomeSub(a, b);
    if s != [] {
      SubKeeps(s, a, s[0]);
      SubKeeps(s, b, s[0]);
      var j :| 0 <= j < |b| && b[j] == s[0];
      assert CommonRun(a, b, 0, j, 1);
    }
  }

  function Above(a: seq<int>): (z: int)
    ensures forall x :: x in a ==> x < z
  {
    if a == [] then 0 else
      var rest := Above(a[1..]);
      assert a == [a[0]] + a[1..];
      if a[0] < rest then rest else a[0] + 1
  }

  // The length of the run is that of the subsequence, whatever the other list is, exactly for lists of
  // at most one token.
  lemma RunIsSubExactly(a: seq<int>)
    ensures (forall b: seq<int>, r: nat :: LongestRun(a, b, r) ==> r == Subsequence(a, b)) <==> |a| <= 1
  {
    hide LongestRun, Subsequence;
    if |a| <= 1 {
      forall b: seq<int>, r: nat | LongestRun(a, b, r)
        ensures r == Subsequence(a, b)
      {
        ShortList(a, b, r);
      }
    } else {
      PartedRun(a, Above(a));
    }
  }

  lemma RunIsNotSub()
    ensures LongestRun([1, 2], [1, 3, 2], 1) && Subsequence([1, 2], [1, 3, 2]) == 2
  {
    PartedRun([1, 2], 3);
    var s := SomeSub([1, 2], [1, 3, 2]);
    SubKeeps(s, [1, 2], 0);
  }
}
