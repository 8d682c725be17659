// Byte-pair encoding of one token, as the converter uses it to recover the merges of a tokenizer
// that only has ranks (convert_hf_to_gguf.py:869-875, 2684-2698).
module Bpe {
  import opened Outcomes

  type Bytes = seq<bv8>
  type Ranks = map<Bytes, int>

  function Concat(parts: seq<Bytes>): Bytes
    decreases |parts|
  {
    if parts == [] then [] else parts[0] + Concat(parts[1..])
  }

  function Singles(token: Bytes): (r: seq<Bytes>)
    ensures |r| == |token|
  {
    seq(|token|, i requires 0 <= i < |token| => [token[i]])
  }

  // ---------- one step ----------

  predicate HasRank(ranks: Ranks, parts: seq<Bytes>, i: nat) {
    i + 1 < |parts| && parts[i] + parts[i + 1] in ranks
  }

  function RankAt(ranks: Ranks, parts: seq<Bytes>, i: nat): int
    requires HasRank(ranks, parts, i)
  {
    ranks[parts[i] + parts[i + 1]]
  }

  // The pair that is merged: of the lowest rank, and the first of those.
  predicate IsBest(ranks: Ranks, parts: seq<Bytes>, n: nat, i: nat) {
    && i < n && HasRank(ranks, parts, i)
    && forall k: nat | k < n && HasRank(ranks, parts, k) ::
         if k < i then RankAt(ranks, parts, i) < RankAt(ranks, parts, k)
         else RankAt(ranks, parts, i) <= RankAt(ranks, parts, k)
  }

  function Best(ranks: Ranks, parts: seq<Bytes>, n: nat): (r: Option<nat>)
    ensures r.Some? ==> IsBest(ranks, parts, n, r.value)
    ensures r.None? ==> forall k: nat | k < n :: !HasRank(ranks, parts, k)
  {
    if n == 0 then None
    else
      var b := Best(ranks, parts, n - 1);
      if HasRank(ranks, parts, n - 1) && (b.None? || RankAt(ranks, parts, n - 1) < RankAt(ranks, parts, b.value))
      then Some(n - 1) else b
  }

  function Pairs(parts: seq<Bytes>): nat {
    if parts == [] then 0 else |parts| - 1
  }

  function Merge(parts: seq<Bytes>, i: nat): (r: seq<Bytes>)
    requires i + 1 < |parts|
    ensures |r| == |parts| - 1
  {
    parts[..i] + [parts[i] + parts[i + 1]] + parts[i + 2..]
  }

  // The rank of the next merge, if there is one, and what it leads to.
  function NextRank(ranks: Ranks, parts: seq<Bytes>): Option<int> {
    var b := Best(ranks, parts, Pairs(parts));
    if b.Some? then Some(RankAt(ranks, parts, b.value)) else None
  }

  function Next(ranks: Ranks, parts: seq<Bytes>): (r: seq<Bytes>)
    requires NextRank(ranks, parts).Some?
    ensures |r| == |parts| - 1
  {
    Merge(parts, Best(ranks, parts, Pairs(parts)).value)
  }

  lemma {:induction false} ConcatSplit(a: seq<Bytes>, b: seq<Bytes>)
    ensures Concat(a + b) == Concat(a) + Concat(b)
    decreases |a|
  {
    if a == [] {
      assert a + b == b;
    } else {
      assert (a + b)[0] == a[0] && (a + b)[1..] == a[1..] + b;
      ConcatSplit(a[1..], b);
    }
  }

  lemma ConcatFirst(x: Bytes, rest: seq<Bytes>)
    ensures Concat([x] + rest) == x + Concat(rest)
  {
    assert ([x] + rest)[1..] == rest;
  }

  lemma MergeKeepsConcat(parts: seq<Bytes>, i: nat)
    requires i + 1 < |parts|
    ensures Concat(Merge(parts, i)) == Concat(parts)
  {
    var l, x, y, r := parts[..i], parts[i], parts[i + 1], parts[i + 2..];
    assert parts == l + parts[i..];
    ConcatSplit(l, parts[i..]);
    assert Concat(parts[i..]) == x + (y + Concat(r)) by {
      assert parts[i..][1..] == parts[i + 1..] && parts[i + 1..][1..] == r;
    }
    ConcatSplit(l + [x + y], r);
    ConcatSplit(l, [x + y]);
    ConcatFirst(x + y, []);
    Regroup(Concat(l), x, y, Concat(r));
    assert [x + y] + [] == [x + y];
  }

  lemma Regroup(a: Bytes, x: Bytes, y: Bytes, b: Bytes)
    ensures a + ((x + y) + []) + b == a + (x + (y + b))
  {
  }

  lemma {:induction false} SinglesConcat(token: Bytes)
    ensures Concat(Singles(token)) == token
    decreases |token|
  {
    if token != [] {
      assert Singles(token)[1..] == Singles(token[1..]);
      SinglesConcat(token[1..]);
    }
  }

  // ---------- whole runs ----------

  predicate Stops(rank: Option<int>, maxRank: Option<int>) {
    rank.None? || (maxRank.Some? && rank.value >= maxRank.value)
  }

  function Run(ranks: Ranks, parts: seq<Bytes>, maxRank: Option<int>): seq<Bytes>
    decreases |parts|
  {
    if Stops(NextRank(ranks, parts), maxRank) then parts else Run(ranks, Next(ranks, parts), maxRank)
  }

  // The inner loop over the pairs.
  method LowestPair(ranks: Ranks, parts: seq<Bytes>) returns (minIdx: Option<nat>, minRank: Option<int>)
    ensures minIdx == Best(ranks, parts, Pairs(parts)) && minRank == NextRank(ranks, parts)
  {
    minIdx, minRank := None, None;
    var i := 0;
    while i < Pairs(parts)
      invariant i <= Pairs(parts)
      invariant minIdx == Best(ranks, parts, i)
      invariant minRank == if minIdx.Some? then Some(RankAt(ranks, parts, minIdx.value)) else None
    {
      if parts[i] + parts[i + 1] in ranks {
        var rank := ranks[parts[i] + parts[i + 1]];
        if minRank.None? || rank < minRank.value {
          minIdx, minRank := Some(i), Some(rank);
        }
      }
      i := i + 1;
    }
  }

  method BpeOf(ranks: Ranks, token: Bytes, maxRank: Option<int>) returns (parts: seq<Bytes>)
    ensures parts == Run(ranks, Singles(token), maxRank)
  {
    hide IsBest, HasRank;
    parts := Singles(token);
    while true
      invariant Run(ranks, parts, maxRank) == Run(ranks, Singles(token), maxRank)
      decreases |parts|
    {
      var minIdx, minRank := LowestPair(ranks, parts);
      if minRank.None? || (maxRank.Some? && minRank.value >= maxRank.value) {
        break;
      }
      BestInRange(ranks, parts);
      var m := minIdx.value;
      parts := parts[..m] + [parts[m] + parts[m + 1]] + parts[m + 2..];
    }
  }

  lemma BestInRange(ranks: Ranks, parts: seq<Bytes>)
    ensures var b := Best(ranks, parts, Pairs(parts)); b.Some? ==> b.value + 1 < |parts|
  {
  }

  // The parts after each step of the run without a bound.
  function Trace(ranks: Ranks, parts: seq<Bytes>): (r: seq<seq<Bytes>>)
    ensures |r| > 0 && r[0] == parts
    decreases |parts|
  {
    [parts] + if NextRank(ranks, parts).None? then [] else Trace(ranks, Next(ranks, parts))
  }

  // The first k merges of the unbounded run all have a rank below the bound.
  predicate Below(ranks: Ranks, parts: seq<Bytes>, k: nat, maxRank: int) {
    k < |Trace(ranks, parts)| &&
    forall i: nat | i < k ::
      NextRank(ranks, Trace(ranks, parts)[i]).Some? && NextRank(ranks, Trace(ranks, parts)[i]).value < maxRank
  }

  // Every step keeps the bytes and leaves one part less.
  lemma {:induction false} TraceKeeps(ranks: Ranks, parts: seq<Bytes>, k: nat)
    requires k < |Trace(ranks, parts)|
    ensures Concat(Trace(ranks, parts)[k]) == Concat(parts)
    ensures |Trace(ranks, parts)[k]| + k == |parts|
    decreases k
  {
    if k > 0 {
      var next := Next(ranks, parts);
      assert Trace(ranks, parts)[k] == Trace(ranks, next)[k - 1];
      MergeKeepsConcat(parts, Best(ranks, parts, Pairs(parts)).value);
      TraceKeeps(ranks, next, k - 1);
    }
  }

  lemma {:induction false} BelowStep(ranks: Ranks, parts: seq<Bytes>, k: nat, maxRank: int)
    requires k > 0 && NextRank(ranks, parts).Some?
    ensures Below(ranks, parts, k, maxRank) <==>
            NextRank(ranks, parts).value < maxRank && Below(ranks, Next(ranks, parts), k - 1, maxRank)
  {
    var t, u := Trace(ranks, parts), Trace(ranks, Next(ranks, parts));
    assert |t| == |u| + 1 && forall i: nat | i < |u| :: t[i + 1] == u[i];
    if Below(ranks, parts, k, maxRank) {
      assert t[0] == parts;
      forall i: nat | i < k - 1
        ensures NextRank(ranks, u[i]).Some? && NextRank(ranks, u[i]).value < maxRank
      {
        assert u[i] == t[i + 1];
      }
    }
  }

  lemma BelowAt(ranks: Ranks, parts: seq<Bytes>, n: nat, k: nat, maxRank: int)
    requires k < |Trace(ranks, parts)|
    ensures Below(ranks, parts, n, maxRank) && k < n ==> !Stops(NextRank(ranks, Trace(ranks, parts)[k]), Some(maxRank))
  {
  }

  // The bounded run is the longest part of the unbounded run whose merges all rank below the bound.
  lemma {:induction false} BoundedIsPrefix(ranks: Ranks, parts: seq<Bytes>, maxRank: int) returns (k: nat)
    ensures Below(ranks, parts, k, maxRank)
    ensures Run(ranks, parts, Some(maxRank)) == Trace(ranks, parts)[k]
    ensures Stops(NextRank(ranks, Trace(ranks, parts)[k]), Some(maxRank))
    decreases |parts|
  {
    if Stops(NextRank(ranks, parts), Some(maxRank)) {
      k := 0;
    } else {
      var rest := BoundedIsPrefix(ranks, Next(ranks, parts), maxRank);
      k := rest + 1;
      BelowStep(ranks, parts, k, maxRank);
      assert Trace(ranks, parts)[k] == Trace(ranks, Next(ranks, parts))[rest];
    }
  }

  lemma {:induction false} UnboundedIsTrace(ranks: Ranks, parts: seq<Bytes>)
    ensures Run(ranks, parts, None) == Trace(ranks, parts)[|Trace(ranks, parts)| - 1]
    decreases |parts|
  {
    if NextRank(ranks, parts).Some? {
      UnboundedIsTrace(ranks, Next(ranks, parts));
    }
  }

  // ---------- what the converter asserts ----------

  // Two parts whose bytes are a ranked token have that token's rank.
  lemma LastMerge(ranks: Ranks, parts: seq<Bytes>)
    requires |parts| == 2 && Concat(parts) in ranks
    ensures NextRank(ranks, parts) == Some(ranks[Concat(parts)])
  {
    ConcatFirst(parts[1], []);
    ConcatFirst(parts[0], [parts[1]]);
    assert parts == [parts[0]] + [parts[1]] && [parts[1]] == [parts[1]] + [];
    assert Concat(parts) == parts[0] + parts[1];
    assert HasRank(ranks, parts, 0) && Pairs(parts) == 1;
  }

  lemma {:induction false} TraceGoesOn(ranks: Ranks, parts: seq<Bytes>, k: nat)
    requires k < |Trace(ranks, parts)| && NextRank(ranks, Trace(ranks, parts)[k]).Some?
    ensures k + 1 < |Trace(ranks, parts)|
    decreases k
  {
    if k > 0 {
      TraceGoesOn(ranks, Next(ranks, parts), k - 1);
    }
  }

  lemma ReachesToken(ranks: Ranks, token: Bytes)
    requires |token| >= 2 && token in ranks && |token| - 2 < |Trace(ranks, Singles(token))|
    ensures Run(ranks, Singles(token), None) == [token]
  {
    hide Trace;
    var start := Singles(token);
    var trace := Trace(ranks, start);
    var last := trace[|trace| - 1];
    SinglesConcat(token);
    TraceKeeps(ranks, start, |token| - 2);
    LastMerge(ranks, trace[|token| - 2]);
    TraceGoesOn(ranks, start, |token| - 2);
    TraceKeeps(ranks, start, |trace| - 1);
    UnboundedIsTrace(ranks, start);
    assert Concat(last) == token && |last| <= 1;
    assert last != [] && last == [last[0]] + [];
    ConcatFirst(last[0], []);
    assert last[0] == token;
  }

  // Bounded by its own rank a token of several bytes never becomes one part, and it becomes two, as
  // the converter asserts, if and only if the unbounded run gets there by merges of lower ranks. That
  // run then goes on to the token itself.
  lemma MergesOfToken(ranks: Ranks, token: Bytes)
    requires |token| >= 2 && token in ranks
    ensures var parts := Run(ranks, Singles(token), Some(ranks[token]));
            && Concat(parts) == token && |parts| >= 2
            && (|parts| == 2 <==> Below(ranks, Singles(token), |token| - 2, ranks[token]))
            && (|parts| == 2 ==> Run(ranks, Singles(token), None) == [token])
  {
    var start, bound := Singles(token), ranks[token];
    var trace := Trace(ranks, start);
    var k := BoundedIsPrefix(ranks, start, bound);
    SinglesConcat(token);
    TraceKeeps(ranks, start, k);
    if k > |token| - 2 {
      TraceKeeps(ranks, start, |token| - 2);
      LastMerge(ranks, trace[|token| - 2]);
    }
    BelowAt(ranks, start, |token| - 2, k, bound);
    if k == |token| - 2 {
      ReachesToken(ranks, token);
    }
  }

  // A token none of whose pairs is ranked stays in its bytes.
  lemma TokenWithoutMerges()
    ensures var ranks: Ranks := map[[1, 2, 3] := 0];
            Run(ranks, Singles([1, 2, 3]), Some(ranks[[1, 2, 3]])) == [[1], [2], [3]]
  {
    var ranks: Ranks, parts: seq<Bytes> := map[[1, 2, 3] := 0], [[1], [2], [3]];
    assert Singles([1, 2, 3]) == parts;
    assert !HasRank(ranks, parts, 0) && !HasRank(ranks, parts, 1);
    assert NextRank(ranks, parts).None?;
  }
}
