// The weight re-layouts of the model converters, written as tensor programs: the rotary head
// permutation of LlamaModel, and the splitting of fused query-key-value matrices in Falcon,
// GPT-NeoX and InternLM2. For each: where every row goes.
module Relayouts {
  import opened Outcomes
  import opened Tensors
  import opened LoraReshape
  import opened LoraIndexing
  import opened LoraPrograms

  // ---------- the programs ----------

  function HeadCount(nHead: nat, nHeadKv: Option<nat>): nat {
    if nHeadKv.Some? && nHead != nHeadKv.value then nHeadKv.value else nHead
  }

  // weights.reshape(n_head, 2, rows // n_head // 2, ...).swapaxes(1, 2).reshape(weights.shape)
  function LlamaPermute(e: Program, nHead: nat, nHeadKv: Option<nat>): Program
    requires HeadCount(nHead, nHeadKv) > 0
  {
    var h := HeadCount(nHead, nHeadKv);
    ViewAs(SwapAxes(View(e, (s: seq<nat>) => if s == [] then [] else [h, 2, s[0] / h / 2] + s[1..]), 1, 2), e)
  }

  const KEEP_ALL_BUT_TWO := Slice(None, Some(-2), None)

  // Falcon: n_head // n_head_kv query blocks, one key block and one value block per group.
  function FalconQkv(e: Program, nHead: nat, nHeadKv: nat, hidden: nat): Program
    requires nHead > 0 && nHeadKv > 0
  {
    var headDim := hidden / nHead;
    var qkv := View(e, (s: seq<nat>) => [nHeadKv, nHead / nHeadKv + 2, headDim, headDim * nHead]);
    var q := View(AtTuple(qkv, [FULL, KEEP_ALL_BUT_TWO]), (s: seq<nat>) => [nHead * headDim, headDim * nHead]);
    var k := View(AtTuple(qkv, [FULL, List([-2])]), (s: seq<nat>) => [nHeadKv * headDim, headDim * nHead]);
    var v := View(AtTuple(qkv, [FULL, List([-1])]), (s: seq<nat>) => [nHeadKv * headDim, headDim * nHead]);
    ViewAs(CatOf([q, k, v]), e)
  }

  // GPT-NeoX: one query, one key and one value block per head.
  function NeoxQkv(e: Program, nHead: nat, nEmbed: nat): Program
    requires nHead > 0
  {
    var qkv := View(e, (s: seq<nat>) => [nHead, 3, nEmbed / nHead, nEmbed]);
    CatOf([NeoxPart(qkv, 0, nEmbed), NeoxPart(qkv, 1, nEmbed), NeoxPart(qkv, 2, nEmbed)])
  }

  function NeoxPart(qkv: Program, part: int, nEmbed: nat): Program {
    View(AtTuple(qkv, [FULL, Int(part), FULL, FULL]), (s: seq<nat>) => Matrix(-1, nEmbed))
  }

  lemma QuotientPositive(a: nat, b: nat)
    requires a >= b > 0
    ensures a / b > 0
  {
    assert a == a / b * b + a % b;
  }

  // InternLM2: the same grouping as Falcon, split into three tensors, queries and keys head-permuted.
  function InternGroups(e: Program, numHeads: nat, numKvHeads: nat, nEmbd: nat): Program
    requires numKvHeads > 0 && numHeads >= numKvHeads
  {
    var qPerKv := numHeads / numKvHeads;
    QuotientPositive(numHeads, numKvHeads);
    View(e, (s: seq<nat>) => [numHeads / qPerKv, qPerKv + 2, nEmbd / numHeads, nEmbd])
  }

  function Matrix(rows: int, cols: int): seq<int> {
    [rows, cols]
  }

  function FlattenRows(e: Program): Program {
    View(e, (s: seq<nat>) => if s == [] then [] else Matrix(-1, s[|s| - 1]))
  }

  function InternQ(e: Program, numHeads: nat, numKvHeads: nat, nEmbd: nat): Program
    requires numKvHeads > 0 && numHeads >= numKvHeads
  {
    var rows := AtTuple(InternGroups(e, numHeads, numKvHeads, nEmbd), [FULL, Slice(None, Some(numHeads / numKvHeads), None)]);
    LlamaPermute(FlattenRows(rows), numHeads, Some(numHeads))
  }

  function InternK(e: Program, numHeads: nat, numKvHeads: nat, nEmbd: nat): Program
    requires numKvHeads > 0 && numHeads >= numKvHeads
  {
    LlamaPermute(FlattenRows(AtTuple(InternGroups(e, numHeads, numKvHeads, nEmbd), [FULL, Int(-2)])),
                 numHeads, Some(numKvHeads))
  }

  function InternV(e: Program, numHeads: nat, numKvHeads: nat, nEmbd: nat): Program
    requires numKvHeads > 0 && numHeads >= numKvHeads
  {
    FlattenRows(AtTuple(InternGroups(e, numHeads, numKvHeads, nEmbd), [FULL, Int(-1)]))
  }

  // ---------- positions ----------

  // The number of rows of K blocks of g sub-blocks of D entries.
  function Rows(K: nat, g: nat, D: nat): nat {
    K * g * D
  }

  // A row of blocks: block x, sub-block s, entry d, when there are g sub-blocks of D entries a block.
  function RowOf(x: nat, s: nat, d: nat, g: nat, D: nat): nat {
    (x * g + s) * D + d
  }

  // The same element seen in the matrix and in its 4-D view.
  lemma ViewAt<T>(t: Tensor<T>, u: Tensor<T>, K: nat, g: nat, D: nat, n: nat, x: nat, s: nat, d: nat, c: nat)
    requires t.Valid() && u.Valid() && t.data == u.data && t.shape == [Rows(K, g, D), n] && u.shape == [K, g, D, n]
    requires x < K && s < g && d < D && c < n
    ensures InShape([RowOf(x, s, d, g, D), c], t.shape)
    ensures At(t, [RowOf(x, s, d, g, D), c]) == At(u, [x, s, d, c])
  {
    RowBound(x, K, s, g);
    RowBound(x * g + s, K * g, d, D);
    Ravel4(u.shape, [x, s, d, c]);
    Ravel2(t.shape, [RowOf(x, s, d, g, D), c]);
  }

  // ---------- the rotary head permutation ----------

  lemma HalvesOf(h: nat, E: nat)
    requires h > 0
    ensures h * (2 * E) / h / 2 == E
  {
    QuotientOf(2 * E, h, 0);
    assert h * (2 * E) == 2 * E * h + 0;
  }

  lemma SwappedIsPermutation(d: nat)
    requires d >= 3
    ensures IsPermutation(Swapped(d, 1, 2))
  {
    var p := Swapped(d, 1, 2);
    forall a: nat | a < |p| ensures a in p {
      assert p[if a == 1 then 2 else if a == 2 then 1 else a] == a;
    }
  }

  // Axes 1 and 2 exchanged, whatever axes follow.
  lemma SwapMiddle<T>(t: Tensor<T>, h: nat, a: nat, b: nat, rest: seq<nat>)
    requires t.Valid() && t.shape == [h, a, b] + rest
    ensures IsPermutation(Swapped(|t.shape|, 1, 2))
    ensures Transpose(t, 1, 2) == Ok(PermuteAxes(t, Swapped(|t.shape|, 1, 2)))
    ensures PermuteAxes(t, Swapped(|t.shape|, 1, 2)).shape == [h, b, a] + rest
  {
    hide At, Ravel, Prod, IsPermutation;
    var d := |t.shape|;
    var p := Swapped(d, 1, 2);
    SwappedIsPermutation(d);
    assert WrapAll(p, d).value == p;
    assert PermShape(p, t.shape) == [h, b, a] + rest;
  }

  lemma SwapMiddleAt<T>(t: Tensor<T>, h: nat, a: nat, b: nat, rest: seq<nat>, x: nat, i: nat, j: nat, c: seq<nat>)
    requires t.Valid() && t.shape == [h, a, b] + rest && x < h && i < a && j < b && InShape(c, rest)
    ensures Transpose(t, 1, 2).Ok? && Transpose(t, 1, 2).value.Valid()
    ensures InShape([x, j, i] + c, Transpose(t, 1, 2).value.shape) && InShape([x, i, j] + c, t.shape)
    ensures At(Transpose(t, 1, 2).value, [x, j, i] + c) == At(t, [x, i, j] + c)
  {
    hide At, Ravel, Prod, IsPermutation, Transpose, Unpermute;
    SwapMiddle(t, h, a, b, rest);
    SwapSource(x, i, j, c);
    InShapeParts([x, j, i], [h, b, a], c, rest);
  }

  lemma SwapSource(x: nat, i: nat, j: nat, c: seq<nat>)
    ensures IsPermutation(Swapped(3 + |c|, 1, 2))
    ensures Unpermute(Swapped(3 + |c|, 1, 2), [x, j, i] + c) == [x, i, j] + c
  {
    var d := 3 + |c|;
    var p := Swapped(d, 1, 2);
    SwappedIsPermutation(d);
    hide IsPermutation, Unpermute;
    var src := Unpermute(p, [x, j, i] + c);
    forall a | 0 <= a < d ensures src[a] == ([x, i, j] + c)[a] {
      UnpermuteMeans(p, [x, j, i] + c, if a == 1 then 2 else if a == 2 then 1 else a);
    }
  }

  // Row r of one matrix is row q of another.
  ghost predicate SameRow<T>(t: Tensor<T>, r: nat, u: Tensor<T>, q: nat) {
    && t.Valid() && u.Valid() && |t.shape| == |u.shape| == 2 && t.shape[1] == u.shape[1]
    && r < t.shape[0] && q < u.shape[0]
    && forall c: nat {:trigger At(u, [q, c])} :: c < t.shape[1] ==> At(t, [r, c]) == At(u, [q, c])
  }

  // The same of whatever lies at a position of the first axis: a row, or an entry of a bias.
  ghost predicate SameBlock<T>(t: Tensor<T>, r: nat, u: Tensor<T>, q: nat) {
    && t.Valid() && u.Valid() && |t.shape| == |u.shape| > 0 && t.shape[1..] == u.shape[1..]
    && r < t.shape[0] && q < u.shape[0]
    && forall c {:trigger At(u, [q] + c)} :: InShape(c, t.shape[1..]) ==> At(t, [r] + c) == At(u, [q] + c)
  }

  lemma BlockIsRow<T>(t: Tensor<T>, r: nat, u: Tensor<T>, q: nat)
    requires SameBlock(t, r, u, q) && |t.shape| == 2
    ensures SameRow(t, r, u, q)
  {
    hide At;
    forall c: nat | c < t.shape[1] ensures At(t, [r, c]) == At(u, [q, c]) {
      assert InShape([c], t.shape[1..]) && [r] + [c] == [r, c] && [q] + [c] == [q, c];
    }
  }

  // The same element before and after the first axis is split into three.
  lemma SplitAt<T>(t: Tensor<T>, u: Tensor<T>, K: nat, g: nat, D: nat, rest: seq<nat>, x: nat, s: nat, d: nat, c: seq<nat>)
    requires t.Valid() && u.Valid() && t.data == u.data && t.shape == [Rows(K, g, D)] + rest && u.shape == [K, g, D] + rest
    requires x < K && s < g && d < D && InShape(c, rest)
    ensures InShape([RowOf(x, s, d, g, D)] + c, t.shape) && InShape([x, s, d] + c, u.shape)
    ensures At(t, [RowOf(x, s, d, g, D)] + c) == At(u, [x, s, d] + c)
  {
    var r := RowOf(x, s, d, g, D);
    RowBound(x, K, s, g);
    RowBound(x * g + s, K * g, d, D);
    InShapeParts([x, s, d], [K, g, D], c, rest);
    InShapeParts([r], [Rows(K, g, D)], c, rest);
    Ravel3([K, g, D], [x, s, d]);
    RavelParts([K, g, D], [x, s, d], rest, c);
    RavelParts([Rows(K, g, D)], [r], rest, c);
    RavelLast([], [], Rows(K, g, D), r);
    NoParts();
    assert [] + [r] == [r] && [] + [Rows(K, g, D)] == [Rows(K, g, D)];
    hide Ravel, Prod;
  }

  function LlamaSource(x: nat, i: nat, j: nat, E: nat): nat {
    x * (2 * E) + i * E + j
  }

  function LlamaTarget(x: nat, i: nat, j: nat, E: nat): nat {
    x * (2 * E) + 2 * j + i
  }

  lemma LlamaSizes(h: nat, E: nat, rest: seq<nat>)
    ensures Prod([h, 2, E] + rest) == Prod([h * (2 * E)] + rest) == Prod([h, E, 2] + rest)
  {
    hide Prod;
    ProdParts([h, 2, E], rest);
    ProdParts([h, E, 2], rest);
    ProdParts([h * (2 * E)], rest);
    Prod4(h, 2, E, 0);
    Prod4(h, E, 2, 0);
    ProdOne(h * (2 * E));
    assert h * 2 * E == h * (2 * E) == h * E * 2;
  }

  lemma LlamaPermuteRuns<T>(e: Program, env: seq<Tensor<T>>, t: Tensor<T>, nHead: nat, nHeadKv: Option<nat>, E: nat)
    returns (t1: Tensor<T>, t2: Tensor<T>)
    requires forall u :: u in env ==> u.Valid()
    requires RunDense(e, env) == Ok(t) && HeadCount(nHead, nHeadKv) > 0
    requires t.shape != [] && t.shape[0] == HeadCount(nHead, nHeadKv) * (2 * E)
    ensures t1 == Tensor([HeadCount(nHead, nHeadKv), 2, E] + t.shape[1..], t.data) && t1.Valid()
    ensures Transpose(t1, 1, 2) == Ok(t2) && t2.Valid() && Tensor(t.shape, t2.data).Valid()
    ensures RunDense(LlamaPermute(e, nHead, nHeadKv), env) == Ok(Tensor(t.shape, t2.data))
  {
    hide At, Ravel, Prod, Transpose, Reshape;
    var h, rest := HeadCount(nHead, nHeadKv), t.shape[1..];
    HalvesOf(h, E);
    var s: seq<nat> := [h, 2, E] + rest;
    LlamaSizes(h, E, rest);
    assert t.shape == [h * (2 * E)] + rest;
    ReshapeTo(t, s);
    t1 := Tensor(s, t.data);
    var swap := LlamaPermute(e, nHead, nHeadKv).e;
    assert swap.e.dims(t.shape) == s;
    assert RunDense(swap.e, env) == Ok(t1);
    SwapMiddle(t1, h, 2, E, rest);
    assert RunDense(swap, env) == Transpose(t1, 1, 2);
    t2 := Transpose(t1, 1, 2).value;
    ReshapeTo(t2, t.shape);
  }

  // Position h*D + i*(D/2) + j of the first axis of weights or biases lands at h*D + 2j + i, where
  // D == 2E, with all that lies there.
  lemma LlamaPermuteRows<T>(e: Program, env: seq<Tensor<T>>, t: Tensor<T>, nHead: nat, nHeadKv: Option<nat>, E: nat)
    requires forall u :: u in env ==> u.Valid()
    requires RunDense(e, env) == Ok(t) && HeadCount(nHead, nHeadKv) > 0
    requires t.shape != [] && t.shape[0] == HeadCount(nHead, nHeadKv) * (2 * E)
    ensures var r := RunDense(LlamaPermute(e, nHead, nHeadKv), env);
            && r.Ok? && r.value.Valid() && r.value.shape == t.shape
            && forall x: nat, i: nat, j: nat :: x < HeadCount(nHead, nHeadKv) && i < 2 && j < E ==>
                 SameBlock(t, LlamaSource(x, i, j, E), r.value, LlamaTarget(x, i, j, E))
  {
    hide At, Ravel, Prod, Transpose, Reshape, RunDense, SameBlock;
    var h, rest := HeadCount(nHead, nHeadKv), t.shape[1..];
    var t1, t2 := LlamaPermuteRuns(e, env, t, nHead, nHeadKv, E);
    SwapMiddle(t1, h, 2, E, rest);
    var u := Tensor(t.shape, t2.data);
    assert t.shape == [h * (2 * E)] + rest;
    forall x: nat, i: nat, j: nat | x < h && i < 2 && j < E
      ensures SameBlock(t, LlamaSource(x, i, j, E), u, LlamaTarget(x, i, j, E))
    {
      LlamaRow(t, t1, t2, u, h, E, rest, x, i, j);
    }
  }

  lemma LlamaRowNumbers(h: nat, E: nat, x: nat, i: nat, j: nat)
    ensures h * 2 * E == h * (2 * E) == h * E * 2
    ensures RowOf(x, i, j, 2, E) == LlamaSource(x, i, j, E) && RowOf(x, j, i, E, 2) == LlamaTarget(x, i, j, E)
  {
  }

  lemma LlamaRow<T>(t: Tensor<T>, t1: Tensor<T>, t2: Tensor<T>, u: Tensor<T>,
                    h: nat, E: nat, rest: seq<nat>, x: nat, i: nat, j: nat)
    requires t.Valid() && t1.Valid() && t2.Valid() && u.Valid()
    requires t.shape == u.shape == [h * (2 * E)] + rest && t1.shape == [h, 2, E] + rest && t2.shape == [h, E, 2] + rest
    requires t1.data == t.data && t2.data == u.data && Transpose(t1, 1, 2) == Ok(t2)
    requires x < h && i < 2 && j < E
    ensures SameBlock(t, LlamaSource(x, i, j, E), u, LlamaTarget(x, i, j, E))
  {
    hide At, Ravel, Prod, Transpose;
    LlamaRowNumbers(h, E, x, i, j);
    RowBound(x, h, i, 2);
    RowBound(x * 2 + i, h * 2, j, E);
    RowBound(x, h, j, E);
    RowBound(x * E + j, h * E, i, 2);
    assert t.shape[1..] == rest;
    forall c | InShape(c, rest)
      ensures At(t, [LlamaSource(x, i, j, E)] + c) == At(u, [LlamaTarget(x, i, j, E)] + c)
    {
      SwapMiddleAt(t1, h, 2, E, rest, x, i, j, c);
      SplitAt(t, t1, h, 2, E, rest, x, i, j, c);
      SplitAt(u, t2, h, E, 2, rest, x, j, i, c);
    }
  }

  // Swapping back the (n_head, D/2, 2) view of the result restores the weights.
  lemma LlamaPermuteUndone<T>(e: Program, env: seq<Tensor<T>>, t: Tensor<T>, nHead: nat, nHeadKv: Option<nat>, E: nat)
    requires forall u :: u in env ==> u.Valid()
    requires RunDense(e, env) == Ok(t) && HeadCount(nHead, nHeadKv) > 0
    requires t.shape != [] && t.shape[0] == HeadCount(nHead, nHeadKv) * (2 * E)
    ensures var p := LlamaPermute(e, nHead, nHeadKv);
            var h := HeadCount(nHead, nHeadKv);
            RunDense(ViewAs(SwapAxes(View(p, (s: seq<nat>) => [h, E, 2] + t.shape[1..]), 1, 2), p), env) == Ok(t)
  {
    hide At, Ravel, Prod, Transpose, Reshape;
    var h, rest := HeadCount(nHead, nHeadKv), t.shape[1..];
    var t1, t2 := LlamaPermuteRuns(e, env, t, nHead, nHeadKv, E);
    assert t.shape == [h * (2 * E)] + rest;
    LlamaSizes(h, E, rest);
    SwapMiddle(t1, h, 2, E, rest);
    var u := Tensor(t.shape, t2.data);
    ReshapeTo(u, t2.shape);
    SwapTwice(t1, t2, h, E, rest);
    ReshapeTo(t1, t.shape);
    var p := LlamaPermute(e, nHead, nHeadKv);
    var view := View(p, (s: seq<nat>) => [h, E, 2] + rest);
    assert view.dims(u.shape) == t2.shape;
    assert RunDense(view, env) == Ok(t2);
    assert RunDense(SwapAxes(view, 1, 2), env) == Ok(t1);
  }

  lemma SwapTwice<T>(t1: Tensor<T>, t2: Tensor<T>, h: nat, E: nat, rest: seq<nat>)
    requires t1.Valid() && t2.Valid() && t1.shape == [h, 2, E] + rest && t2.shape == [h, E, 2] + rest
    requires Transpose(t1, 1, 2) == Ok(t2)
    ensures Transpose(t2, 1, 2) == Ok(t1)
  {
    hide At, Ravel, Prod, Transpose;
    SwapMiddle(t1, h, 2, E, rest);
    SwapMiddle(t2, h, E, 2, rest);
    var u := Transpose(t2, 1, 2).value;
    forall idx | InShape(idx, t1.shape) ensures At(u, idx) == At(t1, idx) {
      ThreeAndRest(idx, h, 2, E, rest);
      SwapTwiceAt(t1, t2, h, E, rest, idx[0], idx[1], idx[2], idx[3..]);
    }
    Extensional(u, t1);
  }

  lemma ThreeAndRest(idx: seq<nat>, a: nat, b: nat, c: nat, rest: seq<nat>)
    requires InShape(idx, [a, b, c] + rest)
    ensures |idx| >= 3 && idx == [idx[0], idx[1], idx[2]] + idx[3..]
    ensures idx[0] < a && idx[1] < b && idx[2] < c && InShape(idx[3..], rest)
  {
    forall k | 0 <= k < |rest| ensures idx[3..][k] < rest[k] {
      assert idx[k + 3] < ([a, b, c] + rest)[k + 3];
    }
  }

  lemma SwapTwiceAt<T>(t1: Tensor<T>, t2: Tensor<T>, h: nat, E: nat, rest: seq<nat>, x: nat, i: nat, j: nat, c: seq<nat>)
    requires t1.Valid() && t2.Valid() && t1.shape == [h, 2, E] + rest && t2.shape == [h, E, 2] + rest
    requires Transpose(t1, 1, 2) == Ok(t2) && Transpose(t2, 1, 2).Ok? && Transpose(t2, 1, 2).value.Valid()
    requires Transpose(t2, 1, 2).value.shape == t1.shape
    requires x < h && i < 2 && j < E && InShape(c, rest)
    ensures InShape([x, i, j] + c, t1.shape) && At(Transpose(t2, 1, 2).value, [x, i, j] + c) == At(t1, [x, i, j] + c)
  {
    hide At, Ravel, Prod, Transpose;
    SwapMiddleAt(t1, h, 2, E, rest, x, i, j, c);
    SwapMiddleAt(t2, h, E, 2, rest, x, j, i, c);
  }
}
