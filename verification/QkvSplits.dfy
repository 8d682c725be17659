// Where each row of a fused query-key-value matrix goes when Falcon, GPT-NeoX and InternLM2 split it.
module QkvSplits {
  import opened Outcomes
  import opened Tensors
  import opened LoraReshape
  import opened LoraIndexing
  import opened LoraGetItem
  import opened LoraPrograms
  import opened Relayouts

  // ---------- block arithmetic ----------

  // Every row of K blocks of g sub-blocks of D entries is one (block, sub-block, entry).
  lemma RowUnique(x: nat, s: nat, d: nat, x': nat, s': nat, d': nat, g: nat, D: nat)
    requires s < g && d < D && s' < g && d' < D
    requires RowOf(x, s, d, g, D) == RowOf(x', s', d', g, D)
    ensures x == x' && s == s' && d == d'
  {
    QuotientOf(x * g + s, D, d);
    QuotientOf(x' * g + s', D, d');
    QuotientOf(x, g, s);
    QuotientOf(x', g, s');
  }

  lemma RowExists(r: nat, K: nat, g: nat, D: nat) returns (x: nat, s: nat, d: nat)
    requires r < Rows(K, g, D)
    ensures x < K && s < g && d < D && RowOf(x, s, d, g, D) == r
  {
    QuotientInRange(r, K * g, D);
    QuotientInRange(r / D, K, g);
    x, s, d := r / D / g, r / D % g, r % D;
    assert r == r / D * D + r % D;
    assert r / D == r / D / g * g + r / D % g;
  }

  lemma RowInRange(x: nat, s: nat, d: nat, K: nat, g: nat, D: nat)
    requires x < K && s < g && d < D
    ensures RowOf(x, s, d, g, D) < Rows(K, g, D)
  {
    RowBound(x, K, s, g);
    RowBound(x * g + s, K * g, d, D);
  }

  // ---------- picking sub-blocks ----------

  function Whole(d: nat): Axis {
    Along(SlicePicks(0, d, 1))
  }

  lemma WholeAt(d: nat, k: nat)
    requires k < d
    ensures |SlicePicks(0, d, 1)| == d && SlicePicks(0, d, 1)[k] == k
  {
    FullSlice(d);
  }

  lemma WholeFits(d: nat)
    ensures AxisFits(Whole(d), d) && |Whole(d).picks| == d && ResolveIndex(FULL, d) == Ok(Whole(d))
  {
    FullSlice(d);
  }

  lemma PickShape(K: nat, picks: seq<nat>, D: nat, n: nat)
    ensures AxisShape([Whole(K), Along(picks), Whole(D), Whole(n)]) == [K, |picks|, D, n]
  {
    hide SlicePicks, AxisShape, AxisFits;
    WholeFits(K);
    WholeFits(D);
    WholeFits(n);
    NoAxes();
    AxisShapeLast([], Whole(K).picks);
    assert [] + [Whole(K)] == [Whole(K)];
    AxisShapeLast([Whole(K)], picks);
    assert [Whole(K)] + [Along(picks)] == [Whole(K), Along(picks)];
    assert AxisShape([Whole(K), Along(picks)]) == [K, |picks|];
    AxisShapeLast([Whole(K), Along(picks)], Whole(D).picks);
    assert [Whole(K), Along(picks)] + [Whole(D)] == [Whole(K), Along(picks), Whole(D)];
    AxisShapeLast([Whole(K), Along(picks), Whole(D)], Whole(n).picks);
    assert [Whole(K), Along(picks), Whole(D)] + [Whole(n)] == [Whole(K), Along(picks), Whole(D), Whole(n)];
  }

  lemma PickSource(K: nat, picks: seq<nat>, D: nat, n: nat, x: nat, s: nat, d: nat, c: nat)
    requires x < K && s < |picks| && d < D && c < n
    ensures InShape([x, s, d, c], AxisShape([Whole(K), Along(picks), Whole(D), Whole(n)]))
    ensures Source([Whole(K), Along(picks), Whole(D), Whole(n)], [x, s, d, c]) == [x, picks[s], d, c]
  {
    hide SlicePicks, Source, AxisShape, InShape;
    NothingInShape();
    WholeAt(K, x);
    WholeAt(D, d);
    WholeAt(n, c);
    SourceNone();
    SourceLast([], [], Whole(K).picks, x);
    assert [] + [Whole(K)] == [Whole(K)] && [] + [x] == [x];
    SourceLast([Whole(K)], [x], picks, s);
    assert [Whole(K)] + [Along(picks)] == [Whole(K), Along(picks)] && [x] + [s] == [x, s];
    SourceLast([Whole(K), Along(picks)], [x, s], Whole(D).picks, d);
    assert [Whole(K), Along(picks)] + [Whole(D)] == [Whole(K), Along(picks), Whole(D)] && [x, s] + [d] == [x, s, d];
    SourceLast([Whole(K), Along(picks), Whole(D)], [x, s, d], Whole(n).picks, c);
    assert [Whole(K), Along(picks), Whole(D)] + [Whole(n)] == [Whole(K), Along(picks), Whole(D), Whole(n)];
    assert [x, s, d] + [c] == [x, s, d, c];
  }

  // u[:, X] of a 4-D tensor, when X selects the sub-blocks picks.
  lemma PickBlocks<T>(u: Tensor<T>, X: Index, picks: seq<nat>, K: nat, g: nat, D: nat, n: nat)
    requires u.Valid() && u.shape == [K, g, D, n] && X != Ellipsis && ResolveIndex(X, g) == Ok(Along(picks))
    ensures AxesFit([Whole(K), Along(picks), Whole(D), Whole(n)], u.shape)
    ensures GetTuple(u, [FULL, X]) == Ok(Select(u, [Whole(K), Along(picks), Whole(D), Whole(n)]))
    ensures Select(u, [Whole(K), Along(picks), Whole(D), Whole(n)]).shape == [K, |picks|, D, n]
  {
    hide SlicePicks, Source, Select, Prod, AxisShape, At;
    PickShape(K, picks, D, n);
    WholeFits(K);
    WholeFits(D);
    WholeFits(n);
    ResolvedFits(X, g);
    assert Ellipsis !in [FULL, X];
    var full := [FULL, X, FULL, FULL];
    assert [FULL, X] + Fulls(2) == full;
    assert ExpandEllipsis([FULL, X], 4) == Ok(full);
    assert ResolveIndices(full, u.shape).value == [Whole(K), Along(picks), Whole(D), Whole(n)];
  }

  lemma PickedAt<T>(u: Tensor<T>, picks: seq<nat>, K: nat, g: nat, D: nat, n: nat, x: nat, s: nat, d: nat, c: nat)
    requires u.Valid() && u.shape == [K, g, D, n] && x < K && s < |picks| && d < D && c < n
    requires AxesFit([Whole(K), Along(picks), Whole(D), Whole(n)], u.shape)
    ensures var w := Select(u, [Whole(K), Along(picks), Whole(D), Whole(n)]);
            InShape([x, s, d, c], w.shape) && InShape([x, picks[s], d, c], u.shape)
            && At(w, [x, s, d, c]) == At(u, [x, picks[s], d, c])
  {
    hide SlicePicks, Source, Select, Prod, AxisShape, At, Ravel;
    PickSource(K, picks, D, n, x, s, d, c);
    SourceInShape([Whole(K), Along(picks), Whole(D), Whole(n)], u.shape, [x, s, d, c]);
  }

  // The picked sub-blocks laid out as a matrix.
  lemma PickedRows<T>(t: Tensor<T>, u: Tensor<T>, w: Tensor<T>, m: Tensor<T>, picks: seq<nat>,
                      K: nat, g: nat, D: nat, n: nat, x: nat, s: nat, d: nat)
    requires t.Valid() && u.Valid() && m.Valid() && t.shape == [Rows(K, g, D), n] && u.shape == [K, g, D, n]
    requires t.data == u.data && AxesFit([Whole(K), Along(picks), Whole(D), Whole(n)], u.shape)
    requires w == Select(u, [Whole(K), Along(picks), Whole(D), Whole(n)]) && w.shape == [K, |picks|, D, n]
    requires m.shape == [Rows(K, |picks|, D), n] && m.data == w.data
    requires x < K && s < |picks| && d < D && picks[s] < g
    ensures SameRow(t, RowOf(x, picks[s], d, g, D), m, RowOf(x, s, d, |picks|, D))
  {
    hide SlicePicks, Source, Select, Prod, AxisShape, At, Ravel;
    RowInRange(x, picks[s], d, K, g, D);
    RowInRange(x, s, d, K, |picks|, D);
    forall c: nat | c < n
      ensures At(t, [RowOf(x, picks[s], d, g, D), c]) == At(m, [RowOf(x, s, d, |picks|, D), c])
    {
      ViewAt(t, u, K, g, D, n, x, picks[s], d, c);
      PickedAt(u, picks, K, g, D, n, x, s, d, c);
      ViewAt(m, w, K, |picks|, D, n, x, s, d, c);
    }
  }

  // ---------- one sub-block, its axis dropped ----------

  lemma FixShape(K: nat, at: nat, D: nat, n: nat)
    ensures AxisShape([Whole(K), Fixed(at), Whole(D), Whole(n)]) == [K, D, n]
  {
    hide SlicePicks, AxisShape, AxisFits;
    WholeFits(K);
    WholeFits(D);
    WholeFits(n);
    NoAxes();
    AxisShapeLast([], Whole(K).picks);
    assert [] + [Whole(K)] == [Whole(K)];
    AxisShapeFixed([Whole(K)], Fixed(at));
    assert [Whole(K)] + [Fixed(at)] == [Whole(K), Fixed(at)];
    assert AxisShape([Whole(K), Fixed(at)]) == [K];
    AxisShapeLast([Whole(K), Fixed(at)], Whole(D).picks);
    assert [Whole(K), Fixed(at)] + [Whole(D)] == [Whole(K), Fixed(at), Whole(D)];
    AxisShapeLast([Whole(K), Fixed(at), Whole(D)], Whole(n).picks);
    assert [Whole(K), Fixed(at), Whole(D)] + [Whole(n)] == [Whole(K), Fixed(at), Whole(D), Whole(n)];
  }

  lemma FixSource(K: nat, at: nat, D: nat, n: nat, x: nat, d: nat, c: nat)
    requires x < K && d < D && c < n
    ensures InShape([x, d, c], AxisShape([Whole(K), Fixed(at), Whole(D), Whole(n)]))
    ensures Source([Whole(K), Fixed(at), Whole(D), Whole(n)], [x, d, c]) == [x, at, d, c]
  {
    hide SlicePicks, Source, AxisShape, InShape;
    NothingInShape();
    WholeAt(K, x);
    WholeAt(D, d);
    WholeAt(n, c);
    SourceNone();
    SourceLast([], [], Whole(K).picks, x);
    assert [] + [Whole(K)] == [Whole(K)] && [] + [x] == [x];
    SourceFixed([Whole(K)], at, [x]);
    assert [Whole(K)] + [Fixed(at)] == [Whole(K), Fixed(at)] && [x] + [at] == [x, at];
    SourceLast([Whole(K), Fixed(at)], [x], Whole(D).picks, d);
    assert [Whole(K), Fixed(at)] + [Whole(D)] == [Whole(K), Fixed(at), Whole(D)] && [x] + [d] == [x, d];
    SourceLast([Whole(K), Fixed(at), Whole(D)], [x, d], Whole(n).picks, c);
    assert [Whole(K), Fixed(at), Whole(D)] + [Whole(n)] == [Whole(K), Fixed(at), Whole(D), Whole(n)];
    assert [x, at] + [d] == [x, at, d] && [x, at, d] + [c] == [x, at, d, c] && [x, d] + [c] == [x, d, c];
  }

  // u[:, i] or u[:, i, :, :] of a 4-D tensor.
  lemma FixBlock<T>(u: Tensor<T>, xs: seq<Index>, i: int, at: nat, K: nat, g: nat, D: nat, n: nat)
    requires u.Valid() && u.shape == [K, g, D, n] && Wrap(i, g) == Ok(at)
    requires xs == [FULL, Int(i)] || xs == [FULL, Int(i), FULL, FULL]
    ensures AxesFit([Whole(K), Fixed(at), Whole(D), Whole(n)], u.shape)
    ensures GetTuple(u, xs) == Ok(Select(u, [Whole(K), Fixed(at), Whole(D), Whole(n)]))
    ensures Select(u, [Whole(K), Fixed(at), Whole(D), Whole(n)]).shape == [K, D, n]
  {
    hide SlicePicks, Source, Select, Prod, AxisShape, At;
    FixShape(K, at, D, n);
    WholeFits(K);
    WholeFits(D);
    WholeFits(n);
    assert Ellipsis !in xs;
    var full := [FULL, Int(i), FULL, FULL];
    assert xs + Fulls(4 - |xs|) == full;
    assert ExpandEllipsis(xs, 4) == Ok(full);
    assert ResolveIndices(full, u.shape).value == [Whole(K), Fixed(at), Whole(D), Whole(n)];
  }

  lemma FixedAt<T>(u: Tensor<T>, at: nat, K: nat, g: nat, D: nat, n: nat, x: nat, d: nat, c: nat)
    requires u.Valid() && u.shape == [K, g, D, n] && x < K && d < D && c < n
    requires AxesFit([Whole(K), Fixed(at), Whole(D), Whole(n)], u.shape)
    ensures var w := Select(u, [Whole(K), Fixed(at), Whole(D), Whole(n)]);
            InShape([x, d, c], w.shape) && InShape([x, at, d, c], u.shape)
            && At(w, [x, d, c]) == At(u, [x, at, d, c])
  {
    hide SlicePicks, Source, Select, Prod, AxisShape, At, Ravel;
    FixSource(K, at, D, n, x, d, c);
    SourceInShape([Whole(K), Fixed(at), Whole(D), Whole(n)], u.shape, [x, d, c]);
  }

  lemma Flat3At<T>(m: Tensor<T>, w: Tensor<T>, K: nat, D: nat, n: nat, x: nat, d: nat, c: nat)
    requires m.Valid() && w.Valid() && m.data == w.data && m.shape == [K * D, n] && w.shape == [K, D, n]
    requires x < K && d < D && c < n
    ensures InShape([x * D + d, c], m.shape) && At(m, [x * D + d, c]) == At(w, [x, d, c])
  {
    RowBound(x, K, d, D);
    Ravel3(w.shape, [x, d, c]);
    Ravel2(m.shape, [x * D + d, c]);
  }

  lemma FixedRows<T>(t: Tensor<T>, u: Tensor<T>, w: Tensor<T>, m: Tensor<T>, at: nat,
                     K: nat, g: nat, D: nat, n: nat, x: nat, d: nat)
    requires t.Valid() && u.Valid() && m.Valid() && t.shape == [Rows(K, g, D), n] && u.shape == [K, g, D, n]
    requires t.data == u.data && AxesFit([Whole(K), Fixed(at), Whole(D), Whole(n)], u.shape)
    requires w == Select(u, [Whole(K), Fixed(at), Whole(D), Whole(n)]) && w.shape == [K, D, n]
    requires m.shape == [K * D, n] && m.data == w.data
    requires x < K && d < D && at < g
    ensures SameRow(t, RowOf(x, at, d, g, D), m, x * D + d)
  {
    hide SlicePicks, Source, Select, Prod, AxisShape, At, Ravel;
    RowInRange(x, at, d, K, g, D);
    RowBound(x, K, d, D);
    forall c: nat | c < n ensures At(t, [RowOf(x, at, d, g, D), c]) == At(m, [x * D + d, c]) {
      ViewAt(t, u, K, g, D, n, x, at, d, c);
      FixedAt(u, at, K, g, D, n, x, d, c);
      Flat3At(m, w, K, D, n, x, d, c);
    }
  }

  // ---------- three matrices on top of each other ----------

  ghost predicate ThreeMatrices<T>(ts: seq<Tensor<T>>, n: nat) {
    |ts| == 3 && forall k :: 0 <= k < 3 ==> ts[k].Valid() && |ts[k].shape| == 2 && ts[k].shape[1] == n
  }

  lemma CatThree<T>(ts: seq<Tensor<T>>, n: nat)
    requires ThreeMatrices(ts, n)
    ensures forall t :: t in ts ==> t.Valid() && |t.shape| > 0
    ensures Heights(ts) == [ts[0].shape[0], ts[1].shape[0], ts[2].shape[0]]
    ensures Cat(ts).Ok? && Cat(ts).value.Valid()
    ensures Cat(ts).value.shape == [ts[0].shape[0] + ts[1].shape[0] + ts[2].shape[0], n]
  {
    hide Prod, At, Ravel, Locate, Sum;
    SumThree(ts[0].shape[0], ts[1].shape[0], ts[2].shape[0]);
    forall k | 0 <= k < 3 ensures ts[k].shape[1..] == [n] {
    }
    assert Stackable(ts);
  }

  lemma SumThree(a: nat, b: nat, c: nat)
    ensures Sum([c]) == c && Sum([b, c]) == b + c && Sum([a, b, c]) == a + b + c
  {
    assert [a, b, c][1..] == [b, c] && [b, c][1..] == [c] && [c][1..] == [];
    assert Sum([]) == 0;
    assert Sum([c]) == c + Sum([]);
    assert Sum([b, c]) == b + Sum([c]);
  }

  // The height of the pieces above piece k.
  function Above(a: nat, b: nat, k: nat): nat {
    if k == 0 then 0 else if k == 1 then a else a + b
  }

  lemma LocateThree(a: nat, b: nat, c: nat, k: nat, r: nat)
    requires k < 3 && r < [a, b, c][k]
    ensures Above(a, b, k) + r < Sum([a, b, c]) == a + b + c
    ensures Locate([a, b, c], Above(a, b, k) + r) == (k, r)
  {
    SumThree(a, b, c);
    assert [a, b, c][1..] == [b, c] && [b, c][1..] == [c];
    if k == 2 {
      assert Locate([c], r) == (0, r);
      assert Locate([b, c], b + r) == (1, r);
    } else if k == 1 {
      assert Locate([b, c], r) == (0, r);
    }
  }

  lemma CatRow<T>(ts: seq<Tensor<T>>, n: nat, k: nat, r: nat)
    requires ThreeMatrices(ts, n) && k < 3 && r < ts[k].shape[0]
    requires (forall t :: t in ts ==> t.Valid()) && Cat(ts).Ok?
    ensures SameRow(ts[k], r, Cat(ts).value, Above(ts[0].shape[0], ts[1].shape[0], k) + r)
  {
    hide Prod, At, Ravel, Locate, Sum, Cat;
    CatThree(ts, n);
    var q := Above(ts[0].shape[0], ts[1].shape[0], k) + r;
    LocateThree(ts[0].shape[0], ts[1].shape[0], ts[2].shape[0], k, r);
    forall j: nat | j < n ensures At(ts[k], [r, j]) == At(Cat(ts).value, [q, j]) {
      CatElement(ts, q, r, k, n, j);
    }
  }

  lemma CatElement<T>(ts: seq<Tensor<T>>, q: nat, r: nat, k: nat, n: nat, j: nat)
    requires (forall t :: t in ts ==> t.Valid()) && Cat(ts).Ok? && k < |ts| && ts[k].Valid()
    requires |ts[k].shape| == 2 && ts[k].shape[1] == n && |Cat(ts).value.shape| == 2 && Cat(ts).value.shape[1] == n
    requires q < Sum(Heights(ts)) && Locate(Heights(ts), q) == (k, r) && r < ts[k].shape[0] && j < n
    ensures InShape([q, j], Cat(ts).value.shape) && InShape([r, j], ts[k].shape)
    ensures At(Cat(ts).value, [q, j]) == At(ts[k], [r, j])
  {
    hide Prod, At, Ravel, Locate, Sum;
    var (k', src) := CatSource(ts, [q, j]);
    assert src[1..] == [q, j][1..] == [j];
    assert src == [r, j];
  }

  // ---------- Falcon ----------

  lemma GroupSizes(K: nat, g: nat, D: nat, n: nat)
    ensures Prod([K, g, D, n]) == Prod([Rows(K, g, D), n])
    ensures Prod([K, g, D]) == Prod([K * g, D]) == Prod([Rows(K, g, D)]) == Rows(K, g, D)
  {
    Prod4(K, g, D, n);
    Prod4(Rows(K, g, D), n, 0, 0);
    Prod4(K, g, D, 0);
    ProdOne(Rows(K, g, D));
    Prod4(K * g, D, 0, 0);
  }

  // The program view(...)[:, X].reshape(...) run on the fused matrix.
  lemma PartRuns<T>(part: Program, env: seq<Tensor<T>>, t: Tensor<T>, X: Index, picks: seq<nat>,
                    K: nat, g: nat, D: nat, n: nat) returns (u: Tensor<T>, w: Tensor<T>, m: Tensor<T>)
    requires forall x :: x in env ==> x.Valid()
    requires part.View? && part.e.AtTuple? && part.e.e.View? && part.e.xs == [FULL, X]
    requires RunDense(part.e.e.e, env) == Ok(t) && t.shape == [Rows(K, g, D), n]
    requires part.e.e.dims(t.shape) == [K, g, D, n] && part.dims([K, |picks|, D, n]) == [Rows(K, |picks|, D), n]
    requires X != Ellipsis && ResolveIndex(X, g) == Ok(Along(picks))
    ensures t.Valid() && u == Tensor([K, g, D, n], t.data) && u.Valid()
    ensures AxesFit([Whole(K), Along(picks), Whole(D), Whole(n)], u.shape)
    ensures w == Select(u, [Whole(K), Along(picks), Whole(D), Whole(n)]) && w.shape == [K, |picks|, D, n]
    ensures m == Tensor([Rows(K, |picks|, D), n], w.data) && m.Valid()
    ensures RunDense(part, env) == Ok(m)
  {
    hide At, Ravel, Prod, Select, GetTuple, ResolveIndex, Whole, Reshape, RunDense;
    GroupSizes(K, g, D, n);
    GroupSizes(K, |picks|, D, n);
    ViewRuns(part.e.e, env, t, [K, g, D, n]);
    u := Tensor([K, g, D, n], t.data);
    PickBlocks(u, X, picks, K, g, D, n);
    w := Select(u, [Whole(K), Along(picks), Whole(D), Whole(n)]);
    TupleRuns(part.e, env, u);
    ViewRuns(part, env, w, [Rows(K, |picks|, D), n]);
    m := Tensor([Rows(K, |picks|, D), n], w.data);
  }

  lemma ViewRuns<T>(e: Program, env: seq<Tensor<T>>, t: Tensor<T>, s: seq<nat>)
    requires forall x :: x in env ==> x.Valid()
    requires e.View? && RunDense(e.e, env) == Ok(t) && e.dims(t.shape) == s && Prod(s) == Prod(t.shape)
    ensures t.Valid() && Tensor(s, t.data).Valid() && RunDense(e, env) == Ok(Tensor(s, t.data))
  {
    hide Prod, Reshape;
    ReshapeTo(t, s);
  }

  lemma TupleRuns<T>(e: Program, env: seq<Tensor<T>>, t: Tensor<T>)
    requires forall x :: x in env ==> x.Valid()
    requires e.AtTuple? && RunDense(e.e, env) == Ok(t)
    ensures t.Valid() && RunDense(e, env) == GetTuple(t, e.xs)
  {
    hide GetTuple;
  }

  // The same, with what it does to the rows.
  lemma PartRows<T>(part: Program, env: seq<Tensor<T>>, t: Tensor<T>, X: Index, picks: seq<nat>,
                    K: nat, g: nat, D: nat, n: nat) returns (m: Tensor<T>)
    requires forall x :: x in env ==> x.Valid()
    requires part.View? && part.e.AtTuple? && part.e.e.View? && part.e.xs == [FULL, X]
    requires RunDense(part.e.e.e, env) == Ok(t) && t.shape == [Rows(K, g, D), n]
    requires part.e.e.dims(t.shape) == [K, g, D, n] && part.dims([K, |picks|, D, n]) == [Rows(K, |picks|, D), n]
    requires X != Ellipsis && ResolveIndex(X, g) == Ok(Along(picks))
    ensures m.Valid() && m.shape == [Rows(K, |picks|, D), n] && RunDense(part, env) == Ok(m)
    ensures forall x: nat, s: nat, d: nat :: x < K && s < |picks| && d < D ==>
              picks[s] < g && SameRow(t, RowOf(x, picks[s], d, g, D), m, RowOf(x, s, d, |picks|, D))
  {
    hide At, Ravel, Prod, Select, GetTuple, ResolveIndex, Whole, RunDense, SameRow, RowOf;
    var u, w, m' := PartRuns(part, env, t, X, picks, K, g, D, n);
    m := m';
    assert AxisFits([Whole(K), Along(picks), Whole(D), Whole(n)][1], u.shape[1]);
    forall x: nat, s: nat, d: nat | x < K && s < |picks| && d < D
      ensures picks[s] < g && SameRow(t, RowOf(x, picks[s], d, g, D), m, RowOf(x, s, d, |picks|, D))
    {
      PickedRows(t, u, w, m, picks, K, g, D, n, x, s, d);
    }
  }

  // Where row (x, s, d) of the fused matrix goes: queries first, then keys, then values.
  function FalconTarget(x: nat, s: nat, d: nat, K: nat, G: nat, D: nat): nat {
    if s < G then RowOf(x, s, d, G, D)
    else if s == G then Rows(K, G, D) + RowOf(x, 0, d, 1, D)
    else Rows(K, G, D) + (Rows(K, 1, D) + RowOf(x, 0, d, 1, D))
  }

  lemma FirstSlice(G: nat)
    ensures ResolveIndex(KEEP_ALL_BUT_TWO, G + 2) == Ok(Whole(G))
    ensures ResolveIndex(Slice(None, Some(G), None), G + 2) == Ok(Whole(G))
    ensures |Whole(G).picks| == G && forall s: nat :: s < G ==> Whole(G).picks[s] == s
  {
    FullSlice(G);
  }

  lemma LastTwo(G: nat)
    ensures ResolveIndex(List([-2]), G + 2) == Ok(Along([G]))
    ensures ResolveIndex(List([-1]), G + 2) == Ok(Along([G + 1]))
  {
    assert WrapAll([-2], G + 2).value == [G];
    assert WrapAll([-1], G + 2).value == [G + 1];
  }

  lemma SameRowTrans<T>(t: Tensor<T>, r: nat, u: Tensor<T>, q: nat, v: Tensor<T>, p: nat)
    requires SameRow(t, r, u, q) && SameRow(u, q, v, p)
    ensures SameRow(t, r, v, p)
  {
    hide At;
    forall c: nat | c < t.shape[1] ensures At(t, [r, c]) == At(v, [p, c]) {
      assert At(u, [q, c]) == At(v, [p, c]);
    }
  }

  lemma FalconSizes(K: nat, G: nat, D: nat)
    requires K > 0
    ensures K * G / K == G && K * G * D == Rows(K, G, D) && K * D == Rows(K, 1, D)
    ensures Rows(K, G, D) + Rows(K, 1, D) + Rows(K, 1, D) == Rows(K, G + 2, D)
  {
    QuotientOf(G, K, 0);
    assert K * G == G * K + 0;
    assert K * (G + 2) * D == K * G * D + K * D + K * D;
  }

  lemma {:induction false} AllRuns<T>(es: seq<Program>, env: seq<Tensor<T>>, ts: seq<Tensor<T>>)
    requires forall x :: x in env ==> x.Valid()
    requires |es| == |ts| && forall k :: 0 <= k < |es| ==> RunDense(es[k], env) == Ok(ts[k])
    ensures (forall t :: t in ts ==> t.Valid()) && RunAllDense(es, env) == Ok(ts)
  {
    hide RunDense;
    if es != [] {
      AllRuns(es[1..], env, ts[1..]);
      assert RunDense(es[0], env).value.Valid();
      assert ts == [ts[0]] + ts[1..];
    }
  }

  lemma CatRuns<T>(e: Program, env: seq<Tensor<T>>, ts: seq<Tensor<T>>)
    requires forall x :: x in env ==> x.Valid()
    requires e.CatOf? && |e.es| == |ts| == 3
    requires forall k :: 0 <= k < 3 ==> RunDense(e.es[k], env) == Ok(ts[k])
    ensures forall t :: t in ts ==> t.Valid()
    ensures RunDense(e, env) == Cat(ts)
  {
    hide Cat;
    var es := e.es;
    AllRuns(es, env, ts);
  }

  // Falcon's three parts of the fused matrix.
  lemma FalconParts<T>(e: Program, env: seq<Tensor<T>>, t: Tensor<T>, hidden: nat, K: nat, G: nat, D: nat)
    returns (ts: seq<Tensor<T>>)
    requires forall x :: x in env ==> x.Valid()
    requires K * G > 0 && K > 0 && G > 0 && D == hidden / (K * G)
    requires RunDense(e, env) == Ok(t) && t.shape == [Rows(K, G + 2, D), D * (K * G)]
    ensures |ts| == 3 && ThreeMatrices(ts, D * (K * G)) && FalconQkv(e, K * G, K, hidden).e.CatOf?
    ensures |FalconQkv(e, K * G, K, hidden).e.es| == 3
    ensures forall k :: 0 <= k < 3 ==> RunDense(FalconQkv(e, K * G, K, hidden).e.es[k], env) == Ok(ts[k])
    ensures ts[0].shape[0] == Rows(K, G, D) && ts[1].shape[0] == ts[2].shape[0] == Rows(K, 1, D)
    ensures forall x: nat, s: nat, d: nat :: x < K && s < G && d < D ==>
              SameRow(t, RowOf(x, s, d, G + 2, D), ts[0], RowOf(x, s, d, G, D))
    ensures forall x: nat, d: nat :: x < K && d < D ==>
              SameRow(t, RowOf(x, G, d, G + 2, D), ts[1], RowOf(x, 0, d, 1, D))
    ensures forall x: nat, d: nat :: x < K && d < D ==>
              SameRow(t, RowOf(x, G + 1, d, G + 2, D), ts[2], RowOf(x, 0, d, 1, D))
  {
    hide RunDense, SameRow, RowOf, ResolveIndex, Rows, Prod;
    var n := D * (K * G);
    FalconSizes(K, G, D);
    FirstSlice(G);
    LastTwo(G);
    var es := FalconQkv(e, K * G, K, hidden).e.es;
    var q := PartRows(es[0], env, t, KEEP_ALL_BUT_TWO, Whole(G).picks, K, G + 2, D, n);
    var k := PartRows(es[1], env, t, List([-2]), [G], K, G + 2, D, n);
    var v := PartRows(es[2], env, t, List([-1]), [G + 1], K, G + 2, D, n);
    ts := [q, k, v];
    forall x: nat, s: nat, d: nat | x < K && s < G && d < D
      ensures SameRow(t, RowOf(x, s, d, G + 2, D), q, RowOf(x, s, d, G, D))
    {
      assert Whole(G).picks[s] == s;
    }
    forall x: nat, d: nat | x < K && d < D
      ensures SameRow(t, RowOf(x, G, d, G + 2, D), k, RowOf(x, 0, d, 1, D))
    {
      assert [G][0] == G;
      var r := RowOf(x, 0, d, |[G]|, D);
    }
    forall x: nat, d: nat | x < K && d < D
      ensures SameRow(t, RowOf(x, G + 1, d, G + 2, D), v, RowOf(x, 0, d, 1, D))
    {
      assert [G + 1][0] == G + 1;
      var r := RowOf(x, 0, d, |[G + 1]|, D);
    }
  }

  // The program cat(es).reshape_as(e), when the concatenation has e's shape.
  lemma CatAsRuns<T>(prog: Program, env: seq<Tensor<T>>, t: Tensor<T>, ts: seq<Tensor<T>>, n: nat)
    requires forall x :: x in env ==> x.Valid()
    requires prog.ViewAs? && prog.e.CatOf? && RunDense(prog.like, env) == Ok(t)
    requires ThreeMatrices(ts, n) && |ts| == |prog.e.es| == 3
    requires forall k :: 0 <= k < 3 ==> RunDense(prog.e.es[k], env) == Ok(ts[k])
    requires t.shape == [ts[0].shape[0] + ts[1].shape[0] + ts[2].shape[0], n]
    ensures (forall x :: x in ts ==> x.Valid()) && Cat(ts).Ok?
    ensures RunDense(prog, env) == Cat(ts) && Cat(ts).value.Valid() && Cat(ts).value.shape == t.shape
  {
    hide Prod, Cat, ThreeMatrices, Reshape;
    CatRuns(prog.e, env, ts);
    CatThree(ts, n);
    ReshapeTo(Cat(ts).value, t.shape);
  }

  // Falcon: row (x, s, d) of the fused matrix is row FalconTarget(x, s, d) of the result, which has
  // the same shape.
  lemma FalconRows<T>(e: Program, env: seq<Tensor<T>>, t: Tensor<T>, hidden: nat, K: nat, G: nat, D: nat)
    requires forall x :: x in env ==> x.Valid()
    requires K * G > 0 && K > 0 && G > 0 && D == hidden / (K * G)
    requires RunDense(e, env) == Ok(t) && t.shape == [Rows(K, G + 2, D), D * (K * G)]
    ensures var r := RunDense(FalconQkv(e, K * G, K, hidden), env);
            && r.Ok? && r.value.Valid() && r.value.shape == t.shape
            && forall x: nat, s: nat, d: nat :: x < K && s < G + 2 && d < D ==>
                 SameRow(t, RowOf(x, s, d, G + 2, D), r.value, FalconTarget(x, s, d, K, G, D))
  {
    hide SameRow, RowOf, Rows, Prod, Cat, ThreeMatrices, RunDense;
    var ts := FalconParts(e, env, t, hidden, K, G, D);
    FalconSizes(K, G, D);
    var prog, n := FalconQkv(e, K * G, K, hidden), D * (K * G);
    CatAsRuns(prog, env, t, ts, n);
    var u := Cat(ts).value;
    forall x: nat, s: nat, d: nat | x < K && s < G + 2 && d < D
      ensures SameRow(t, RowOf(x, s, d, G + 2, D), u, FalconTarget(x, s, d, K, G, D))
    {
      var k := if s < G then 0 else if s == G then 1 else 2;
      var r := if s < G then RowOf(x, s, d, G, D) else RowOf(x, 0, d, 1, D);
      assert SameRow(t, RowOf(x, s, d, G + 2, D), ts[k], r);
      StackedRow(t, ts, n, k, RowOf(x, s, d, G + 2, D), r);
    }
  }

  lemma StackedRow<T>(t: Tensor<T>, ts: seq<Tensor<T>>, n: nat, k: nat, r: nat, q: nat)
    requires ThreeMatrices(ts, n) && |ts| == 3 && k < 3 && SameRow(t, r, ts[k], q)
    requires (forall x :: x in ts ==> x.Valid()) && Cat(ts).Ok?
    ensures |ts[0].shape| > 0 && |ts[1].shape| > 0
    ensures SameRow(t, r, Cat(ts).value, Above(ts[0].shape[0], ts[1].shape[0], k) + q)
  {
    hide Cat, At;
    CatRow(ts, n, k, q);
    SameRowTrans(t, r, ts[k], q, Cat(ts).value, Above(ts[0].shape[0], ts[1].shape[0], k) + q);
  }

  // Every row of the result is the target of exactly one row of the fused matrix.
  lemma FalconTargetUnique(x: nat, s: nat, d: nat, x': nat, s': nat, d': nat, K: nat, G: nat, D: nat)
    requires x < K && s < G + 2 && d < D && x' < K && s' < G + 2 && d' < D
    requires FalconTarget(x, s, d, K, G, D) == FalconTarget(x', s', d', K, G, D)
    ensures x == x' && s == s' && d == d'
  {
    FalconPart(x, s, d, K, G, D);
    FalconPart(x', s', d', K, G, D);
    if s < G {
      RowUnique(x, s, d, x', s', d', G, D);
    } else {
      RowUnique(x, 0, d, x', 0, d', 1, D);
    }
  }

  // Queries, keys and values occupy consecutive ranges of rows.
  lemma FalconPart(x: nat, s: nat, d: nat, K: nat, G: nat, D: nat)
    requires x < K && s < G + 2 && d < D
    ensures s < G <==> FalconTarget(x, s, d, K, G, D) < Rows(K, G, D)
    ensures s <= G <==> FalconTarget(x, s, d, K, G, D) < Rows(K, G, D) + Rows(K, 1, D)
    ensures FalconTarget(x, s, d, K, G, D) < Rows(K, G, D) + Rows(K, 1, D) + Rows(K, 1, D)
  {
    RowInRange(x, 0, d, K, 1, D);
    if s < G {
      RowInRange(x, s, d, K, G, D);
    }
  }

  lemma FalconTargetOnto(q: nat, K: nat, G: nat, D: nat) returns (x: nat, s: nat, d: nat)
    requires K > 0 && q < Rows(K, G + 2, D)
    ensures x < K && s < G + 2 && d < D && FalconTarget(x, s, d, K, G, D) == q
  {
    FalconSizes(K, G, D);
    var a, b := Rows(K, G, D), Rows(K, 1, D);
    if q < a {
      x, s, d := RowExists(q, K, G, D);
    } else if q < a + b {
      x, s, d := RowExists(q - a, K, 1, D);
      s := G;
    } else {
      x, s, d := RowExists(q - a - b, K, 1, D);
      s := G + 1;
    }
  }

  // ---------- GPT-NeoX ----------

  // reshape(-1, n) of a tensor that holds N rows of n entries.
  lemma InferRows<T>(w: Tensor<T>, N: nat, n: nat)
    requires w.Valid() && n > 0 && Prod(w.shape) == N * n
    ensures Reshape(w, Matrix(-1, n)) == Ok(Tensor([N, n], w.data)) && Tensor([N, n], w.data).Valid()
  {
    hide Prod;
    var dims := Matrix(-1, n);
    assert dims[..1] == [-1] && dims[..1][..0] == [];
    assert Known([]) == 1;
    assert Known([-1]) == 1;
    assert Known(dims) == n;
    QuotientOf(N, n, 0);
    assert N * n % n == 0 && N * n / n == N;
    assert Fill(dims, N) == [N, n];
    assert InfersAtMostOne(dims);
    Prod4(N, n, 0, 0);
  }

  // The program view(...)[:, i(, :, :)].reshape(-1, n) run on the fused matrix.
  lemma BlockRuns<T>(part: Program, env: seq<Tensor<T>>, t: Tensor<T>, i: int, at: nat, K: nat, g: nat, D: nat, n: nat)
    returns (m: Tensor<T>)
    requires forall x :: x in env ==> x.Valid()
    requires part.View? && part.e.AtTuple? && part.e.e.View?
    requires part.e.xs == [FULL, Int(i)] || part.e.xs == [FULL, Int(i), FULL, FULL]
    requires RunDense(part.e.e.e, env) == Ok(t) && t.shape == [Rows(K, g, D), n] && n > 0
    requires part.e.e.dims(t.shape) == [K, g, D, n] && part.dims([K, D, n]) == Matrix(-1, n)
    requires Wrap(i, g) == Ok(at)
    ensures m.Valid() && m.shape == [K * D, n] && RunDense(part, env) == Ok(m)
    ensures forall x: nat, d: nat :: x < K && d < D ==> SameRow(t, RowOf(x, at, d, g, D), m, RowOf(x, 0, d, 1, D))
  {
    hide At, Ravel, Prod, Select, GetTuple, Whole, Reshape, RunDense, SameRow;
    GroupSizes(K, g, D, n);
    ViewRuns(part.e.e, env, t, [K, g, D, n]);
    var u := Tensor([K, g, D, n], t.data);
    FixBlock(u, part.e.xs, i, at, K, g, D, n);
    var w := Select(u, [Whole(K), Fixed(at), Whole(D), Whole(n)]);
    TupleRuns(part.e, env, u);
    Prod4(K, D, n, 0);
    InferRows(w, K * D, n);
    FlattenRuns(part, env, w, K * D, n);
    m := Tensor([K * D, n], w.data);
    forall x: nat, d: nat | x < K && d < D ensures SameRow(t, RowOf(x, at, d, g, D), m, RowOf(x, 0, d, 1, D)) {
      FixedRows(t, u, w, m, at, K, g, D, n, x, d);
      assert RowOf(x, 0, d, 1, D) == x * D + d;
    }
  }

  lemma FlattenRuns<T>(e: Program, env: seq<Tensor<T>>, w: Tensor<T>, N: nat, n: nat)
    requires forall x :: x in env ==> x.Valid()
    requires e.View? && RunDense(e.e, env) == Ok(w) && e.dims(w.shape) == Matrix(-1, n)
    requires Reshape(w, Matrix(-1, n)) == Ok(Tensor([N, n], w.data))
    ensures RunDense(e, env) == Ok(Tensor([N, n], w.data))
  {
    hide Reshape;
  }

  // GPT-NeoX: row (h, s, d) of the fused matrix is row (s, h, d) of the result: all queries, then
  // all keys, then all values.
  lemma NeoxRows<T>(e: Program, env: seq<Tensor<T>>, t: Tensor<T>, H: nat, D: nat)
    requires forall x :: x in env ==> x.Valid()
    requires H > 0 && D > 0
    requires RunDense(e, env) == Ok(t) && t.shape == [Rows(H, 3, D), H * D]
    ensures var r := RunDense(NeoxQkv(e, H, H * D), env);
            && r.Ok? && r.value.Valid() && r.value.shape == t.shape
            && forall h: nat, s: nat, d: nat :: h < H && s < 3 && d < D ==>
                 SameRow(t, RowOf(h, s, d, 3, D), r.value, RowOf(s, h, d, H, D))
  {
    hide SameRow, RowOf, Prod, Cat, RunDense, At, Rows;
    var n := H * D;
    NeoxSizes(H, D);
    var prog := NeoxQkv(e, H, n);
    var a := BlockRuns(prog.es[0], env, t, 0, 0, H, 3, D, n);
    var b := BlockRuns(prog.es[1], env, t, 1, 1, H, 3, D, n);
    var c := BlockRuns(prog.es[2], env, t, 2, 2, H, 3, D, n);
    var ts := [a, b, c];
    CatRuns(prog, env, ts);
    CatThree(ts, n);
    var u := Cat(ts).value;
    forall h: nat, s: nat, d: nat | h < H && s < 3 && d < D
      ensures SameRow(t, RowOf(h, s, d, 3, D), u, RowOf(s, h, d, H, D))
    {
      assert SameRow(t, RowOf(h, s, d, 3, D), ts[s], RowOf(h, 0, d, 1, D));
      StackedRow(t, ts, n, s, RowOf(h, s, d, 3, D), RowOf(h, 0, d, 1, D));
      NeoxTarget(h, s, d, H, D);
    }
  }

  lemma NeoxSizes(H: nat, D: nat)
    requires H > 0 && D > 0
    ensures H * D / H == D && H * D > 0 && Rows(H, 3, D) == H * D + H * D + H * D
  {
    QuotientOf(D, H, 0);
    assert H * D == D * H + 0;
    assert H * 3 * D == 3 * (H * D);
  }

  lemma NeoxTarget(h: nat, s: nat, d: nat, H: nat, D: nat)
    requires s < 3
    ensures Above(H * D, H * D, s) + RowOf(h, 0, d, 1, D) == RowOf(s, h, d, H, D)
  {
    assert RowOf(s, h, d, H, D) == s * H * D + h * D + d;
    assert s * H * D == s * (H * D);
  }

  // ---------- InternLM2 ----------

  lemma InternSizes(K: nat, G: nat, E: nat)
    requires K > 0 && G > 0 && E > 0
    ensures K * G >= K && K * G > 0 && K * G / K == G && K * G / G == K
    ensures K * G * (2 * E) / (K * G) == 2 * E && K * G * (2 * E) > 0
    ensures Rows(K, G, 2 * E) == K * G * (2 * E)
  {
    QuotientOf(G, K, 0);
    assert K * G == G * K + 0;
    QuotientOf(K, G, 0);
    assert K * G == K * G + 0;
    assert K * G >= K * 1;
    QuotientOf(2 * E, K * G, 0);
    assert K * G * (2 * E) == 2 * E * (K * G) + 0;
  }

  // The queries before their head permutation.
  lemma InternQueries<T>(e: Program, env: seq<Tensor<T>>, t: Tensor<T>, K: nat, G: nat, E: nat) returns (m: Tensor<T>)
    requires forall x :: x in env ==> x.Valid()
    requires K > 0 && G > 0 && E > 0 && K * G >= K
    requires RunDense(e, env) == Ok(t) && t.shape == [Rows(K, G + 2, 2 * E), K * G * (2 * E)]
    ensures InternQ(e, K * G, K, K * G * (2 * E)).ViewAs?
    ensures m.Valid() && m.shape == [K * G * (2 * E), K * G * (2 * E)]
    ensures RunDense(InternQ(e, K * G, K, K * G * (2 * E)).like, env) == Ok(m)
    ensures forall x: nat, s: nat, d: nat :: x < K && s < G && d < 2 * E ==>
              SameRow(t, RowOf(x, s, d, G + 2, 2 * E), m, RowOf(x, s, d, G, 2 * E))
  {
    hide At, Ravel, Prod, Select, GetTuple, Reshape, RunDense, SameRow, RowOf, ResolveIndex;
    InternSizes(K, G, E);
    var n, D := K * G * (2 * E), 2 * E;
    var part := InternQ(e, K * G, K, n).like;
    GroupSizes(K, G + 2, D, n);
    GroupSizes(K, G, D, n);
    ViewRuns(part.e.e, env, t, [K, G + 2, D, n]);
    var u := Tensor([K, G + 2, D, n], t.data);
    FirstSlice(G);
    PickBlocks(u, Slice(None, Some(G), None), Whole(G).picks, K, G + 2, D, n);
    var w := Select(u, [Whole(K), Whole(G), Whole(D), Whole(n)]);
    TupleRuns(part.e, env, u);
    Prod4(Rows(K, G, D), n, 0, 0);
    InferRows(w, Rows(K, G, D), n);
    FlattenRuns(part, env, w, Rows(K, G, D), n);
    m := Tensor([Rows(K, G, D), n], w.data);
    FirstRows(t, u, w, m, K, G, D, n);
  }

  lemma FirstRows<T>(t: Tensor<T>, u: Tensor<T>, w: Tensor<T>, m: Tensor<T>, K: nat, G: nat, D: nat, n: nat)
    requires t.Valid() && u.Valid() && t.data == u.data && t.shape == [Rows(K, G + 2, D), n] && u.shape == [K, G + 2, D, n]
    requires AxesFit([Whole(K), Whole(G), Whole(D), Whole(n)], u.shape)
    requires w == Select(u, [Whole(K), Whole(G), Whole(D), Whole(n)]) && w.shape == [K, G, D, n]
    requires m.Valid() && m.data == w.data && m.shape == [Rows(K, G, D), n]
    ensures forall x: nat, s: nat, d: nat :: x < K && s < G && d < D ==>
              SameRow(t, RowOf(x, s, d, G + 2, D), m, RowOf(x, s, d, G, D))
  {
    hide At, Ravel, Prod, Select, SameRow, RowOf;
    FirstSlice(G);
    forall x: nat, s: nat, d: nat | x < K && s < G && d < D
      ensures SameRow(t, RowOf(x, s, d, G + 2, D), m, RowOf(x, s, d, G, D))
    {
      PickedRows(t, u, w, m, Whole(G).picks, K, G + 2, D, n, x, s, d);
    }
  }

  // Row i*(D/2) + j of sub-block s of block x, and where a query row ends up.
  function HalfRow(x: nat, s: nat, i: nat, j: nat, g: nat, E: nat): nat {
    RowOf(x, s, i * E + j, g, 2 * E)
  }

  function InternQTarget(x: nat, s: nat, i: nat, j: nat, G: nat, E: nat): nat {
    LlamaTarget(x * G + s, i, j, E)
  }

  lemma HalfRowIsSource(x: nat, s: nat, i: nat, j: nat, G: nat, E: nat)
    requires i < 2 && j < E
    ensures HalfRow(x, s, i, j, G, E) == LlamaSource(x * G + s, i, j, E) && i * E + j < 2 * E
  {
    RowBound(i, 2, j, E);
  }

  // Query row (x, s, i, j) of the fused matrix is row LlamaTarget(x*G + s, i, j) of the queries.
  lemma InternQRows<T>(e: Program, env: seq<Tensor<T>>, t: Tensor<T>, K: nat, G: nat, E: nat)
    requires forall x :: x in env ==> x.Valid()
    requires K > 0 && G > 0 && E > 0 && K * G >= K
    requires RunDense(e, env) == Ok(t) && t.shape == [Rows(K, G + 2, 2 * E), K * G * (2 * E)]
    ensures var r := RunDense(InternQ(e, K * G, K, K * G * (2 * E)), env);
            && r.Ok? && r.value.Valid() && r.value.shape == [K * G * (2 * E), K * G * (2 * E)]
            && forall x: nat, s: nat, i: nat, j: nat {:trigger InternQTarget(x, s, i, j, G, E)} ::
                 x < K && s < G && i < 2 && j < E ==>
                   SameRow(t, HalfRow(x, s, i, j, G + 2, E), r.value, InternQTarget(x, s, i, j, G, E))
  {
    hide SameRow, SameBlock, RunDense, LlamaTarget, LlamaSource, Prod, Rows, RowOf;
    InternSizes(K, G, E);
    var m := InternQueries(e, env, t, K, G, E);
    LlamaPermuteRows(InternQ(e, K * G, K, K * G * (2 * E)).like, env, m, K * G, Some(K * G), E);
    var r := RunDense(InternQ(e, K * G, K, K * G * (2 * E)), env).value;
    forall x: nat, s: nat, i: nat, j: nat {:trigger InternQTarget(x, s, i, j, G, E)} |
      x < K && s < G && i < 2 && j < E
      ensures SameRow(t, HalfRow(x, s, i, j, G + 2, E), r, InternQTarget(x, s, i, j, G, E))
    {
      RowBound(x, K, s, G);
      HalfRowIsSource(x, s, i, j, G, E);
      BlockIsRow(m, HalfRow(x, s, i, j, G, E), r, InternQTarget(x, s, i, j, G, E));
      SameRowTrans(t, HalfRow(x, s, i, j, G + 2, E), m, HalfRow(x, s, i, j, G, E), r, InternQTarget(x, s, i, j, G, E));
    }
  }

  // Key row (x, i, j) of the fused matrix is row LlamaTarget(x, i, j) of the keys.
  lemma InternKRows<T>(e: Program, env: seq<Tensor<T>>, t: Tensor<T>, K: nat, G: nat, E: nat)
    requires forall x :: x in env ==> x.Valid()
    requires K > 0 && G > 0 && E > 0 && K * G >= K
    requires RunDense(e, env) == Ok(t) && t.shape == [Rows(K, G + 2, 2 * E), K * G * (2 * E)]
    ensures var k := RunDense(InternK(e, K * G, K, K * G * (2 * E)), env);
            && k.Ok? && k.value.Valid() && k.value.shape == [K * (2 * E), K * G * (2 * E)]
            && forall x: nat, i: nat, j: nat :: x < K && i < 2 && j < E ==>
                 SameRow(t, HalfRow(x, G, i, j, G + 2, E), k.value, LlamaTarget(x, i, j, E))
  {
    hide SameRow, SameBlock, RunDense, LlamaTarget, LlamaSource, Prod, Rows, RowOf;
    InternSizes(K, G, E);
    var n := K * G * (2 * E);
    var prog := InternK(e, K * G, K, n);
    var m := BlockRuns(prog.like, env, t, -2, G, K, G + 2, 2 * E, n);
    LlamaPermuteRows(prog.like, env, m, K * G, Some(K), E);
    var k := RunDense(prog, env).value;
    forall x: nat, i: nat, j: nat | x < K && i < 2 && j < E
      ensures SameRow(t, HalfRow(x, G, i, j, G + 2, E), k, LlamaTarget(x, i, j, E))
    {
      HalfRowIsSource(x, 0, i, j, 1, E);
      BlockIsRow(m, HalfRow(x, 0, i, j, 1, E), k, LlamaTarget(x, i, j, E));
      SameRowTrans(t, HalfRow(x, G, i, j, G + 2, E), m, HalfRow(x, 0, i, j, 1, E), k, LlamaTarget(x, i, j, E));
    }
  }

  // Value row (x, d) of the fused matrix is row x*D + d of the values.
  lemma InternVRows<T>(e: Program, env: seq<Tensor<T>>, t: Tensor<T>, K: nat, G: nat, E: nat)
    requires forall x :: x in env ==> x.Valid()
    requires K > 0 && G > 0 && E > 0 && K * G >= K
    requires RunDense(e, env) == Ok(t) && t.shape == [Rows(K, G + 2, 2 * E), K * G * (2 * E)]
    ensures var v := RunDense(InternV(e, K * G, K, K * G * (2 * E)), env);
            && v.Ok? && v.value.Valid() && v.value.shape == [K * (2 * E), K * G * (2 * E)]
            && forall x: nat, d: nat :: x < K && d < 2 * E ==>
                 SameRow(t, RowOf(x, G + 1, d, G + 2, 2 * E), v.value, RowOf(x, 0, d, 1, 2 * E))
  {
    hide SameRow, RunDense, Prod, Rows, RowOf;
    InternSizes(K, G, E);
    var v := BlockRuns(InternV(e, K * G, K, K * G * (2 * E)), env, t, -1, G + 1, K, G + 2, 2 * E, K * G * (2 * E));
  }
}
