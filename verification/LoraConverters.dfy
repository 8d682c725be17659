// The converters' programs run on LoRA pairs: they go through, and denote the re-layout of the product.
module LoraConverters {
  import opened Outcomes
  import opened Tensors
  import opened LoraPairs
  import opened LoraHomomorphism
  import opened LoraReshape
  import opened LoraIndexing
  import opened LoraGetItem
  import opened LoraStacking
  import opened LoraPrograms
  import opened Relayouts
  import opened QkvSplits

  // e runs on the pairs of env without a departure from torch, and gives p, whose A is shared.
  ghost predicate Gives<T(!new)>(R: Arith<T>, e: Program, env: seq<Pair<T>>, p: Pair<T>) {
    && (forall x :: x in env ==> x.WellFormed())
    && RunPair(e, env) == Ok(p) && Faithful(R, e, env) && FlatA(p)
  }

  lemma FlatData<T>(p: Pair<T>)
    requires FlatA(p)
    ensures Prod(p.A.shape) == p.Rank() * p.RowSize()
    ensures Prod(p.B.shape) == Prod(p.B.shape[..p.Dim() - 1]) * p.Rank()
  {
    hide Prod;
    var d := p.Dim();
    OnesProd(p.A.shape[..d - 2]);
    ProdLast(p.A.shape[..d - 2], p.Rank());
    ProdLast(p.A.shape[..d - 1], p.RowSize());
    assert p.A.shape[..d - 1] == p.A.shape[..d - 2] + [p.Rank()];
    assert p.A.shape == p.A.shape[..d - 1] + [p.RowSize()];
    ProdLast(p.B.shape[..d - 1], p.Rank());
    assert p.B.shape == p.B.shape[..d - 1] + [p.Rank()];
  }

  // The pair with its rows reshaped.
  ghost function Reshaped<T>(p: Pair<T>, rows: seq<nat>): (q: Pair<T>)
    requires FlatA(p) && rows != [] && Prod(rows) == Prod(p.B.shape[..p.Dim() - 1])
    ensures FlatA(q) && q.Rank() == p.Rank() && q.RowSize() == p.RowSize() && q.Dim() == |rows| + 1
    ensures q.Shape() == rows + [p.RowSize()] && q.B.shape == rows + [p.Rank()]
    ensures q.A.data == p.A.data && q.B.data == p.B.data
    ensures |rows| == 1 ==> q.A.shape == [p.Rank(), p.RowSize()]
  {
    FlatData(p);
    var ones: seq<nat> := Ones(|rows| - 1);
    OnesProd(ones);
    var sa, sb := ones + [p.Rank()] + [p.RowSize()], rows + [p.Rank()];
    ProdLast(ones, p.Rank());
    ProdLast(ones + [p.Rank()], p.RowSize());
    ProdLast(rows, p.Rank());
    assert sb[..|rows|] == rows;
    Pair(Tensor(sa, p.A.data), Tensor(sb, p.B.data))
  }

  lemma ReshapePairRuns<T>(p: Pair<T>, dims: seq<int>, rows: seq<nat>)
    requires FlatA(p) && rows != [] && Prod(rows) == Prod(p.B.shape[..p.Dim() - 1])
    requires |dims| >= 2 && ExpandInfer(dims, Prod(p.Shape())) == Ok(rows + [p.RowSize()])
    ensures ReshapePair(p, dims) == Ok(Reshaped(p, rows))
  {
    hide Prod, Known;
    var q := Reshaped(p, rows);
    var ds: seq<int> := rows + [p.RowSize()];
    assert ds[..|ds| - 1] + [p.Rank()] == q.B.shape;
    assert Ones(|ds| - 2) + [p.Rank(), p.RowSize()] == q.A.shape;
    PlainDims(q.A.shape, Prod(p.A.shape));
    PlainDims(q.B.shape, Prod(p.B.shape));
  }

  lemma ViewGives<T(!new)>(R: Arith<T>, e: Program, env: seq<Pair<T>>, p: Pair<T>, rows: seq<nat>)
    requires e.View? && Gives(R, e.e, env, p) && rows != [] && Prod(rows) == Prod(p.B.shape[..p.Dim() - 1])
    requires e.dims(p.Shape()) == rows + [p.RowSize()]
    ensures Gives(R, e, env, Reshaped(p, rows))
  {
    hide Prod, ReshapePair, Faithful, RunPair, KeepsSize;
    ReshapePairRuns(p, e.dims(p.Shape()), rows);
    RowsKeepSize(p, rows);
    ViewIsFaithful(R, e, env, p, Reshaped(p, rows));
  }

  lemma ViewIsFaithful<T(!new)>(R: Arith<T>, e: Program, env: seq<Pair<T>>, p: Pair<T>, q: Pair<T>)
    requires e.View? && Gives(R, e.e, env, p) && KeepsSize(e.dims(p.Shape()), Prod(p.Shape()))
    requires ReshapePair(p, e.dims(p.Shape())) == Ok(q) && FlatA(q)
    ensures Gives(R, e, env, q)
  {
    hide Prod, ReshapePair, KeepsSize;
  }

  // As many rows are as many elements.
  lemma RowsKeepSize<T>(p: Pair<T>, rows: seq<nat>)
    requires p.WellFormed() && Prod(rows) == Prod(p.B.shape[..p.Dim() - 1])
    ensures KeepsSize(rows + [p.RowSize()], Prod(p.Shape()))
  {
    hide Prod, Known;
    KnownOfNats(rows + [p.RowSize()]);
    ProdLast(rows, p.RowSize());
    FlatSize(p);
  }

  // reshape(-1, row size)
  lemma FlattenGives<T(!new)>(R: Arith<T>, e: Program, env: seq<Pair<T>>, p: Pair<T>, N: nat)
    requires e.View? && Gives(R, e.e, env, p) && p.RowSize() > 0 && N == Prod(p.B.shape[..p.Dim() - 1])
    requires e.dims(p.Shape()) == Matrix(-1, p.RowSize())
    ensures Prod([N]) == N && Gives(R, e, env, Reshaped(p, [N]))
  {
    hide Prod, ReshapePair, Gives, FlatA, ExpandInfer;
    GivesFlat(R, e.e, env, p);
    var n, rows := p.RowSize(), p.B.shape[..p.Dim() - 1];
    ProdOne(N);
    FlatSize(p);
    FlattenDims(N, n);
    ReshapePairRuns(p, Matrix(-1, n), [N]);
    FlattenKeepsSize(N, n);
    ViewIsFaithful(R, e, env, p, Reshaped(p, [N]));
  }

  lemma FlatSize<T>(p: Pair<T>)
    requires p.WellFormed()
    ensures Prod(p.Shape()) == Prod(p.B.shape[..p.Dim() - 1]) * p.RowSize()
  {
    hide Prod;
    ProdLast(p.B.shape[..p.Dim() - 1], p.RowSize());
  }

  lemma FlattenDims(N: nat, n: nat)
    requires n > 0
    ensures ExpandInfer(Matrix(-1, n), N * n) == Ok([N] + [n])
  {
    var dims := Matrix(-1, n);
    assert dims[..1] == [-1] && dims[..1][..0] == [];
    assert Known([]) == 1 && Known([-1]) == 1 && Known(dims) == n;
    QuotientOf(N, n, 0);
    assert N * n % n == 0 && N * n / n == N;
    assert Fill(dims, N) == [N] + [n];
  }

  lemma FlattenKeepsSize(N: nat, n: nat)
    ensures KeepsSize(Matrix(-1, n), N * n)
  {
  }

  lemma ViewAsGives<T(!new)>(R: Arith<T>, e: Program, env: seq<Pair<T>>, p: Pair<T>, q: Pair<T>, rows: seq<nat>)
    requires e.ViewAs? && Gives(R, e.e, env, p) && Gives(R, e.like, env, q)
    requires rows != [] && Prod(rows) == Prod(p.B.shape[..p.Dim() - 1])
    requires q.Shape() == rows + [p.RowSize()]
    ensures FlatA(p) && Gives(R, e, env, Reshaped(p, rows))
  {
    hide Prod, ReshapePair, FlatA, KeepsSize, Gives;
    GivesFlat(R, e.e, env, p);
    GivesFlat(R, e.like, env, q);
    ReshapeAs(p, q, rows);
    RowsKeepSize(p, rows);
    ViewAsIsFaithful(R, e, env, p, q, Reshaped(p, rows));
  }

  lemma ViewAsIsFaithful<T(!new)>(R: Arith<T>, e: Program, env: seq<Pair<T>>, p: Pair<T>, q: Pair<T>, r: Pair<T>)
    requires e.ViewAs? && Gives(R, e.e, env, p) && Gives(R, e.like, env, q)
    requires KeepsSize(q.Shape(), Prod(p.Shape())) && ReshapePair(p, q.Shape()) == Ok(r) && FlatA(r)
    ensures Gives(R, e, env, r)
  {
    hide Prod, ReshapePair, FlatA, KeepsSize;
  }

  lemma ReshapeAs<T>(p: Pair<T>, q: Pair<T>, rows: seq<nat>)
    requires FlatA(p) && q.WellFormed() && rows != [] && Prod(rows) == Prod(p.B.shape[..p.Dim() - 1])
    requires q.Shape() == rows + [p.RowSize()]
    ensures ReshapePair(p, q.Shape()) == Ok(Reshaped(p, rows))
  {
    hide Prod, ReshapePair;
    PlainDims(q.Shape(), 0);
    ReshapePairRuns(p, q.Shape(), rows);
  }

  // ---------- swapaxes(1, 2) of a 4-D pair ----------

  ghost function MiddleSwapped<T>(p: Pair<T>, h: nat, a: nat, b: nat): (q: Pair<T>)
    requires FlatA(p) && p.Dim() == 4 && p.B.shape[..3] == [h, a, b]
    ensures FlatA(q) && q.Dim() == 4 && q.Rank() == p.Rank() && q.RowSize() == p.RowSize()
    ensures q.B.shape[..3] == [h, b, a] && q.A == p.A
  {
    SwappedIsPermutation(4);
    assert Swapped(4, 1, 2) == [0, 2, 1, 3];
    var s := p.B.shape;
    assert s[0] == s[..3][0] && s[1] == s[..3][1] && s[2] == s[..3][2];
    assert PermShape([0, 2, 1, 3], s)[..3] == [h, b, a];
    Pair(p.A, PermuteAxes(p.B, [0, 2, 1, 3]))
  }

  lemma SwapGives<T(!new)>(R: Arith<T>, e: Program, env: seq<Pair<T>>, p: Pair<T>, h: nat, a: nat, b: nat)
    requires e.SwapAxes? && e.axis0 == 1 && e.axis1 == 2 && Gives(R, e.e, env, p)
    requires p.Dim() == 4 && p.B.shape[..3] == [h, a, b]
    ensures Gives(R, e, env, MiddleSwapped(p, h, a, b))
  {
    hide Prod, Faithful, RunPair;
    SwappedIsPermutation(4);
    assert Swapped(4, 1, 2) == [0, 2, 1, 3];
    var perm := Swapped(4, 1, 2);
    assert perm == [0, 2, 1, 3];
    var ds := Negative(perm, 4);
    assert ds[3] == -1;
    NegativeWraps(perm, 4);
    assert WrapAll(perm, 4).value == [0, 2, 1, 3];
    assert TransposePair(p, 1, 2) == Ok(MiddleSwapped(p, h, a, b));
    assert KeepsLast(perm, 4);
    SwapIsFaithful(R, e, env, p, MiddleSwapped(p, h, a, b));
  }

  lemma SwapIsFaithful<T(!new)>(R: Arith<T>, e: Program, env: seq<Pair<T>>, p: Pair<T>, q: Pair<T>)
    requires e.SwapAxes? && Gives(R, e.e, env, p) && SwapKeepsLast(e.axis0, e.axis1, p.Dim())
    requires TransposePair(p, e.axis0, e.axis1) == Ok(q) && FlatA(q)
    ensures Gives(R, e, env, q)
  {
    hide Prod, TransposePair, SwapKeepsLast;
  }

  // ---------- the head permutation ----------

  lemma HalfRows(h: nat, E: nat)
    ensures h * 2 * E == h * (2 * E) && h * E * 2 == h * (2 * E)
  {
  }

  lemma LlamaGives<T(!new)>(R: Arith<T>, e: Program, env: seq<Pair<T>>, p: Pair<T>, nHead: nat, nHeadKv: Option<nat>, E: nat)
    returns (q: Pair<T>)
    requires HeadCount(nHead, nHeadKv) > 0 && Gives(R, e, env, p)
    requires p.Dim() == 2 && p.B.shape[0] == HeadCount(nHead, nHeadKv) * (2 * E)
    ensures Gives(R, LlamaPermute(e, nHead, nHeadKv), env, q)
    ensures q.Rank() == p.Rank() && q.Shape() == p.Shape()
  {
    hide Prod, Gives, Faithful, RunPair;
    var h, prog := HeadCount(nHead, nHeadKv), LlamaPermute(e, nHead, nHeadKv);
    HalvesOf(h, E);
    var m := h * (2 * E);
    assert p.B.shape[..1] == [m];
    ProdLast([], m);
    assert [] + [m] == [m];
    OnesProd([]);
    Prod4(h, 2, E, 0);
    Prod4(h, E, 2, 0);
    HalfRows(h, E);
    assert Prod([h, 2, E]) == Prod([h, E, 2]) == Prod([m]);
    assert FlatA(p) && prog.e.e.dims(p.Shape()) == [h, 2, E] + [p.RowSize()] by {
      GivesFlat(R, e, env, p);
      assert p.Shape() == [m] + [p.RowSize()];
    }
    ViewGives(R, prog.e.e, env, p, [h, 2, E]);
    var p1 := Reshaped(p, [h, 2, E]);
    assert p1.B.shape[..3] == [h, 2, E];
    SwapGives(R, prog.e, env, p1, h, 2, E);
    var p2 := MiddleSwapped(p1, h, 2, E);
    assert p2.B.shape[..p2.Dim() - 1] == [h, E, 2];
    ViewAsGives(R, prog, env, p2, p, [m]);
    q := Reshaped(p2, [m]);
  }

  lemma GivesFlat<T(!new)>(R: Arith<T>, e: Program, env: seq<Pair<T>>, p: Pair<T>)
    requires Gives(R, e, env, p)
    ensures FlatA(p)
  {
  }

  lemma InputGives<T(!new)>(R: Arith<T>, p: Pair<T>)
    requires FlatA(p)
    ensures Gives(R, Input(0), [p], p)
  {
  }

  // The homomorphism for a program known to run.
  lemma GivesDenotes<T(!new)>(R: Arith<T>, e: Program, p: Pair<T>, q: Pair<T>)
    requires FlatA(p) && Gives(R, e, [p], q)
    ensures RunDense(e, [Denote(R, p)]) == Ok(Denote(R, q))
  {
    hide RunPair, RunDense, Faithful, Denote, Prod;
    ProgramHomomorphism(R, e, [p]);
    assert Denotes(R, [p]) == [Denote(R, p)];
  }

  // LlamaModel.permute of a LoRA pair: the pair it returns denotes the permuted product.
  lemma LlamaPermuteOnPairs<T(!new)>(R: Arith<T>, p: Pair<T>, nHead: nat, nHeadKv: Option<nat>, E: nat)
    requires p.WellFormed() && p.Dim() == 2 && HeadCount(nHead, nHeadKv) > 0
    requires p.Shape()[0] == HeadCount(nHead, nHeadKv) * (2 * E)
    ensures var r := RunPair(LlamaPermute(Input(0), nHead, nHeadKv), [p]);
            && r.Ok? && FlatA(r.value) && r.value.Rank() == p.Rank()
            && RunDense(LlamaPermute(Input(0), nHead, nHeadKv), [Denote(R, p)]) == Ok(Denote(R, r.value))
  {
    hide RunPair, RunDense, Faithful, Denote, Prod;
    InputGives(R, p);
    var q := LlamaGives(R, Input(0), [p], p, nHead, nHeadKv, E);
    GivesDenotes(R, LlamaPermute(Input(0), nHead, nHeadKv), p, q);
  }

  // ---------- indexing the sub-blocks of a 4-D pair ----------

  // u[:, X] or u[:, i]: LB selects on the two leading axes of B, and LA on A's two unit axes.
  function SubBlocks(la: Axis, lb: Axis, K: nat, D: nat, r: nat, n: nat): Selection {
    Selection([Whole(1), la], [Whole(K), lb], Whole(D).picks, Whole(r).picks, Whole(n).picks)
  }

  // What an index on axis 1 resolves to: on A's unit axis and on B's axis of g sub-blocks.
  ghost predicate BlockIndex(X: Index, g: nat, la: Axis, lb: Axis) {
    && X != Ellipsis && ResolveIndex(X, g) == Ok(lb) && AxisFits(lb, g)
    && LeadIndexA(X, 1).Ok? && ResolveIndex(LeadIndexA(X, 1).value, 1) == Ok(la) && AxisFits(la, 1)
    && AxisAgrees(la, lb, 1) && (la.Along? ==> |la.picks| == 1)
  }

  lemma SubBlocksSelect<T>(p: Pair<T>, X: Index, la: Axis, lb: Axis, K: nat, g: nat, D: nat)
    requires FlatA(p) && p.Dim() == 4 && p.B.shape[..3] == [K, g, D] && BlockIndex(X, g, la, lb)
    ensures Selects(SubBlocks(la, lb, K, D, p.Rank(), p.RowSize()), p)
  {
    hide Prod, SlicePicks, BlockIndex, AxisShape;
    assert AxisFits(lb, g) && AxisFits(la, 1) && AxisAgrees(la, lb, 1) by {
      BlockFacts(X, g, la, lb);
    }
    WholeFits(1);
    WholeFits(K);
    WholeFits(D);
    FullSlice(1);
    FullSlice(K);
    FullSlice(p.Rank());
    FullSlice(p.RowSize());
    assert p.B.shape[0] == p.B.shape[..3][0] && p.B.shape[1] == p.B.shape[..3][1] && p.B.shape[2] == p.B.shape[..3][2];
    assert p.A.shape[..2] == [1, 1] && p.B.shape[..2] == [K, g];
    assert AxisAgrees(Whole(1), Whole(K), 1);
  }

  lemma BlockFacts(X: Index, g: nat, la: Axis, lb: Axis)
    requires BlockIndex(X, g, la, lb)
    ensures AxisFits(lb, g) && AxisFits(la, 1) && AxisAgrees(la, lb, 1) && X != Ellipsis
    ensures la.Along? ==> |la.picks| == 1
    ensures LeadIndexA(X, 1).Ok? && ResolveIndex(X, g) == Ok(lb)
    ensures ResolveIndex(LeadIndexA(X, 1).value, 1) == Ok(la)
  {
  }

  lemma SubBlockAxes<T>(p: Pair<T>, X: Index, la: Axis, lb: Axis, K: nat, g: nat, D: nat)
    requires FlatA(p) && p.Dim() == 4 && p.B.shape[..3] == [K, g, D] && BlockIndex(X, g, la, lb)
    ensures LeadIndicesA([FULL, X], p.A.shape) == Ok([FULL, LeadIndexA(X, 1).value])
    ensures ResolveIndices([FULL, LeadIndexA(X, 1).value] + [FULL, FULL], p.A.shape)
         == Ok(SubBlocks(la, lb, K, D, p.Rank(), p.RowSize()).OnA())
    ensures ResolveIndices([FULL, X, FULL] + [FULL], p.B.shape)
         == Ok(SubBlocks(la, lb, K, D, p.Rank(), p.RowSize()).OnB())
  {
    hide Prod, SlicePicks, BlockIndex, ResolveIndex, LeadIndexA;
    BlockFacts(X, g, la, lb);
    WholeFits(1);
    WholeFits(K);
    WholeFits(D);
    WholeFits(p.Rank());
    WholeFits(p.RowSize());
    assert p.B.shape[0] == p.B.shape[..3][0] && p.B.shape[1] == p.B.shape[..3][1] && p.B.shape[2] == p.B.shape[..3][2];
    FullLead();
    var x := SubBlocks(la, lb, K, D, p.Rank(), p.RowSize());
    assert LeadIndicesA([FULL, X], p.A.shape).value == [FULL, LeadIndexA(X, 1).value];
    assert ResolveIndices([FULL, LeadIndexA(X, 1).value] + [FULL, FULL], p.A.shape).value == x.OnA();
    assert ResolveIndices([FULL, X, FULL] + [FULL], p.B.shape).value == x.OnB();
  }

  lemma FullLead()
    ensures LeadIndexA(FULL, 1) == Ok(FULL)
  {
  }

  ghost predicate TwoOrFour(xs: seq<Index>, X: Index) {
    xs == [FULL, X] || xs == [FULL, X, FULL, FULL]
  }

  lemma NormalizedTwo(xs: seq<Index>, X: Index)
    requires TwoOrFour(xs, X) && X != Ellipsis
    ensures NormalizeInPair(xs, 4) == Ok([FULL, X, FULL, FULL]) == ExpandEllipsis(xs, 4)
  {
    assert ExpandInPair([], |xs|) == [];
    if xs == [FULL, X] {
      assert xs[1..] == [X] && xs[1..][1..] == [];
      assert ExpandInPair([X], 2) == [X];
      assert ExpandInPair(xs, 2) == [FULL, X];
      assert [FULL, X] + Fulls(2) == [FULL, X, FULL, FULL];
    } else {
      assert xs[1..] == [X, FULL, FULL] && xs[1..][1..] == [FULL, FULL] && xs[1..][1..][1..] == [FULL];
      assert ExpandInPair([FULL], 4) == [FULL];
      assert ExpandInPair([FULL, FULL], 4) == [FULL, FULL];
      assert ExpandInPair([X, FULL, FULL], 4) == [X, FULL, FULL];
      assert ExpandInPair(xs, 4) == xs;
      assert xs + Fulls(0) == xs;
    }
    assert Ellipsis !in xs;
  }

  lemma TupleGives<T(!new)>(R: Arith<T>, e: Program, env: seq<Pair<T>>, p: Pair<T>, X: Index, la: Axis, lb: Axis,
                            K: nat, g: nat, D: nat) returns (q: Pair<T>)
    requires e.AtTuple? && TwoOrFour(e.xs, X) && Gives(R, e.e, env, p)
    requires p.Dim() == 4 && p.B.shape[..3] == [K, g, D] && BlockIndex(X, g, la, lb)
    ensures Selects(SubBlocks(la, lb, K, D, p.Rank(), p.RowSize()), p)
    ensures q == Selected(SubBlocks(la, lb, K, D, p.Rank(), p.RowSize()), p)
    ensures Gives(R, e, env, q) && q.Rank() == p.Rank() && q.RowSize() == p.RowSize()
    ensures q.Dim() == |AxisShape([Whole(K), lb])| + 2 && q.B.shape[..q.Dim() - 1] == AxisShape([Whole(K), lb]) + [D]
  {
    hide Prod, SlicePicks, BlockIndex, ResolveIndex, LeadIndexA, AxisShape, Select, Faithful, RunPair, IndexesFaithfully;
    var x := SubBlocks(la, lb, K, D, p.Rank(), p.RowSize());
    SubBlocksSelect(p, X, la, lb, K, g, D);
    WholeFits(D);
    WholeFits(p.RowSize());
    q := Selected(x, p);
    SubBlocksGet(p, X, la, lb, K, g, D);
    BlockFacts(X, g, la, lb);
    NormalizedTwo(e.xs, X);
    assert GetMany(p, e.xs) == Ok(q);
    UnitLeads(la, lb);
    assert q.A.shape == AxisShape([Whole(1), la]) + [p.Rank(), p.RowSize()];
    assert FlatA(q);
    TupleIsFaithful(R, e, env, p, q, X);
  }

  lemma TupleIsFaithful<T(!new)>(R: Arith<T>, e: Program, env: seq<Pair<T>>, p: Pair<T>, q: Pair<T>, X: Index)
    requires e.AtTuple? && Gives(R, e.e, env, p) && p.Dim() == 4 && FlatA(q) && GetMany(p, e.xs) == Ok(q)
    requires NormalizeInPair(e.xs, 4) == Ok([FULL, X, FULL, FULL]) == ExpandEllipsis(e.xs, 4)
    ensures Gives(R, e, env, q)
  {
    hide Prod, GetMany, NormalizeInPair, ExpandEllipsis, SharesLeading;
    FullIndexes(p, X);
    FlatSharesLeading(p, [FULL, X, FULL, FULL]);
  }

  lemma FullIndexes<T>(p: Pair<T>, X: Index)
    requires FlatA(p) && p.Dim() == 4
    ensures IndexesFaithfully(p, [FULL, X, FULL, FULL])
  {
    hide Prod;
  }

  lemma UnitLeads(la: Axis, lb: Axis)
    requires AxisAgrees(la, lb, 1) && AxisFits(la, 1)
    requires la.Along? ==> |la.picks| == 1
    ensures forall k :: 0 <= k < |AxisShape([Whole(1), la])| ==> AxisShape([Whole(1), la])[k] == 1
  {
    WholeFits(1);
    assert [Whole(1), la][..1] == [Whole(1)];
    assert [Whole(1)][..0] == [];
    assert AxisShape([Whole(1)]) == [1];
  }

  lemma SubBlocksGet<T>(p: Pair<T>, X: Index, la: Axis, lb: Axis, K: nat, g: nat, D: nat)
    requires FlatA(p) && p.Dim() == 4 && p.B.shape[..3] == [K, g, D] && BlockIndex(X, g, la, lb)
    requires Selects(SubBlocks(la, lb, K, D, p.Rank(), p.RowSize()), p)
    ensures GetAxes(p, [FULL, X, FULL, FULL]) == Ok(Selected(SubBlocks(la, lb, K, D, p.Rank(), p.RowSize()), p))
  {
    hide Prod, SlicePicks, BlockIndex, ResolveIndex, LeadIndexA, AxisShape, Select, Selects, ResolveIndices, LeadIndicesA;
    var x := SubBlocks(la, lb, K, D, p.Rank(), p.RowSize());
    var xs := [FULL, X, FULL, FULL];
    SubBlockAxes(p, X, la, lb, K, g, D);
    SelectionFits(x, p);
    assert xs[..2] == [FULL, X] && xs[..3] == [FULL, X, FULL];
    BlockFacts(X, g, la, lb);
    NotAList(X);
    assert AtMostOneList([FULL, LeadIndexA(X, 1).value] + [FULL, FULL]);
    assert AtMostOneList([FULL, X, FULL] + [FULL]);
    var q := Selected(x, p);
  }

  lemma NotAList(X: Index)
    requires LeadIndexA(X, 1).Ok?
    ensures !LeadIndexA(X, 1).value.List?
  {
  }

  // ---------- the three parts of a fused matrix ----------

  ghost function Grouped<T>(p: Pair<T>, K: nat, g: nat, D: nat): (u: Pair<T>)
    requires p.WellFormed() && p.Dim() == 2 && p.B.shape[0] == Rows(K, g, D)
    ensures FlatA(u) && u.Dim() == 4 && u.Rank() == p.Rank() && u.RowSize() == p.RowSize()
    ensures u.B.shape[..3] == [K, g, D]
  {
    GroupSizes(K, g, D, 0);
    assert p.B.shape[..1] == [Rows(K, g, D)];
    Reshaped(p, [K, g, D])
  }

  // view(K, g, D, n)[:, X] of a 2-D pair. Its A depends on X only through how A's unit axis is read.
  lemma BlockOf<T(!new)>(R: Arith<T>, e: Program, env: seq<Pair<T>>, p: Pair<T>, X: Index, la: Axis, lb: Axis,
                         K: nat, g: nat, D: nat) returns (q: Pair<T>)
    requires e.AtTuple? && TwoOrFour(e.xs, X) && e.e.View? && Gives(R, e.e.e, env, p)
    requires p.Dim() == 2 && p.B.shape[0] == Rows(K, g, D) && e.e.dims(p.Shape()) == [K, g, D, p.RowSize()]
    requires BlockIndex(X, g, la, lb)
    ensures Gives(R, e, env, q) && q.Rank() == p.Rank() && q.RowSize() == p.RowSize()
    ensures q.B.shape[..q.Dim() - 1] == AxisShape([Whole(K), lb]) + [D]
    ensures Selects(SubBlocks(la, lb, K, D, p.Rank(), p.RowSize()), Grouped(p, K, g, D))
    ensures AxesFit([Whole(1), la] + [Whole(p.Rank())] + [Whole(p.RowSize())], Grouped(p, K, g, D).A.shape)
    ensures q.A == Select(Grouped(p, K, g, D).A, [Whole(1), la] + [Whole(p.Rank())] + [Whole(p.RowSize())])
  {
    hide Prod, Gives, BlockIndex, AxisShape, SlicePicks, Select, Selects;
    GivesFlat(R, e.e.e, env, p);
    assert p.B.shape[..1] == [Rows(K, g, D)];
    GroupSizes(K, g, D, 0);
    assert e.e.dims(p.Shape()) == [K, g, D] + [p.RowSize()];
    ViewGives(R, e.e, env, p, [K, g, D]);
    var u := Grouped(p, K, g, D);
    q := TupleGives(R, e, env, u, X, la, lb, K, g, D);
    SelectionFits(SubBlocks(la, lb, K, D, p.Rank(), p.RowSize()), u);
  }

  ghost predicate ThreePairs<T>(ps: seq<Pair<T>>, r: nat, n: nat) {
    && |ps| == 3
    && forall k :: 0 <= k < 3 ==> FlatA(ps[k]) && ps[k].Dim() == 2 && ps[k].A == ps[0].A && ps[k].Rank() == r
                                  && ps[k].RowSize() == n
  }

  lemma CatOfThree<T>(ps: seq<Pair<T>>, r: nat, n: nat)
    requires ThreePairs(ps, r, n)
    ensures (forall x :: x in ps ==> x.WellFormed()) && OwnLeadingA(ps) && CatPairs(ps).Ok?
    ensures FlatA(CatPairs(ps).value) && CatPairs(ps).value.Dim() == 2
    ensures CatPairs(ps).value.Rank() == r && CatPairs(ps).value.RowSize() == n
    ensures CatPairs(ps).value.B.shape[0] == ps[0].B.shape[0] + ps[1].B.shape[0] + ps[2].B.shape[0]
  {
    hide Prod, Locate, Cat, At, InShape;
    var bs := Bs(ps);
    forall k | 0 <= k < 3 ensures |bs[k].shape| == 2 && bs[k].shape[1] == r && bs[k].Valid() {
      assert FlatA(ps[k]);
    }
    CatThree(bs, r);
  }

  lemma {:induction false} AllGive<T(!new)>(R: Arith<T>, es: seq<Program>, env: seq<Pair<T>>, ps: seq<Pair<T>>)
    requires |es| == |ps| && forall x :: x in env ==> x.WellFormed()
    requires forall k :: 0 <= k < |es| ==> Gives(R, es[k], env, ps[k])
    ensures RunAllPairs(es, env) == Ok(ps) && AllFaithful(R, es, env)
  {
    if es != [] {
      AllGive(R, es[1..], env, ps[1..]);
      assert Gives(R, es[0], env, ps[0]);
      assert ps == [ps[0]] + ps[1..];
    }
  }

  lemma CatGives<T(!new)>(R: Arith<T>, e: Program, env: seq<Pair<T>>, ps: seq<Pair<T>>, r: nat, n: nat) returns (q: Pair<T>)
    requires e.CatOf? && |e.es| == 3 && ThreePairs(ps, r, n) && forall x :: x in env ==> x.WellFormed()
    requires forall k :: 0 <= k < 3 ==> Gives(R, e.es[k], env, ps[k])
    ensures Gives(R, e, env, q) && q.Dim() == 2 && q.Rank() == r && q.RowSize() == n
    ensures q.B.shape[0] == ps[0].B.shape[0] + ps[1].B.shape[0] + ps[2].B.shape[0]
  {
    hide Prod, CatPairs, OwnLeadingA, RunAllPairs, AllFaithful;
    AllGive(R, e.es, env, ps);
    CatOfThree(ps, r, n);
    q := CatPairs(ps).value;
  }

  // One part of a fused matrix as a 2-D pair.
  lemma PartGives<T(!new)>(R: Arith<T>, e: Program, env: seq<Pair<T>>, p: Pair<T>, X: Index, la: Axis, lb: Axis,
                           K: nat, g: nat, D: nat, N: nat) returns (m: Pair<T>)
    requires e.View? && e.e.AtTuple? && TwoOrFour(e.e.xs, X) && e.e.e.View? && Gives(R, e.e.e.e, env, p)
    requires p.Dim() == 2 && p.B.shape[0] == Rows(K, g, D) && e.e.e.dims(p.Shape()) == [K, g, D, p.RowSize()]
    requires BlockIndex(X, g, la, lb) && p.RowSize() > 0
    requires Prod(AxisShape([Whole(K), lb]) + [D]) == N
    requires var s := AxisShape([Whole(K), lb]) + [D] + [p.RowSize()];
             e.dims(s) == [N, p.RowSize()] || e.dims(s) == Matrix(-1, p.RowSize())
    ensures Gives(R, e, env, m) && m.Dim() == 2 && m.Rank() == p.Rank() && m.RowSize() == p.RowSize()
    ensures m.B.shape[0] == N
    ensures AxesFit([Whole(1), la] + [Whole(p.Rank())] + [Whole(p.RowSize())], Grouped(p, K, g, D).A.shape)
    ensures m.A == Tensor([p.Rank(), p.RowSize()],
                          Select(Grouped(p, K, g, D).A, [Whole(1), la] + [Whole(p.Rank())] + [Whole(p.RowSize())]).data)
  {
    hide Prod, Gives, BlockIndex, AxisShape, SlicePicks, Select, Selects, Reshaped;
    GivesFlat(R, e.e.e.e, env, p);
    var q := BlockOf(R, e.e, env, p, X, la, lb, K, g, D);
    GivesFlat(R, e.e, env, q);
    ProdOne(N);
    var s := AxisShape([Whole(K), lb]) + [D] + [p.RowSize()];
    assert q.Shape() == s;
    m := Reshaped(q, [N]);
    if e.dims(s) == [N, p.RowSize()] {
      assert e.dims(s) == [N] + [p.RowSize()];
      ViewGives(R, e, env, q, [N]);
    } else {
      FlattenGives(R, e, env, q, N);
    }
    assert m.B.shape[0] == m.Shape()[0];
  }

  // ---------- Falcon, GPT-NeoX, InternLM2 ----------

  // Along(picks) on B's axis goes with the whole unit axis of A.
  lemma AlongShape(picks: seq<nat>, K: nat, D: nat)
    ensures AxisShape([Whole(K), Along(picks)]) + [D] == [K, |picks|, D]
  {
    hide AxisShape, SlicePicks, AxisFits;
    NoAxes();
    WholeFits(K);
    AxisShapeLast([], Whole(K).picks);
    AxisShapeLast([Whole(K)], picks);
    assert [] + [Whole(K)] == [Whole(K)] && [Whole(K)] + [Along(picks)] == [Whole(K), Along(picks)];
    assert AxisShape([Whole(K)]) == [K];
  }

  lemma AlongIndex(X: Index, g: nat, picks: seq<nat>, K: nat, D: nat)
    requires (X.Slice? || X.List?) && ResolveIndex(X, g) == Ok(Along(picks)) && AxisFits(Along(picks), g)
    ensures BlockIndex(X, g, Whole(1), Along(picks))
    ensures Prod(AxisShape([Whole(K), Along(picks)]) + [D]) == Rows(K, |picks|, D)
    ensures AxisShape([Whole(K), Along(picks)]) + [D] == [K, |picks|, D]
  {
    hide Prod, SlicePicks, AxisShape, Rows;
    WholeFits(1);
    FullSlice(1);
    AlongShape(picks, K, D);
    GroupSizes(K, |picks|, D, 0);
  }

  // An integer on B's axis goes with position 0 of A's unit axis.
  lemma FixedIndex(i: int, g: nat, at: nat, K: nat, D: nat)
    requires Wrap(i, g) == Ok(at)
    ensures BlockIndex(Int(i), g, Fixed(0), Fixed(at))
    ensures Prod(AxisShape([Whole(K), Fixed(at)]) + [D]) == K * D
    ensures AxisShape([Whole(K), Fixed(at)]) + [D] == [K, D]
  {
    hide Prod, SlicePicks;
    assert i % 1 == 0;
    WholeFits(K);
    AxisShapeLast([], Whole(K).picks);
    assert [] + [Whole(K)] == [Whole(K)];
    assert [Whole(K), Fixed(at)][..1] == [Whole(K)];
    assert AxisShape([Whole(K), Fixed(at)]) + [D] == [K, D];
    Prod4(K, D, 0, 0);
  }

  // Falcon's split of a LoRA pair denotes Falcon's split of the product.
  lemma FalconOnPairs<T(!new)>(R: Arith<T>, p: Pair<T>, hidden: nat, K: nat, G: nat, D: nat)
    requires p.WellFormed() && p.Dim() == 2
    requires K * G > 0 && K > 0 && G > 0 && D > 0 && D == hidden / (K * G)
    requires p.Shape() == [Rows(K, G + 2, D), D * (K * G)]
    ensures var e := FalconQkv(Input(0), K * G, K, hidden);
            var r := RunPair(e, [p]);
            && r.Ok? && FlatA(r.value) && r.value.Rank() == p.Rank()
            && RunDense(e, [Denote(R, p)]) == Ok(Denote(R, r.value))
  {
    hide RunPair, RunDense, Faithful, Denote, Prod, Rows, BlockIndex, ResolveIndex, SlicePicks, AxisShape, Grouped, FlatA;
    InputGives(R, p);
    FalconSizes(K, G, D);
    FirstSlice(G);
    LastTwo(G);
    var n, env := D * (K * G), [p];
    assert p.B.shape[0] == p.Shape()[0] && p.RowSize() == p.Shape()[1] == n;
    var e := FalconQkv(Input(0), K * G, K, hidden);
    ResolvedFits(KEEP_ALL_BUT_TWO, G + 2);
    AlongIndex(KEEP_ALL_BUT_TWO, G + 2, Whole(G).picks, K, D);
    AlongIndex(List([-2]), G + 2, [G], K, D);
    AlongIndex(List([-1]), G + 2, [G + 1], K, D);
    var q := PartGives(R, e.e.es[0], env, p, KEEP_ALL_BUT_TWO, Whole(1), Whole(G), K, G + 2, D, Rows(K, G, D));
    var k := PartGives(R, e.e.es[1], env, p, List([-2]), Whole(1), Along([G]), K, G + 2, D, Rows(K, 1, D));
    var v := PartGives(R, e.e.es[2], env, p, List([-1]), Whole(1), Along([G + 1]), K, G + 2, D, Rows(K, 1, D));
    FalconCat(R, e, p, q, k, v, K, G, D);
  }

  lemma FalconCat<T(!new)>(R: Arith<T>, e: Program, p: Pair<T>, q: Pair<T>, k: Pair<T>, v: Pair<T>, K: nat, G: nat, D: nat)
    requires e.ViewAs? && e.like == Input(0) && e.e.CatOf? && |e.e.es| == 3
    requires p.WellFormed() && p.Dim() == 2 && p.Shape()[0] == Rows(K, G, D) + Rows(K, 1, D) + Rows(K, 1, D)
    requires Gives(R, e.e.es[0], [p], q) && Gives(R, e.e.es[1], [p], k) && Gives(R, e.e.es[2], [p], v)
    requires ThreePairs([q, k, v], p.Rank(), p.RowSize())
    requires q.B.shape[0] == Rows(K, G, D) && k.B.shape[0] == v.B.shape[0] == Rows(K, 1, D)
    ensures var r := RunPair(e, [p]);
            && r.Ok? && FlatA(r.value) && r.value.Rank() == p.Rank()
            && RunDense(e, [Denote(R, p)]) == Ok(Denote(R, r.value))
  {
    hide RunPair, RunDense, Faithful, Denote, Prod, Rows, ThreePairs;
    InputGives(R, p);
    var c := CatGives(R, e.e, [p], [q, k, v], p.Rank(), p.RowSize());
    var rows := c.B.shape[..1];
    assert c.Shape() == p.Shape();
    assert p.Shape() == rows + [p.RowSize()];
    ViewAsGives(R, e, [p], c, p, rows);
    GivesDenotes(R, e, p, Reshaped(c, rows));
  }

  // GPT-NeoX's split of a LoRA pair denotes GPT-NeoX's split of the product.
  lemma NeoxOnPairs<T(!new)>(R: Arith<T>, p: Pair<T>, H: nat, D: nat)
    requires p.WellFormed() && p.Dim() == 2 && H > 0 && D > 0
    requires p.Shape() == [Rows(H, 3, D), H * D]
    ensures var e := NeoxQkv(Input(0), H, H * D);
            var r := RunPair(e, [p]);
            && r.Ok? && FlatA(r.value) && r.value.Rank() == p.Rank()
            && RunDense(e, [Denote(R, p)]) == Ok(Denote(R, r.value))
  {
    hide RunPair, RunDense, Denote, Prod, Rows, Gives, ThreePairs;
    var e, env := NeoxQkv(Input(0), H, H * D), [p];
    var a, b, c := NeoxParts(R, p, e, H, D);
    var q := CatGives(R, e, env, [a, b, c], p.Rank(), p.RowSize());
    GivesFlat(R, e, env, q);
    GivesDenotes(R, e, p, q);
    GivesRun(R, e, env, q);
  }

  lemma NeoxParts<T(!new)>(R: Arith<T>, p: Pair<T>, e: Program, H: nat, D: nat) returns (a: Pair<T>, b: Pair<T>, c: Pair<T>)
    requires p.WellFormed() && p.Dim() == 2 && H > 0 && D > 0
    requires p.Shape() == [Rows(H, 3, D), H * D] && e == NeoxQkv(Input(0), H, H * D)
    ensures Gives(R, e.es[0], [p], a) && Gives(R, e.es[1], [p], b) && Gives(R, e.es[2], [p], c)
    ensures ThreePairs([a, b, c], p.Rank(), p.RowSize())
  {
    hide RunPair, RunDense, Faithful, Denote, Prod, Rows, BlockIndex, ResolveIndex, SlicePicks, AxisShape, Grouped;
    var env := [p];
    InputGives(R, p);
    NeoxSizes(H, D);
    assert p.B.shape[0] == p.Shape()[0] && p.RowSize() == p.Shape()[1] == H * D;
    FixedIndex(0, 3, 0, H, D);
    FixedIndex(1, 3, 1, H, D);
    FixedIndex(2, 3, 2, H, D);
    a := PartGives(R, e.es[0], env, p, Int(0), Fixed(0), Fixed(0), H, 3, D, H * D);
    b := PartGives(R, e.es[1], env, p, Int(1), Fixed(0), Fixed(1), H, 3, D, H * D);
    c := PartGives(R, e.es[2], env, p, Int(2), Fixed(0), Fixed(2), H, 3, D, H * D);
    GivesFlat(R, e.es[0], env, a);
    GivesFlat(R, e.es[1], env, b);
    GivesFlat(R, e.es[2], env, c);
  }

  lemma GivesRun<T(!new)>(R: Arith<T>, e: Program, env: seq<Pair<T>>, q: Pair<T>)
    requires Gives(R, e, env, q)
    ensures (forall x :: x in env ==> x.WellFormed()) && RunPair(e, env) == Ok(q)
  {
  }

  // InternLM2's queries, keys and values of a LoRA pair denote those of the product.
  lemma InternQOnPairs<T(!new)>(R: Arith<T>, p: Pair<T>, K: nat, G: nat, E: nat)
    requires p.WellFormed() && p.Dim() == 2 && K > 0 && G > 0 && E > 0 && K * G >= K
    requires p.Shape() == [Rows(K, G + 2, 2 * E), K * G * (2 * E)]
    ensures var e := InternQ(Input(0), K * G, K, K * G * (2 * E));
            var r := RunPair(e, [p]);
            && r.Ok? && FlatA(r.value) && r.value.Rank() == p.Rank()
            && RunDense(e, [Denote(R, p)]) == Ok(Denote(R, r.value))
  {
    hide RunPair, RunDense, Faithful, Denote, Prod, Rows, BlockIndex, ResolveIndex, SlicePicks, AxisShape, Grouped, Gives;
    InputGives(R, p);
    InternSizes(K, G, E);
    var n, env := K * G * (2 * E), [p];
    assert p.B.shape[0] == p.Shape()[0] && p.RowSize() == p.Shape()[1] == n;
    var e := InternQ(Input(0), K * G, K, n);
    FirstSlice(G);
    var X := Slice(None, Some(G), None);
    ResolvedFits(X, G + 2);
    AlongIndex(X, G + 2, Whole(G).picks, K, 2 * E);
    var m := PartGives(R, e.like, env, p, X, Whole(1), Whole(G), K, G + 2, 2 * E, Rows(K, G, 2 * E));
    var q := LlamaGives(R, e.like, env, m, K * G, Some(K * G), E);
    GivesFlat(R, e, env, q);
    GivesDenotes(R, e, p, q);
    GivesRun(R, e, env, q);
  }

  lemma InternKOnPairs<T(!new)>(R: Arith<T>, p: Pair<T>, K: nat, G: nat, E: nat)
    requires p.WellFormed() && p.Dim() == 2 && K > 0 && G > 0 && E > 0 && K * G >= K
    requires p.Shape() == [Rows(K, G + 2, 2 * E), K * G * (2 * E)]
    ensures var e := InternK(Input(0), K * G, K, K * G * (2 * E));
            var r := RunPair(e, [p]);
            && r.Ok? && FlatA(r.value) && r.value.Rank() == p.Rank()
            && RunDense(e, [Denote(R, p)]) == Ok(Denote(R, r.value))
  {
    hide RunPair, RunDense, Faithful, Denote, Prod, Rows, BlockIndex, ResolveIndex, SlicePicks, AxisShape, Grouped, Gives;
    InputGives(R, p);
    InternSizes(K, G, E);
    var n, env := K * G * (2 * E), [p];
    assert p.B.shape[0] == p.Shape()[0] && p.RowSize() == p.Shape()[1] == n;
    var e := InternK(Input(0), K * G, K, n);
    FixedIndex(-2, G + 2, G, K, 2 * E);
    var m := PartGives(R, e.like, env, p, Int(-2), Fixed(0), Fixed(G), K, G + 2, 2 * E, K * (2 * E));
    var q := LlamaGives(R, e.like, env, m, K * G, Some(K), E);
    GivesFlat(R, e, env, q);
    GivesDenotes(R, e, p, q);
    GivesRun(R, e, env, q);
  }

  lemma InternVOnPairs<T(!new)>(R: Arith<T>, p: Pair<T>, K: nat, G: nat, E: nat)
    requires p.WellFormed() && p.Dim() == 2 && K > 0 && G > 0 && E > 0 && K * G >= K
    requires p.Shape() == [Rows(K, G + 2, 2 * E), K * G * (2 * E)]
    ensures var e := InternV(Input(0), K * G, K, K * G * (2 * E));
            var r := RunPair(e, [p]);
            && r.Ok? && FlatA(r.value) && r.value.Rank() == p.Rank()
            && RunDense(e, [Denote(R, p)]) == Ok(Denote(R, r.value))
  {
    hide RunPair, RunDense, Faithful, Denote, Prod, Rows, BlockIndex, ResolveIndex, SlicePicks, AxisShape, Grouped, Gives;
    InputGives(R, p);
    InternSizes(K, G, E);
    var n, env := K * G * (2 * E), [p];
    assert p.B.shape[0] == p.Shape()[0] && p.RowSize() == p.Shape()[1] == n;
    var e := InternV(Input(0), K * G, K, n);
    FixedIndex(-1, G + 2, G + 1, K, 2 * E);
    var q := PartGives(R, e, env, p, Int(-1), Fixed(0), Fixed(G + 1), K, G + 2, 2 * E, K * (2 * E));
    GivesFlat(R, e, env, q);
    GivesDenotes(R, e, p, q);
    GivesRun(R, e, env, q);
  }
}
