// Reshape on a pair denotes reshape on the product.
module LoraReshape {
  import opened Outcomes
  import opened Tensors
  import opened LoraPairs
  import opened LoraHomomorphism

  // ---------- what the pair's reshape accepts ----------

  lemma {:induction false} KnownNonNegative(dims: seq<int>)
    requires forall k :: 0 <= k < |dims| ==> dims[k] >= -1
    ensures Known(dims) >= 0
  {
    if dims != [] {
      KnownNonNegative(dims[..|dims| - 1]);
    }
  }

  lemma Cancel(a: nat, b: nat, r: nat)
    requires r > 0 && a * r == b * r
    ensures a == b
  {
    assert (a - b) * r == 0;
    SmallMultiple(a - b, r);
  }

  // A list of dimensions that reshape accepts holds no dimension below -1.
  lemma NoOtherNegatives<T>(t: Tensor<T>, dims: seq<int>)
    requires Reshape(t, dims).Ok?
    ensures forall k :: 0 <= k < |dims| ==> dims[k] >= -1
  {
    hide Prod, Known;
    if -1 in dims {
      var f := Fill(dims, Prod(t.shape) / Known(dims));
      forall k | 0 <= k < |dims| ensures dims[k] >= -1 {
        assert dims[k] == -1 || f[k] == dims[k];
      }
    }
  }

  // After the pair's own expansion of -1 no dimension of B's new shape is left to infer.
  lemma NothingToInfer<T>(p: Pair<T>, dims: seq<int>, ds: seq<int>)
    requires p.WellFormed() && |dims| >= 2 && ExpandInfer(dims, Prod(p.Shape())) == Ok(ds)
    requires ds[|ds| - 1] == p.RowSize()
    requires Reshape(p.B, ds[..|ds| - 1] + [p.Rank()]).Ok?
    ensures forall k :: 0 <= k < |ds| ==> ds[k] >= 0
    ensures -1 in dims ==> Known(dims) >= 0
  {
    hide Prod, Known, Reshape;
    var n := |ds| - 1;
    var bd := ds[..n] + [p.Rank()];
    NoOtherNegatives(p.B, bd);
    assert forall k :: 0 <= k < n ==> ds[k] == bd[k];
    forall i | 0 <= i < |dims| ensures dims[i] >= -1 {
      assert dims[i] == -1 || ds[i] == dims[i];
    }
    KnownNonNegative(dims);
    FilledNonNegative(p.B, dims, ds, bd, Prod(p.Shape()));
  }

  lemma FilledNonNegative<T>(t: Tensor<T>, dims: seq<int>, ds: seq<int>, bd: seq<int>, N: nat)
    requires ExpandInfer(dims, N) == Ok(ds) && Known(dims) >= 0
    requires forall k :: 0 <= k < |dims| ==> dims[k] >= -1
    ensures forall k :: 0 <= k < |ds| ==> ds[k] >= 0
  {
    hide Known;
    if -1 in dims {
      assert N / Known(dims) >= 0;
    } else {
      forall k | 0 <= k < |ds| ensures ds[k] >= 0 {
        assert dims[k] in dims;
      }
    }
  }

  // The row dimensions the pair settles on.
  lemma ReshapedDims<T>(p: Pair<T>, dims: seq<int>) returns (rows: seq<nat>)
    requires p.WellFormed() && p.Rank() > 0 && InfersAtMostOne(dims) && ReshapePair(p, dims).Ok?
    ensures rows != []
    ensures ResolveDims(dims, Prod(p.Shape())) == Ok(rows + [p.RowSize()])
    ensures Prod(rows) == Prod(p.B.shape[..p.Dim() - 1])
    ensures ReshapePair(p, dims).value.WellFormed()
    ensures ReshapePair(p, dims).value.B == Tensor(rows + [p.Rank()], p.B.data)
    ensures ReshapePair(p, dims).value.A == Tensor(Ones(|rows| - 1) + [p.Rank(), p.RowSize()], p.A.data)
    ensures Prod(Ones(|rows| - 1) + [p.Rank(), p.RowSize()]) == Prod(p.A.shape)
  {
    hide Prod, Known;
    var N := Prod(p.Shape());
    var ds := ExpandInfer(dims, N).value;
    var n := |ds| - 1;
    NothingToInfer(p, dims, ds);
    rows := ds[..n];
    assert ds == rows + [p.RowSize()];
    assert ResolveDims(dims, N) == Ok(ds);
    var bd := ds[..n] + [p.Rank()];
    assert ResolveDims(bd, Prod(p.B.shape)) == Ok(bd);
    ProdLast(rows, p.Rank());
    ProdLast(p.B.shape[..p.Dim() - 1], p.Rank());
    assert p.B.shape == p.B.shape[..p.Dim() - 1] + [p.Rank()];
    Cancel(Prod(rows), Prod(p.B.shape[..p.Dim() - 1]), p.Rank());
    assert -1 !in Ones(|ds| - 2) + [p.Rank(), p.RowSize()];
  }

  // ---------- the elements ----------

  // Row r and column c of a tensor of shape rows + [n].
  lemma AtRow<T>(t: Tensor<T>, rows: seq<nat>, row: seq<nat>, n: nat, c: nat)
    requires t.Valid() && t.shape == rows + [n] && InShape(row, rows) && c < n
    ensures InShape(row + [c], t.shape)
    ensures 0 <= Ravel(rows, row) * n + c < |t.data| && At(t, row + [c]) == t.data[Ravel(rows, row) * n + c]
  {
    hide Ravel, Prod;
    RavelLast(rows, row, n, c);
    RavelInRange(t.shape, row + [c]);
  }

  lemma {:induction false} RavelZeros(s: seq<nat>, idx: seq<nat>)
    requires |idx| == |s| && forall k :: 0 <= k < |s| ==> idx[k] == 0
    ensures Ravel(s, idx) == 0
  {
    if s != [] {
      RavelZeros(s[..|s| - 1], idx[..|s| - 1]);
    }
  }

  lemma {:induction false} UnitProd(s: seq<nat>)
    requires Prod(s) == 1
    ensures forall k :: 0 <= k < |s| ==> s[k] == 1
  {
    if s != [] {
      var n := |s| - 1;
      var a, b := Prod(s[..n]), s[n];
      assert a * b == 1;
      assert a != 0 && b != 0;
      assert a * b >= 1 * b;
      assert b == 1;
      UnitProd(s[..n]);
    }
  }

  lemma {:induction false} OnesProd(s: seq<nat>)
    requires forall k :: 0 <= k < |s| ==> s[k] == 1
    ensures Prod(s) == 1
  {
    if s != [] {
      OnesProd(s[..|s| - 1]);
    }
  }

  lemma Cancel2(a: nat, r: nat, n: nat)
    requires r > 0 && n > 0 && a * r * n == r * n
    ensures a == 1
  {
    Cancel(a * r, r, n);
    Cancel(a, 1, r);
  }

  // If A reshapes to leading ones and is not empty, its leading axes were ones all along.
  lemma LeadingOnes(lead: seq<nat>, ones: seq<nat>, r: nat, n: nat)
    requires forall k :: 0 <= k < |ones| ==> ones[k] == 1
    requires Prod(ones + [r, n]) == Prod(lead + [r, n]) && r > 0 && n > 0
    ensures forall k :: 0 <= k < |lead| ==> lead[k] == 1
  {
    hide Prod;
    OnesProd(ones);
    assert ones + [r, n] == ones + [r] + [n] && lead + [r, n] == lead + [r] + [n];
    ProdLast(ones, r);
    ProdLast(ones + [r], n);
    ProdLast(lead, r);
    ProdLast(lead + [r], n);
    Cancel2(Prod(lead), r, n);
    UnitProd(lead);
  }

  // In a tensor with leading ones the element at (0, ..., 0, j, c) sits at j * n + c.
  lemma AtFlat<T>(t: Tensor<T>, idx: seq<nat>, j: nat, c: nat)
    requires t.Valid() && InShape(idx, t.shape) && |t.shape| >= 2
    requires forall k :: 0 <= k < |t.shape| - 2 ==> idx[k] == 0
    requires idx[|t.shape| - 2] == j && idx[|t.shape| - 1] == c
    ensures 0 <= j * t.shape[|t.shape| - 1] + c < |t.data|
    ensures At(t, idx) == t.data[j * t.shape[|t.shape| - 1] + c]
  {
    hide Prod, Ravel;
    var d := |t.shape|;
    RavelZeros(t.shape[..d - 2], idx[..d - 2]);
    var r, n := t.shape[d - 2], t.shape[d - 1];
    RavelInRange(t.shape, idx);
    LastApart(t.shape[..d - 1]);
    LastApart(idx[..d - 1]);
    LastApart(t.shape);
    LastApart(idx);
    assert t.shape[..d - 1][..d - 2] == t.shape[..d - 2] && idx[..d - 1][..d - 2] == idx[..d - 2];
    RavelLast(t.shape[..d - 1], idx[..d - 1], n, c);
    RavelLast(t.shape[..d - 2], idx[..d - 2], r, j);
  }

  lemma ReshapedTerm<T>(R: Arith<T>, p: Pair<T>, q: Pair<T>, row: seq<nat>, row': seq<nat>, c: nat, j: nat)
    requires Broadcasts(p) && FlatA(p) && FlatA(q) && q.Rank() == p.Rank() && q.RowSize() == p.RowSize()
    requires q.A.data == p.A.data && q.B.data == p.B.data
    requires InRows(p, row, c) && InRows(q, row', c) && j < p.Rank()
    requires Ravel(p.B.shape[..p.Dim() - 1], row) == Ravel(q.B.shape[..q.Dim() - 1], row')
    ensures Term(R, p, row, c, j) == Term(R, q, row', c, j)
  {
    hide At, Ravel, Prod, Contract;
    AtFlat(p.A, InA(p, row, c, j), j, c);
    AtFlat(q.A, InA(q, row', c, j), j, c);
    assert p.B.shape == p.B.shape[..p.Dim() - 1] + [p.Rank()];
    assert q.B.shape == q.B.shape[..q.Dim() - 1] + [p.Rank()];
    AtRow(p.B, p.B.shape[..p.Dim() - 1], row, p.Rank(), j);
    AtRow(q.B, q.B.shape[..q.Dim() - 1], row', p.Rank(), j);
  }

  lemma ReshapedElement<T>(R: Arith<T>, p: Pair<T>, q: Pair<T>, t: Tensor<T>, row': seq<nat>, c: nat)
    requires Broadcasts(p) && FlatA(p) && FlatA(q) && q.Rank() == p.Rank() && q.RowSize() == p.RowSize()
    requires q.A.data == p.A.data && q.B.data == p.B.data
    requires Prod(p.B.shape[..p.Dim() - 1]) == Prod(q.B.shape[..q.Dim() - 1])
    requires t.Valid() && t == Tensor(q.Shape(), Denote(R, p).data) && InRows(q, row', c)
    ensures InShape(row' + [c], q.Shape()) && At(t, row' + [c]) == At(Denote(R, q), row' + [c])
  {
    hide At, Ravel, Prod, Contract, Term, Denote;
    var rows, rows', n := p.B.shape[..p.Dim() - 1], q.B.shape[..q.Dim() - 1], p.RowSize();
    UnravelRavel(rows', row');
    var row := Unravel(rows, Ravel(rows', row'));
    RavelUnravel(rows, Ravel(rows', row'));
    AtRow(t, rows', row', n, c);
    AtRow(Denote(R, p), rows, row, n, c);
    DenoteAt(R, p, row, c);
    DenoteAt(R, q, row', c);
    forall j | 0 <= j < p.Rank() ensures Term(R, p, row, c, j) == Term(R, q, row', c, j) {
      ReshapedTerm(R, p, q, row, row', c, j);
    }
    SameContract(R, p, row, c, q, row', c, p.Rank());
  }

  lemma ReshapePositiveRank<T>(R: Arith<T>, p: Pair<T>, dims: seq<int>)
    requires Broadcasts(p) && p.Rank() > 0 && InfersAtMostOne(dims) && ReshapePair(p, dims).Ok?
    ensures var q := ReshapePair(p, dims).value;
            FlatA(q) && q.Rank() == p.Rank() && Reshape(Denote(R, p), dims) == Ok(Denote(R, q))
  {
    hide At, Ravel, Prod, Contract, Term, Denote, ResolveDims, ReshapePair;
    var rows := ReshapedDims(p, dims);
    var q := ReshapePair(p, dims).value;
    var n := p.RowSize();
    assert q.B.shape[..q.Dim() - 1] == rows;
    assert q.Shape() == rows + [n];
    ProdLast(rows, n);
    ProdLast(p.B.shape[..p.Dim() - 1], n);
    assert p.Shape() == p.B.shape[..p.Dim() - 1] + [n];
    var t := Tensor(q.Shape(), Denote(R, p).data);
    assert Reshape(Denote(R, p), dims) == Ok(t);
    forall row', c | InRows(q, row', c) && InShape(row' + [c], q.Shape())
      ensures At(t, row' + [c]) == At(Denote(R, q), row' + [c])
    {
      var d := p.Dim();
      assert p.A.shape == p.A.shape[..d - 2] + [p.Rank(), n];
      LeadingOnes(p.A.shape[..d - 2], Ones(|rows| - 1), p.Rank(), n);
      ReshapedElement(R, p, q, t, row', c);
    }
    ExtensionalByRows(q, t, Denote(R, q));
  }

  // ---------- which reshapes torch accepts ----------

  // The dimensions infer at most one and give numel elements.
  predicate KeepsSize(dims: seq<int>, numel: nat) {
    InfersAtMostOne(dims) && (-1 in dims || Known(dims) == numel)
  }

  lemma {:induction false} FilledProduct(dims: seq<int>, v: int, s: seq<nat>)
    requires InfersAtMostOne(dims) && s == Fill(dims, v)
    ensures Prod(s) == Known(dims) * if -1 in dims then v else 1
    decreases |dims|
  {
    if dims != [] {
      var n := |dims| - 1;
      assert dims == dims[..n] + [dims[n]];
      assert s[..n] == Fill(dims[..n], v);
      FilledProduct(dims[..n], v, s[..n]);
      Products(Known(dims[..n]), v, dims[n]);
    }
  }

  lemma Products(a: int, v: int, d: int)
    ensures a * v * d == a * d * v && a * 1 * d == a * d
  {
  }

  lemma {:induction false} KnownOfNats(s: seq<nat>)
    ensures Known(s) == Prod(s)
    decreases |s|
  {
    if s != [] {
      KnownOfNats(s[..|s| - 1]);
    }
  }

  // What the pair's reshape gives, whatever it infers.
  lemma ReshapedFlat<T>(p: Pair<T>, dims: seq<int>) returns (ds: seq<nat>)
    requires p.WellFormed() && ReshapePair(p, dims).Ok?
    ensures ExpandInfer(dims, Prod(p.Shape())) == Ok(ds) && (-1 in dims ==> Known(dims) > 0)
    ensures var q := ReshapePair(p, dims).value;
            FlatA(q) && q.Rank() == p.Rank() && q.Shape() == ds
  {
    hide Prod, Known;
    var es := ExpandInfer(dims, Prod(p.Shape())).value;
    NothingToInfer(p, dims, es);
    ds := es;
    var n := |es| - 1;
    assert -1 !in Ones(n - 1) + [p.Rank(), p.RowSize()] && -1 !in es[..n] + [p.Rank()];
    assert ds == ds[..n] + [p.RowSize()];
  }

  // A reshape that the pair accepts is one torch accepts if and only if it keeps the size.
  lemma TorchAccepts<T>(p: Pair<T>, t: Tensor<T>, dims: seq<int>)
    requires p.WellFormed() && ReshapePair(p, dims).Ok? && t.shape == p.Shape()
    ensures Reshape(t, dims).Ok? <==> KeepsSize(dims, Prod(p.Shape()))
    ensures Reshape(t, dims).Ok? ==> Reshape(t, dims) == Ok(Tensor(ReshapePair(p, dims).value.Shape(), t.data))
  {
    var N := Prod(p.Shape());
    var ds := ReshapedFlat(p, dims);
    hide Prod, Known, ReshapePair;
    if InfersAtMostOne(dims) {
      if -1 in dims {
        FilledProduct(dims, N / Known(dims), ds);
        QuotientTimes(N, Known(dims));
      } else {
        KnownOfNats(ds);
      }
      assert ResolveDims(dims, N) == Ok(ds);
    } else {
      TwoToInfer(dims);
    }
  }

  lemma QuotientTimes(n: nat, d: nat)
    requires d > 0 && n % d == 0
    ensures d * (n / d) == n
  {
  }

  lemma TwoToInfer(dims: seq<int>)
    requires !InfersAtMostOne(dims)
    ensures -1 in dims
  {
    var i, j :| 0 <= i < j < |dims| && dims[i] == -1 && dims[j] == -1;
  }

  // ---------- rank 0 ----------

  lemma ZeroData<T>(R: Arith<T>, p: Pair<T>)
    requires Broadcasts(p) && p.Rank() == 0
    ensures forall i :: 0 <= i < |Denote(R, p).data| ==> Denote(R, p).data[i] == R.zero
  {
    hide Denote, Prod, Ravel, Unravel;
    var t := Denote(R, p);
    forall i | 0 <= i < |t.data|
      ensures t.data[i] == R.zero
    {
      RavelUnravel(t.shape, i);
      var idx := Unravel(t.shape, i);
      assert At(t, idx) == t.data[i];
    }
  }

  lemma ReshapeRankZero<T>(R: Arith<T>, p: Pair<T>, dims: seq<int>)
    requires Broadcasts(p) && p.Rank() == 0 && ReshapePair(p, dims).Ok? && KeepsSize(dims, Prod(p.Shape()))
    ensures var q := ReshapePair(p, dims).value;
            FlatA(q) && q.Rank() == p.Rank() && Reshape(Denote(R, p), dims) == Ok(Denote(R, q))
  {
    hide Denote, Prod, Known, ReshapePair, Reshape, InfersAtMostOne;
    var q := ReshapePair(p, dims).value;
    var ds := ReshapedFlat(p, dims);
    TorchAccepts(p, Denote(R, p), dims);
    ReshapeKeepsSize(Denote(R, p), dims);
    ZeroData(R, p);
    ZeroData(R, q);
    assert Denote(R, q).data == Denote(R, p).data;
  }

  lemma ReshapeKeepsSize<T>(t: Tensor<T>, dims: seq<int>)
    requires Reshape(t, dims).Ok?
    ensures Prod(Reshape(t, dims).value.shape) == Prod(t.shape)
  {
  }

  // reshape: the product of the reshaped pair is the reshaped product.
  lemma ReshapeHomomorphism<T>(R: Arith<T>, p: Pair<T>, dims: seq<int>)
    requires Broadcasts(p) && ReshapePair(p, dims).Ok? && KeepsSize(dims, Prod(p.Shape()))
    ensures var q := ReshapePair(p, dims).value;
            FlatA(q) && q.Rank() == p.Rank() && Reshape(Denote(R, p), dims) == Ok(Denote(R, q))
  {
    hide Denote, Prod, ReshapePair, Reshape, Known;
    if p.Rank() > 0 {
      ReshapePositiveRank(R, p, dims);
    } else {
      ReshapeRankZero(R, p, dims);
    }
  }
}
