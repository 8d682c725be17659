// LoraTorchTensor: a pair (A, B) standing for the product B·A without computing it, and the
// operations the class reimplements on the two factors.
module LoraPairs {
  import opened Outcomes
  import opened Tensors

  // A is (..., rank, row size), B is (..., column size, rank).
  datatype Pair<T> = Pair(A: Tensor<T>, B: Tensor<T>) {
    // What the constructor asserts.
    ghost predicate WellFormed() {
      && A.Valid() && B.Valid()
      && |A.shape| == |B.shape| >= 2
      && A.shape[|A.shape| - 2] == B.shape[|B.shape| - 1]
    }

    // Number of axes.
    ghost function Dim(): nat {
      |B.shape|
    }

    ghost function Rank(): nat
      requires WellFormed()
    {
      B.shape[Dim() - 1]
    }

    ghost function RowSize(): nat
      requires WellFormed()
    {
      A.shape[Dim() - 1]
    }

    ghost function Shape(): seq<nat>
      requires WellFormed()
    {
      B.shape[..Dim() - 1] + [RowSize()]
    }
  }

  ghost function MakePair(A: Tensor, B: Tensor): (r: Result<Pair>)
    requires A.Valid() && B.Valid()
    ensures r.Ok? <==> Pair(A, B).WellFormed()
    ensures r.Ok? ==> r.value == Pair(A, B)
  {
    if Pair(A, B).WellFormed() then Ok(Pair(A, B)) else Raised
  }

  // ---------- the tensor a pair denotes ----------

  // The leading axes of A either match B's or have size 1 and are shared by every position.
  ghost predicate Broadcasts(p: Pair) {
    p.WellFormed() && forall k :: 0 <= k < p.Dim() - 2 ==> p.A.shape[k] == 1 || p.A.shape[k] == p.B.shape[k]
  }

  ghost predicate FlatA(p: Pair) {
    p.WellFormed() && forall k :: 0 <= k < p.Dim() - 2 ==> p.A.shape[k] == 1
  }

  ghost predicate InRows(p: Pair, row: seq<nat>, c: nat) {
    p.WellFormed() && InShape(row, p.B.shape[..p.Dim() - 1]) && c < p.RowSize()
  }

  ghost function InA(p: Pair, row: seq<nat>, c: nat, j: nat): (idx: seq<nat>)
    requires Broadcasts(p) && InRows(p, row, c) && j < p.Rank()
    ensures InShape(idx, p.A.shape)
  {
    var lead := seq(p.Dim() - 2, k requires 0 <= k < p.Dim() - 2 => if p.A.shape[k] == 1 then 0 else row[k]);
    assert forall k :: 0 <= k < p.Dim() - 2 ==> row[k] < p.B.shape[..p.Dim() - 1][k] == p.B.shape[k];
    lead + [j, c]
  }

  // The scalar arithmetic the product is taken in. Nothing is assumed of it, so what is proved of
  // the row operations holds for exact numbers and for rounded ones alike.
  datatype Arith<!T> = Arith(zero: T, plus: (T, T) -> T, times: (T, T) -> T)

  ghost function Term<T>(R: Arith<T>, p: Pair<T>, row: seq<nat>, c: nat, j: nat): T
    requires Broadcasts(p) && InRows(p, row, c) && j < p.Rank()
  {
    R.times(At(p.B, row + [j]), At(p.A, InA(p, row, c, j)))
  }

  // The sum over the first n ranks of B[row, j] * A[..., j, c].
  ghost function Contract<T>(R: Arith<T>, p: Pair<T>, row: seq<nat>, c: nat, n: nat): T
    requires Broadcasts(p) && InRows(p, row, c) && n <= p.Rank()
  {
    if n == 0 then R.zero else R.plus(Contract(R, p, row, c, n - 1), Term(R, p, row, c, n - 1))
  }

  lemma SplitIndex(p: Pair, idx: seq<nat>)
    requires p.WellFormed() && InShape(idx, p.Shape())
    ensures InRows(p, idx[..p.Dim() - 1], idx[p.Dim() - 1])
  {
    var n := p.Dim() - 1;
    assert idx[n] < p.Shape()[n];
    forall k | 0 <= k < n ensures idx[k] < p.B.shape[..n][k] {
      assert idx[k] < p.Shape()[k];
    }
  }

  // The product B·A.
  ghost function Denote<T>(R: Arith<T>, p: Pair<T>): (t: Tensor<T>)
    requires Broadcasts(p)
    ensures t.Valid() && t.shape == p.Shape()
    ensures forall idx {:trigger At(t, idx)} :: InShape(idx, p.Shape()) ==>
                            InRows(p, idx[..p.Dim() - 1], idx[p.Dim() - 1])
                            && At(t, idx) == Contract(R, p, idx[..p.Dim() - 1], idx[p.Dim() - 1], p.Rank())
  {
    assert forall idx :: InShape(idx, p.Shape()) ==> InRows(p, idx[..p.Dim() - 1], idx[p.Dim() - 1]) by {
      forall idx | InShape(idx, p.Shape()) ensures InRows(p, idx[..p.Dim() - 1], idx[p.Dim() - 1]) {
        SplitIndex(p, idx);
      }
    }
    Build(p.Shape(), idx requires InShape(idx, p.Shape()) =>
                         Contract(R, p, idx[..p.Dim() - 1], idx[p.Dim() - 1], p.Rank()))
  }

  lemma {:induction false} SameContract<T>(R: Arith<T>, p: Pair<T>, row: seq<nat>, c: nat, p': Pair<T>, row': seq<nat>, c': nat, n: nat)
    requires Broadcasts(p) && InRows(p, row, c) && n <= p.Rank()
    requires Broadcasts(p') && InRows(p', row', c') && n <= p'.Rank()
    requires forall j :: 0 <= j < n ==> Term(R, p, row, c, j) == Term(R, p', row', c', j)
    ensures Contract(R, p, row, c, n) == Contract(R, p', row', c', n)
  {
    if n > 0 {
      SameContract(R, p, row, c, p', row', c', n - 1);
    }
  }

  // ---------- the operations ----------

  // __getitem__ of one integer.
  ghost function GetInt(p: Pair, i: int): (r: Result<Pair>)
    requires p.WellFormed()
    ensures r.Ok? ==> r.value.WellFormed()
  {
    if p.Dim() > 2 then
      var a :- GetTuple(p.A, [Int(i)]);
      var b :- GetTuple(p.B, [Int(i)]);
      MakePair(a, b)
    else Raised
  }

  // __getitem__ of one slice.
  ghost function GetSlice(p: Pair, x: Index): (r: Result<Pair>)
    requires p.WellFormed() && x.Slice?
    ensures r.Ok? ==> r.value.WellFormed()
  {
    var b :- GetTuple(p.B, [x]);
    if p.Dim() > 2 then
      var a :- GetTuple(p.A, [x]);
      MakePair(a, b)
    else
      MakePair(p.A, b)
  }

  // An ellipsis is expanded to one slice fewer than the tuple has entries.
  function ExpandInPair(xs: seq<Index>, n: nat): seq<Index> {
    if xs == [] then [] else
      (if xs[0] == Ellipsis then Fulls(n - 1) else [xs[0]]) + ExpandInPair(xs[1..], n)
  }

  // A trailing ellipsis is dropped, then every other one is expanded and the tuple padded.
  function NormalizeInPair(xs: seq<Index>, dim: nat): Result<seq<Index>> {
    if xs == [] then Raised
    else if xs[|xs| - 1] == Ellipsis then NormalizeInPair(xs[..|xs| - 1], dim)
    else
      var ys := ExpandInPair(xs, |xs|);
      Ok(ys + Fulls(dim - |ys|))
  }

  // The index used on a leading axis of A: an integer is reduced modulo A's size there, anything
  // else keeps the whole axis. ZeroDivisionError on a size of 0.
  function LeadIndexA(x: Index, size: nat): Result<Index> {
    if x.Int? then
      if size == 0 then Raised else Ok(Int(x.i % size))
    else Ok(FULL)
  }

  function LeadIndicesA(xs: seq<Index>, s: seq<nat>): (r: Result<seq<Index>>)
    requires |xs| <= |s|
    ensures r.Ok? ==> |r.value| == |xs| && forall k :: 0 <= k < |xs| ==> LeadIndexA(xs[k], s[k]) == Ok(r.value[k])
  {
    if forall k :: 0 <= k < |xs| ==> LeadIndexA(xs[k], s[k]).Ok?
    then Ok(seq(|xs|, k requires 0 <= k < |xs| => LeadIndexA(xs[k], s[k]).value))
    else Raised
  }

  // __getitem__ of a tuple, after normalization to one index per axis.
  ghost function GetAxes(p: Pair, xs: seq<Index>): Result<Pair>
    requires p.WellFormed() && |xs| == p.Dim()
  {
    var n := |xs|;
    var lead :- LeadIndicesA(xs[..n - 2], p.A.shape);
    var a :- SelectBy(p.A, lead + [FULL, xs[n - 1]]);
    var b :- SelectBy(p.B, xs[..n - 1] + [FULL]);
    MakePair(a, b)
  }

  ghost function GetMany(p: Pair, xs: seq<Index>): (r: Result<Pair>)
    requires p.WellFormed()
    ensures r.Ok? ==> r.value.WellFormed()
  {
    var ys :- NormalizeInPair(xs, p.Dim());
    if |ys| == p.Dim() then GetAxes(p, ys) else Raised
  }

  // -1 is expanded here; more than one -1 is not refused.
  function ExpandInfer(dims: seq<int>, numel: nat): Result<seq<int>> {
    if -1 in dims then
      if Known(dims) != 0 && numel % Known(dims) == 0 then Ok(Fill(dims, numel / Known(dims))) else Raised
    else Ok(dims)
  }

  function Ones(n: int): (r: seq<int>)
    ensures |r| == if n > 0 then n else 0
    ensures forall k :: 0 <= k < |r| ==> r[k] == 1
  {
    if n <= 0 then [] else seq(n, _ => 1)
  }

  ghost function ReshapePair(p: Pair, dims: seq<int>): (r: Result<Pair>)
    requires p.WellFormed()
    ensures r.Ok? ==> r.value.WellFormed()
  {
    if |dims| < 2 then Raised else
      var ds :- ExpandInfer(dims, Prod(p.Shape()));
      if |ds| < 2 || ds[|ds| - 1] != p.RowSize() then Raised else
        var a :- Reshape(p.A, Ones(|ds| - 2) + [p.Rank(), p.RowSize()]);
        var b :- Reshape(p.B, ds[..|ds| - 1] + [p.Rank()]);
        if a.Valid() && b.Valid() then MakePair(a, b) else Raised
  }

  function Negative(dims: seq<int>, n: nat): (r: seq<int>)
    ensures |r| == |dims|
    ensures forall k :: 0 <= k < |dims| ==> r[k] == if dims[k] >= 0 then dims[k] - n else dims[k]
  {
    seq(|dims|, k requires 0 <= k < |dims| => if dims[k] >= 0 then dims[k] - n else dims[k])
  }

  ghost function PermutePair(p: Pair, dims: seq<int>): (r: Result<Pair>)
    requires p.WellFormed()
    ensures r.Ok? ==> r.value.WellFormed()
  {
    var ds := Negative(dims, p.Dim());
    if ds == [] then Raised
    else if ds[|ds| - 1] == -1 then
      if FlatA(p) then
        var b :- Permute(p.B, ds);
        if b.Valid() then MakePair(p.A, b) else Raised
      else Raised
    else if p.Dim() == 2 && ds[|ds| - 1] == -2 && |ds| >= 2 && ds[|ds| - 2] == -1 then
      var a :- Permute(p.B, ds);
      var b :- Permute(p.A, ds);
      if a.Valid() && b.Valid() then MakePair(a, b) else Raised
    else Raised
  }

  ghost function TransposePair(p: Pair, dim0: int, dim1: int): (r: Result<Pair>)
    requires p.WellFormed()
    ensures r.Ok? ==> r.value.WellFormed()
  {
    var i :- Wrap(dim0, p.Dim());
    var j :- Wrap(dim1, p.Dim());
    PermutePair(p, Swapped(p.Dim(), i, j))
  }

  ghost function As(ps: seq<Pair>): (r: seq<Tensor>)
    requires forall p :: p in ps ==> p.WellFormed()
    ensures forall t :: t in r ==> t.Valid()
    ensures |r| == |ps| && forall k :: 0 <= k < |ps| ==> r[k] == ps[k].A
  {
    assert forall k :: 0 <= k < |ps| ==> ps[k].A.Valid() by {
      forall k | 0 <= k < |ps| ensures ps[k].A.Valid() {
        assert ps[k].WellFormed();
      }
    }
    var r := seq(|ps|, k requires 0 <= k < |ps| => ps[k].A);
    assert forall k :: 0 <= k < |r| ==> r[k].Valid();
    r
  }

  ghost function Bs(ps: seq<Pair>): (r: seq<Tensor>)
    requires forall p :: p in ps ==> p.WellFormed()
    ensures forall t :: t in r ==> t.Valid()
    ensures |r| == |ps| && forall k :: 0 <= k < |ps| ==> r[k] == ps[k].B
  {
    assert forall k :: 0 <= k < |ps| ==> ps[k].B.Valid() by {
      forall k | 0 <= k < |ps| ensures ps[k].B.Valid() {
        assert ps[k].WellFormed();
      }
    }
    var r := seq(|ps|, k requires 0 <= k < |ps| => ps[k].B);
    assert forall k :: 0 <= k < |r| ==> r[k].Valid();
    r
  }

  ghost function StackPairs(ps: seq<Pair>): (r: Result<Pair>)
    requires forall p :: p in ps ==> p.WellFormed()
    ensures r.Ok? ==> r.value.WellFormed()
  {
    var a :- Stack(As(ps));
    var b :- Stack(Bs(ps));
    MakePair(a, b)
  }

  ghost function CatPairs(ps: seq<Pair>): (r: Result<Pair>)
    requires forall p :: p in ps ==> p.WellFormed()
    ensures r.Ok? ==> r.value.WellFormed()
  {
    if ps == [] then Raised
    else if ps[0].Dim() > 2 then
      var a :- Cat(As(ps));
      var b :- Cat(Bs(ps));
      MakePair(a, b)
    else if forall p :: p in ps ==> p.A == ps[0].A then
      var b :- Cat(Bs(ps));
      assert ps[0].WellFormed();
      MakePair(ps[0].A, b)
    else Raised
  }
}
