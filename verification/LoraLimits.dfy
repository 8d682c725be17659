// Where the class departs from torch. Each lemma gives the exact condition on one kind of call for
// the pair's result to denote torch's result on the product.
module LoraLimits {
  import opened Outcomes
  import opened Tensors
  import opened LoraPairs
  import opened LoraHomomorphism
  import opened LoraReshape
  import opened LoraIndexing
  import opened LoraGetItem
  import opened LoraStacking

  // The class infers every -1 of a reshape, torch refuses more than one; and of a pair of rank 0 the
  // class does not see that the number of elements changes. In all other calls both agree.
  lemma ReshapeExact<T>(R: Arith<T>, p: Pair<T>, dims: seq<int>)
    requires Broadcasts(p) && ReshapePair(p, dims).Ok?
    ensures Broadcasts(ReshapePair(p, dims).value)
    ensures Reshape(Denote(R, p), dims) == Ok(Denote(R, ReshapePair(p, dims).value))
       <==> InfersAtMostOne(dims) && (-1 in dims || Known(dims) == Prod(p.Shape()))
    ensures Reshape(Denote(R, p), dims) == Ok(Denote(R, ReshapePair(p, dims).value)) <==> Reshape(Denote(R, p), dims).Ok?
    ensures p.Rank() > 0 && InfersAtMostOne(dims) ==> KeepsSize(dims, Prod(p.Shape()))
  {
    hide Denote, Prod, ReshapePair, Known, Reshape, InfersAtMostOne;
    var ds := ReshapedFlat(p, dims);
    TorchAccepts(p, Denote(R, p), dims);
    if KeepsSize(dims, Prod(p.Shape())) {
      ReshapeHomomorphism(R, p, dims);
    } else if p.Rank() > 0 && InfersAtMostOne(dims) {
      ReshapePositiveRank(R, p, dims);
    }
  }

  // Two rows of rank 0 become three, since the factor B is empty.
  lemma RankZeroReshapes<T>(R: Arith<T>)
    ensures Prod([0, 1]) == Prod([2, 0]) == 0
    ensures var p: Pair<T> := Pair(Tensor([0, 1], []), Tensor([2, 0], []));
            && Broadcasts(p) && p.Rank() == 0
            && ReshapePair(p, [3, 1]).Ok? && Reshape(Denote(R, p), [3, 1]).Raised?
  {
    hide Denote, Prod, Known, Reshape;
    Prod4(0, 1, 0, 0);
    Prod4(2, 0, 0, 0);
    Prod4(3, 0, 0, 0);
    Prod4(2, 1, 0, 0);
    Prod4(3, 1, 0, 0);
    var p: Pair<T> := Pair(Tensor([0, 1], []), Tensor([2, 0], []));
    assert p.Shape() == [2, 1];
    ReshapeTo(p.A, [0, 1]);
    ReshapeTo(p.B, [3, 0]);
    ReshapeTo(Denote(R, p), [3, 1]);
    var dims: seq<int> := [3, 1];
    assert ExpandInfer(dims, 2) == Ok(dims);
    assert Ones(0) + [p.Rank(), p.RowSize()] == [0, 1] && dims[..1] + [p.Rank()] == [3, 0];
  }

  // The class shifts every dimension of a permutation by the tensor's rank, so it also accepts
  // dimensions from the rank up to twice the rank, which torch refuses.
  lemma PermuteExact<T(!new)>(R: Arith<T>, p: Pair<T>, dims: seq<int>)
    requires Broadcasts(p) && PermutePair(p, dims).Ok?
    requires KeepsLast(dims, p.Dim()) || Commutes(R)
    ensures Permute(Denote(R, p), dims).Ok? <==> forall k :: 0 <= k < |dims| ==> dims[k] < p.Dim()
    ensures Permute(Denote(R, p), dims).Ok? ==>
              Broadcasts(PermutePair(p, dims).value)
              && Permute(Denote(R, p), dims) == Ok(Denote(R, PermutePair(p, dims).value))
  {
    hide Denote, Prod, PermutePair, KeepsLast, Commutes, IsPermutation;
    if forall k :: 0 <= k < |dims| ==> dims[k] < p.Dim() {
      PermuteHomomorphism(R, p, dims);
    } else {
      var k :| 0 <= k < |dims| && dims[k] >= p.Dim();
      assert !Wrap(dims[k], p.Dim()).Ok?;
    }
  }

  // Integers on both of the last two axes: torch drops both, the class keeps the rank axis.
  lemma TwoIntegersExact<T>(R: Arith<T>, p: Pair<T>, xs: seq<Index>)
    requires Broadcasts(p) && |xs| == p.Dim() && AtMostOneList(xs) && GetAxes(p, xs).Ok? && SharesLeading(p, xs)
    requires forall k :: 0 <= k < p.Dim() - 2 ==> xs[k].List? ==> p.A.shape[k] == 1 || KeepsAll(xs[k], p.B.shape[k])
    ensures (Broadcasts(GetAxes(p, xs).value) && SelectBy(Denote(R, p), xs) == Ok(Denote(R, GetAxes(p, xs).value)))
       <==> !(xs[p.Dim() - 2].Int? && xs[p.Dim() - 1].Int?)
  {
    hide Denote, Prod, GetAxes, SelectBy, AtMostOneList, SharesLeading, KeepsAll;
    if xs[p.Dim() - 2].Int? && xs[p.Dim() - 1].Int? {
      if Broadcasts(GetAxes(p, xs).value) {
        ProductLosesAnAxis(R, p, xs);
      }
    } else {
      GetAxesHomomorphism(R, p, xs);
    }
  }

  lemma OneAxisLessSelected<T>(d: Tensor<T>, b: Tensor<T>, xs: seq<Index>, n: nat)
    requires d.Valid() && b.Valid() && |xs| == |d.shape| == |b.shape| == n >= 2
    requires d.shape[..n - 1] == b.shape[..n - 1] && xs[n - 1].Int?
    requires SelectBy(d, xs).Ok? && SelectBy(b, xs[..n - 1] + [FULL]).Ok?
    ensures |SelectBy(b, xs[..n - 1] + [FULL]).value.shape| == |SelectBy(d, xs).value.shape| + 1
  {
    hide Prod, AxisShape, SlicePicks, AtMostOneList, At, InShape;
    var ib := xs[..n - 1] + [FULL];
    var axB, axD := ResolveIndices(ib, b.shape).value, ResolveIndices(xs, d.shape).value;
    forall k | 0 <= k < n - 1 ensures axD[k] == axB[k] {
      assert ib[k] == xs[k] && d.shape[k] == d.shape[..n - 1][k] == b.shape[k];
    }
    assert axD[..n - 1] == axB[..n - 1];
    FullSlice(b.shape[n - 1]);
    OneAxisLess(axB, axD, n);
  }

  lemma ProductLosesAnAxis<T>(R: Arith<T>, p: Pair<T>, xs: seq<Index>)
    requires Broadcasts(p) && |xs| == p.Dim() && xs[p.Dim() - 2].Int? && xs[p.Dim() - 1].Int?
    requires GetAxes(p, xs).Ok? && Broadcasts(GetAxes(p, xs).value)
    ensures SelectBy(Denote(R, p), xs) != Ok(Denote(R, GetAxes(p, xs).value))
  {
    hide Denote, Prod, Select, AxisShape, SlicePicks, AtMostOneList, SelectBy, At, InShape, InRows, LeadIndicesA;
    var n := |xs|;
    var d := Denote(R, p);
    if SelectBy(d, xs).Ok? {
      assert d.shape[..n - 1] == p.B.shape[..n - 1];
      OneAxisLessSelected(d, p.B, xs, n);
    }
  }

  lemma OneAxisLess(axB: seq<Axis>, axD: seq<Axis>, n: nat)
    requires |axB| == |axD| == n > 0 && axD[..n - 1] == axB[..n - 1]
    requires axB[n - 1].Along? && axD[n - 1].Fixed?
    ensures |AxisShape(axB)| == |AxisShape(axD)| + 1
  {
    LastApart(axB);
    LastApart(axD);
    AxisShapeLast(axB[..n - 1], axB[n - 1].picks);
    AxisShapeFixed(axB[..n - 1], axD[n - 1]);
  }

  // Pairs of more than two axes have their factors A concatenated even where one is shared along the
  // first axis. If none of them is empty the result has a product exactly if none is shared so, or
  // there is one pair only.
  lemma CatExact<T>(R: Arith<T>, ps: seq<Pair<T>>)
    requires AllBroadcast(ps) && CatPairs(ps).Ok? && forall p :: p in ps ==> p.B.shape[0] > 0
    ensures Broadcasts(CatPairs(ps).value) <==> CatsFaithfully(ps)
    ensures Broadcasts(CatPairs(ps).value) ==> Cat(Denotes(R, ps)) == Ok(Denote(R, CatPairs(ps).value))
  {
    hide Denote, Prod, CatPairs, CatsFaithfully, Cat;
    if CatsFaithfully(ps) {
      CatHomomorphism(R, ps);
    } else {
      SharedCat(ps);
    }
  }

  lemma SharedCat<T>(ps: seq<Pair<T>>)
    requires AllBroadcast(ps) && CatPairs(ps).Ok? && (forall p :: p in ps ==> p.B.shape[0] > 0) && !CatsFaithfully(ps)
    ensures !Broadcasts(CatPairs(ps).value)
  {
    hide Prod, Sum, Cat, CatPairs;
    CatDims(ps);
    CatHeights(ps);
    HeightsBelow(ps);
    hide Broadcasts;
    NotBroadcast(CatPairs(ps).value);
  }

  lemma NotBroadcast<T>(q: Pair<T>)
    requires q.WellFormed() && q.Dim() > 2 && 2 <= q.A.shape[0] < q.B.shape[0]
    ensures !Broadcasts(q)
  {
  }

  lemma CatHeights<T>(ps: seq<Pair<T>>)
    requires AllBroadcast(ps) && CatPairs(ps).Ok? && !OwnLeadingA(ps)
    ensures forall t :: t in As(ps) + Bs(ps) ==> |t.shape| > 0
    ensures var q := CatPairs(ps).value;
            q.WellFormed() && q.Dim() > 2 && q.A.shape[0] == Sum(Heights(As(ps))) && q.B.shape[0] == Sum(Heights(Bs(ps)))
  {
    hide Prod, Sum;
    CatDims(ps);
    assert As(ps)[0] == ps[0].A;
  }

  lemma HeightsBelow<T>(ps: seq<Pair<T>>)
    requires AllBroadcast(ps) && (forall p :: p in ps ==> p.Dim() > 2 && p.B.shape[0] > 0) && !OwnLeadingA(ps) && |ps| != 1
    ensures forall t :: t in As(ps) + Bs(ps) ==> |t.shape| > 0
    ensures 2 <= Sum(Heights(As(ps))) < Sum(Heights(Bs(ps)))
  {
    hide Prod, Sum;
    PieceHeightsApart(ps);
    var a, b := Heights(As(ps)), Heights(Bs(ps));
    SumBelow(a, b);
  }

  lemma PieceHeightsApart<T>(ps: seq<Pair<T>>)
    requires AllBroadcast(ps) && (forall p :: p in ps ==> p.Dim() > 2 && p.B.shape[0] > 0) && !OwnLeadingA(ps)
    ensures forall t :: t in As(ps) + Bs(ps) ==> |t.shape| > 0
    ensures var a, b := Heights(As(ps)), Heights(Bs(ps));
            a != b && |a| == |b| == |ps| && forall k :: 0 <= k < |ps| ==> 1 <= a[k] <= b[k]
  {
    hide Prod, Sum;
    forall k | 0 <= k < |ps|
      ensures |ps[k].A.shape| > 0 && |ps[k].B.shape| > 0 && 1 <= ps[k].A.shape[0] <= ps[k].B.shape[0]
    {
      assert ps[k] in ps && Broadcasts(ps[k]);
      FirstSizes(ps[k]);
    }
    var k := SharedPiece(ps);
    assert Heights(As(ps))[k] != Heights(Bs(ps))[k];
  }

  lemma FirstSizes<T>(p: Pair<T>)
    requires Broadcasts(p) && p.Dim() > 2 && p.B.shape[0] > 0
    ensures |p.A.shape| > 0 && 1 <= p.A.shape[0] <= p.B.shape[0]
  {
  }

  lemma SharedPiece<T>(ps: seq<Pair<T>>) returns (k: nat)
    requires AllBroadcast(ps) && (forall p :: p in ps ==> p.Dim() > 2) && !OwnLeadingA(ps)
    ensures k < |ps| && ps[k].WellFormed() && ps[k].A.shape[0] != ps[k].B.shape[0]
  {
    var p :| p in ps && p.WellFormed() && p.A.shape[0] != p.B.shape[0];
    k :| 0 <= k < |ps| && ps[k] == p;
  }

  lemma CatDims<T>(ps: seq<Pair<T>>)
    requires AllBroadcast(ps) && CatPairs(ps).Ok? && !OwnLeadingA(ps)
    ensures ps[0].Dim() > 2 && Cat(As(ps)).Ok? && Cat(Bs(ps)).Ok? && forall p :: p in ps ==> p.Dim() > 2
  {
    hide Prod;
    forall p | p in ps ensures p.Dim() == ps[0].Dim() {
      var k :| 0 <= k < |ps| && ps[k] == p;
      assert Bs(ps)[k] in Bs(ps);
    }
  }

  // ---------- calls on which the two differ ----------

  lemma OneByOne<T>(R: Arith<T>, x: T, y: T)
    ensures Prod([1, 1]) == 1
    ensures var p := Pair(Tensor([1, 1], [x]), Tensor([1, 1], [y])); Broadcasts(p) && p.Shape() == [1, 1] && p.Rank() == 1
  {
    Prod4(1, 1, 0, 0);
  }

  // Two dimensions to infer.
  lemma TwoInferred<T>(R: Arith<T>, x: T, y: T)
    ensures var p := Pair(Tensor([1, 1], [x]), Tensor([1, 1], [y]));
            && Broadcasts(p) && ReshapePair(p, [-1, -1, 1]).Ok?
            && Reshape(Denote(R, p), [-1, -1, 1]).Raised?
  {
    hide Denote, Prod, Known;
    var p := Pair(Tensor([1, 1], [x]), Tensor([1, 1], [y]));
    var dims: seq<int> := [-1, -1, 1];
    OneByOne(R, x, y);
    KnownOfUnits();
    assert Fill(dims, 1) == [1, 1, 1];
    Prod4(1, 1, 1, 0);
    assert [1, 1] + [1] == [1, 1, 1] && Ones(1) + [p.Rank(), p.RowSize()] == [1, 1, 1];
    ReshapeTo(p.A, [1, 1, 1]);
    ReshapeTo(p.B, [1, 1, 1]);
    assert dims[0] == -1 && dims[1] == -1;
  }

  lemma KnownOfUnits()
    ensures Known([-1, -1, 1]) == 1
  {
    var dims: seq<int> := [-1, -1, 1];
    assert dims[..2] == [-1, -1] && dims[..2][..1] == [-1] && dims[..2][..1][..0] == [];
    assert Known([]) == 1 && Known([-1]) == 1 && Known([-1, -1]) == 1;
  }

  // Dimensions from the rank up.
  lemma PermuteBeyondRank<T>(R: Arith<T>, x: T, y: T)
    ensures var p := Pair(Tensor([1, 1], [x]), Tensor([1, 1], [y]));
            && Broadcasts(p) && PermutePair(p, [2, 1]).Ok? && Permute(Denote(R, p), [2, 1]).Raised?
  {
    hide Denote, Prod;
    var p := Pair(Tensor([1, 1], [x]), Tensor([1, 1], [y]));
    OneByOne(R, x, y);
    var ds := Negative([2, 1], 2);
    assert ds == [0, -1];
    assert WrapAll(ds, 2).value == [0, 1];
    IdentityPermutation();
    assert !Wrap(2, 2).Ok? && [2, 1][0] == 2;
    assert PermShape([0, 1], [1, 1]) == [1, 1];
  }

  lemma IdentityPermutation()
    ensures IsPermutation([0, 1])
  {
    assert [0, 1][0] == 0 && [0, 1][1] == 1;
  }

  // An integer on each of the last two of three axes.
  lemma TwoIntegersLoseAnAxis<T>(R: Arith<T>, x: T, y: T)
    ensures Prod([1, 1, 1]) == 1
    ensures var p := Pair(Tensor([1, 1, 1], [x]), Tensor([1, 1, 1], [y]));
            var xs := [FULL, Int(0), Int(0)];
            && Broadcasts(p) && GetAxes(p, xs).Ok? && Broadcasts(GetAxes(p, xs).value)
            && SelectBy(Denote(R, p), xs) != Ok(Denote(R, GetAxes(p, xs).value))
  {
    hide Denote, Prod, Select, SelectBy, AxisShape, LeadIndicesA, At;
    Prod4(1, 1, 1, 0);
    var a, b := Tensor([1, 1, 1], [x]), Tensor([1, 1, 1], [y]);
    var p := Pair(a, b);
    var xs := [FULL, Int(0), Int(0)];
    assert xs[..1] == [FULL] && xs[..2] == [FULL, Int(0)];
    LeadSlice(FULL, a.shape);
    assert [FULL] + [FULL, Int(0)] == [FULL, FULL, Int(0)] && [FULL, Int(0)] + [FULL] == [FULL, Int(0), FULL];
    SelectedOnes(a);
    SelectedOnes(b);
    ProductLosesAnAxis(R, p, xs);
  }

  lemma SelectedOnes<T>(t: Tensor<T>)
    requires t.Valid() && t.shape == [1, 1, 1]
    ensures SelectBy(t, [FULL, FULL, Int(0)]).Ok? && SelectBy(t, [FULL, FULL, Int(0)]).value.shape == [1, 1]
            && SelectBy(t, [FULL, FULL, Int(0)]).value.Valid()
    ensures SelectBy(t, [FULL, Int(0), FULL]).Ok? && SelectBy(t, [FULL, Int(0), FULL]).value.shape == [1, 1]
            && SelectBy(t, [FULL, Int(0), FULL]).value.Valid()
  {
    hide Prod, AxisShape, SlicePicks, At;
    FullSlice(1);
    var whole := ResolveIndex(FULL, 1).value;
    ResolvedFits(FULL, 1);
    ResolvedFits(Int(0), 1);
    assert ResolveIndices([FULL, FULL, Int(0)], t.shape).value == [whole, whole, Fixed(0)];
    assert ResolveIndices([FULL, Int(0), FULL], t.shape).value == [whole, Fixed(0), whole];
    TwoAxes(whole.picks);
  }

  lemma TwoAxes(picks: seq<nat>)
    ensures AxisShape([Along(picks), Along(picks), Fixed(0)]) == [|picks|, |picks|]
    ensures AxisShape([Along(picks), Fixed(0), Along(picks)]) == [|picks|, |picks|]
  {
    hide AxisShape;
    NoAxes();
    var x := Along(picks);
    AxisShapeLast([], picks);
    assert [] + [x] == [x];
    AxisShapeLast([x], picks);
    AxisShapeFixed([x, x], Fixed(0));
    AxisShapeFixed([x], Fixed(0));
    AxisShapeLast([x, Fixed(0)], picks);
    assert [x] + [x] == [x, x] && [x, x] + [Fixed(0)] == [x, x, Fixed(0)];
    assert [x] + [Fixed(0)] == [x, Fixed(0)] && [x, Fixed(0)] + [x] == [x, Fixed(0), x];
  }

  // A slice of a leading axis along which A is not shared: A keeps all of that axis.
  lemma SliceOfOwnAxis<T>(R: Arith<T>, x: T, y: T, u: T, v: T)
    ensures Prod([2, 1, 1]) == 2
    ensures var p := Pair(Tensor([2, 1, 1], [x, y]), Tensor([2, 1, 1], [u, v]));
            var xs := [Slice(Some(0), Some(1), None), FULL, FULL];
            && Broadcasts(p) && SelectBy(Denote(R, p), xs).Ok?
            && GetAxes(p, xs).Ok? && !Broadcasts(GetAxes(p, xs).value)
  {
    Prod4(2, 1, 1, 0);
    hide Prod, At, Denote, LeadIndicesA, SelectBy, SlicePicks, ResolveIndex;
    var p := Pair(Tensor([2, 1, 1], [x, y]), Tensor([2, 1, 1], [u, v]));
    var cut := Slice(Some(0), Some(1), None);
    var xs := [cut, FULL, FULL];
    assert xs[..1] == [cut] && xs[..2] == [cut, FULL];
    LeadSlice(cut, p.A.shape);
    assert [FULL] + [FULL, FULL] == [FULL, FULL, FULL] && [cut, FULL] + [FULL] == xs;
    FirstOfTwo();
    FullSlice(2);
    var whole := ResolveIndex(FULL, 2).value.picks;
    SelectedThree(Denote(R, p), cut, [0]);
    SelectedThree(p.A, FULL, whole);
    SelectedThree(p.B, cut, [0]);
  }

  lemma FirstOfTwo()
    ensures ResolveIndex(Slice(Some(0), Some(1), None), 2) == Ok(Along([0]))
  {
    assert SlicePicks(0, 1, 1) == [0];
  }

  lemma LeadSlice(x: Index, s: seq<nat>)
    requires |s| == 3 && !x.Int?
    ensures LeadIndicesA([x], s) == Ok([FULL])
  {
    assert LeadIndicesA([x], s).value == [FULL];
  }

  lemma SelectedThree<T>(t: Tensor<T>, x: Index, a: seq<nat>)
    requires t.Valid() && |t.shape| == 3 && t.shape[1..] == [1, 1] && ResolveIndex(x, t.shape[0]) == Ok(Along(a))
    ensures var r := SelectBy(t, [x, FULL, FULL]); r.Ok? && r.value.Valid() && r.value.shape == [|a|, 1, 1]
  {
    hide Prod, AxisShape, SlicePicks, At, ResolveIndex;
    var xs := [x, FULL, FULL];
    assert t.shape[1] == t.shape[1..][0] == 1 && t.shape[2] == t.shape[1..][1] == 1;
    FullSlice(1);
    var whole := ResolveIndex(FULL, 1).value;
    ResolvedFits(x, t.shape[0]);
    ResolvedFits(FULL, 1);
    assert ResolveIndices(xs, t.shape).value == [Along(a), whole, whole];
    ThreeAxes(a, whole.picks, whole.picks);
  }

  lemma ThreeAxes(a: seq<nat>, b: seq<nat>, c: seq<nat>)
    ensures AxisShape([Along(a), Along(b), Along(c)]) == [|a|, |b|, |c|]
  {
    hide AxisShape;
    NoAxes();
    AxisShapeLast([], a);
    AxisShapeLast([Along(a)], b);
    AxisShapeLast([Along(a), Along(b)], c);
    assert [] + [Along(a)] == [Along(a)] && [Along(a)] + [Along(b)] == [Along(a), Along(b)];
    assert [Along(a), Along(b)] + [Along(c)] == [Along(a), Along(b), Along(c)];
  }

  // One slice of the first axis, which cuts a shared factor A too.
  lemma SliceOfSharedAxis<T>(R: Arith<T>, x: T, u: T, v: T)
    ensures Prod([1, 1, 1]) == 1 && Prod([2, 1, 1]) == 2
    ensures var p := Pair(Tensor([1, 1, 1], [x]), Tensor([2, 1, 1], [u, v]));
            var cut := Slice(Some(1), Some(2), None);
            && Broadcasts(p) && GetTuple(Denote(R, p), [cut]).Ok?
            && GetSlice(p, cut).Ok? && !Broadcasts(GetSlice(p, cut).value)
  {
    Prod4(2, 1, 1, 0);
    Prod4(1, 1, 1, 0);
    hide Prod, At, Denote, SelectBy, SlicePicks, ResolveIndex, GetTuple;
    var p := Pair(Tensor([1, 1, 1], [x]), Tensor([2, 1, 1], [u, v]));
    var cut := Slice(Some(1), Some(2), None);
    SecondOfTwo();
    CutThree(Denote(R, p), cut, [1]);
    CutThree(p.A, cut, []);
    CutThree(p.B, cut, [1]);
  }

  lemma SecondOfTwo()
    ensures ResolveIndex(Slice(Some(1), Some(2), None), 2) == Ok(Along([1]))
    ensures ResolveIndex(Slice(Some(1), Some(2), None), 1) == Ok(Along([]))
  {
    assert SlicePicks(1, 2, 1) == [1] && SlicePicks(1, 1, 1) == [];
  }

  lemma CutThree<T>(t: Tensor<T>, x: Index, a: seq<nat>)
    requires t.Valid() && |t.shape| == 3 && t.shape[1..] == [1, 1] && ResolveIndex(x, t.shape[0]) == Ok(Along(a))
    ensures var r := GetTuple(t, [x]); r.Ok? && r.value.Valid() && r.value.shape == [|a|, 1, 1]
  {
    hide Prod, SelectBy;
    SelectedThree(t, x, a);
    GetTupleOfOne(t, x);
    assert Padded(x, 3) == [x, FULL, FULL];
  }

  // A list that exchanges the positions of an axis along which A is not shared: the class leaves A's
  // in order, so the first element is of other positions of B and A than torch's.
  lemma ListOfOwnAxis<T>(R: Arith<T>, x: T, y: T, u: T, v: T)
    requires R.plus(R.zero, R.times(v, x)) != R.plus(R.zero, R.times(v, y))
    ensures Prod([2, 1, 1]) == 2
    ensures var p := Pair(Tensor([2, 1, 1], [x, y]), Tensor([2, 1, 1], [u, v]));
            var xs := [List([1, 0]), FULL, FULL];
            && Broadcasts(p) && SelectBy(Denote(R, p), xs).Ok?
            && GetAxes(p, xs).Ok? && Broadcasts(GetAxes(p, xs).value)
            && SelectBy(Denote(R, p), xs) != Ok(Denote(R, GetAxes(p, xs).value))
  {
    Prod4(2, 1, 1, 0);
    hide Prod, At, Denote, LeadIndicesA, SelectBy, SlicePicks, ResolveIndex;
    var p := Pair(Tensor([2, 1, 1], [x, y]), Tensor([2, 1, 1], [u, v]));
    var swap := List([1, 0]);
    var xs := [swap, FULL, FULL];
    assert xs[..1] == [swap] && xs[..2] == [swap, FULL];
    LeadSlice(swap, p.A.shape);
    assert [FULL] + [FULL, FULL] == [FULL, FULL, FULL] && [swap, FULL] + [FULL] == xs;
    SwapOfTwo();
    FullSlice(2);
    var whole := ResolveIndex(FULL, 2).value.picks;
    PickedThree(Denote(R, p), swap, [1, 0], 0);
    PickedThree(p.A, FULL, whole, 0);
    PickedThree(p.B, swap, [1, 0], 0);
    var q := GetAxes(p, xs).value;
    DenoteThree(R, p, 1);
    DenoteThree(R, q, 0);
    FirstAndSecond(p.A);
    FirstAndSecond(p.B);
  }

  lemma SwapOfTwo()
    ensures ResolveIndex(List([1, 0]), 2) == Ok(Along([1, 0]))
  {
    assert WrapAll([1, 0], 2).value == [1, 0];
  }

  lemma FirstAndSecond<T>(t: Tensor<T>)
    requires t.Valid() && t.shape == [2, 1, 1] && |t.data| == 2
    ensures At(t, [0, 0, 0]) == t.data[0] && At(t, [1, 0, 0]) == t.data[1]
  {
    hide Prod;
    Ravel3(t.shape, [0, 0, 0]);
    Ravel3(t.shape, [1, 0, 0]);
  }

  lemma PickedThree<T>(t: Tensor<T>, x: Index, a: seq<nat>, i: nat)
    requires t.Valid() && |t.shape| == 3 && t.shape[1..] == [1, 1] && ResolveIndex(x, t.shape[0]) == Ok(Along(a)) && i < |a|
    ensures var r := SelectBy(t, [x, FULL, FULL]); r.Ok? && r.value.Valid() && r.value.shape == [|a|, 1, 1]
    ensures a[i] < t.shape[0] && At(SelectBy(t, [x, FULL, FULL]).value, [i, 0, 0]) == At(t, [a[i], 0, 0])
  {
    hide Prod, AxisShape, SlicePicks, At, ResolveIndex, Select, Source;
    var xs := [x, FULL, FULL];
    assert t.shape[1] == t.shape[1..][0] == 1 && t.shape[2] == t.shape[1..][1] == 1;
    SelectedThree(t, x, a);
    FullSlice(1);
    var whole := ResolveIndex(FULL, 1).value;
    ResolvedFits(x, t.shape[0]);
    assert ResolveIndices(xs, t.shape).value == [Along(a), whole, whole];
    ThreeSources(a, whole.picks, whole.picks, i);
  }

  lemma ThreeSources(a: seq<nat>, b: seq<nat>, c: seq<nat>, i: nat)
    requires i < |a| && |b| > 0 && |c| > 0
    ensures AxisShape([Along(a), Along(b), Along(c)]) == [|a|, |b|, |c|]
    ensures Source([Along(a), Along(b), Along(c)], [i, 0, 0]) == [a[i], b[0], c[0]]
  {
    hide AxisShape, Source;
    var x, y, z := Along(a), Along(b), Along(c);
    assert [] + [x] == [x] && [x] + [y] == [x, y] && [x, y] + [z] == [x, y, z];
    assert [] + [i] == [i] && [i] + [0] == [i, 0] && [i, 0] + [0] == [i, 0, 0];
    ThreeAxes(a, b, c);
    NoAxes();
    SourceNone();
    SourceLast([], [], a, i);
    SourceLast([x], [i], b, 0);
    SourceLast([x, y], [i, 0], c, 0);
  }

  lemma DenoteThree<T>(R: Arith<T>, p: Pair<T>, i: nat)
    requires Broadcasts(p) && p.A.shape == p.B.shape == [2, 1, 1] && i < 2
    ensures At(Denote(R, p), [i, 0, 0]) == R.plus(R.zero, R.times(At(p.B, [i, 0, 0]), At(p.A, [i, 0, 0])))
  {
    hide Prod, At, Denote, InA;
    var row: seq<nat> := [i, 0];
    assert [i, 0, 0][..2] == row && row + [0] == [i, 0, 0];
    assert p.Shape() == [2, 1, 1];
    DenoteAt(R, p, row, 0);
    OwnPlace(p, i);
    assert Contract(R, p, row, 0, 0) == R.zero;
  }

  lemma OwnPlace<T>(p: Pair<T>, i: nat)
    requires Broadcasts(p) && p.A.shape == p.B.shape == [2, 1, 1] && i < 2
    ensures InRows(p, [i, 0], 0) && InA(p, [i, 0], 0, 0) == [i, 0, 0]
  {
    assert p.B.shape[..2] == [2, 1];
  }

  // Two pairs of two matrices each that share their factor A.
  lemma CatOfShared<T>(x: T, y: T, z: T)
    ensures Prod([1, 1, 1]) == 1 && Prod([2, 1, 1]) == 2
    ensures var p := Pair(Tensor([1, 1, 1], [x]), Tensor([2, 1, 1], [y, z]));
            Broadcasts(p) && CatPairs([p, p]).Ok? && !Broadcasts(CatPairs([p, p]).value)
  {
    Prod4(2, 1, 1, 0);
    Prod4(1, 1, 1, 0);
    hide Prod, Sum, CatsFaithfully, Cat, At;
    var p := Pair(Tensor([1, 1, 1], [x]), Tensor([2, 1, 1], [y, z]));
    var ps := [p, p];
    TwoAlike(p);
    OwnNone(ps);
    SharedCat(ps);
  }

  lemma TwoAlike<T>(p: Pair<T>)
    requires Broadcasts(p) && p.Dim() > 2
    ensures CatPairs([p, p]).Ok?
  {
    hide Prod, Sum, Cat, At;
    var ps := [p, p];
    assert As(ps) == [p.A, p.A] && Bs(ps) == [p.B, p.B];
    var a, b := Cat(As(ps)).value, Cat(Bs(ps)).value;
    assert a.shape[1..] == p.A.shape[1..] && b.shape[1..] == p.B.shape[1..];
    assert a.shape[p.Dim() - 2] == p.A.shape[1..][p.Dim() - 3] == p.A.shape[p.Dim() - 2];
    assert b.shape[p.Dim() - 1] == p.B.shape[1..][p.Dim() - 2] == p.B.shape[p.Dim() - 1];
  }

  lemma OwnNone<T>(ps: seq<Pair<T>>)
    requires AllBroadcast(ps) && |ps| == 2 && Broadcasts(ps[0]) && ps[0].Dim() > 2 && ps[0].A.shape[0] != ps[0].B.shape[0]
    ensures !CatsFaithfully(ps)
  {
    assert ps[0] in ps;
  }

  // ---------- how a tuple is read ----------

  ghost predicate AllFull(xs: seq<Index>) {
    forall k :: 0 <= k < |xs| ==> xs[k] == FULL
  }

  lemma {:induction false} ExpandNone(xs: seq<Index>, n: nat)
    requires Ellipsis !in xs
    ensures ExpandInPair(xs, n) == xs
  {
    if xs != [] {
      assert xs[0] in xs;
      ExpandNone(xs[1..], n);
    }
  }

  lemma {:induction false} ExpandOne(pre: seq<Index>, post: seq<Index>, n: nat)
    requires Ellipsis !in pre && Ellipsis !in post
    ensures ExpandInPair(pre + [Ellipsis] + post, n) == pre + Fulls(n - 1) + post
  {
    var xs := pre + [Ellipsis] + post;
    if pre == [] {
      assert xs[1..] == post;
      ExpandNone(post, n);
    } else {
      assert pre[0] in pre;
      assert xs[1..] == pre[1..] + [Ellipsis] + post;
      ExpandOne(pre[1..], post, n);
      assert pre == [pre[0]] + pre[1..];
    }
  }

  lemma {:induction false} FirstEllipsisAt(pre: seq<Index>, post: seq<Index>)
    requires Ellipsis !in pre
    ensures FirstEllipsis(pre + [Ellipsis] + post) == |pre|
  {
    var xs := pre + [Ellipsis] + post;
    assert xs[|pre|] == Ellipsis;
    if pre != [] {
      assert xs[0] == pre[0] && pre[0] in pre;
      assert xs[1..] == pre[1..] + [Ellipsis] + post;
      FirstEllipsisAt(pre[1..], post);
    }
  }

  function Shifted(post: seq<Index>, a: nat, k: nat): Index {
    if k + a < |post| then post[k + a] else FULL
  }

  // Shifting post to the right past slices leaves the tuple as it was only if post is all slices.
  lemma {:induction false} ShiftedFull(post: seq<Index>, a: nat, i: nat)
    requires a > 0 && i < |post|
    requires forall k :: 0 <= k < |post| ==> post[k] == Shifted(post, a, k)
    ensures post[i] == FULL
    decreases |post| - i
  {
    assert post[i] == Shifted(post, a, i);
    if i + a < |post| {
      ShiftedFull(post, a, i + a);
    }
  }

  lemma OneEllipsis(pre: seq<Index>, post: seq<Index>, d: nat)
    requires Ellipsis !in pre && Ellipsis !in post && post != []
    ensures var m := |pre| + |post|;
            ReadsAsTorch(pre + [Ellipsis] + post, d) <==> (d == 2 * m || (2 * m <= d && AllFull(post)))
  {
    hide ExpandInPair, FirstEllipsis, NormalizeInPair, ExpandEllipsis, AllFull;
    var xs, m := pre + [Ellipsis] + post, |pre| + |post|;
    ReadByClass(pre, post, d);
    ReadByTorch(pre, post, d);
    var code := pre + Fulls(m) + post;
    if m <= d {
      if 2 * m < d {
        EllipsisShift(pre, post, d);
      } else if d == 2 * m {
        assert code + Fulls(0) == pre + Fulls(d - m) + post;
      }
    }
  }

  // The class refuses a tuple exactly if nothing is left of it without its trailing ellipses.
  lemma {:induction false} OnlyEllipses(xs: seq<Index>, d: nat)
    ensures NormalizeInPair(xs, d).Raised? <==> forall k :: 0 <= k < |xs| ==> xs[k] == Ellipsis
    decreases |xs|
  {
    hide ExpandInPair;
    if xs != [] && xs[|xs| - 1] == Ellipsis {
      OnlyEllipses(xs[..|xs| - 1], d);
    }
  }

  lemma NoEllipsis(xs: seq<Index>, d: nat)
    requires Ellipsis !in xs
    ensures NormalizeInPair(xs, d) == if xs == [] then Raised else Ok(xs + Fulls(d - |xs|))
    ensures ExpandEllipsis(xs, d) == if |xs| <= d then Ok(xs + Fulls(d - |xs|)) else Raised
  {
    hide ExpandInPair;
    if xs != [] {
      assert xs[|xs| - 1] in xs;
      ExpandNone(xs, |xs|);
    }
  }

  lemma TrailingEllipsis(xs: seq<Index>, d: nat)
    requires Ellipsis !in xs
    ensures ReadsAsTorch(xs + [Ellipsis], d) <==> 0 < |xs| <= d
  {
    hide FirstEllipsis;
    var ys := xs + [Ellipsis];
    assert ys[..|xs|] == xs && ys == xs + [Ellipsis] + [];
    NoEllipsis(xs, d);
    FirstEllipsisAt(xs, []);
    assert ys[|xs|] == Ellipsis && ys[|xs| + 1..] == [] && ys[..|xs|] == xs;
    assert NormalizeInPair(ys, d) == NormalizeInPair(xs, d);
    assert xs + Fulls(d - |xs|) + [] == xs + Fulls(d - |xs|);
    assert ExpandEllipsis(ys, d) == if |xs| <= d then Ok(xs + Fulls(d - |xs|)) else Raised;
  }

  // On a tensor of d axes the class reads these tuples as torch does. Torch refuses two ellipses; the
  // class does so only if there is nothing else. A single one stands for as many axes as there are
  // other indices, which is right for twice as many axes, or if only full slices follow.
  ghost predicate ReadRight(xs: seq<Index>, d: nat) {
    if Ellipsis !in xs then 0 < |xs| <= d
    else
      var k, m := FirstEllipsis(xs), |xs| - 1;
      if Ellipsis in xs[k + 1..] then forall i :: 0 <= i < |xs| ==> xs[i] == Ellipsis
      else if k == m then 0 < m <= d
      else d == 2 * m || (2 * m <= d && AllFull(xs[k + 1..]))
  }

  lemma EllipsisExact(xs: seq<Index>, d: nat)
    ensures ReadsAsTorch(xs, d) <==> ReadRight(xs, d)
  {
    hide FirstEllipsis, ReadsAsTorch, NormalizeInPair, ExpandEllipsis;
    if Ellipsis !in xs {
      TooLong(xs, d);
    } else {
      var k := FirstEllipsis(xs);
      if Ellipsis in xs[k + 1..] {
        TwoEllipses(xs, d);
      } else {
        SingleEllipsis(xs, d);
      }
    }
  }

  lemma SingleEllipsis(xs: seq<Index>, d: nat)
    requires Ellipsis in xs && Ellipsis !in xs[FirstEllipsis(xs) + 1..]
    ensures ReadsAsTorch(xs, d) <==> ReadRight(xs, d)
  {
    hide FirstEllipsis, ReadsAsTorch, NormalizeInPair, ExpandEllipsis, AllFull;
    var k := FirstEllipsis(xs);
    var pre, post := xs[..k], xs[k + 1..];
    assert xs == pre + [Ellipsis] + post;
    if post == [] {
      TrailingEllipsis(pre, d);
      assert xs == pre + [Ellipsis];
    } else {
      OneEllipsis(pre, post, d);
    }
  }

  // One integer behind an ellipsis, on three axes.
  lemma EllipsisMisread()
    ensures ExpandEllipsis([Ellipsis, Int(0)], 3) == Ok([FULL, FULL, Int(0)])
    ensures NormalizeInPair([Ellipsis, Int(0)], 3) == Ok([FULL, Int(0), FULL])
  {
    assert [Ellipsis, Int(0)] == [] + [Ellipsis] + [Int(0)];
    ReadByTorch([], [Int(0)], 3);
    ReadByClass([], [Int(0)], 3);
    assert [] + Fulls(2) + [Int(0)] == [FULL, FULL, Int(0)];
    assert [] + Fulls(1) + [Int(0)] + Fulls(1) == [FULL, Int(0), FULL];
  }

  lemma TooLong(xs: seq<Index>, d: nat)
    requires Ellipsis !in xs
    ensures ReadsAsTorch(xs, d) <==> 0 < |xs| <= d
  {
    NoEllipsis(xs, d);
  }

  lemma TwoEllipses(xs: seq<Index>, d: nat)
    requires Ellipsis in xs && Ellipsis in xs[FirstEllipsis(xs) + 1..]
    ensures ReadsAsTorch(xs, d) <==> forall i :: 0 <= i < |xs| ==> xs[i] == Ellipsis
  {
    hide FirstEllipsis, NormalizeInPair;
    OnlyEllipses(xs, d);
  }

  lemma ReadByClass(pre: seq<Index>, post: seq<Index>, d: nat)
    requires Ellipsis !in pre && Ellipsis !in post && post != []
    ensures var m := |pre| + |post|;
            NormalizeInPair(pre + [Ellipsis] + post, d) == Ok(pre + Fulls(m) + post + Fulls(d - 2 * m))
  {
    hide ExpandInPair;
    var xs, m := pre + [Ellipsis] + post, |pre| + |post|;
    assert xs[|xs| - 1] == post[|post| - 1] && post[|post| - 1] in post;
    ExpandOne(pre, post, |xs|);
  }

  lemma ReadByTorch(pre: seq<Index>, post: seq<Index>, d: nat)
    requires Ellipsis !in pre && Ellipsis !in post && post != []
    ensures var m := |pre| + |post|;
            ExpandEllipsis(pre + [Ellipsis] + post, d) == if m <= d then Ok(pre + Fulls(d - m) + post) else Raised
  {
    hide FirstEllipsis;
    var xs := pre + [Ellipsis] + post;
    FirstEllipsisAt(pre, post);
    assert xs[|pre|] == Ellipsis && xs[..|pre|] == pre && xs[|pre| + 1..] == post;
  }

  lemma EllipsisShift(pre: seq<Index>, post: seq<Index>, d: nat)
    requires 2 * (|pre| + |post|) < d
    ensures var m := |pre| + |post|;
            pre + Fulls(m) + post + Fulls(d - 2 * m) == pre + Fulls(d - m) + post <==> AllFull(post)
  {
    var m := |pre| + |post|;
    var a := d - 2 * m;
    var code, torch := pre + Fulls(m) + post + Fulls(a), pre + Fulls(d - m) + post;
    if AllFull(post) {
      assert code == torch;
    }
    if code == torch {
      forall k | 0 <= k < |post| ensures post[k] == Shifted(post, a, k) {
        var j := |pre| + m + a + k;
        assert torch[j] == post[k];
        assert code[j] == Shifted(post, a, k);
      }
      forall i | 0 <= i < |post| ensures post[i] == FULL {
        ShiftedFull(post, a, i);
      }
    }
  }
}
