// __getitem__ on a pair denotes __getitem__ on the product.
module LoraGetItem {
  import opened Outcomes
  import opened Tensors
  import opened LoraPairs
  import opened LoraHomomorphism
  import opened LoraIndexing

  ghost predicate SameKinds(LA: seq<Axis>, LB: seq<Axis>) {
    |LA| == |LB| && forall k :: 0 <= k < |LA| ==> (LA[k].Fixed? <==> LB[k].Fixed?)
  }

  lemma {:induction false} SameKindsSameAxes(LA: seq<Axis>, LB: seq<Axis>)
    requires SameKinds(LA, LB)
    ensures |AxisShape(LA)| == |AxisShape(LB)|
  {
    if LA != [] {
      SameKindsSameAxes(LA[..|LA| - 1], LB[..|LB| - 1]);
    }
  }

  ghost predicate ShapesBroadcast(s: seq<nat>, t: seq<nat>) {
    |s| == |t| && forall k :: 0 <= k < |s| ==> s[k] == 1 || s[k] == t[k]
  }

  ghost predicate LengthsBroadcast(xa: Axis, xb: Axis) {
    xa.Along? && xb.Along? ==> |xa.picks| == 1 || |xa.picks| == |xb.picks|
  }

  // When the selected leading shapes broadcast, the selections do so axis by axis.
  lemma {:induction false} BroadcastAxes(LA: seq<Axis>, LB: seq<Axis>)
    requires SameKinds(LA, LB) && ShapesBroadcast(AxisShape(LA), AxisShape(LB))
    ensures forall k :: 0 <= k < |LA| ==> LengthsBroadcast(LA[k], LB[k])
  {
    if LA != [] {
      var n := |LA| - 1;
      var m := |AxisShape(LA[..n])|;
      SameKindsSameAxes(LA[..n], LB[..n]);
      assert AxisShape(LA)[..m] == AxisShape(LA[..n]) && AxisShape(LB)[..m] == AxisShape(LB[..n]);
      BroadcastAxes(LA[..n], LB[..n]);
      if LA[n].Along? {
        assert AxisShape(LA)[m] == |LA[n].picks| && AxisShape(LB)[m] == |LB[n].picks|;
      }
    }
  }

  lemma PythonMod(i: int, a: int)
    requires 0 - a <= i < a
    ensures i % a == if i >= 0 then i else i + a
  {
    var q, r := i / a, i % a;
    assert i == q * a + r;
    if i >= 0 {
      SmallMultiple(q, a);
    } else {
      assert (q + 1) * a == q * a + a;
      SmallMultiple(q + 1, a);
    }
  }

  lemma SliceAgrees(x: Index, d: nat, axB: Axis)
    requires x.Slice? && d != 1 && ResolveIndex(x, d) == Ok(axB) && |axB.picks| == d
    ensures IsIdentity(axB.picks, d)
  {
    var s := if x.step.None? then 1 else x.step.value;
    var lo := if x.start.None? then 0 else Clamp(x.start.value, d);
    var hi := if x.stop.None? then d else Clamp(x.stop.value, d);
    WholeSlice(lo, hi, s, d);
  }

  // The index keeps every position of the axis, in order.
  ghost predicate KeepsAll(x: Index, d: nat) {
    var r := ResolveIndex(x, d);
    r.Ok? && r.value.Along? && IsIdentity(r.value.picks, d)
  }

  // How one index on a leading axis reads A (size a) and B (size d), when A's axis is shared or matches.
  lemma LeadingAxisAgrees(x: Index, a: nat, d: nat, xa: Index, axA: Axis, axB: Axis)
    requires a == 1 || a == d
    requires x.List? ==> a == 1 || KeepsAll(x, d)
    requires LeadIndexA(x, a) == Ok(xa) && ResolveIndex(xa, a) == Ok(axA) && ResolveIndex(x, d) == Ok(axB)
    requires LengthsBroadcast(axA, axB)
    ensures AxisAgrees(axA, axB, a)
  {
    hide SlicePicks;
    if x.Int? {
      if a == d {
        PythonMod(x.i, a);
      } else {
        assert x.i % 1 == 0;
      }
    } else {
      FullSlice(a);
      if a != 1 && |axB.picks| == d && x.Slice? {
        SliceAgrees(x, d, axB);
      }
    }
  }

  // The indices for which the pair's result is the product's: a list meets a shared axis of A or keeps
  // all of its axis, since it is not applied to A; and the last two indices are not both integers,
  // which leaves a matrix of rank-1 blocks where the product has a vector.
  ghost predicate IndexesFaithfully<T>(p: Pair<T>, xs: seq<Index>) {
    && p.WellFormed() && |xs| == p.Dim() && AtMostOneList(xs)
    && !(xs[p.Dim() - 2].Int? && xs[p.Dim() - 1].Int?)
    && forall k :: 0 <= k < p.Dim() - 2 ==> xs[k].List? ==> p.A.shape[k] == 1 || KeepsAll(xs[k], p.B.shape[k])
  }

  // A pair keeps as many axes on both factors only if the last two indices are of one kind.
  lemma KindsOfLast(LA: seq<Axis>, LB: seq<Axis>, a1: Axis, a2: Axis, b1: Axis, b2: Axis)
    requires SameKinds(LA, LB) && a1.Along? && b2.Along?
    requires |AxisShape(LA + [a1] + [a2])| == |AxisShape(LB + [b1] + [b2])|
    ensures a2.Fixed? <==> b1.Fixed?
  {
    SameKindsSameAxes(LA, LB);
    assert (LA + [a1] + [a2])[..|LA| + 1] == LA + [a1] && (LB + [b1] + [b2])[..|LB| + 1] == LB + [b1];
    assert (LA + [a1])[..|LA|] == LA && (LB + [b1])[..|LB|] == LB;
  }

  // If the selected pair broadcasts, so do the selections of its leading axes.
  lemma SelectedLengths<T>(p: Pair<T>, axA: seq<Axis>, axB: seq<Axis>)
    requires p.WellFormed() && AxesFit(axA, p.A.shape) && AxesFit(axB, p.B.shape)
    requires Broadcasts(Pair(Select(p.A, axA), Select(p.B, axB)))
    requires SameKinds(axA[..p.Dim() - 2], axB[..p.Dim() - 2])
    requires axA[p.Dim() - 2].Along? && axA[p.Dim() - 1].Along? && axB[p.Dim() - 2].Along? && axB[p.Dim() - 1].Along?
    ensures forall k :: 0 <= k < p.Dim() - 2 ==> LengthsBroadcast(axA[k], axB[k])
  {
    hide Select, AxisShape, Prod, LengthsBroadcast;
    var n := p.Dim();
    var LA, LB := axA[..n - 2], axB[..n - 2];
    assert axA == LA + [axA[n - 2]] + [axA[n - 1]] && axB == LB + [axB[n - 2]] + [axB[n - 1]];
    AxisShapeLast(LA + [axA[n - 2]], axA[n - 1].picks);
    AxisShapeLast(LA, axA[n - 2].picks);
    AxisShapeLast(LB + [axB[n - 2]], axB[n - 1].picks);
    AxisShapeLast(LB, axB[n - 2].picks);
    SameKindsSameAxes(LA, LB);
    var q := Pair(Select(p.A, axA), Select(p.B, axB));
    forall k | 0 <= k < |AxisShape(LA)| ensures AxisShape(LA)[k] == 1 || AxisShape(LA)[k] == AxisShape(LB)[k] {
      assert AxisShape(LA)[k] == q.A.shape[k] && AxisShape(LB)[k] == q.B.shape[k];
    }
    BroadcastAxes(LA, LB);
    forall k | 0 <= k < n - 2 ensures LengthsBroadcast(axA[k], axB[k]) {
      assert LengthsBroadcast(LA[k], LB[k]);
    }
  }

  // The axes a successful tuple index resolves to on each factor.
  lemma TupleAxes<T>(p: Pair<T>, xs: seq<Index>) returns (lead: seq<Index>, axA: seq<Axis>, axB: seq<Axis>)
    requires Broadcasts(p) && IndexesFaithfully(p, xs) && GetAxes(p, xs).Ok?
    ensures |lead| == |xs| - 2 && |axA| == |axB| == |xs|
    ensures forall k :: 0 <= k < |xs| - 2 ==>
                          LeadIndexA(xs[k], p.A.shape[k]) == Ok(lead[k])
                          && ResolveIndex(lead[k], p.A.shape[k]) == Ok(axA[k])
    ensures forall k :: 0 <= k < |xs| - 1 ==> ResolveIndex(xs[k], p.B.shape[k]) == Ok(axB[k])
    ensures ResolveIndex(FULL, p.Rank()) == Ok(axA[|xs| - 2]) == Ok(axB[|xs| - 1])
    ensures ResolveIndex(xs[|xs| - 1], p.RowSize()) == Ok(axA[|xs| - 1])
    ensures AxesFit(axA, p.A.shape) && AxesFit(axB, p.B.shape)
    ensures GetAxes(p, xs).value == Pair(Select(p.A, axA), Select(p.B, axB))
  {
    hide Select, AxisShape, AtMostOneList, Prod, ResolveIndex, LeadIndexA;
    var n := |xs|;
    lead := LeadIndicesA(xs[..n - 2], p.A.shape).value;
    var ia, ib := lead + [FULL, xs[n - 1]], xs[..n - 1] + [FULL];
    axA, axB := ResolveIndices(ia, p.A.shape).value, ResolveIndices(ib, p.B.shape).value;
    forall k | 0 <= k < n - 2 ensures LeadIndexA(xs[k], p.A.shape[k]) == Ok(lead[k]) && ia[k] == lead[k] {
      assert xs[..n - 2][k] == xs[k];
    }
    assert forall k :: 0 <= k < n - 1 ==> ib[k] == xs[k];
    assert ia[n - 2] == FULL && ia[n - 1] == xs[n - 1] && ib[n - 1] == FULL;
  }

  // The selection behind a successful tuple index.
  lemma TupleSelection<T>(p: Pair<T>, xs: seq<Index>) returns (x: Selection)
    requires Broadcasts(p) && IndexesFaithfully(p, xs)
    requires GetAxes(p, xs).Ok? && Broadcasts(GetAxes(p, xs).value)
    ensures Selects(x, p) && GetAxes(p, xs).value == Selected(x, p)
    ensures ResolveIndices(xs, p.Shape()) == Ok(x.OnProduct())
  {
    hide Select, AxisShape, AtMostOneList, Prod, SlicePicks, GetAxes;
    var n := |xs|;
    var lead, axA, axB := TupleAxes(p, xs);
    FullSlice(p.Rank());
    var LA, LB := axA[..n - 2], axB[..n - 2];
    assert SameKinds(LA, LB);
    assert axA == LA + [axA[n - 2]] + [axA[n - 1]] && axB == LB + [axB[n - 2]] + [axB[n - 1]];
    var q := GetAxes(p, xs).value;
    assert q.A.shape == AxisShape(axA) && q.B.shape == AxisShape(axB);
    KindsOfLast(LA, LB, axA[n - 2], axA[n - 1], axB[n - 2], axB[n - 1]);
    x := Selection(LA, LB, axB[n - 2].picks, axB[n - 1].picks, axA[n - 1].picks);
    SelectedLengths(p, axA, axB);
    forall k | 0 <= k < n - 2 ensures AxisAgrees(LA[k], LB[k], p.A.shape[k]) {
      LeadingAxisAgrees(xs[k], p.A.shape[k], p.B.shape[k], lead[k], axA[k], axB[k]);
    }
    assert ResolveIndices(xs, p.Shape()).value == x.OnProduct();
  }

  // ---------- when the selected factors broadcast ----------

  // How many positions an index keeps of an axis.
  ghost function Count(x: Index, d: nat): nat {
    var r := ResolveIndex(x, d);
    if r.Ok? && r.value.Along? then |r.value.picks| else 0
  }

  // On every leading axis that A does not share the indices keep as many positions as A has there:
  // A keeps all of them.
  ghost predicate SharesLeading<T>(p: Pair<T>, xs: seq<Index>)
    requires p.WellFormed() && |xs| == p.Dim()
  {
    forall k :: 0 <= k < p.Dim() - 2 ==> xs[k].Int? || p.A.shape[k] == 1 || Count(xs[k], p.B.shape[k]) == p.A.shape[k]
  }

  lemma FlatSharesLeading<T>(p: Pair<T>, xs: seq<Index>)
    requires FlatA(p) && |xs| == p.Dim()
    ensures SharesLeading(p, xs)
  {
  }

  // The converse of BroadcastAxes.
  lemma {:induction false} BroadcastShapes(LA: seq<Axis>, LB: seq<Axis>)
    requires SameKinds(LA, LB) && forall k :: 0 <= k < |LA| ==> LengthsBroadcast(LA[k], LB[k])
    ensures ShapesBroadcast(AxisShape(LA), AxisShape(LB))
  {
    SameKindsSameAxes(LA, LB);
    if LA != [] {
      var n := |LA| - 1;
      SameKindsSameAxes(LA[..n], LB[..n]);
      BroadcastShapes(LA[..n], LB[..n]);
      assert LengthsBroadcast(LA[n], LB[n]);
    }
  }

  lemma LeadCount(x: Index, a: nat, d: nat, lead: Index, axA: Axis, axB: Axis)
    requires LeadIndexA(x, a) == Ok(lead) && ResolveIndex(lead, a) == Ok(axA) && ResolveIndex(x, d) == Ok(axB)
    ensures axA.Fixed? <==> axB.Fixed?
    ensures LengthsBroadcast(axA, axB) <==> x.Int? || a == 1 || Count(x, d) == a
  {
    hide SlicePicks;
    FullSlice(a);
  }

  lemma TupleShapes<T>(p: Pair<T>, xs: seq<Index>) returns (LA: seq<Axis>, LB: seq<Axis>, rows: nat, cols: nat)
    requires Broadcasts(p) && IndexesFaithfully(p, xs) && GetAxes(p, xs).Ok?
    ensures |LA| == |LB| == p.Dim() - 2 && SameKinds(LA, LB)
    ensures forall k :: 0 <= k < p.Dim() - 2 ==>
              (LengthsBroadcast(LA[k], LB[k]) <==>
                xs[k].Int? || p.A.shape[k] == 1 || Count(xs[k], p.B.shape[k]) == p.A.shape[k])
    ensures GetAxes(p, xs).value.A.shape == AxisShape(LA) + [p.Rank(), cols]
    ensures GetAxes(p, xs).value.B.shape == AxisShape(LB) + [rows, p.Rank()]
  {
    hide Select, AxisShape, AtMostOneList, Prod, SlicePicks, GetAxes, LengthsBroadcast, ResolveIndex, LeadIndexA, Count;
    var n := |xs|;
    var lead, axA, axB := TupleAxes(p, xs);
    LA, LB := axA[..n - 2], axB[..n - 2];
    forall k | 0 <= k < n - 2
      ensures LA[k].Fixed? <==> LB[k].Fixed?
      ensures LengthsBroadcast(LA[k], LB[k]) <==>
                xs[k].Int? || p.A.shape[k] == 1 || Count(xs[k], p.B.shape[k]) == p.A.shape[k]
    {
      LeadCount(xs[k], p.A.shape[k], p.B.shape[k], lead[k], axA[k], axB[k]);
    }
    FullSlice(p.Rank());
    LastTwoAxes(axA);
    LastTwoAxes(axB);
    var q := GetAxes(p, xs).value;
    GetAxesWellFormed(p, xs);
    KindsOfLast(LA, LB, axA[n - 2], axA[n - 1], axB[n - 2], axB[n - 1]);
    OneIsAlong(xs[n - 2], xs[n - 1], p.B.shape[n - 2], p.RowSize(), axB[n - 2], axA[n - 1]);
    rows, cols := |axB[n - 2].picks|, |axA[n - 1].picks|;
    TwoAxesLast(LA, axA[n - 2].picks, axA[n - 1].picks);
    TwoAxesLast(LB, axB[n - 2].picks, axB[n - 1].picks);
  }

  lemma OneIsAlong(x: Index, y: Index, d: nat, n: nat, axB: Axis, axA: Axis)
    requires !(x.Int? && y.Int?) && ResolveIndex(x, d) == Ok(axB) && ResolveIndex(y, n) == Ok(axA)
    requires axA.Fixed? <==> axB.Fixed?
    ensures axA.Along? && axB.Along?
  {
  }

  lemma GetAxesWellFormed<T>(p: Pair<T>, xs: seq<Index>)
    requires p.WellFormed() && |xs| == p.Dim() && GetAxes(p, xs).Ok?
    ensures GetAxes(p, xs).value.WellFormed()
  {
    hide Select, Prod;
  }

  lemma LastTwoAxes(axes: seq<Axis>)
    requires |axes| >= 2
    ensures axes == axes[..|axes| - 2] + [axes[|axes| - 2]] + [axes[|axes| - 1]]
  {
  }

  lemma TwoAxesLast(xs: seq<Axis>, a: seq<nat>, b: seq<nat>)
    ensures AxisShape(xs + [Along(a)] + [Along(b)]) == AxisShape(xs) + [|a|, |b|]
  {
    AxisShapeLast(xs, a);
    AxisShapeLast(xs + [Along(a)], b);
  }

  // Whether the factors a tuple selects broadcast can be told from A and the tuple.
  lemma TupleBroadcasts<T>(p: Pair<T>, xs: seq<Index>)
    requires Broadcasts(p) && IndexesFaithfully(p, xs) && GetAxes(p, xs).Ok?
    ensures Broadcasts(GetAxes(p, xs).value) <==> SharesLeading(p, xs)
  {
    hide AxisShape, AtMostOneList, Prod, GetAxes, LengthsBroadcast, Count;
    var LA, LB, rows, cols := TupleShapes(p, xs);
    var q := GetAxes(p, xs).value;
    GetAxesWellFormed(p, xs);
    SameKindsSameAxes(LA, LB);
    var sa, sb := AxisShape(LA), AxisShape(LB);
    if Broadcasts(q) {
      forall k | 0 <= k < |sa| ensures sa[k] == 1 || sa[k] == sb[k] {
        assert q.A.shape[k] == sa[k] && q.B.shape[k] == sb[k];
      }
      BroadcastAxes(LA, LB);
    }
    if SharesLeading(p, xs) {
      BroadcastShapes(LA, LB);
    }
  }

  lemma SelectionByIndices<T>(R: Arith<T>, p: Pair<T>, xs: seq<Index>, x: Selection)
    requires Selects(x, p) && |xs| == p.Dim() && AtMostOneList(xs)
    requires ResolveIndices(xs, p.Shape()) == Ok(x.OnProduct())
    ensures SelectBy(Denote(R, p), xs) == Ok(Denote(R, Selected(x, p)))
  {
    hide Select, AxisShape, Prod, Denote, Source;
    SelectedDenotes(R, x, p);
  }

  // x[i0, ..., ik] with one index per axis.
  lemma GetAxesHomomorphism<T>(R: Arith<T>, p: Pair<T>, xs: seq<Index>)
    requires Broadcasts(p) && IndexesFaithfully(p, xs) && GetAxes(p, xs).Ok? && SharesLeading(p, xs)
    ensures Broadcasts(GetAxes(p, xs).value) && GetAxes(p, xs).value.Rank() == p.Rank()
    ensures SelectBy(Denote(R, p), xs) == Ok(Denote(R, GetAxes(p, xs).value))
  {
    hide Select, AxisShape, Prod, Denote, Source, GetAxes, SelectBy, IndexesFaithfully, SharesLeading, Broadcasts;
    TupleBroadcasts(p, xs);
    TuplesDenote(R, p, xs);
  }

  lemma TuplesDenote<T>(R: Arith<T>, p: Pair<T>, xs: seq<Index>)
    requires Broadcasts(p) && IndexesFaithfully(p, xs)
    requires GetAxes(p, xs).Ok? && Broadcasts(GetAxes(p, xs).value)
    ensures GetAxes(p, xs).value.Rank() == p.Rank()
    ensures SelectBy(Denote(R, p), xs) == Ok(Denote(R, GetAxes(p, xs).value))
  {
    hide Select, AxisShape, Prod, Denote, Source, GetAxes, SelectBy;
    var x := TupleSelection(p, xs);
    SelectionByIndices(R, p, xs, x);
  }

  // ---------- one integer, one slice ----------

  function Padded(x: Index, d: nat): seq<Index>
    requires d > 0
  {
    [x] + Fulls(d - 1)
  }

  lemma GetTupleOfOne<T>(t: Tensor<T>, x: Index)
    requires t.Valid() && |t.shape| > 0 && x != Ellipsis
    ensures GetTuple(t, [x]) == SelectBy(t, Padded(x, |t.shape|))
  {
    hide SelectBy;
    assert Ellipsis !in [x];
  }

  lemma {:induction false} SourceOfIdentity(xs: seq<Axis>, s: seq<nat>, idx: seq<nat>)
    requires |xs| == |s| && forall k :: 0 <= k < |s| ==> xs[k].Along? && IsIdentity(xs[k].picks, s[k])
    requires |idx| == |s|
    ensures AxisShape(xs) == s
    ensures InShape(idx, s) ==> Source(xs, idx) == idx
  {
    hide AxisShape, Source;
    if s == [] {
      NoAxes();
      SourceNone();
    } else {
      var n := |s| - 1;
      var picks := xs[n].picks;
      SourceOfIdentity(xs[..n], s[..n], idx[..n]);
      AxisShapeLast(xs[..n], picks);
      assert xs == xs[..n] + [Along(picks)] && s == s[..n] + [s[n]] && idx == idx[..n] + [idx[n]];
      if InShape(idx, s) {
        SourceLast(xs[..n], idx[..n], picks, idx[n]);
      }
    }
  }

  lemma SelectIdentity<T>(t: Tensor<T>, xs: seq<Axis>)
    requires t.Valid() && |xs| == |t.shape|
    requires forall k :: 0 <= k < |xs| ==> xs[k].Along? && IsIdentity(xs[k].picks, t.shape[k])
    ensures AxesFit(xs, t.shape) && Select(t, xs) == t
  {
    hide At, Ravel, Prod, Select, Source, AxisShape;
    forall k | 0 <= k < |xs| ensures AxisFits(xs[k], t.shape[k]) {
    }
    SourceOfIdentity(xs, t.shape, t.shape);
    forall idx | InShape(idx, t.shape) ensures At(Select(t, xs), idx) == At(t, idx) {
      SourceOfIdentity(xs, t.shape, idx);
    }
    Extensional(Select(t, xs), t);
  }

  lemma FirstAxisAgrees(x: Index, a: nat, d: nat, axA: Axis, axB: Axis)
    requires x.Int? || x.Slice?
    requires a == 1 || a == d
    requires ResolveIndex(x, a) == Ok(axA) && ResolveIndex(x, d) == Ok(axB)
    requires AxisFits(axA, a) && LengthsBroadcast(axA, axB)
    ensures AxisAgrees(axA, axB, a)
  {
    hide SlicePicks;
  }

  lemma FullAxisAgrees(a: nat, d: nat)
    requires a == 1 || a == d
    ensures AxisAgrees(ResolveIndex(FULL, a).value, ResolveIndex(FULL, d).value, a)
  {
    hide SlicePicks;
    FullSlice(a);
    FullSlice(d);
  }

  // The selection made by indexing both factors by x on their first axis.
  lemma FirstAxisSelection<T>(p: Pair<T>, x: Index, axA: seq<Axis>, axB: seq<Axis>) returns (sel: Selection)
    requires Broadcasts(p) && p.Dim() > 2 && (x.Int? || x.Slice?)
    requires ResolveIndices(Padded(x, p.Dim()), p.A.shape) == Ok(axA)
    requires ResolveIndices(Padded(x, p.Dim()), p.B.shape) == Ok(axB)
    requires AxesFit(axA, p.A.shape) && AxesFit(axB, p.B.shape)
    requires Broadcasts(Pair(Select(p.A, axA), Select(p.B, axB)))
    ensures Selects(sel, p) && Selected(sel, p) == Pair(Select(p.A, axA), Select(p.B, axB))
    ensures ResolveIndices(Padded(x, p.Dim()), p.Shape()) == Ok(sel.OnProduct())
  {
    hide Select, AxisShape, Prod, ResolveIndex, AxisAgrees, LengthsBroadcast;
    var n, xs := p.Dim(), Padded(x, p.Dim());
    var LA, LB := axA[..n - 2], axB[..n - 2];
    FullSlice(p.Rank());
    FullSlice(p.RowSize());
    FullSlice(p.B.shape[n - 2]);
    forall k | 0 <= k < n - 2 ensures LA[k].Fixed? <==> LB[k].Fixed? {
      IndexKind(xs[k], p.A.shape[k], p.B.shape[k]);
    }
    SelectedLengths(p, axA, axB);
    sel := Selection(LA, LB, axB[n - 2].picks, axB[n - 1].picks, axA[n - 1].picks);
    forall k | 0 <= k < n - 2 ensures AxisAgrees(LA[k], LB[k], p.A.shape[k]) {
      assert AxisFits(axA[k], p.A.shape[k]) && LengthsBroadcast(axA[k], axB[k]);
      if k == 0 {
        FirstAxisAgrees(x, p.A.shape[0], p.B.shape[0], axA[0], axB[0]);
      } else {
        FullAxisAgrees(p.A.shape[k], p.B.shape[k]);
      }
    }
    assert axA == sel.OnA() && axB == sel.OnB();
    assert ResolveIndices(xs, p.Shape()).value == sel.OnProduct();
  }

  lemma IndexKind(x: Index, a: nat, d: nat)
    requires ResolveIndex(x, a).Ok? && ResolveIndex(x, d).Ok?
    ensures ResolveIndex(x, a).value.Fixed? <==> ResolveIndex(x, d).value.Fixed?
  {
  }

  lemma {:induction false} HeadAndIdentities(x: Axis, xs: seq<Axis>, s: seq<nat>)
    requires |xs| == |s| && forall k :: 0 <= k < |s| ==> xs[k].Along? && IsIdentity(xs[k].picks, s[k])
    ensures AxisShape([x] + xs) == AxisShape([x]) + s
    decreases |xs|
  {
    if xs == [] {
      assert [x] + xs == [x];
    } else {
      var n := |xs| - 1;
      HeadAndIdentities(x, xs[..n], s[..n]);
      AxisShapeLast([x] + xs[..n], xs[n].picks);
      assert [x] + xs == [x] + xs[..n] + [xs[n]] && s == s[..n] + [s[n]];
    }
  }

  lemma OneAxis(x: Axis)
    ensures AxisShape([x]) == if x.Fixed? then [] else [|x.picks|]
  {
    assert [x][..0] == [];
  }

  // The shape after one index on the first axis.
  lemma FirstIndexShape<T>(t: Tensor<T>, x: Index)
    requires t.Valid() && |t.shape| > 0 && x != Ellipsis && GetTuple(t, [x]).Ok?
    ensures ResolveIndex(x, t.shape[0]).Ok? && GetTuple(t, [x]).value.Valid()
    ensures var a := ResolveIndex(x, t.shape[0]).value;
            GetTuple(t, [x]).value.shape == (if a.Fixed? then [] else [|a.picks|]) + t.shape[1..]
  {
    hide Select, AxisShape, Prod, SlicePicks, At;
    GetTupleOfOne(t, x);
    var d := |t.shape|;
    var axes := ResolveIndices(Padded(x, d), t.shape).value;
    assert axes == [axes[0]] + axes[1..];
    forall k | 0 <= k < d - 1
      ensures axes[1..][k].Along? && IsIdentity(axes[1..][k].picks, t.shape[1..][k])
    {
      FullSlice(t.shape[k + 1]);
      assert Padded(x, d)[k + 1] == FULL;
    }
    HeadAndIdentities(axes[0], axes[1..], t.shape[1..]);
    OneAxis(axes[0]);
  }

  // The first axis of a pair of more than two axes, and the rest.
  lemma FirstIndexBroadcasts<T>(p: Pair<T>, x: Index)
    requires Broadcasts(p) && p.Dim() > 2 && (x.Int? || x.Slice?)
    requires GetTuple(p.A, [x]).Ok? && GetTuple(p.B, [x]).Ok?
    requires Pair(GetTuple(p.A, [x]).value, GetTuple(p.B, [x]).value).WellFormed()
    ensures ResolveIndex(x, p.A.shape[0]).Ok? && ResolveIndex(x, p.B.shape[0]).Ok?
    ensures Broadcasts(Pair(GetTuple(p.A, [x]).value, GetTuple(p.B, [x]).value)) <==>
            LengthsBroadcast(ResolveIndex(x, p.A.shape[0]).value, ResolveIndex(x, p.B.shape[0]).value)
  {
    hide GetTuple, ResolveIndex, Prod;
    FirstIndexShape(p.A, x);
    FirstIndexShape(p.B, x);
    IndexKind(x, p.A.shape[0], p.B.shape[0]);
    var a, b := ResolveIndex(x, p.A.shape[0]).value, ResolveIndex(x, p.B.shape[0]).value;
    var q := Pair(GetTuple(p.A, [x]).value, GetTuple(p.B, [x]).value);
    var m := if a.Fixed? then 0 else 1;
    assert forall k :: m <= k < q.Dim() - 2 ==> q.A.shape[k] == p.A.shape[k + 1 - m] && q.B.shape[k] == p.B.shape[k + 1 - m];
    if a.Along? {
      assert q.A.shape[0] == |a.picks| && q.B.shape[0] == |b.picks|;
    }
  }

  lemma GetIntHomomorphism<T>(R: Arith<T>, p: Pair<T>, i: int)
    requires Broadcasts(p) && GetInt(p, i).Ok?
    ensures Broadcasts(GetInt(p, i).value) && GetInt(p, i).value.Rank() == p.Rank()
    ensures GetTuple(Denote(R, p), [Int(i)]) == Ok(Denote(R, GetInt(p, i).value))
  {
    hide Select, AxisShape, Prod, Denote, Source, GetTuple, ResolveIndex, At;
    IntBroadcasts(p, i);
    GetTupleOfOne(p.A, Int(i));
    GetTupleOfOne(p.B, Int(i));
    GetTupleOfOne(Denote(R, p), Int(i));
    var xs := Padded(Int(i), p.Dim());
    var sel := FirstAxisSelection(p, Int(i), ResolveIndices(xs, p.A.shape).value, ResolveIndices(xs, p.B.shape).value);
    SelectionByIndices(R, p, xs, sel);
  }

  lemma IntBroadcasts<T>(p: Pair<T>, i: int)
    requires Broadcasts(p) && GetInt(p, i).Ok?
    ensures Broadcasts(GetInt(p, i).value)
  {
    hide GetTuple, Prod;
    FirstIndexBroadcasts(p, Int(i));
  }

  // The slice keeps one position of A's first axis, or as many as of B's.
  ghost predicate SlicesAlike<T>(p: Pair<T>, x: Index)
    requires p.WellFormed()
  {
    p.Dim() == 2 || Count(x, p.A.shape[0]) == 1 || Count(x, p.A.shape[0]) == Count(x, p.B.shape[0])
  }

  // Whether the factors of a slice broadcast can be told from the slice and the first axes; it does
  // not need telling if A's is its own.
  lemma SliceBroadcasts<T>(p: Pair<T>, x: Index)
    requires x.Slice? && Broadcasts(p) && GetSlice(p, x).Ok?
    ensures Broadcasts(GetSlice(p, x).value) <==> SlicesAlike(p, x)
    ensures p.A.shape[0] == p.B.shape[0] ==> SlicesAlike(p, x)
  {
    hide GetTuple, Prod, SlicePicks;
    if p.Dim() > 2 {
      FirstIndexBroadcasts(p, x);
    }
  }

  lemma RowSliceSelection<T>(p: Pair<T>, x: Index, axB: seq<Axis>) returns (sel: Selection)
    requires p.WellFormed() && p.Dim() == 2 && x.Slice?
    requires ResolveIndices(Padded(x, 2), p.B.shape) == Ok(axB) && AxesFit(axB, p.B.shape)
    ensures Selects(sel, p) && Selected(sel, p) == Pair(p.A, Select(p.B, axB))
    ensures ResolveIndices(Padded(x, 2), p.Shape()) == Ok(sel.OnProduct())
  {
    hide Select, Prod, SlicePicks;
    FullSlice(p.Rank());
    FullSlice(p.RowSize());
    sel := Selection([], [], axB[0].picks, axB[1].picks, ResolveIndex(FULL, p.RowSize()).value.picks);
    assert axB == sel.OnB();
    SelectIdentity(p.A, sel.OnA());
    assert ResolveIndices(Padded(x, 2), p.Shape()).value == sel.OnProduct();
  }

  lemma GetSliceHomomorphism<T>(R: Arith<T>, p: Pair<T>, x: Index)
    requires x.Slice? && Broadcasts(p) && GetSlice(p, x).Ok? && SlicesAlike(p, x)
    ensures Broadcasts(GetSlice(p, x).value) && GetSlice(p, x).value.Rank() == p.Rank()
    ensures GetTuple(Denote(R, p), [x]) == Ok(Denote(R, GetSlice(p, x).value))
  {
    hide Select, AxisShape, Prod, Denote, Source, GetTuple, ResolveIndex, At, SlicesAlike;
    SliceBroadcasts(p, x);
    GetTupleOfOne(p.A, x);
    GetTupleOfOne(p.B, x);
    GetTupleOfOne(Denote(R, p), x);
    var xs := Padded(x, p.Dim());
    if p.Dim() > 2 {
      var sel := FirstAxisSelection(p, x, ResolveIndices(xs, p.A.shape).value, ResolveIndices(xs, p.B.shape).value);
      SelectionByIndices(R, p, xs, sel);
    } else {
      var sel := RowSliceSelection(p, x, ResolveIndices(xs, p.B.shape).value);
      SelectionByIndices(R, p, xs, sel);
    }
  }

  // ---------- tuples with an ellipsis ----------

  // The tuple is read as torch reads it.
  ghost predicate ReadsAsTorch(xs: seq<Index>, d: nat) {
    NormalizeInPair(xs, d) == ExpandEllipsis(xs, d)
  }

  lemma GetManyHomomorphism<T>(R: Arith<T>, p: Pair<T>, xs: seq<Index>)
    requires Broadcasts(p) && GetMany(p, xs).Ok? && ReadsAsTorch(xs, p.Dim())
    requires var ys := NormalizeInPair(xs, p.Dim()).value; IndexesFaithfully(p, ys) && SharesLeading(p, ys)
    ensures Broadcasts(GetMany(p, xs).value) && GetMany(p, xs).value.Rank() == p.Rank()
    ensures GetTuple(Denote(R, p), xs) == Ok(Denote(R, GetMany(p, xs).value))
  {
    hide Select, AxisShape, Prod, Denote, Source, At, GetAxes, SelectBy, IndexesFaithfully, SharesLeading;
    GetAxesHomomorphism(R, p, NormalizeInPair(xs, p.Dim()).value);
  }
}
