// Indexing a pair denotes indexing the product.
module LoraIndexing {
  import opened Outcomes
  import opened Tensors
  import opened LoraPairs
  import opened LoraHomomorphism

  // ---------- slices ----------

  lemma {:induction false} PicksAt(lo: nat, hi: nat, step: nat, k: nat)
    requires step > 0 && k < |SlicePicks(lo, hi, step)|
    ensures SlicePicks(lo, hi, step)[k] == lo + k * step
    decreases k
  {
    hide SlicePicks;
    if k > 0 {
      PicksAt(lo, hi, step, k - 1);
      assert SlicePicks(lo, hi, step)[k - 1 + 1] == SlicePicks(lo, hi, step)[k - 1] + step;
      assert (k - 1) * step + step == k * step;
    }
  }

  ghost predicate IsIdentity(picks: seq<nat>, d: nat) {
    |picks| == d && forall k :: 0 <= k < d ==> picks[k] == k
  }

  lemma StepOne(lo: nat, step: nat, d: nat)
    requires step > 0 && d > 1 && lo + (d - 1) * step < d
    ensures lo == 0 && step == 1
  {
    assert (d - 1) * step == (d - 1) + (d - 1) * (step - 1);
    assert step > 1 ==> (d - 1) * (step - 1) >= 1;
  }

  // A slice that keeps as many positions as the axis has keeps all of them in order.
  lemma WholeSlice(lo: nat, hi: nat, step: nat, d: nat)
    requires step > 0 && hi <= d && d != 1 && |SlicePicks(lo, hi, step)| == d
    ensures IsIdentity(SlicePicks(lo, hi, step), d)
  {
    hide SlicePicks;
    var r := SlicePicks(lo, hi, step);
    if d > 1 {
      PicksAt(lo, hi, step, d - 1);
      StepOne(lo, step, d);
      forall k | 0 <= k < d ensures r[k] == k {
        PicksAt(lo, hi, step, k);
      }
    }
  }

  lemma FullSlice(d: nat)
    ensures ResolveIndex(FULL, d).Ok? && ResolveIndex(FULL, d).value.Along?
    ensures IsIdentity(ResolveIndex(FULL, d).value.picks, d)
  {
    var r := SlicePicks(0, d, 1);
    if d > 0 {
      PicksAt(0, d, 1, |r| - 1);
    }
    forall k | 0 <= k < |r| ensures r[k] == k {
      PicksAt(0, d, 1, k);
    }
  }

  // ---------- selection on the factors and on the product ----------

  // The two selections on a leading axis agree on what they read, where A's axis has size a.
  ghost predicate AxisAgrees(xa: Axis, xb: Axis, a: nat) {
    match (xa, xb)
    case (Fixed(i), Fixed(j)) => i == if a == 1 then 0 else j
    case (Along(pa), Along(pb)) =>
      && (|pa| == 1 || |pa| == |pb|)
      && forall i :: 0 <= i < |pb| ==> pa[if |pa| == 1 then 0 else i] == if a == 1 then 0 else pb[i]
    case _ => false
  }

  ghost predicate AxesAgree(LA: seq<Axis>, LB: seq<Axis>, s: seq<nat>) {
    |LA| == |LB| == |s| && forall k :: 0 <= k < |s| ==> AxisAgrees(LA[k], LB[k], s[k])
  }

  // u with its entries zeroed where s has size 1.
  ghost function Shared(u: seq<nat>, s: seq<nat>): (v: seq<nat>)
    requires |u| == |s|
    ensures |v| == |u| && forall k :: 0 <= k < |u| ==> v[k] == if s[k] == 1 then 0 else u[k]
  {
    seq(|u|, k requires 0 <= k < |u| => if s[k] == 1 then 0 else u[k])
  }

  lemma SharedLast(w: seq<nat>, j: nat, s: seq<nat>, a: nat)
    requires |w| == |s|
    ensures Shared(w + [j], s + [a]) == Shared(w, s) + [if a == 1 then 0 else j]
  {
  }

  // The conclusion of LeadingSource for one choice of arguments.
  ghost predicate ReadsAlike(LA: seq<Axis>, LB: seq<Axis>, s: seq<nat>, u: seq<nat>) {
    && InShape(u, AxisShape(LB))
    && |AxisShape(LA)| == |u| && InShape(Shared(u, AxisShape(LA)), AxisShape(LA))
    && |LB| == |s|
    && Source(LA, Shared(u, AxisShape(LA))) == Shared(Source(LB, u), s)
  }

  lemma LeadingFixed(LA: seq<Axis>, LB: seq<Axis>, s: seq<nat>, u: seq<nat>, i: nat, j: nat, a: nat)
    requires ReadsAlike(LA, LB, s, u) && AxisAgrees(Fixed(i), Fixed(j), a)
    ensures ReadsAlike(LA + [Fixed(i)], LB + [Fixed(j)], s + [a], u)
  {
    hide Source, AxisShape;
    SourceFixed(LB, j, u);
    SourceFixed(LA, i, Shared(u, AxisShape(LA)));
    SharedLast(Source(LB, u), j, s, a);
  }

  lemma LeadingAlong(LA: seq<Axis>, LB: seq<Axis>, s: seq<nat>, u: seq<nat>,
                     pa: seq<nat>, pb: seq<nat>, a: nat, m: nat)
    requires ReadsAlike(LA, LB, s, u) && AxisAgrees(Along(pa), Along(pb), a) && m < |pb|
    ensures ReadsAlike(LA + [Along(pa)], LB + [Along(pb)], s + [a], u + [m])
  {
    hide Source, AxisShape, Shared;
    var m' := if |pa| == 1 then 0 else m;
    SourceLast(LB, u, pb, m);
    SourceLast(LA, Shared(u, AxisShape(LA)), pa, m');
    AxisShapeLast(LA, pa);
    SharedLast(u, m, AxisShape(LA), |pa|);
    SharedLast(Source(LB, u), pb[m], s, a);
  }

  lemma ReadsAlikeNothing(u: seq<nat>)
    requires InShape(u, AxisShape([]))
    ensures ReadsAlike([], [], [], u)
  {
  }

  lemma AgreesApart(LA: seq<Axis>, LB: seq<Axis>, s: seq<nat>)
    requires AxesAgree(LA, LB, s) && s != []
    ensures var n := |s| - 1;
            && LA == LA[..n] + [LA[n]] && LB == LB[..n] + [LB[n]] && s == s[..n] + [s[n]]
            && AxesAgree(LA[..n], LB[..n], s[..n]) && AxisAgrees(LA[n], LB[n], s[n])
            && (LA[n].Fixed? <==> LB[n].Fixed?)
  {
    var n := |s| - 1;
    assert AxisAgrees(LA[n], LB[n], s[n]);
  }

  // Selections that agree axis by axis read the same place of a shared or matching leading block.
  lemma {:induction false} LeadingSource(LA: seq<Axis>, LB: seq<Axis>, s: seq<nat>, u: seq<nat>)
    requires AxesAgree(LA, LB, s) && InShape(u, AxisShape(LB))
    ensures ReadsAlike(LA, LB, s, u)
    decreases |s|
  {
    if s == [] {
      ReadsAlikeNothing(u);
    } else {
      hide ReadsAlike, AxisShape, Source, AxesAgree, AxisAgrees, InShape;
      var n := |s| - 1;
      AgreesApart(LA, LB, s);
      if LB[n].Fixed? {
        AxisShapeFixed(LB[..n], LB[n]);
        LeadingSource(LA[..n], LB[..n], s[..n], u);
        LeadingFixed(LA[..n], LB[..n], s[..n], u, LA[n].at, LB[n].at, s[n]);
      } else {
        AxisShapeLast(LB[..n], LB[n].picks);
        InShapeApart(u, AxisShape(LB[..n]), |LB[n].picks|);
        LeadingSource(LA[..n], LB[..n], s[..n], u[..|u| - 1]);
        LeadingAlong(LA[..n], LB[..n], s[..n], u[..|u| - 1], LA[n].picks, LB[n].picks, s[n], u[|u| - 1]);
      }
    }
  }

  lemma {:induction false} AgreeingShapes(LA: seq<Axis>, LB: seq<Axis>, s: seq<nat>)
    requires AxesAgree(LA, LB, s)
    ensures |AxisShape(LA)| == |AxisShape(LB)|
    ensures forall k :: 0 <= k < |AxisShape(LA)| ==> AxisShape(LA)[k] == 1 || AxisShape(LA)[k] == AxisShape(LB)[k]
  {
    if s != [] {
      var n := |s| - 1;
      assert AxisAgrees(LA[n], LB[n], s[n]);
      AgreeingShapes(LA[..n], LB[..n], s[..n]);
    }
  }

  // What a selection does to the axes of a pair: agreeing selections of the leading axes, some of
  // the rows, the whole rank axis, and some of the columns.
  datatype Selection = Selection(LA: seq<Axis>, LB: seq<Axis>, rows: seq<nat>, ranks: seq<nat>, cols: seq<nat>) {
    function OnA(): seq<Axis> {
      LA + [Along(ranks)] + [Along(cols)]
    }

    function OnB(): seq<Axis> {
      LB + [Along(rows)] + [Along(ranks)]
    }

    function OnProduct(): seq<Axis> {
      LB + [Along(rows)] + [Along(cols)]
    }
  }

  ghost predicate Selects<T>(x: Selection, p: Pair<T>) {
    && Broadcasts(p)
    && AxesAgree(x.LA, x.LB, p.A.shape[..p.Dim() - 2])
    && AxesFit(x.LA, p.A.shape[..p.Dim() - 2])
    && AxesFit(x.LB, p.B.shape[..p.Dim() - 2])
    && AxisFits(Along(x.rows), p.B.shape[p.Dim() - 2])
    && AxisFits(Along(x.cols), p.RowSize())
    && IsIdentity(x.ranks, p.Rank())
  }

  // The last two sizes of a shape, apart.
  lemma LastTwoSizes(s: seq<nat>)
    requires |s| >= 2
    ensures s == s[..|s| - 2] + [s[|s| - 2]] + [s[|s| - 1]]
  {
  }

  lemma SelectedShapes<T>(x: Selection, p: Pair<T>)
    requires Selects(x, p)
    ensures AxisShape(x.OnA()) == AxisShape(x.LA) + [p.Rank(), |x.cols|]
    ensures AxisShape(x.OnB()) == AxisShape(x.LB) + [|x.rows|, p.Rank()]
    ensures AxisShape(x.OnProduct()) == AxisShape(x.LB) + [|x.rows|, |x.cols|]
  {
    hide AxisShape, AxesAgree, AxesFit, AxisFits, Broadcasts;
    AxisShapeLast(x.LA, x.ranks);
    AxisShapeLast(x.LA + [Along(x.ranks)], x.cols);
    AxisShapeLast(x.LB, x.rows);
    AxisShapeLast(x.LB + [Along(x.rows)], x.ranks);
    AxisShapeLast(x.LB + [Along(x.rows)], x.cols);
  }

  lemma RanksFit(ranks: seq<nat>, d: nat)
    requires IsIdentity(ranks, d)
    ensures AxisFits(Along(ranks), d)
  {
  }

  lemma SelectionFits<T>(x: Selection, p: Pair<T>)
    requires Selects(x, p)
    ensures AxesFit(x.OnA(), p.A.shape) && AxesFit(x.OnB(), p.B.shape) && AxesFit(x.OnProduct(), p.Shape())
    ensures AxisShape(x.OnA()) == AxisShape(x.LA) + [p.Rank(), |x.cols|]
    ensures AxisShape(x.OnB()) == AxisShape(x.LB) + [|x.rows|, p.Rank()]
    ensures AxisShape(x.OnProduct()) == AxisShape(x.LB) + [|x.rows|, |x.cols|]
  {
    hide AxisShape, AxesFit, AxisFits, IsIdentity, AxesAgree;
    var d, a, b := p.Dim(), p.A.shape[..p.Dim() - 2], p.B.shape[..p.Dim() - 2];
    SelectedShapes(x, p);
    RanksFit(x.ranks, p.Rank());
    LastTwoSizes(p.A.shape);
    LastTwoSizes(p.B.shape);
    LastTwoSizes(p.Shape());
    assert p.Shape()[..d - 2] == b;
    AxesFitLast(x.LA, a, Along(x.ranks), p.Rank());
    AxesFitLast(x.LA + [Along(x.ranks)], a + [p.Rank()], Along(x.cols), p.RowSize());
    AxesFitLast(x.LB, b, Along(x.rows), p.B.shape[d - 2]);
    AxesFitLast(x.LB + [Along(x.rows)], b + [p.B.shape[d - 2]], Along(x.ranks), p.Rank());
    AxesFitLast(x.LB + [Along(x.rows)], b + [p.B.shape[d - 2]], Along(x.cols), p.RowSize());
  }

  ghost function Selected<T>(x: Selection, p: Pair<T>): (q: Pair<T>)
    requires Selects(x, p)
    ensures Broadcasts(q) && q.Rank() == p.Rank() && q.RowSize() == |x.cols|
    ensures q.Shape() == AxisShape(x.OnProduct())
    ensures q.B.shape == AxisShape(x.LB) + [|x.rows|, p.Rank()]
    ensures q.A.shape == AxisShape(x.LA) + [p.Rank(), |x.cols|]
  {
    SelectionFits(x, p);
    AgreeingShapes(x.LA, x.LB, p.A.shape[..p.Dim() - 2]);
    Pair(Select(p.A, x.OnA()), Select(p.B, x.OnB()))
  }

  // Where the elements behind row (u, i) and column c of the selected pair come from.
  lemma SelectedSources<T>(x: Selection, p: Pair<T>, u: seq<nat>, i: nat, c: nat, j: nat)
    requires Selects(x, p) && InShape(u, AxisShape(x.LB)) && i < |x.rows| && c < |x.cols| && j < p.Rank()
    ensures |AxisShape(x.LA)| == |u|
    ensures InShape(u + [i] + [c], AxisShape(x.OnProduct()))
    ensures Source(x.OnProduct(), u + [i] + [c]) == Source(x.LB, u) + [x.rows[i]] + [x.cols[c]]
    ensures InShape(u + [i] + [j], AxisShape(x.OnB()))
    ensures Source(x.OnB(), u + [i] + [j]) == Source(x.LB, u) + [x.rows[i]] + [j]
    ensures InShape(Shared(u, AxisShape(x.LA)) + [j] + [c], AxisShape(x.OnA()))
    ensures Source(x.OnA(), Shared(u, AxisShape(x.LA)) + [j] + [c])
         == Shared(Source(x.LB, u), p.A.shape[..p.Dim() - 2]) + [j] + [x.cols[c]]
  {
    hide Source, AxisShape, Prod, Ravel, Shared;
    LeadingSource(x.LA, x.LB, p.A.shape[..p.Dim() - 2], u);
    var v := Shared(u, AxisShape(x.LA));
    SourceLast(x.LB, u, x.rows, i);
    SourceLast(x.LB + [Along(x.rows)], u + [i], x.cols, c);
    SourceLast(x.LB + [Along(x.rows)], u + [i], x.ranks, j);
    SourceLast(x.LA, v, x.ranks, j);
    SourceLast(x.LA + [Along(x.ranks)], v + [j], x.cols, c);
  }

  lemma SelectedTerm<T>(R: Arith<T>, x: Selection, p: Pair<T>, u: seq<nat>, i: nat, c: nat, j: nat)
    requires Selects(x, p) && InShape(u, AxisShape(x.LB)) && i < |x.rows| && c < |x.cols| && j < p.Rank()
    requires InRows(Selected(x, p), u + [i], c) && InRows(p, Source(x.LB, u) + [x.rows[i]], x.cols[c])
    ensures Term(R, Selected(x, p), u + [i], c, j) == Term(R, p, Source(x.LB, u) + [x.rows[i]], x.cols[c], j)
  {
    hide At, Ravel, Prod, Contract, Source, AxisShape, Select;
    SelectedSources(x, p, u, i, c, j);
    SelectionFits(x, p);
    var q, d := Selected(x, p), p.Dim();
    var v := Shared(u, AxisShape(x.LA));
    assert InA(q, u + [i], c, j) == v + [j] + [c];
    var w := Source(x.LB, u);
    assert InA(p, w + [x.rows[i]], x.cols[c], j) == Shared(w, p.A.shape[..d - 2]) + [j] + [x.cols[c]];
    assert At(q.B, u + [i] + [j]) == At(p.B, w + [x.rows[i]] + [j]);
    assert At(q.A, v + [j] + [c]) == At(p.A, Shared(w, p.A.shape[..d - 2]) + [j] + [x.cols[c]]);
  }

  lemma SelectedElement<T>(R: Arith<T>, x: Selection, p: Pair<T>, u: seq<nat>, i: nat, c: nat)
    requires Selects(x, p) && InRows(Selected(x, p), u + [i], c)
    requires AxesFit(x.OnProduct(), p.Shape())
    ensures InShape(u + [i] + [c], Selected(x, p).Shape())
    ensures At(Denote(R, Selected(x, p)), u + [i] + [c]) == At(Select(Denote(R, p), x.OnProduct()), u + [i] + [c])
  {
    hide At, Ravel, Prod, Contract, Source, AxisShape, Select, Denote, Term;
    var q, d := Selected(x, p), p.Dim();
    assert forall k :: 0 <= k < |u| ==> u[k] == (u + [i])[k] < AxisShape(x.LB)[k];
    assert (u + [i])[|u|] < |x.rows|;
    DenoteAt(R, q, u + [i], c);
    if p.Rank() > 0 {
      SelectedSources(x, p, u, i, c, 0);
    } else {
      SourceLast(x.LB, u, x.rows, i);
      SourceLast(x.LB + [Along(x.rows)], u + [i], x.cols, c);
    }
    var row, c' := Source(x.LB, u) + [x.rows[i]], x.cols[c];
    SourceInShape(x.OnProduct(), p.Shape(), u + [i] + [c]);
    SplitIndex(p, row + [c']);
    assert (row + [c'])[..d - 1] == row;
    DenoteAt(R, p, row, c');
    forall j | 0 <= j < p.Rank() ensures Term(R, q, u + [i], c, j) == Term(R, p, row, c', j) {
      SelectedTerm(R, x, p, u, i, c, j);
    }
    SameContract(R, q, u + [i], c, p, row, c', p.Rank());
  }

  // The product of a selection is the selection of the product.
  lemma SelectedDenotes<T>(R: Arith<T>, x: Selection, p: Pair<T>)
    requires Selects(x, p)
    ensures AxesFit(x.OnProduct(), p.Shape())
    ensures Denote(R, Selected(x, p)) == Select(Denote(R, p), x.OnProduct())
  {
    hide At, Ravel, Prod, Contract, Source, AxisShape, Select, Denote, Term;
    SelectionFits(x, p);
    var q := Selected(x, p);
    var t := Select(Denote(R, p), x.OnProduct());
    forall row, c | InRows(q, row, c) && InShape(row + [c], q.Shape())
      ensures At(Denote(R, q), row + [c]) == At(t, row + [c])
    {
      var n := |row| - 1;
      assert row == row[..n] + [row[n]];
      SelectedElement(R, x, p, row[..n], row[n], c);
    }
    ExtensionalByRows(q, Denote(R, q), t);
  }
}
