// torch.stack and torch.cat of pairs denote stack and cat of the products.
module LoraStacking {
  import opened Outcomes
  import opened Tensors
  import opened LoraPairs
  import opened LoraHomomorphism

  ghost predicate AllBroadcast<T>(ps: seq<Pair<T>>) {
    forall p :: p in ps ==> Broadcasts(p)
  }

  ghost function Denotes<T>(R: Arith<T>, ps: seq<Pair<T>>): (r: seq<Tensor<T>>)
    requires AllBroadcast(ps)
    ensures |r| == |ps| && forall k :: 0 <= k < |ps| ==> ps[k] in ps && r[k] == Denote(R, ps[k])
    ensures forall t :: t in r ==> t.Valid()
  {
    assert forall k :: 0 <= k < |ps| ==> ps[k] in ps;
    var r := seq(|ps|, k requires 0 <= k < |ps| => Denote(R, ps[k]));
    assert forall k :: 0 <= k < |r| ==> r[k].Valid();
    r
  }

  // ---------- stack ----------

  lemma StackAt<T>(ts: seq<Tensor<T>>, k: nat, idx: seq<nat>)
    requires (forall t :: t in ts ==> t.Valid()) && Stack(ts).Ok?
    requires InShape([k] + idx, Stack(ts).value.shape)
    ensures k < |ts| && ts[k].Valid() && InShape(idx, ts[k].shape)
    ensures At(Stack(ts).value, [k] + idx) == At(ts[k], idx)
  {
    hide At, Ravel, Prod;
    assert ([k] + idx)[0] < |ts|;
    assert ([k] + idx)[1..] == idx;
    assert ts[k] in ts;
    var u := At(Stack(ts).value, [k] + idx);
  }

  ghost predicate Stacked<T>(ps: seq<Pair<T>>, q: Pair<T>) {
    AllBroadcast(ps) && ps != [] && q.WellFormed() && Stack(As(ps)) == Ok(q.A) && Stack(Bs(ps)) == Ok(q.B)
  }

  // Piece k of a stack has the shape of the stack without its first axis.
  lemma StackedPiece<T>(ps: seq<Pair<T>>, q: Pair<T>, k: nat)
    requires Stacked(ps, q) && k < |ps|
    ensures ps[k] in ps && Broadcasts(ps[k])
    ensures q.A.shape == [|ps|] + ps[k].A.shape && q.B.shape == [|ps|] + ps[k].B.shape
  {
    hide Prod;
    assert ps[k] in ps;
    assert As(ps)[k] in As(ps) && Bs(ps)[k] in Bs(ps);
  }

  lemma Deeper<T>(q: Pair<T>, p: Pair<T>, n: nat)
    requires q.WellFormed() && p.WellFormed() && q.A.shape == [n] + p.A.shape && q.B.shape == [n] + p.B.shape
    ensures q.Dim() == p.Dim() + 1 && q.Rank() == p.Rank() && q.RowSize() == p.RowSize()
    ensures q.B.shape[..q.Dim() - 1] == [n] + p.B.shape[..p.Dim() - 1]
    ensures q.Shape() == [n] + p.Shape()
    ensures Broadcasts(p) ==> Broadcasts(q)
  {
    hide Prod;
    if Broadcasts(p) {
      forall k | 0 <= k < q.Dim() - 2 ensures q.A.shape[k] == 1 || q.A.shape[k] == q.B.shape[k] {
        assert k > 0 ==> q.A.shape[k] == p.A.shape[k - 1] && q.B.shape[k] == p.B.shape[k - 1];
      }
    }
  }

  lemma DeeperRows<T>(q: Pair<T>, p: Pair<T>, n: nat, k: nat, row: seq<nat>, c: nat)
    requires q.WellFormed() && p.WellFormed() && q.A.shape == [n] + p.A.shape && q.B.shape == [n] + p.B.shape
    requires InRows(q, [k] + row, c)
    ensures k < n && InRows(p, row, c)
  {
    hide Prod;
    Deeper(q, p, n);
    var s, s' := q.B.shape[..q.Dim() - 1], p.B.shape[..p.Dim() - 1];
    assert ([k] + row)[0] < s[0];
    forall m | 0 <= m < |row| ensures row[m] < s'[m] {
      assert ([k] + row)[m + 1] < s[m + 1];
    }
  }

  lemma DeeperInA<T>(q: Pair<T>, p: Pair<T>, n: nat, k: nat, row: seq<nat>, c: nat, j: nat)
    requires Broadcasts(q) && Broadcasts(p) && q.A.shape == [n] + p.A.shape && k < n
    requires InRows(q, [k] + row, c) && InRows(p, row, c) && j < q.Rank() && j < p.Rank()
    ensures InA(q, [k] + row, c, j) == [k] + InA(p, row, c, j)
  {
    var i, i' := InA(q, [k] + row, c, j), InA(p, row, c, j);
    forall m | 0 <= m < |i| ensures i[m] == ([k] + i')[m] {
      assert m > 0 ==> q.A.shape[m] == p.A.shape[m - 1];
    }
  }

  lemma StackedTerm<T>(R: Arith<T>, ps: seq<Pair<T>>, q: Pair<T>, k: nat, row: seq<nat>, c: nat, j: nat)
    requires Stacked(ps, q) && Broadcasts(q)
    requires k < |ps| && Broadcasts(ps[k]) && InRows(q, [k] + row, c) && InRows(ps[k], row, c)
    requires j < q.Rank() && j < ps[k].Rank()
    ensures Term(R, q, [k] + row, c, j) == Term(R, ps[k], row, c, j)
  {
    hide At, Ravel, Prod, Contract, Stack, InA, InShape;
    StackedPiece(ps, q, k);
    DeeperInA(q, ps[k], |ps|, k, row, c, j);
    StackAt(As(ps), k, InA(ps[k], row, c, j));
    assert [k] + (row + [j]) == [k] + row + [j];
    InB(q, [k] + row, c, j);
    StackAt(Bs(ps), k, row + [j]);
  }

  lemma InB<T>(q: Pair<T>, row: seq<nat>, c: nat, j: nat)
    requires InRows(q, row, c) && j < q.Rank()
    ensures InShape(row + [j], q.B.shape)
  {
  }

  lemma StackedElement<T>(R: Arith<T>, ps: seq<Pair<T>>, q: Pair<T>, k: nat, row: seq<nat>, c: nat)
    requires Stacked(ps, q) && Broadcasts(q) && InRows(q, [k] + row, c)
    requires Stack(Denotes(R, ps)).Ok? && Stack(Denotes(R, ps)).value.shape == q.Shape()
    ensures InShape([k] + row + [c], q.Shape())
    ensures At(Denote(R, q), [k] + row + [c]) == At(Stack(Denotes(R, ps)).value, [k] + row + [c])
  {
    hide At, Ravel, Prod, Contract, Term, Denote, Stack, InShape;
    StackedPiece(ps, q, 0);
    DeeperRows(q, ps[0], |ps|, k, row, c);
    StackedPiece(ps, q, k);
    hide Stacked;
    var p := ps[k];
    DeeperRows(q, p, |ps|, k, row, c);
    Deeper(q, p, |ps|);
    DenoteAt(R, q, [k] + row, c);
    DenoteAt(R, p, row, c);
    forall j | 0 <= j < q.Rank() ensures Term(R, q, [k] + row, c, j) == Term(R, p, row, c, j) {
      StackedTerm(R, ps, q, k, row, c, j);
    }
    SameContract(R, q, [k] + row, c, p, row, c, q.Rank());
    assert [k] + row + [c] == [k] + (row + [c]);
    StackAt(Denotes(R, ps), k, row + [c]);
  }

  lemma ProductShape<T>(R: Arith<T>, ps: seq<Pair<T>>, q: Pair<T>, k: nat)
    requires Stacked(ps, q) && k < |ps|
    ensures ps[k] in ps && Broadcasts(q) && q.Rank() == ps[k].Rank()
    ensures q.Shape() == [|ps|] + Denotes(R, ps)[k].shape
  {
    hide At, Ravel, Prod, Contract, Term, Denote, InShape, Stack;
    StackedPiece(ps, q, k);
    Deeper(q, ps[k], |ps|);
  }

  lemma StackedDenotes<T>(R: Arith<T>, ps: seq<Pair<T>>, q: Pair<T>)
    requires Stacked(ps, q)
    ensures ps[0] in ps && Broadcasts(q) && q.Rank() == ps[0].Rank()
    ensures Stack(Denotes(R, ps)).Ok? && Stack(Denotes(R, ps)).value.shape == q.Shape()
  {
    hide At, Ravel, Prod, Contract, Term, Denote, InShape, Stack, Broadcasts;
    var ts := Denotes(R, ps);
    ProductShape(R, ps, q, 0);
    forall k | 0 <= k < |ts| ensures ts[k].shape == ts[0].shape {
      ProductShape(R, ps, q, k);
      assert q.Shape()[1..] == ts[k].shape && q.Shape()[1..] == ts[0].shape;
    }
  }

  lemma StackPairsStacked<T>(ps: seq<Pair<T>>)
    requires AllBroadcast(ps) && StackPairs(ps).Ok?
    ensures Stacked(ps, StackPairs(ps).value)
  {
    hide At, Ravel, Prod, InShape;
  }

  lemma StackHomomorphism<T>(R: Arith<T>, ps: seq<Pair<T>>)
    requires AllBroadcast(ps) && StackPairs(ps).Ok?
    ensures ps != [] && Broadcasts(StackPairs(ps).value)
    ensures StackPairs(ps).value.Rank() == ps[0].Rank()
    ensures Stack(Denotes(R, ps)) == Ok(Denote(R, StackPairs(ps).value))
  {
    hide At, Ravel, Prod, Contract, Term, Denote, Stack, StackPairs, Stacked, InShape;
    var q := StackPairs(ps).value;
    StackPairsStacked(ps);
    StackedDenotes(R, ps, q);
    var u := Stack(Denotes(R, ps)).value;
    forall row', c | InRows(q, row', c) && InShape(row' + [c], q.Shape())
      ensures At(Denote(R, q), row' + [c]) == At(u, row' + [c])
    {
      RowApart(q, row', c);
      StackedElement(R, ps, q, row'[0], row'[1..], c);
    }
    ExtensionalByRows(q, Denote(R, q), u);
  }

  lemma RowApart<T>(q: Pair<T>, row: seq<nat>, c: nat)
    requires InRows(q, row, c)
    ensures |row| > 0 && row == [row[0]] + row[1..]
  {
  }

  // ---------- cat ----------

  lemma CatAt<T>(ts: seq<Tensor<T>>, i: nat, rest: seq<nat>)
    requires (forall t :: t in ts ==> t.Valid()) && Cat(ts).Ok?
    requires InShape([i] + rest, Cat(ts).value.shape)
    ensures i < Sum(Heights(ts))
    ensures var (k, off) := Locate(Heights(ts), i);
            k < |ts| && ts[k].Valid() && InShape([off] + rest, ts[k].shape)
            && At(Cat(ts).value, [i] + rest) == At(ts[k], [off] + rest)
  {
    hide At, Ravel, Prod, Locate, Sum;
    assert ([i] + rest)[0] < Sum(Heights(ts));
    var (k, src) := CatSource(ts, [i] + rest);
    assert ([i] + rest)[1..] == rest;
    assert src == [src[0]] + rest;
    assert ts[k] in ts;
    var u := At(Cat(ts).value, [i] + rest);
  }

  // Concatenating 3-D pairs concatenates both factors, so no factor A may be shared along axis 0.
  ghost predicate OwnLeadingA<T>(ps: seq<Pair<T>>) {
    forall p :: p in ps ==> p.WellFormed() && (p.Dim() > 2 ==> p.A.shape[0] == p.B.shape[0])
  }

  ghost predicate Concatenated<T>(ps: seq<Pair<T>>, q: Pair<T>) {
    && AllBroadcast(ps) && OwnLeadingA(ps) && ps != [] && q.WellFormed()
    && Cat(Bs(ps)) == Ok(q.B)
    && if ps[0].Dim() > 2 then Cat(As(ps)) == Ok(q.A)
       else forall p :: p in ps ==> p.A == q.A
  }

  lemma PieceRaw<T>(ps: seq<Pair<T>>, q: Pair<T>, k: nat)
    requires Concatenated(ps, q) && k < |ps|
    ensures ps[k] in ps && Broadcasts(ps[k])
    ensures |ps[k].B.shape| == |q.B.shape| && ps[k].B.shape[1..] == q.B.shape[1..]
    ensures ps[0].Dim() > 2 ==> |ps[k].A.shape| == |q.A.shape| && ps[k].A.shape[1..] == q.A.shape[1..]
    ensures ps[0].Dim() <= 2 ==> ps[k].A == q.A
  {
    hide Prod, Sum, Locate;
    assert ps[k] in ps;
    assert Bs(ps)[k] in Bs(ps) && As(ps)[k] in As(ps);
    assert q.B.shape[1..] == Bs(ps)[0].shape[1..];
    if ps[0].Dim() > 2 {
      assert q.A.shape[1..] == As(ps)[0].shape[1..];
    }
  }

  lemma PieceShapes<T>(ps: seq<Pair<T>>, q: Pair<T>, k: nat)
    requires Concatenated(ps, q) && k < |ps|
    ensures ps[k] in ps && Broadcasts(ps[k]) && ps[k].Dim() == q.Dim() == ps[0].Dim()
    ensures ps[k].B.shape[1..] == q.B.shape[1..]
    ensures q.Dim() > 2 ==> ps[k].A.shape[1..] == q.A.shape[1..]
    ensures ps[k].Rank() == q.Rank() && ps[k].RowSize() == q.RowSize()
  {
    hide Prod;
    PieceRaw(ps, q, k);
    PieceRaw(ps, q, 0);
    assert q.WellFormed();
    hide Concatenated;
    var p, d := ps[k], q.Dim();
    assert p.Rank() == p.B.shape[1..][d - 2] && q.Rank() == q.B.shape[1..][d - 2];
    if d > 2 {
      assert p.RowSize() == p.A.shape[1..][d - 2] && q.RowSize() == q.A.shape[1..][d - 2];
    }
  }

  lemma PieceHeights<T>(R: Arith<T>, ps: seq<Pair<T>>, q: Pair<T>)
    requires Concatenated(ps, q)
    ensures forall t :: t in Bs(ps) + Denotes(R, ps) ==> |t.shape| > 0
    ensures Heights(Bs(ps)) == Heights(Denotes(R, ps))
    ensures q.Dim() > 2 ==> (forall t :: t in As(ps) ==> |t.shape| > 0) && Heights(As(ps)) == Heights(Bs(ps))
  {
    hide Prod, Denote, Contract;
    forall k | 0 <= k < |ps|
      ensures |Bs(ps)[k].shape| > 0 && |As(ps)[k].shape| > 0 && |Denotes(R, ps)[k].shape| > 0
      ensures Bs(ps)[k].shape[0] == Denotes(R, ps)[k].shape[0]
      ensures q.Dim() > 2 ==> As(ps)[k].shape[0] == Bs(ps)[k].shape[0]
    {
      PieceShapes(ps, q, k);
    }
  }

  lemma LeadingBroadcasts<T>(ps: seq<Pair<T>>, q: Pair<T>)
    requires Concatenated(ps, q)
    ensures forall m :: 1 <= m < q.Dim() - 2 ==> q.A.shape[m] == 1 || q.A.shape[m] == q.B.shape[m]
  {
    hide Prod;
    PieceShapes(ps, q, 0);
    hide Concatenated;
    forall m | 1 <= m < q.Dim() - 2 ensures q.A.shape[m] == 1 || q.A.shape[m] == q.B.shape[m] {
      assert q.A.shape[m] == q.A.shape[1..][m - 1] == ps[0].A.shape[m];
      assert q.B.shape[m] == q.B.shape[1..][m - 1] == ps[0].B.shape[m];
    }
  }

  lemma ConcatenatedBroadcasts<T>(R: Arith<T>, ps: seq<Pair<T>>, q: Pair<T>)
    requires Concatenated(ps, q)
    ensures AllBroadcast(ps) && ps != []
    ensures Broadcasts(q) && q.B.shape[0] == Sum(Heights(Bs(ps)))
    ensures q.Dim() > 2 ==> q.A.shape[0] == q.B.shape[0]
  {
    hide Prod, Denote, Contract, Sum, Locate;
    PieceHeights(R, ps, q);
    PieceShapes(ps, q, 0);
    LeadingBroadcasts(ps, q);
  }

  lemma ConcatenatedProducts<T>(R: Arith<T>, ps: seq<Pair<T>>, q: Pair<T>)
    requires Concatenated(ps, q) && q.WellFormed()
    ensures AllBroadcast(ps)
    ensures Stackable(Denotes(R, ps)) && [Sum(Heights(Denotes(R, ps)))] + Denotes(R, ps)[0].shape[1..] == q.Shape()
  {
    hide Prod, Denote, Contract, Sum, Locate, Concatenated, Broadcasts, AllBroadcast, Denotes, InShape;
    ConcatenatedBroadcasts(R, ps, q);
    PieceHeights(R, ps, q);
    var ts := Denotes(R, ps);
    forall k | 0 <= k < |ps| ensures |ts[k].shape| == q.Dim() && ts[k].shape[1..] == q.Shape()[1..] {
      PieceProduct(R, ps, q, k);
    }
    FirstAxis(q);
  }

  lemma FirstAxis<T>(q: Pair<T>)
    requires q.WellFormed()
    ensures q.Shape() == [q.B.shape[0]] + q.Shape()[1..]
  {
  }

  lemma PieceProduct<T>(R: Arith<T>, ps: seq<Pair<T>>, q: Pair<T>, k: nat)
    requires Concatenated(ps, q) && k < |ps|
    ensures |Denotes(R, ps)[k].shape| == q.Dim() && Denotes(R, ps)[k].shape[1..] == q.Shape()[1..]
  {
    hide Prod, Denote, Contract, Sum, Locate;
    PieceColumns(ps, q, k);
  }

  lemma PieceColumns<T>(ps: seq<Pair<T>>, q: Pair<T>, k: nat)
    requires Concatenated(ps, q) && k < |ps|
    ensures ps[k].WellFormed() && |ps[k].Shape()| == q.Dim() && ps[k].Shape()[1..] == q.Shape()[1..]
  {
    hide Prod;
    PieceShapes(ps, q, k);
    hide Concatenated;
    var p, d := ps[k], q.Dim();
    forall m | 1 <= m < d ensures p.Shape()[m] == q.Shape()[m] {
      assert m < d - 1 ==> p.B.shape[m] == p.B.shape[1..][m - 1] == q.B.shape[1..][m - 1] == q.B.shape[m];
    }
  }

  lemma PieceInA<T>(q: Pair<T>, p: Pair<T>, i: nat, off: nat, row: seq<nat>, c: nat, j: nat) returns (tail: seq<nat>)
    requires Broadcasts(q) && Broadcasts(p) && p.Dim() == q.Dim() > 2 && p.A.shape[1..] == q.A.shape[1..]
    requires q.A.shape[0] == q.B.shape[0] && p.A.shape[0] == p.B.shape[0]
    requires InRows(q, [i] + row, c) && InRows(p, [off] + row, c) && j < q.Rank() && j < p.Rank()
    ensures InA(q, [i] + row, c, j) == [i] + tail && InA(p, [off] + row, c, j) == [off] + tail
  {
    hide Prod;
    var x, y := InA(q, [i] + row, c, j), InA(p, [off] + row, c, j);
    assert ([i] + row)[0] < q.B.shape[..q.Dim() - 1][0] && ([off] + row)[0] < p.B.shape[..p.Dim() - 1][0];
    tail := x[1..];
    forall m | 1 <= m < |x| ensures x[m] == y[m] {
      assert q.A.shape[m] == q.A.shape[1..][m - 1] == p.A.shape[1..][m - 1] == p.A.shape[m];
    }
    assert x == [i] + tail && y == [off] + tail;
  }

  lemma PieceB<T>(R: Arith<T>, ps: seq<Pair<T>>, q: Pair<T>, i: nat, rest: seq<nat>)
    requires Concatenated(ps, q) && InShape([i] + rest, q.B.shape) && i < Sum(Heights(Bs(ps)))
    ensures var (k, off) := Locate(Heights(Bs(ps)), i);
            k < |ps| && ps[k].B.Valid() && InShape([off] + rest, ps[k].B.shape)
            && At(q.B, [i] + rest) == At(ps[k].B, [off] + rest)
  {
    hide At, Ravel, Prod, Locate, Sum, Cat, CatSource;
    CatAt(Bs(ps), i, rest);
  }

  lemma PieceA<T>(R: Arith<T>, ps: seq<Pair<T>>, q: Pair<T>, i: nat, k: nat, off: nat, row: seq<nat>, c: nat, j: nat)
    requires Concatenated(ps, q) && Broadcasts(q) && i < Sum(Heights(Bs(ps)))
    requires (k, off) == Locate(Heights(Bs(ps)), i)
    requires k < |ps| && Broadcasts(ps[k]) && InRows(q, [i] + row, c) && InRows(ps[k], [off] + row, c)
    requires j < q.Rank() && j < ps[k].Rank()
    ensures At(q.A, InA(q, [i] + row, c, j)) == At(ps[k].A, InA(ps[k], [off] + row, c, j))
  {
    hide At, Ravel, Prod, Contract, Locate, Sum, Cat, CatSource;
    PieceShapes(ps, q, k);
    if q.Dim() > 2 {
      ConcatenatedBroadcasts(R, ps, q);
      PieceHeights(R, ps, q);
      var tail := PieceInA(q, ps[k], i, off, row, c, j);
      CatAt(As(ps), i, tail);
    }
  }

  lemma ConcatenatedElement<T>(R: Arith<T>, ps: seq<Pair<T>>, q: Pair<T>, row': seq<nat>, c: nat)
    requires Concatenated(ps, q) && Broadcasts(q) && InRows(q, row', c)
    requires Cat(Denotes(R, ps)).Ok? && Cat(Denotes(R, ps)).value.shape == q.Shape()
    ensures InShape(row' + [c], q.Shape())
    ensures At(Denote(R, q), row' + [c]) == At(Cat(Denotes(R, ps)).value, row' + [c])
  {
    hide At, Ravel, Prod, Contract, Term, Denote, Locate, Sum, Cat, CatSource, Concatenated, InShape, Stackable;
    ConcatenatedBroadcasts(R, ps, q);
    PieceHeights(R, ps, q);
    DenoteAt(R, q, row', c);
    var i, row := row'[0], row'[1..];
    assert row' == [i] + row && row' + [c] == [i] + (row + [c]);
    CatAt(Denotes(R, ps), i, row + [c]);
    var (k, off) := Locate(Heights(Bs(ps)), i);
    var p := ps[k];
    PieceShapes(ps, q, k);
    assert [off] + (row + [c]) == [off] + row + [c];
    assert Denotes(R, ps)[k] == Denote(R, p);
    SplitIndex(p, [off] + row + [c]);
    assert ([off] + row + [c])[..p.Dim() - 1] == [off] + row;
    DenoteAt(R, p, [off] + row, c);
    forall j | 0 <= j < q.Rank() ensures Term(R, q, row', c, j) == Term(R, p, [off] + row, c, j) {
      PieceTerm(R, ps, q, i, k, off, row, c, j);
    }
    SameContract(R, q, row', c, p, [off] + row, c, q.Rank());
  }

  lemma PieceTerm<T>(R: Arith<T>, ps: seq<Pair<T>>, q: Pair<T>,
                     i: nat, k: nat, off: nat, row: seq<nat>, c: nat, j: nat)
    requires Concatenated(ps, q) && Broadcasts(q) && i < Sum(Heights(Bs(ps)))
    requires (k, off) == Locate(Heights(Bs(ps)), i)
    requires k < |ps| && Broadcasts(ps[k]) && InRows(q, [i] + row, c) && InRows(ps[k], [off] + row, c)
    requires j < q.Rank() && j < ps[k].Rank()
    ensures Term(R, q, [i] + row, c, j) == Term(R, ps[k], [off] + row, c, j)
  {
    hide At, Ravel, Prod, Contract, Locate, Sum, Concatenated, InA;
    assert [i] + (row + [j]) == [i] + row + [j] && [off] + (row + [j]) == [off] + row + [j];
    assert InShape([i] + row + [j], q.B.shape);
    PieceB(R, ps, q, i, row + [j]);
    PieceA(R, ps, q, i, k, off, row, c, j);
  }

  lemma CatIsConcatenated<T>(ps: seq<Pair<T>>)
    requires AllBroadcast(ps) && CatPairs(ps).Ok? && OwnLeadingA(ps)
    ensures Concatenated(ps, CatPairs(ps).value)
  {
  }

  lemma OwnedCat<T>(R: Arith<T>, ps: seq<Pair<T>>)
    requires AllBroadcast(ps) && CatPairs(ps).Ok? && OwnLeadingA(ps)
    ensures ps != [] && Broadcasts(CatPairs(ps).value)
    ensures CatPairs(ps).value.Rank() == ps[0].Rank()
    ensures Cat(Denotes(R, ps)) == Ok(Denote(R, CatPairs(ps).value))
  {
    hide At, Ravel, Prod, Contract, Term, Denote, CatPairs, Concatenated, Stackable, Sum, Locate;
    var q, ts := CatPairs(ps).value, Denotes(R, ps);
    CatIsConcatenated(ps);
    ConcatenatedBroadcasts(R, ps, q);
    ConcatenatedProducts(R, ps, q);
    PieceShapes(ps, q, 0);
    var u := Cat(ts).value;
    forall row', c | InRows(q, row', c) && InShape(row' + [c], q.Shape())
      ensures At(Denote(R, q), row' + [c]) == At(u, row' + [c])
    {
      ConcatenatedElement(R, ps, q, row', c);
    }
    ExtensionalByRows(q, Denote(R, q), u);
  }

  lemma CatOfOne<T>(t: Tensor<T>)
    requires t.Valid() && |t.shape| > 0
    ensures Cat([t]) == Ok(t)
  {
    hide At, Ravel, Prod;
    var ts := [t];
    assert Heights(ts)[1..] == [] && Sum(Heights(ts)) == t.shape[0];
    assert [t.shape[0]] + t.shape[1..] == t.shape;
    var u := Cat(ts).value;
    forall idx | InShape(idx, t.shape) ensures At(u, idx) == At(t, idx) {
      assert idx == [idx[0]] + idx[1..];
      CatAt(ts, idx[0], idx[1..]);
    }
    Extensional(u, t);
  }

  lemma OneCat<T>(R: Arith<T>, ps: seq<Pair<T>>)
    requires AllBroadcast(ps) && CatPairs(ps).Ok? && |ps| == 1
    ensures CatPairs(ps).value == ps[0] && Cat(Denotes(R, ps)) == Ok(Denote(R, ps[0]))
  {
    hide Denote, Prod, Cat;
    var p := ps[0];
    assert p in ps && ps == [p];
    CatOfOne(p.B);
    CatOfOne(p.A);
    CatOfOne(Denote(R, p));
    assert Bs(ps) == [p.B] && As(ps) == [p.A] && Denotes(R, ps) == [Denote(R, p)];
  }

  ghost predicate CatsFaithfully<T>(ps: seq<Pair<T>>) {
    OwnLeadingA(ps) || |ps| == 1
  }

  lemma CatHomomorphism<T>(R: Arith<T>, ps: seq<Pair<T>>)
    requires AllBroadcast(ps) && CatPairs(ps).Ok? && CatsFaithfully(ps)
    ensures ps != [] && Broadcasts(CatPairs(ps).value)
    ensures CatPairs(ps).value.Rank() == ps[0].Rank()
    ensures Cat(Denotes(R, ps)) == Ok(Denote(R, CatPairs(ps).value))
  {
    hide Denote, Prod, CatPairs, Cat, OwnLeadingA;
    if OwnLeadingA(ps) {
      OwnedCat(R, ps);
    } else {
      OneCat(R, ps);
      assert ps[0] in ps;
    }
  }

  // Over heights that may be smaller than others at some place, the sum is.
  lemma {:induction false} SumBelow(a: seq<nat>, b: seq<nat>)
    requires |a| == |b| && forall k :: 0 <= k < |a| ==> 1 <= a[k] <= b[k]
    ensures |a| <= Sum(a) <= Sum(b)
    ensures Sum(a) == Sum(b) <==> a == b
  {
    if a != [] {
      SumBelow(a[1..], b[1..]);
      assert a == [a[0]] + a[1..] && b == [b[0]] + b[1..];
    }
  }
}
