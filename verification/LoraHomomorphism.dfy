// Each operation on a pair denotes the same operation on the product.
module LoraHomomorphism {
  import opened Outcomes
  import opened Tensors
  import opened LoraPairs

  lemma DenoteAt<T>(R: Arith<T>, p: Pair<T>, row: seq<nat>, c: nat)
    requires Broadcasts(p) && InRows(p, row, c)
    ensures InShape(row + [c], p.Shape())
    ensures At(Denote(R, p), row + [c]) == Contract(R, p, row, c, p.Rank())
  {
    var n := p.Dim() - 1;
    assert (row + [c])[..n] == row;
  }

  // ---------- permute, transpose ----------

  lemma FixedLast(perm: seq<nat>, idx: seq<nat>, idx': seq<nat>)
    requires IsPermutation(perm) && perm != [] && perm[|perm| - 1] == |perm| - 1
    requires |idx| == |idx'| == |perm| && idx[..|perm| - 1] == idx'[..|perm| - 1]
    ensures Unpermute(perm, idx)[..|perm| - 1] == Unpermute(perm, idx')[..|perm| - 1]
    ensures Unpermute(perm, idx)[|perm| - 1] == idx[|perm| - 1]
  {
    var n := |perm| - 1;
    forall a | 0 <= a < n ensures Unpermute(perm, idx)[a] == Unpermute(perm, idx')[a] {
      var k := Pos(perm, a);
      assert k != n;
      assert idx[k] == idx[..n][k] == idx'[..n][k];
    }
  }

  lemma FixedLastShape(perm: seq<nat>, s: seq<nat>, t: seq<nat>)
    requires IsPermutation(perm) && perm != [] && perm[|perm| - 1] == |perm| - 1
    requires |s| == |t| == |perm| && s[..|perm| - 1] == t[..|perm| - 1]
    ensures PermShape(perm, s)[..|perm| - 1] == PermShape(perm, t)[..|perm| - 1]
    ensures PermShape(perm, s)[|perm| - 1] == s[|perm| - 1]
  {
    var n := |perm| - 1;
    forall a | 0 <= a < n ensures PermShape(perm, s)[a] == PermShape(perm, t)[a] {
      assert perm[a] != n;
      assert s[perm[a]] == s[..n][perm[a]] == t[..n][perm[a]];
    }
  }

  // The permuted pair, when the row size stays last.
  ghost function PermutedB(p: Pair, perm: seq<nat>): (p': Pair)
    requires FlatA(p) && IsPermutation(perm) && |perm| == p.Dim() && perm[p.Dim() - 1] == p.Dim() - 1
    ensures FlatA(p') && p'.Dim() == p.Dim() && p'.Rank() == p.Rank() && p'.RowSize() == p.RowSize()
    ensures p'.Shape() == PermShape(perm, p.Shape())
  {
    hide PermShape, IsPermutation, At, InShape;
    FixedLastShape(perm, p.B.shape, p.Shape());
    FixedLastShape(perm, p.Shape(), p.B.shape);
    assert p.B.shape[..p.Dim() - 1] == p.Shape()[..p.Dim() - 1];
    Pair(p.A, PermuteAxes(p.B, perm))
  }

  lemma PermutedTerm<T>(R: Arith<T>, p: Pair<T>, perm: seq<nat>, row: seq<nat>, row': seq<nat>, c: nat, j: nat)
    requires FlatA(p) && IsPermutation(perm) && |perm| == p.Dim() && perm[p.Dim() - 1] == p.Dim() - 1
    requires InRows(p, row, c) && InRows(PermutedB(p, perm), row', c) && j < p.Rank()
    requires row + [c] == Unpermute(perm, row' + [c])
    ensures Term(R, p, row, c, j) == Term(R, PermutedB(p, perm), row', c, j)
  {
    hide At, Ravel, Prod, Contract, PermuteAxes, Unpermute, Denote;
    FixedLast(perm, row' + [j], row' + [c]);
    assert (row' + [j])[..|row'|] == row' == (row' + [c])[..|row'|];
    assert (row + [c])[..|row|] == row;
    assert Unpermute(perm, row' + [j]) == row + [j] by {
      assert Unpermute(perm, row' + [j])[..|row|] == row;
    }
    assert InA(p, row, c, j) == InA(PermutedB(p, perm), row', c, j);
    assert At(p.B, row + [j]) == At(PermutedB(p, perm).B, row' + [j]);
  }

  lemma PermutedElement<T>(R: Arith<T>, p: Pair<T>, perm: seq<nat>, row': seq<nat>, c: nat)
    requires FlatA(p) && IsPermutation(perm) && |perm| == p.Dim() && perm[p.Dim() - 1] == p.Dim() - 1
    requires InRows(PermutedB(p, perm), row', c)
    ensures InShape(row' + [c], PermShape(perm, p.Shape()))
    ensures At(Denote(R, PermutedB(p, perm)), row' + [c]) == At(PermuteAxes(Denote(R, p), perm), row' + [c])
  {
    hide At, Ravel, Prod, Contract, Term, Denote, PermuteAxes;
    var p', n := PermutedB(p, perm), p.Dim() - 1;
    DenoteAt(R, p', row', c);
    var src := Unpermute(perm, row' + [c]);
    UnpermuteInShape(perm, p.Shape(), row' + [c]);
    FixedLast(perm, row' + [c], row' + [c]);
    SplitIndex(p, src);
    assert src == src[..n] + [c];
    DenoteAt(R, p, src[..n], c);
    forall j | 0 <= j < p.Rank() ensures Term(R, p, src[..n], c, j) == Term(R, p', row', c, j) {
      PermutedTerm(R, p, perm, src[..n], row', c, j);
    }
    SameContract(R, p, src[..n], c, p', row', c, p.Rank());
  }

  lemma PermutedDenotes<T>(R: Arith<T>, p: Pair<T>, perm: seq<nat>)
    requires FlatA(p) && IsPermutation(perm) && |perm| == p.Dim() && perm[p.Dim() - 1] == p.Dim() - 1
    ensures Denote(R, PermutedB(p, perm)) == PermuteAxes(Denote(R, p), perm)
  {
    hide At, Ravel, Prod, Contract, Term, Denote, PermuteAxes;
    forall idx | InShape(idx, PermShape(perm, p.Shape()))
      ensures At(Denote(R, PermutedB(p, perm)), idx) == At(PermuteAxes(Denote(R, p), perm), idx)
    {
      SplitIndex(PermutedB(p, perm), idx);
      PermutedElement(R, p, perm, idx[..p.Dim() - 1], idx[p.Dim() - 1]);
      assert idx == idx[..p.Dim() - 1] + [idx[p.Dim() - 1]];
    }
    Extensional(Denote(R, PermutedB(p, perm)), PermuteAxes(Denote(R, p), perm));
  }

  // Tensors agree when they agree at every row and column.
  lemma ExtensionalByRows<T>(p: Pair<T>, t: Tensor<T>, u: Tensor<T>)
    requires p.WellFormed() && t.Valid() && u.Valid() && t.shape == u.shape == p.Shape()
    requires forall row, c :: InRows(p, row, c) && InShape(row + [c], p.Shape()) ==>
                                At(t, row + [c]) == At(u, row + [c])
    ensures t == u
  {
    hide At, Ravel, Prod;
    forall idx | InShape(idx, t.shape) ensures At(t, idx) == At(u, idx) {
      SplitIndex(p, idx);
      var n := p.Dim() - 1;
      assert idx == idx[..n] + [idx[n]];
      assert InRows(p, idx[..n], idx[n]);
    }
    Extensional(t, u);
  }

  lemma NegativeWraps(dims: seq<int>, d: nat)
    requires forall k :: 0 <= k < |dims| ==> dims[k] < d
    ensures WrapAll(Negative(dims, d), d) == WrapAll(dims, d)
  {
    forall k | 0 <= k < |dims| ensures Wrap(Negative(dims, d)[k], d) == Wrap(dims[k], d) {
    }
    var r, r' := WrapAll(Negative(dims, d), d), WrapAll(dims, d);
    if r.Ok? {
      assert forall k :: 0 <= k < |dims| ==> Wrap(Negative(dims, d)[k], d).Ok?;
      assert r.value == r'.value;
    }
  }

  ghost predicate Commutes<T(!new)>(R: Arith<T>) {
    forall x, y :: R.times(x, y) == R.times(y, x)
  }

  lemma SwapAt<T>(t: Tensor<T>, i: nat, j: nat)
    requires t.Valid() && |t.shape| == 2 && IsPermutation([1, 0]) && j < t.shape[0] && i < t.shape[1]
    ensures InShape([i, j], PermuteAxes(t, [1, 0]).shape)
    ensures At(PermuteAxes(t, [1, 0]), [i, j]) == At(t, [j, i])
  {
    hide At, Ravel, Prod;
    assert Unpermute([1, 0], [i, j]) == [j, i];
    assert PermShape([1, 0], t.shape) == [t.shape[1], t.shape[0]];
  }

  lemma TransposedShapes<T>(p: Pair<T>, q: Pair<T>)
    requires p.WellFormed() && p.Dim() == 2 && IsPermutation([1, 0])
    requires q == Pair(PermuteAxes(p.B, [1, 0]), PermuteAxes(p.A, [1, 0]))
    ensures q.A.shape == [p.B.shape[1], p.B.shape[0]] && q.B.shape == [p.A.shape[1], p.A.shape[0]]
  {
    hide At, Ravel, Prod, PermuteAxes, Unpermute, IsPermutation, InShape;
  }

  lemma TransposedTerm<T(!new)>(R: Arith<T>, p: Pair<T>, q: Pair<T>, i: nat, c: nat, j: nat)
    requires Commutes(R) && p.WellFormed() && q.WellFormed() && p.Dim() == q.Dim() == 2
    requires IsPermutation([1, 0])
    requires q == Pair(PermuteAxes(p.B, [1, 0]), PermuteAxes(p.A, [1, 0]))
    requires InRows(q, [i], c) && InRows(p, [c], i) && j < p.Rank() == q.Rank()
    requires i < p.A.shape[1] && c < p.B.shape[0]
    ensures Term(R, q, [i], c, j) == Term(R, p, [c], i, j)
  {
    hide At, Ravel, Prod, Contract, Denote, PermuteAxes, Unpermute, IsPermutation, InShape, InRows;
    SwapAt(p.B, j, c);
    SwapAt(p.A, i, j);
    assert InA(q, [i], c, j) == [j, c] && InA(p, [c], i, j) == [j, i];
    assert [i] + [j] == [i, j] && [c] + [j] == [c, j];
  }

  lemma TransposedElement<T(!new)>(R: Arith<T>, p: Pair<T>, q: Pair<T>, i: nat, c: nat)
    requires Commutes(R) && p.WellFormed() && q.WellFormed() && p.Dim() == q.Dim() == 2
    requires IsPermutation([1, 0])
    requires q == Pair(PermuteAxes(p.B, [1, 0]), PermuteAxes(p.A, [1, 0]))
    requires i < p.A.shape[1] && c < p.B.shape[0]
    ensures InRows(q, [i], c) && InRows(p, [c], i)
    ensures Contract(R, q, [i], c, q.Rank()) == Contract(R, p, [c], i, p.Rank())
  {
    hide At, Ravel, Prod, Contract, Denote, PermuteAxes, Unpermute, IsPermutation, Term, PermShape;
    TransposedShapes(p, q);
    forall j | 0 <= j < p.Rank() ensures Term(R, q, [i], c, j) == Term(R, p, [c], i, j) {
      TransposedTerm(R, p, q, i, c, j);
    }
    SameContract(R, q, [i], c, p, [c], i, p.Rank());
  }

  lemma TransposedDenotes<T(!new)>(R: Arith<T>, p: Pair<T>, q: Pair<T>)
    requires Commutes(R) && p.WellFormed() && p.Dim() == 2
    requires IsPermutation([1, 0])
    requires q == Pair(PermuteAxes(p.B, [1, 0]), PermuteAxes(p.A, [1, 0]))
    ensures q.WellFormed() && Denote(R, q) == PermuteAxes(Denote(R, p), [1, 0])
  {
    hide At, Ravel, Prod, Contract, Denote, PermuteAxes, Term;
    var t := PermuteAxes(Denote(R, p), [1, 0]);
    assert PermShape([1, 0], p.B.shape) == [p.B.shape[1], p.B.shape[0]];
    assert PermShape([1, 0], p.A.shape) == [p.A.shape[1], p.A.shape[0]];
    assert PermShape([1, 0], p.Shape()) == [p.Shape()[1], p.Shape()[0]];
    assert t.shape == q.Shape();
    forall row, c | InRows(q, row, c) && InShape(row + [c], q.Shape())
      ensures At(Denote(R, q), row + [c]) == At(t, row + [c])
    {
      assert row == [row[0]];
      TransposedElement(R, p, q, row[0], c);
      DenoteAt(R, q, row, c);
      assert Unpermute([1, 0], row + [c]) == [c] + row;
      DenoteAt(R, p, [c], row[0]);
    }
    ExtensionalByRows(q, Denote(R, q), t);
  }

  predicate KeepsLast(dims: seq<int>, d: nat) {
    dims != [] && (dims[|dims| - 1] == -1 || dims[|dims| - 1] == d - 1)
  }

  // The two permutations the class accepts.
  lemma KeptLast<T>(p: Pair<T>, dims: seq<int>)
    requires Broadcasts(p) && PermutePair(p, dims).Ok?
    requires forall k :: 0 <= k < |dims| ==> dims[k] < p.Dim()
    requires |dims| > 0 && Negative(dims, p.Dim())[|dims| - 1] == -1
    ensures WrapAll(dims, p.Dim()).Ok?
    ensures var perm := WrapAll(dims, p.Dim()).value;
            && FlatA(p) && IsPermutation(perm) && |perm| == p.Dim() && perm[p.Dim() - 1] == p.Dim() - 1
            && PermutePair(p, dims).value == PermutedB(p, perm)
  {
    hide At, Ravel, Prod, PermuteAxes, IsPermutation, InShape;
    NegativeWraps(dims, p.Dim());
  }

  lemma SwappedLast<T>(p: Pair<T>, dims: seq<int>)
    requires Broadcasts(p) && PermutePair(p, dims).Ok?
    requires forall k :: 0 <= k < |dims| ==> dims[k] < p.Dim()
    requires |dims| > 0 && Negative(dims, p.Dim())[|dims| - 1] != -1
    ensures p.Dim() == 2 && WrapAll(dims, 2) == Ok([1, 0]) && IsPermutation([1, 0])
    ensures PermutePair(p, dims).value == Pair(PermuteAxes(p.B, [1, 0]), PermuteAxes(p.A, [1, 0]))
  {
    hide At, Ravel, Prod, PermuteAxes, IsPermutation, InShape;
    NegativeWraps(dims, p.Dim());
    assert WrapAll(dims, 2).value == [1, 0];
  }

  // permute: the product of the permuted pair is the permuted product.
  lemma PermuteHomomorphism<T(!new)>(R: Arith<T>, p: Pair<T>, dims: seq<int>)
    requires Broadcasts(p) && PermutePair(p, dims).Ok?
    requires forall k :: 0 <= k < |dims| ==> dims[k] < p.Dim()
    requires KeepsLast(dims, p.Dim()) || Commutes(R)
    ensures var q := PermutePair(p, dims).value;
            Broadcasts(q) && q.Rank() == p.Rank() && Permute(Denote(R, p), dims) == Ok(Denote(R, q))
  {
    hide At, Ravel, Prod, Contract, Denote, PermuteAxes, Term, IsPermutation, InShape, InRows, WrapAll;
    NotEmpty(p, dims);
    if Negative(dims, p.Dim())[|dims| - 1] == -1 {
      KeptLast(p, dims);
      PermutedDenotes(R, p, WrapAll(dims, p.Dim()).value);
    } else {
      SwappedLast(p, dims);
      TransposedDenotes(R, p, PermutePair(p, dims).value);
    }
  }

  lemma NotEmpty<T>(p: Pair<T>, dims: seq<int>)
    requires p.WellFormed() && PermutePair(p, dims).Ok?
    ensures |dims| > 0
  {
  }
}
