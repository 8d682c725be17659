// Dense tensors over any scalar type: a shape and its row-major data, with the torch operations
// (reshape, permute, indexing, stack, cat) that the converters call. A call that torch refuses
// returns Raised.
module Tensors {
  import opened Outcomes

  // ---------- shapes and multi-indices ----------

  function Prod(s: seq<nat>): nat {
    if s == [] then 1 else Prod(s[..|s| - 1]) * s[|s| - 1]
  }

  ghost predicate InShape(idx: seq<nat>, s: seq<nat>) {
    |idx| == |s| && forall k :: 0 <= k < |s| ==> idx[k] < s[k]
  }

  // Row-major position of a multi-index.
  function Ravel(s: seq<nat>, idx: seq<nat>): nat
    requires |idx| == |s|
  {
    if s == [] then 0 else Ravel(s[..|s| - 1], idx[..|s| - 1]) * s[|s| - 1] + idx[|s| - 1]
  }

  lemma QuotientInRange(q: nat, a: nat, b: nat)
    requires q < a * b
    ensures b > 0 && q / b < a && q % b < b
  {
  }

  lemma SmallMultiple(x: int, b: int)
    requires 0 - b < x * b < b
    ensures x == 0
  {
    if b > 0 {
      assert x <= -1 ==> x * b <= (-1) * b;
      assert x >= 1 ==> x * b >= 1 * b;
    }
  }

  lemma QuotientOf(a: nat, b: nat, r: nat)
    requires r < b
    ensures (a * b + r) / b == a && (a * b + r) % b == r
  {
    var d, m := (a * b + r) / b, (a * b + r) % b;
    assert d * b + m == a * b + r;
    assert (d - a) * b == d * b - a * b;
    SmallMultiple(d - a, b);
  }

  lemma RowBound(p: nat, m: nat, j: nat, n: nat)
    requires p < m && j < n
    ensures p * n + j < m * n
  {
    assert (p + 1) * n <= m * n;
    assert (p + 1) * n == p * n + n;
  }

  // The multi-index at a row-major position.
  function Unravel(s: seq<nat>, q: nat): (idx: seq<nat>)
    requires q < Prod(s)
    ensures InShape(idx, s)
  {
    if s == [] then [] else
      QuotientInRange(q, Prod(s[..|s| - 1]), s[|s| - 1]);
      Unravel(s[..|s| - 1], q / s[|s| - 1]) + [q % s[|s| - 1]]
  }

  lemma {:induction false} RavelInRange(s: seq<nat>, idx: seq<nat>)
    requires InShape(idx, s)
    ensures Ravel(s, idx) < Prod(s)
  {
    if s != [] {
      var n := |s| - 1;
      RavelInRange(s[..n], idx[..n]);
      RowBound(Ravel(s[..n], idx[..n]), Prod(s[..n]), idx[n], s[n]);
    }
  }

  lemma {:induction false} UnravelRavel(s: seq<nat>, idx: seq<nat>)
    requires InShape(idx, s)
    ensures Ravel(s, idx) < Prod(s) && Unravel(s, Ravel(s, idx)) == idx
  {
    RavelInRange(s, idx);
    if s != [] {
      var n := |s| - 1;
      UnravelRavel(s[..n], idx[..n]);
      QuotientOf(Ravel(s[..n], idx[..n]), s[n], idx[n]);
    }
  }

  lemma {:induction false} RavelUnravel(s: seq<nat>, q: nat)
    requires q < Prod(s)
    ensures Ravel(s, Unravel(s, q)) == q
  {
    if s != [] {
      var n := |s| - 1;
      QuotientInRange(q, Prod(s[..n]), s[n]);
      RavelUnravel(s[..n], q / s[n]);
      var idx := Unravel(s, q);
      assert idx[..n] == Unravel(s[..n], q / s[n]);
      assert idx[n] == q % s[n];
    }
  }

  lemma ProdLast(s: seq<nat>, n: nat)
    ensures Prod(s + [n]) == Prod(s) * n
  {
    assert (s + [n])[..|s|] == s;
  }

  lemma ProdOne(N: nat)
    ensures Prod([N]) == N
  {
    assert [] + [N] == [N];
    ProdLast([], N);
  }

  lemma Prod4(a: nat, b: nat, c: nat, d: nat)
    ensures Prod([a, b, c, d]) == a * b * c * d
    ensures Prod([a, b, c]) == a * b * c
    ensures Prod([a, b]) == a * b
  {
    assert [a, b, c, d] == [a, b, c] + [d] && [a, b, c] == [a, b] + [c] && [a, b] == [a] + [b] && [a] == [] + [a];
    ProdLast([], a);
    ProdLast([a], b);
    ProdLast([a, b], c);
    ProdLast([a, b, c], d);
  }

  lemma RavelLast(s: seq<nat>, row: seq<nat>, n: nat, c: nat)
    requires |row| == |s|
    ensures Ravel(s + [n], row + [c]) == Ravel(s, row) * n + c
  {
    assert (s + [n])[..|s|] == s && (row + [c])[..|s|] == row;
  }

  // A shape and an index in two parts.
  lemma {:induction false} ProdParts(s: seq<nat>, rest: seq<nat>)
    ensures Prod(s + rest) == Prod(s) * Prod(rest)
    decreases |rest|
  {
    if rest == [] {
      assert s + rest == s;
    } else {
      var n := |rest| - 1;
      ProdParts(s, rest[..n]);
      assert (s + rest)[..|s| + n] == s + rest[..n];
      Associate(Prod(s), Prod(rest[..n]), rest[n]);
    }
  }

  lemma Associate(a: nat, b: nat, c: nat)
    ensures (a * b) * c == a * (b * c)
  {
  }

  lemma {:induction false} RavelParts(s: seq<nat>, i: seq<nat>, rest: seq<nat>, c: seq<nat>)
    requires |s| == |i| && |rest| == |c|
    ensures Ravel(s + rest, i + c) == Ravel(s, i) * Prod(rest) + Ravel(rest, c)
    decreases |rest|
  {
    hide Ravel, Prod;
    if rest == [] {
      assert s + rest == s && i + c == i;
      NoParts();
    } else {
      var n := |rest| - 1;
      RavelParts(s, i, rest[..n], c[..n]);
      assert s + rest == (s + rest[..n]) + [rest[n]] && i + c == (i + c[..n]) + [c[n]];
      assert rest == rest[..n] + [rest[n]] && c == c[..n] + [c[n]];
      RavelLast(s + rest[..n], i + c[..n], rest[n], c[n]);
      RavelLast(rest[..n], c[..n], rest[n], c[n]);
      ProdLast(rest[..n], rest[n]);
      Distribute(Ravel(s, i), Prod(rest[..n]), Ravel(rest[..n], c[..n]), rest[n]);
    }
  }

  lemma NoParts()
    ensures Prod([]) == 1 && Ravel([], []) == 0
  {
  }

  lemma Distribute(a: nat, b: nat, r: nat, n: nat)
    ensures (a * b + r) * n == a * (b * n) + r * n
  {
    Associate(a, b, n);
  }

  lemma InShapeParts(i: seq<nat>, s: seq<nat>, c: seq<nat>, rest: seq<nat>)
    requires InShape(i, s) && InShape(c, rest)
    ensures InShape(i + c, s + rest)
  {
  }

  lemma Ravel2(s: seq<nat>, i: seq<nat>)
    requires |s| == |i| == 2
    ensures Ravel(s, i) == i[0] * s[1] + i[1]
  {
    RavelLast([s[0]], [i[0]], s[1], i[1]);
    assert s == [s[0]] + [s[1]] && i == [i[0]] + [i[1]];
    RavelLast([], [], s[0], i[0]);
    assert [s[0]] == [] + [s[0]] && [i[0]] == [] + [i[0]];
  }

  lemma Ravel3(s: seq<nat>, i: seq<nat>)
    requires |s| == |i| == 3
    ensures Ravel(s, i) == (i[0] * s[1] + i[1]) * s[2] + i[2]
  {
    RavelLast([s[0], s[1]], [i[0], i[1]], s[2], i[2]);
    assert s == [s[0], s[1]] + [s[2]] && i == [i[0], i[1]] + [i[2]];
    Ravel2([s[0], s[1]], [i[0], i[1]]);
  }

  lemma Ravel4(s: seq<nat>, i: seq<nat>)
    requires |s| == |i| == 4
    ensures Ravel(s, i) == ((i[0] * s[1] + i[1]) * s[2] + i[2]) * s[3] + i[3]
  {
    RavelLast([s[0], s[1], s[2]], [i[0], i[1], i[2]], s[3], i[3]);
    assert s == [s[0], s[1], s[2]] + [s[3]] && i == [i[0], i[1], i[2]] + [i[3]];
    Ravel3([s[0], s[1], s[2]], [i[0], i[1], i[2]]);
  }

  lemma InShapeApart(u: seq<nat>, s: seq<nat>, n: nat)
    requires InShape(u, s + [n])
    ensures |u| > 0 && u == u[..|u| - 1] + [u[|u| - 1]] && InShape(u[..|u| - 1], s) && u[|u| - 1] < n
  {
    var m := |u| - 1;
    assert (s + [n])[m] == n;
    assert forall k :: 0 <= k < m ==> (s + [n])[k] == s[k];
  }

  lemma LastApart<T>(s: seq<T>)
    requires s != []
    ensures s == s[..|s| - 1] + [s[|s| - 1]]
  {
  }

  // ---------- tensors ----------

  datatype Tensor<T> = Tensor(shape: seq<nat>, data: seq<T>) {
    ghost predicate Valid() {
      |data| == Prod(shape)
    }
  }

  ghost function At<T>(t: Tensor<T>, idx: seq<nat>): T
    requires t.Valid() && InShape(idx, t.shape)
  {
    RavelInRange(t.shape, idx);
    t.data[Ravel(t.shape, idx)]
  }

  // The tensor of a given shape whose element at idx is f(idx).
  ghost function Build<T>(s: seq<nat>, f: seq<nat> --> T): (t: Tensor<T>)
    requires forall idx :: InShape(idx, s) ==> f.requires(idx)
    ensures t.Valid() && t.shape == s
    ensures forall idx {:trigger At(t, idx)} :: InShape(idx, s) ==> At(t, idx) == f(idx)
  {
    var t := Tensor(s, seq(Prod(s), q requires 0 <= q < Prod(s) => f(Unravel(s, q))));
    assert forall idx :: InShape(idx, s) ==> At(t, idx) == f(idx) by {
      forall idx | InShape(idx, s) ensures At(t, idx) == f(idx) {
        UnravelRavel(s, idx);
      }
    }
    t
  }

  // Two tensors of one shape with the same elements are equal.
  lemma Extensional(t: Tensor, u: Tensor)
    requires t.Valid() && u.Valid() && t.shape == u.shape
    requires forall idx :: InShape(idx, t.shape) ==> At(t, idx) == At(u, idx)
    ensures t == u
  {
    forall q | 0 <= q < |t.data| ensures t.data[q] == u.data[q] {
      var idx := Unravel(t.shape, q);
      RavelUnravel(t.shape, q);
      assert At(t, idx) == At(u, idx);
    }
    assert t.data == u.data;
  }

  // ---------- reshape ----------

  // Product of the dimensions that are given, -1 standing for one to be inferred.
  function Known(dims: seq<int>): int {
    if dims == [] then 1
    else Known(dims[..|dims| - 1]) * (if dims[|dims| - 1] == -1 then 1 else dims[|dims| - 1])
  }

  function Fill(dims: seq<int>, v: int): (r: seq<int>)
    ensures |r| == |dims|
    ensures forall k :: 0 <= k < |dims| ==> r[k] == if dims[k] == -1 then v else dims[k]
  {
    seq(|dims|, k requires 0 <= k < |dims| => if dims[k] == -1 then v else dims[k])
  }

  function AsNats(dims: seq<int>): Result<seq<nat>> {
    if forall k :: 0 <= k < |dims| ==> dims[k] >= 0 then Ok(dims) else Raised
  }

  predicate InfersAtMostOne(dims: seq<int>) {
    forall i, j :: 0 <= i < j < |dims| ==> dims[i] != -1 || dims[j] != -1
  }

  // The shape torch understands by dims for a tensor of numel elements.
  function ResolveDims(dims: seq<int>, numel: nat): Result<seq<nat>> {
    if -1 in dims then
      if InfersAtMostOne(dims) && Known(dims) > 0 && numel % Known(dims) == 0
      then AsNats(Fill(dims, numel / Known(dims)))
      else Raised
    else AsNats(dims)
  }

  function Reshape(t: Tensor, dims: seq<int>): Result<Tensor> {
    var s :- ResolveDims(dims, Prod(t.shape));
    if Prod(s) == Prod(t.shape) then Ok(Tensor(s, t.data)) else Raised
  }

  lemma PlainDims(dims: seq<nat>, numel: nat)
    ensures ResolveDims(dims, numel) == Ok(dims)
  {
    assert -1 !in dims;
  }

  lemma ReshapeTo<T>(t: Tensor<T>, s: seq<nat>)
    requires t.Valid()
    ensures Reshape(t, s) == if Prod(s) == Prod(t.shape) then Ok(Tensor(s, t.data)) else Raised
    ensures Prod(s) == Prod(t.shape) ==> Tensor(s, t.data).Valid()
  {
    PlainDims(s, Prod(t.shape));
  }

  // ---------- permute and transpose ----------

  // Python's reading of a possibly negative index into a sequence of length d.
  function Wrap(i: int, d: nat): Result<nat> {
    if 0 <= i < d then Ok(i) else if 0 <= i + d < d then Ok(i + d) else Raised
  }

  function WrapAll(entries: seq<int>, d: nat): (r: Result<seq<nat>>)
    ensures r.Ok? <==> forall k :: 0 <= k < |entries| ==> Wrap(entries[k], d).Ok?
    ensures r.Ok? ==> |r.value| == |entries|
                      && forall k :: 0 <= k < |entries| ==> r.value[k] == Wrap(entries[k], d).value && r.value[k] < d
  {
    if forall k :: 0 <= k < |entries| ==> Wrap(entries[k], d).Ok?
    then Ok(seq(|entries|, k requires 0 <= k < |entries| => Wrap(entries[k], d).value))
    else Raised
  }

  ghost predicate IsPermutation(p: seq<nat>) {
    && (forall k :: 0 <= k < |p| ==> p[k] < |p|)
    && (forall a: nat {:trigger a in p} :: a < |p| ==> a in p)
    && (forall i, j :: 0 <= i < j < |p| ==> p[i] != p[j])
  }

  function Pos(p: seq<nat>, a: nat): (k: nat)
    requires a in p
    ensures k < |p| && p[k] == a
  {
    if p[0] == a then 0 else 1 + Pos(p[1..], a)
  }

  // The source multi-index: its entry p[k] is idx[k].
  ghost function Unpermute(p: seq<nat>, idx: seq<nat>): (src: seq<nat>)
    requires IsPermutation(p) && |idx| == |p|
    ensures |src| == |p|
  {
    seq(|p|, a requires 0 <= a < |p| => idx[Pos(p, a)])
  }

  lemma UnpermuteMeans(p: seq<nat>, idx: seq<nat>, k: nat)
    requires IsPermutation(p) && |idx| == |p| && k < |p|
    ensures Unpermute(p, idx)[p[k]] == idx[k]
  {
    var q := Pos(p, p[k]);
    assert q == k;
  }

  ghost function PermShape(p: seq<nat>, s: seq<nat>): seq<nat>
    requires IsPermutation(p) && |s| == |p|
  {
    seq(|p|, k requires 0 <= k < |p| => s[p[k]])
  }

  lemma UnpermuteInShape(p: seq<nat>, s: seq<nat>, idx: seq<nat>)
    requires IsPermutation(p) && |s| == |p| && InShape(idx, PermShape(p, s))
    ensures InShape(Unpermute(p, idx), s)
  {
    forall a | 0 <= a < |p| ensures Unpermute(p, idx)[a] < s[a] {
      assert idx[Pos(p, a)] < PermShape(p, s)[Pos(p, a)];
    }
  }

  ghost function PermuteAxes(t: Tensor, p: seq<nat>): (r: Tensor)
    requires t.Valid() && IsPermutation(p) && |p| == |t.shape|
    ensures r.Valid() && r.shape == PermShape(p, t.shape)
    ensures forall idx {:trigger At(r, idx)} :: InShape(idx, r.shape) ==>
                            InShape(Unpermute(p, idx), t.shape) && At(r, idx) == At(t, Unpermute(p, idx))
  {
    assert forall idx :: InShape(idx, PermShape(p, t.shape)) ==> InShape(Unpermute(p, idx), t.shape) by {
      forall idx | InShape(idx, PermShape(p, t.shape)) ensures InShape(Unpermute(p, idx), t.shape) {
        UnpermuteInShape(p, t.shape, idx);
      }
    }
    Build(PermShape(p, t.shape), idx requires InShape(idx, PermShape(p, t.shape)) => At(t, Unpermute(p, idx)))
  }

  ghost function Permute(t: Tensor, dims: seq<int>): Result<Tensor>
    requires t.Valid()
  {
    var p :- WrapAll(dims, |t.shape|);
    if |p| == |t.shape| && IsPermutation(p) then Ok(PermuteAxes(t, p)) else Raised
  }

  function Swapped(n: nat, i: nat, j: nat): (p: seq<nat>)
    requires i < n && j < n
    ensures |p| == n
    ensures forall k :: 0 <= k < n ==> p[k] == if k == i then j else if k == j then i else k
  {
    seq(n, k requires 0 <= k < n => if k == i then j else if k == j then i else k)
  }

  ghost function Transpose(t: Tensor, dim0: int, dim1: int): Result<Tensor>
    requires t.Valid()
  {
    var i :- Wrap(dim0, |t.shape|);
    var j :- Wrap(dim1, |t.shape|);
    Permute(t, Swapped(|t.shape|, i, j))
  }

  // ---------- indexing ----------

  datatype Index =
    | Int(i: int)
    | Slice(start: Option<int>, stop: Option<int>, step: Option<int>)
    | List(entries: seq<int>)
    | Ellipsis

  const FULL := Slice(None, None, None)

  // What an index selects along its axis: one position, dropping the axis, or a run of positions.
  datatype Axis = Fixed(at: nat) | Along(picks: seq<nat>)

  function Clamp(i: int, d: nat): (r: nat)
    ensures r <= d
  {
    var j := if i < 0 then i + d else i;
    if j < 0 then 0 else if j > d then d else j
  }

  function SlicePicks(lo: nat, hi: nat, step: nat): (r: seq<nat>)
    requires step > 0
    ensures forall k :: 0 <= k < |r| ==> lo <= r[k] < hi
    ensures forall k :: 0 <= k < |r| - 1 ==> r[k + 1] == r[k] + step
    ensures |r| > 0 ==> r[0] == lo
    ensures |r| > 0 ==> r[|r| - 1] + step >= hi
    ensures lo < hi ==> |r| > 0
    decreases hi - lo
  {
    if hi <= lo then [] else
      var rest := SlicePicks(lo + step, hi, step);
      [lo] + rest
  }

  function ResolveIndex(x: Index, d: nat): Result<Axis> {
    match x
    case Int(i) =>
      var at :- Wrap(i, d);
      Ok(Fixed(at))
    case Slice(start, stop, step) =>
      var s := if step.None? then 1 else step.value;
      if s <= 0 then Raised else
        var lo := if start.None? then 0 else Clamp(start.value, d);
        var hi := if stop.None? then d else Clamp(stop.value, d);
        Ok(Along(SlicePicks(lo, hi, s)))
    case List(entries) =>
      var ps :- WrapAll(entries, d);
      Ok(Along(ps))
    case Ellipsis => Raised
  }

  function ResolveIndices(xs: seq<Index>, s: seq<nat>): (r: Result<seq<Axis>>)
    requires |xs| == |s|
    ensures r.Ok? <==> forall k :: 0 <= k < |s| ==> ResolveIndex(xs[k], s[k]).Ok?
    ensures r.Ok? ==> |r.value| == |s|
    ensures r.Ok? ==> forall k :: 0 <= k < |s| ==> r.value[k] == ResolveIndex(xs[k], s[k]).value
  {
    if forall k :: 0 <= k < |s| ==> ResolveIndex(xs[k], s[k]).Ok?
    then Ok(seq(|s|, k requires 0 <= k < |s| => ResolveIndex(xs[k], s[k]).value))
    else Raised
  }

  ghost predicate AxisFits(x: Axis, d: nat) {
    match x
    case Fixed(at) => at < d
    case Along(picks) => forall k :: 0 <= k < |picks| ==> picks[k] < d
  }

  ghost predicate AxesFit(xs: seq<Axis>, s: seq<nat>) {
    |xs| == |s| && forall k :: 0 <= k < |s| ==> AxisFits(xs[k], s[k])
  }

  lemma ResolvedFits(x: Index, d: nat)
    requires ResolveIndex(x, d).Ok?
    ensures AxisFits(ResolveIndex(x, d).value, d)
  {
  }

  function AxisShape(xs: seq<Axis>): seq<nat> {
    if xs == [] then [] else
      AxisShape(xs[..|xs| - 1])
      + match xs[|xs| - 1] { case Fixed(_) => [] case Along(picks) => [|picks|] }
  }

  // The source multi-index behind a multi-index of the selection.
  ghost function Source(xs: seq<Axis>, idx: seq<nat>): (src: seq<nat>)
    requires InShape(idx, AxisShape(xs))
    ensures |src| == |xs|
  {
    if xs == [] then [] else
      var n := |xs| - 1;
      match xs[n]
      case Fixed(at) => Source(xs[..n], idx) + [at]
      case Along(picks) =>
        assert AxisShape(xs)[..|idx| - 1] == AxisShape(xs[..n]);
        Source(xs[..n], idx[..|idx| - 1]) + [picks[idx[|idx| - 1]]]
  }

  lemma {:induction false} SourceInShape(xs: seq<Axis>, s: seq<nat>, idx: seq<nat>)
    requires AxesFit(xs, s) && InShape(idx, AxisShape(xs))
    ensures InShape(Source(xs, idx), s)
  {
    hide Prod, Ravel;
    if xs != [] {
      var n := |xs| - 1;
      assert AxisFits(xs[n], s[n]);
      match xs[n]
      case Fixed(_) => SourceInShape(xs[..n], s[..n], idx);
      case Along(_) =>
        assert AxisShape(xs)[..|idx| - 1] == AxisShape(xs[..n]);
        SourceInShape(xs[..n], s[..n], idx[..|idx| - 1]);
    }
  }

  lemma AxisShapeLast(xs: seq<Axis>, picks: seq<nat>)
    ensures AxisShape(xs + [Along(picks)]) == AxisShape(xs) + [|picks|]
  {
    assert (xs + [Along(picks)])[..|xs|] == xs;
  }

  lemma AxisShapeFixed(xs: seq<Axis>, x: Axis)
    requires x.Fixed?
    ensures AxisShape(xs + [x]) == AxisShape(xs)
  {
    assert (xs + [x])[..|xs|] == xs;
  }

  lemma NoAxes()
    ensures AxisShape([]) == []
  {
  }

  lemma AxesFitLast(xs: seq<Axis>, s: seq<nat>, x: Axis, d: nat)
    requires AxesFit(xs, s) && AxisFits(x, d)
    ensures AxesFit(xs + [x], s + [d])
  {
    hide AxisFits;
  }

  lemma SourceLast(xs: seq<Axis>, idx: seq<nat>, picks: seq<nat>, i: nat)
    requires InShape(idx, AxisShape(xs)) && i < |picks|
    ensures InShape(idx + [i], AxisShape(xs + [Along(picks)]))
    ensures Source(xs + [Along(picks)], idx + [i]) == Source(xs, idx) + [picks[i]]
  {
    AxisShapeLast(xs, picks);
    assert (xs + [Along(picks)])[..|xs|] == xs && (idx + [i])[..|idx|] == idx;
  }

  lemma SourceFixed(xs: seq<Axis>, at: nat, idx: seq<nat>)
    requires InShape(idx, AxisShape(xs))
    ensures AxisShape(xs + [Fixed(at)]) == AxisShape(xs)
    ensures Source(xs + [Fixed(at)], idx) == Source(xs, idx) + [at]
  {
    assert (xs + [Fixed(at)])[..|xs|] == xs;
  }

  lemma NothingInShape()
    ensures InShape([], AxisShape([]))
  {
  }

  lemma SourceNone()
    ensures Source([], []) == []
  {
  }

  ghost function Select(t: Tensor, xs: seq<Axis>): (r: Tensor)
    requires t.Valid() && AxesFit(xs, t.shape)
    ensures r.Valid() && r.shape == AxisShape(xs)
    ensures forall idx {:trigger At(r, idx)} :: InShape(idx, r.shape) ==>
                            InShape(Source(xs, idx), t.shape) && At(r, idx) == At(t, Source(xs, idx))
  {
    assert forall idx :: InShape(idx, AxisShape(xs)) ==> InShape(Source(xs, idx), t.shape) by {
      forall idx | InShape(idx, AxisShape(xs)) ensures InShape(Source(xs, idx), t.shape) {
        SourceInShape(xs, t.shape, idx);
      }
    }
    Build(AxisShape(xs), idx requires InShape(idx, AxisShape(xs)) => At(t, Source(xs, idx)))
  }

  function Fulls(n: int): (r: seq<Index>)
    ensures |r| == if n > 0 then n else 0
    ensures forall k :: 0 <= k < |r| ==> r[k] == FULL
  {
    if n <= 0 then [] else seq(n, _ => FULL)
  }

  // torch: one ellipsis stands for as many full slices as bring the tuple to the tensor's rank.
  function ExpandEllipsis(xs: seq<Index>, rank: nat): Result<seq<Index>> {
    if Ellipsis !in xs then
      if |xs| <= rank then Ok(xs + Fulls(rank - |xs|)) else Raised
    else
      var k := FirstEllipsis(xs);
      if Ellipsis in xs[k + 1..] || |xs| - 1 > rank then Raised
      else Ok(xs[..k] + Fulls(rank - (|xs| - 1)) + xs[k + 1..])
  }

  function FirstEllipsis(xs: seq<Index>): (k: nat)
    requires Ellipsis in xs
    ensures k < |xs| && xs[k] == Ellipsis && Ellipsis !in xs[..k]
  {
    if xs[0] == Ellipsis then 0 else
      assert Ellipsis in xs[1..];
      var k := FirstEllipsis(xs[1..]);
      assert xs[..1 + k] == [xs[0]] + xs[1..][..k];
      1 + k
  }

  predicate AtMostOneList(xs: seq<Index>) {
    forall i, j :: 0 <= i < j < |xs| ==> !xs[i].List? || !xs[j].List?
  }

  // Indexing by one index per axis. Two or more lists are zipped by torch; that form is not
  // modelled and counts as refused.
  ghost function SelectBy(t: Tensor, xs: seq<Index>): Result<Tensor>
    requires t.Valid() && |xs| == |t.shape|
  {
    var axes :- ResolveIndices(xs, t.shape);
    if AtMostOneList(xs) && AxesFit(axes, t.shape) then Ok(Select(t, axes)) else Raised
  }

  ghost function GetTuple(t: Tensor, xs: seq<Index>): Result<Tensor>
    requires t.Valid()
  {
    var full :- ExpandEllipsis(xs, |t.shape|);
    if |full| == |t.shape| then SelectBy(t, full) else Raised
  }

  // ---------- stack and cat along dimension 0 ----------

  ghost function Stack(ts: seq<Tensor>): (r: Result<Tensor>)
    requires forall t :: t in ts ==> t.Valid()
    ensures r.Ok? <==> ts != [] && forall t :: t in ts ==> t.shape == ts[0].shape
    ensures r.Ok? ==> r.value.Valid() && r.value.shape == [|ts|] + ts[0].shape
    ensures r.Ok? ==> forall idx {:trigger At(r.value, idx)} :: InShape(idx, r.value.shape) ==>
                                      InShape(idx[1..], ts[idx[0]].shape) && At(r.value, idx) == At(ts[idx[0]], idx[1..])
  {
    if ts != [] && forall t :: t in ts ==> t.shape == ts[0].shape then
      var s := [|ts|] + ts[0].shape;
      assert forall idx :: InShape(idx, s) ==> idx[0] < s[0] && InShape(idx[1..], s[1..]);
      Ok(Build(s, idx requires InShape(idx, s) => At(ts[idx[0]], idx[1..])))
    else Raised
  }

  function Sum(hs: seq<nat>): nat {
    if hs == [] then 0 else hs[0] + Sum(hs[1..])
  }

  // Which piece, and where in it, row i of the concatenation of pieces of heights hs comes from.
  function Locate(hs: seq<nat>, i: nat): (r: (nat, nat))
    requires i < Sum(hs)
    ensures r.0 < |hs| && r.1 < hs[r.0]
  {
    if i < hs[0] then (0, i) else
      var r := Locate(hs[1..], i - hs[0]);
      (r.0 + 1, r.1)
  }

  ghost function Heights(ts: seq<Tensor>): (hs: seq<nat>)
    requires forall t :: t in ts ==> |t.shape| > 0
    ensures |hs| == |ts|
    ensures forall k :: 0 <= k < |ts| ==> hs[k] == ts[k].shape[0]
  {
    seq(|ts|, k requires 0 <= k < |ts| => ts[k].shape[0])
  }

  ghost predicate Stackable(ts: seq<Tensor>) {
    ts != [] && forall t :: t in ts ==> |t.shape| > 0 && |t.shape| == |ts[0].shape| && t.shape[1..] == ts[0].shape[1..]
  }

  ghost function CatSource(ts: seq<Tensor>, idx: seq<nat>): (r: (nat, seq<nat>))
    requires Stackable(ts)
    requires InShape(idx, [Sum(Heights(ts))] + ts[0].shape[1..])
    ensures r.0 < |ts| && InShape(r.1, ts[r.0].shape)
    ensures (r.0, r.1[0]) == Locate(Heights(ts), idx[0]) && r.1[1..] == idx[1..]
  {
    var s := [Sum(Heights(ts))] + ts[0].shape[1..];
    assert idx[0] < s[0];
    var (k, off) := Locate(Heights(ts), idx[0]);
    assert ts[k].shape[1..] == s[1..];
    assert forall j :: 1 <= j < |s| ==> ts[k].shape[j] == ts[k].shape[1..][j - 1] == s[j];
    (k, [off] + idx[1..])
  }

  ghost function Cat(ts: seq<Tensor>): (r: Result<Tensor>)
    requires forall t :: t in ts ==> t.Valid()
    ensures r.Ok? <==> Stackable(ts)
    ensures r.Ok? ==> r.value.Valid() && r.value.shape == [Sum(Heights(ts))] + ts[0].shape[1..]
    ensures r.Ok? ==> forall idx {:trigger At(r.value, idx)} :: InShape(idx, r.value.shape) ==>
                                      At(r.value, idx) == At(ts[CatSource(ts, idx).0], CatSource(ts, idx).1)
  {
    if Stackable(ts) then
      var s := [Sum(Heights(ts))] + ts[0].shape[1..];
      Ok(Build(s, idx requires InShape(idx, s) => At(ts[CatSource(ts, idx).0], CatSource(ts, idx).1)))
    else Raised
  }
}
