// Tensor programs, run on plain tensors and on pairs. Whatever program the converter runs on a
// pair, the pair it ends with denotes what the same program makes of the product.
module LoraPrograms {
  import opened Outcomes
  import opened Tensors
  import opened LoraPairs
  import opened LoraHomomorphism
  import opened LoraReshape
  import opened LoraGetItem
  import opened LoraStacking

  // A program over input tensors. The dimensions of a view may be computed from the current shape.
  datatype Program =
    | Input(i: nat)
    | View(e: Program, dims: seq<nat> -> seq<int>)
    | ViewAs(e: Program, like: Program)
    | PermuteBy(e: Program, order: seq<int>)
    | SwapAxes(e: Program, axis0: int, axis1: int)
    | AtInt(e: Program, at: int)
    | AtSlice(e: Program, cut: Index)
    | AtTuple(e: Program, xs: seq<Index>)
    | StackOf(es: seq<Program>)
    | CatOf(es: seq<Program>)

  // ---------- running a program on plain tensors ----------

  ghost function RunDense<T>(e: Program, env: seq<Tensor<T>>): (r: Result<Tensor<T>>)
    requires forall t :: t in env ==> t.Valid()
    ensures r.Ok? ==> r.value.Valid()
    decreases e, 0
  {
    match e
    case Input(i) => if i < |env| then Ok(env[i]) else Raised
    case View(e1, dims) =>
      var t :- RunDense(e1, env);
      Reshape(t, dims(t.shape))
    case ViewAs(e1, like) =>
      var t :- RunDense(e1, env);
      var u :- RunDense(like, env);
      Reshape(t, u.shape)
    case PermuteBy(e1, order) =>
      var t :- RunDense(e1, env);
      Permute(t, order)
    case SwapAxes(e1, axis0, axis1) =>
      var t :- RunDense(e1, env);
      Transpose(t, axis0, axis1)
    case AtInt(e1, at) =>
      var t :- RunDense(e1, env);
      GetTuple(t, [Int(at)])
    case AtSlice(e1, cut) =>
      var t :- RunDense(e1, env);
      GetTuple(t, [cut])
    case AtTuple(e1, xs) =>
      var t :- RunDense(e1, env);
      GetTuple(t, xs)
    case StackOf(es) =>
      var ts :- RunAllDense(es, env);
      Stack(ts)
    case CatOf(es) =>
      var ts :- RunAllDense(es, env);
      Cat(ts)
  }

  ghost function RunAllDense<T>(es: seq<Program>, env: seq<Tensor<T>>): (r: Result<seq<Tensor<T>>>)
    requires forall t :: t in env ==> t.Valid()
    ensures r.Ok? ==> forall t :: t in r.value ==> t.Valid()
    decreases es, 1
  {
    if es == [] then Ok([]) else
      var t :- RunDense(es[0], env);
      var ts :- RunAllDense(es[1..], env);
      Ok([t] + ts)
  }

  // ---------- running it on pairs ----------

  ghost function RunPair<T>(e: Program, env: seq<Pair<T>>): (r: Result<Pair<T>>)
    requires forall p :: p in env ==> p.WellFormed()
    ensures r.Ok? ==> r.value.WellFormed()
    decreases e, 0
  {
    hide ReshapePair, PermutePair, TransposePair, GetInt, GetSlice, GetMany, StackPairs, CatPairs;
    match e
    case Input(i) => if i < |env| then Ok(env[i]) else Raised
    case View(e1, dims) =>
      var p :- RunPair(e1, env);
      ReshapePair(p, dims(p.Shape()))
    case ViewAs(e1, like) =>
      var p :- RunPair(e1, env);
      var q :- RunPair(like, env);
      ReshapePair(p, q.Shape())
    case PermuteBy(e1, order) =>
      var p :- RunPair(e1, env);
      PermutePair(p, order)
    case SwapAxes(e1, axis0, axis1) =>
      var p :- RunPair(e1, env);
      TransposePair(p, axis0, axis1)
    case AtInt(e1, at) =>
      var p :- RunPair(e1, env);
      GetInt(p, at)
    case AtSlice(e1, cut) =>
      var p :- RunPair(e1, env);
      if cut.Slice? then GetSlice(p, cut) else Raised
    case AtTuple(e1, xs) =>
      var p :- RunPair(e1, env);
      GetMany(p, xs)
    case StackOf(es) =>
      var ps :- RunAllPairs(es, env);
      StackPairs(ps)
    case CatOf(es) =>
      var ps :- RunAllPairs(es, env);
      CatPairs(ps)
  }

  ghost function RunAllPairs<T>(es: seq<Program>, env: seq<Pair<T>>): (r: Result<seq<Pair<T>>>)
    requires forall p :: p in env ==> p.WellFormed()
    ensures r.Ok? ==> forall p :: p in r.value ==> p.WellFormed()
    decreases es, 1
  {
    if es == [] then Ok([]) else
      var p :- RunPair(es[0], env);
      var ps :- RunAllPairs(es[1..], env);
      Ok([p] + ps)
  }

  // ---------- the steps a run must avoid ----------

  // Every step of the run stays clear of the cases where the class departs from torch.
  ghost predicate Faithful<T(!new)>(R: Arith<T>, e: Program, env: seq<Pair<T>>)
    requires forall p :: p in env ==> p.WellFormed()
    decreases e, 0
  {
    match e
    case Input(_) => true
    case View(e1, dims) =>
      Faithful(R, e1, env)
      && (RunPair(e1, env).Ok? ==>
            var s := RunPair(e1, env).value.Shape();
            KeepsSize(dims(s), Prod(s)))
    case ViewAs(e1, like) =>
      Faithful(R, e1, env) && Faithful(R, like, env)
      && (RunPair(e1, env).Ok? && RunPair(like, env).Ok? ==>
            KeepsSize(RunPair(like, env).value.Shape(), Prod(RunPair(e1, env).value.Shape())))
    case PermuteBy(e1, order) =>
      Faithful(R, e1, env)
      && (RunPair(e1, env).Ok? ==>
            var d := RunPair(e1, env).value.Dim();
            (forall k :: 0 <= k < |order| ==> order[k] < d) && (KeepsLast(order, d) || Commutes(R)))
    case SwapAxes(e1, axis0, axis1) =>
      Faithful(R, e1, env)
      && (RunPair(e1, env).Ok? ==> SwapKeepsLast(axis0, axis1, RunPair(e1, env).value.Dim()) || Commutes(R))
    case AtInt(e1, at) => Faithful(R, e1, env)
    case AtSlice(e1, cut) =>
      Faithful(R, e1, env) && (RunPair(e1, env).Ok? ==> SlicesAlike(RunPair(e1, env).value, cut))
    case AtTuple(e1, xs) =>
      Faithful(R, e1, env)
      && (RunPair(e, env).Ok? ==>
            var p := RunPair(e1, env).value;
            var ys := NormalizeInPair(xs, p.Dim()).value;
            ReadsAsTorch(xs, p.Dim()) && IndexesFaithfully(p, ys) && SharesLeading(p, ys))
    case StackOf(es) => AllFaithful(R, es, env)
    case CatOf(es) =>
      AllFaithful(R, es, env)
      && (RunAllPairs(es, env).Ok? ==> CatsFaithfully(RunAllPairs(es, env).value))
  }

  ghost predicate AllFaithful<T(!new)>(R: Arith<T>, es: seq<Program>, env: seq<Pair<T>>)
    requires forall p :: p in env ==> p.WellFormed()
    decreases es, 1
  {
    es != [] ==> Faithful(R, es[0], env) && AllFaithful(R, es[1..], env)
  }

  predicate SwapKeepsLast(axis0: int, axis1: int, d: nat) {
    Wrap(axis0, d).Ok? && Wrap(axis1, d).Ok? ==>
      KeepsLast(Swapped(d, Wrap(axis0, d).value, Wrap(axis1, d).value), d)
  }

  // ---------- the homomorphism ----------

  lemma TransposeHomomorphism<T(!new)>(R: Arith<T>, p: Pair<T>, axis0: int, axis1: int)
    requires Broadcasts(p) && TransposePair(p, axis0, axis1).Ok?
    requires SwapKeepsLast(axis0, axis1, p.Dim()) || Commutes(R)
    ensures var q := TransposePair(p, axis0, axis1).value;
            Broadcasts(q) && q.Rank() == p.Rank() && Transpose(Denote(R, p), axis0, axis1) == Ok(Denote(R, q))
  {
    hide Denote, Prod, PermutePair, Permute;
    PermuteHomomorphism(R, p, Swapped(p.Dim(), Wrap(axis0, p.Dim()).value, Wrap(axis1, p.Dim()).value));
  }

  lemma {:induction false} ProgramHomomorphism<T(!new)>(R: Arith<T>, e: Program, env: seq<Pair<T>>)
    requires AllBroadcast(env) && RunPair(e, env).Ok? && Faithful(R, e, env)
    ensures Broadcasts(RunPair(e, env).value)
    ensures RunDense(e, Denotes(R, env)) == Ok(Denote(R, RunPair(e, env).value))
    decreases e, 0
  {
    hide Denote, Prod, Reshape, ReshapePair, Permute, PermutePair, Transpose, TransposePair, GetTuple, GetInt,
         GetSlice, GetMany, Stack, StackPairs, Cat, CatPairs, KeepsSize, KeepsLast, SwapKeepsLast, Commutes,
         ReadsAsTorch, IndexesFaithfully, SharesLeading, SlicesAlike, CatsFaithfully, NormalizeInPair, ExpandEllipsis;
    match e
    case Input(i) =>
      assert env[i] in env;
    case View(e1, dims) =>
      ProgramHomomorphism(R, e1, env);
      ReshapeHomomorphism(R, RunPair(e1, env).value, dims(RunPair(e1, env).value.Shape()));
    case ViewAs(e1, like) =>
      ProgramHomomorphism(R, e1, env);
      ProgramHomomorphism(R, like, env);
      ReshapeHomomorphism(R, RunPair(e1, env).value, RunPair(like, env).value.Shape());
    case PermuteBy(e1, order) =>
      ProgramHomomorphism(R, e1, env);
      PermuteHomomorphism(R, RunPair(e1, env).value, order);
    case SwapAxes(e1, axis0, axis1) =>
      ProgramHomomorphism(R, e1, env);
      TransposeHomomorphism(R, RunPair(e1, env).value, axis0, axis1);
    case AtInt(e1, at) =>
      ProgramHomomorphism(R, e1, env);
      GetIntHomomorphism(R, RunPair(e1, env).value, at);
    case AtSlice(e1, cut) =>
      ProgramHomomorphism(R, e1, env);
      GetSliceHomomorphism(R, RunPair(e1, env).value, cut);
    case AtTuple(e1, xs) =>
      ProgramHomomorphism(R, e1, env);
      GetManyHomomorphism(R, RunPair(e1, env).value, xs);
    case StackOf(es) =>
      AllHomomorphism(R, es, env);
      StackHomomorphism(R, RunAllPairs(es, env).value);
    case CatOf(es) =>
      AllHomomorphism(R, es, env);
      CatHomomorphism(R, RunAllPairs(es, env).value);
  }

  lemma {:induction false} AllHomomorphism<T(!new)>(R: Arith<T>, es: seq<Program>, env: seq<Pair<T>>)
    requires AllBroadcast(env) && RunAllPairs(es, env).Ok? && AllFaithful(R, es, env)
    ensures AllBroadcast(RunAllPairs(es, env).value)
    ensures RunAllDense(es, Denotes(R, env)) == Ok(Denotes(R, RunAllPairs(es, env).value))
    decreases es, 1
  {
    hide Denote, Prod, RunPair, RunDense, Faithful;
    if es != [] {
      ProgramHomomorphism(R, es[0], env);
      AllHomomorphism(R, es[1..], env);
      var p, ps := RunPair(es[0], env).value, RunAllPairs(es[1..], env).value;
      assert RunAllPairs(es, env).value == [p] + ps;
      assert Denotes(R, [p] + ps) == [Denote(R, p)] + Denotes(R, ps);
    }
  }
}
