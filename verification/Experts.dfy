// Merging the weights of a mixture of experts: the pieces of each layer are collected as they come and
// stacked when the layer is complete (convert_hf_to_gguf.py:1956-1988, 2022-2029).
module Experts {
  import opened Outcomes

  datatype Wid = W1 | W2 | W3

  const WIDS := [W1, W2, W3]

  // The names that the merge looks for, other names of experts, and all other tensors.
  datatype Name = Weight(layer: nat, expert: nat, wid: Wid) | OtherExpert(text: string) | Plain(text: string)

  datatype Piece<T> = Piece(bid: nat, name: Name, data: T)

  // A tensor that is passed on: a single one, or the stack over the experts.
  datatype Out<T> = Single(text: string, data: T) | Stacked(layer: nat, wid: Wid, slots: seq<T>)

  type Dict<T> = map<Name, T>

  function Expected(bid: nat, n: nat): set<Name> {
    set x: nat, w: Wid | x < n :: Weight(bid, x, w)
  }

  lemma InExpected(bid: nat, n: nat, name: Name)
    ensures name in Expected(bid, n) <==> name.Weight? && name.layer == bid && name.expert < n
  {
  }

  lemma {:induction false} ExpectedSize(bid: nat, n: nat)
    ensures |Expected(bid, n)| == 3 * n
  {
    if n > 0 {
      ExpectedSize(bid, n - 1);
      var last := {Weight(bid, n - 1, W1), Weight(bid, n - 1, W2), Weight(bid, n - 1, W3)};
      forall name: Name
        ensures name in Expected(bid, n) <==> name in Expected(bid, n - 1) + last
        ensures !(name in Expected(bid, n - 1) && name in last)
      {
        InExpected(bid, n, name);
        InExpected(bid, n - 1, name);
        if name.Weight? {
          assert name == Weight(name.layer, name.expert, name.wid);
          assert name.wid.W1? || name.wid.W2? || name.wid.W3?;
        }
      }
      assert Expected(bid, n) == Expected(bid, n - 1) + last;
      assert Expected(bid, n - 1) !! last;
    } else {
      assert Expected(bid, n) == {};
    }
  }

  // ---------- one piece ----------

  function Slots<T>(d: Dict<T>, bid: nat, n: nat, w: Wid): (r: seq<T>)
    requires Expected(bid, n) <= d.Keys
    ensures |r| == n
    ensures forall x: nat | x < n :: Weight(bid, x, w) in d && r[x] == d[Weight(bid, x, w)]
  {
    assert forall x: nat | x < n :: Weight(bid, x, w) in d by {
      forall x: nat | x < n
        ensures Weight(bid, x, w) in d
      {
        InExpected(bid, n, Weight(bid, x, w));
      }
    }
    seq(n, x requires 0 <= x < n => d[Weight(bid, x, w)])
  }

  function Stacks<T>(d: Dict<T>, bid: nat, n: nat): seq<Out<T>>
    requires Expected(bid, n) <= d.Keys
  {
    [Stacked(bid, W1, Slots(d, bid, n, W1)), Stacked(bid, W2, Slots(d, bid, n, W2)),
     Stacked(bid, W3, Slots(d, bid, n, W3))]
  }

  datatype Step<T> = Step(experts: Option<seq<Dict<T>>>, out: seq<Out<T>>)

  function Started<T>(experts: Option<seq<Dict<T>>>, blocks: nat): seq<Dict<T>> {
    if experts.Some? then experts.value else seq(blocks, i => map[])
  }

  function Feed<T>(experts: Option<seq<Dict<T>>>, blocks: nat, n: nat, p: Piece<T>): Result<Step<T>> {
    if p.name.Plain? then Ok(Step(experts, [Single(p.name.text, p.data)]))
    else
      var e := Started(experts, blocks);
      if p.bid >= |e| then Raised
      else
        var d := e[p.bid][p.name := p.data];
        if |d| < n * 3 then Ok(Step(Some(e[p.bid := d]), []))
        else if n == 0 || !(Expected(p.bid, n) <= d.Keys) then Raised
        else Ok(Step(Some(e[p.bid := d - Expected(p.bid, n)]), Stacks(d, p.bid, n)))
  }

  // The stacking loop has dealt with this name after w whole groups and x experts of the next.
  predicate Taken(name: Name, bid: nat, n: nat, w: nat, x: nat) {
    name.Weight? && name.layer == bid && name.expert < n &&
    var rank := match name.wid case W1 => 0 case W2 => 1 case W3 => 2;
    rank < w || (rank == w && name.expert < x)
  }

  class ExpertMerger<T> {
    const blocks: nat
    const n: nat
    var experts: Option<seq<Dict<T>>>

    constructor (blocks: nat, n: nat)
      ensures this.blocks == blocks && this.n == n && experts == None
    {
      this.blocks, this.n, experts := blocks, n, None;
    }

    method ModifyTensors(p: Piece<T>) returns (r: Result<seq<Out<T>>>)
      modifies this
      ensures var f := Feed(old(experts), blocks, n, p);
              if f.Ok? then r == Ok(f.value.out) && experts == f.value.experts else r.Raised?
    {
      if p.name.Plain? {
        return Ok([Single(p.name.text, p.data)]);
      }
      if experts.None? {
        experts := Some(seq(blocks, i => map[]));
      }
      var e := experts.value;
      if p.bid >= |e| {
        return Raised;
      }
      var full := e[p.bid][p.name := p.data];
      experts := Some(e[p.bid := full]);
      if |full| < n * 3 {
        return Ok([]);
      }
      r := MergeExperts(p.bid, full);
      if r.Ok? {
        assert experts.value == e[p.bid := full - Expected(p.bid, n)];
      }
    }

    // The loops that stack and delete the pieces of a layer.
    method MergeExperts(bid: nat, full: Dict<T>) returns (r: Result<seq<Out<T>>>)
      requires experts.Some? && bid < |experts.value| && experts.value[bid] == full
      modifies this
      ensures r.Ok? <==> n > 0 && Expected(bid, n) <= full.Keys
      ensures r.Ok? ==> r.value == Stacks(full, bid, n)
      ensures r.Ok? ==> experts == Some(old(experts).value[bid := full - Expected(bid, n)])
    {
      var tensors: seq<Out<T>> := [];
      var w := 0;
      while w < 3
        invariant w <= 3 && |tensors| == w
        invariant Others(old(experts), bid)
        invariant Remains(experts.value[bid], full, bid, w, 0)
        invariant forall k: nat | k < w :: StackOf(tensors[k], full, bid, WIDS[k])
        invariant w > 0 ==> n > 0
      {
        var datas := TakeGroup(bid, w, full);
        if datas.Raised? || |datas.value| == 0 {
          return Raised;
        }
        tensors := tensors + [Stacked(bid, WIDS[w], datas.value)];
        w := w + 1;
      }
      AllTaken(full, experts.value[bid], tensors, bid);
      r := Ok(tensors);
    }

    method TakeGroup(bid: nat, w: nat, ghost full: Dict<T>) returns (r: Result<seq<T>>)
      requires w < 3 && experts.Some? && bid < |experts.value|
      requires Remains(experts.value[bid], full, bid, w, 0)
      modifies this
      ensures r.Ok? ==> Others(old(experts), bid) && Remains(experts.value[bid], full, bid, w + 1, 0)
      ensures r.Ok? ==> |r.value| == n
      ensures r.Ok? ==> forall i: nat | i < n :: Weight(bid, i, WIDS[w]) in full && r.value[i] == full[Weight(bid, i, WIDS[w])]
      ensures r.Raised? ==> !(Expected(bid, n) <= full.Keys)
    {
      var datas: seq<T> := [];
      var x := 0;
      while x < n
        invariant x <= n && |datas| == x
        invariant Others(old(experts), bid)
        invariant Remains(experts.value[bid], full, bid, w, x)
        invariant forall i: nat | i < x :: Weight(bid, i, WIDS[w]) in full && datas[i] == full[Weight(bid, i, WIDS[w])]
      {
        var name := Weight(bid, x, WIDS[w]);
        var d := experts.value[bid];
        InExpected(bid, n, name);
        assert name in d <==> name in full;
        if name !in d {
          return Raised;
        }
        datas := datas + [d[name]];
        experts := Some(experts.value[bid := d - {name}]);
        x := x + 1;
      }
      r := Ok(datas);
    }

    ghost predicate Others(before: Option<seq<Dict<T>>>, bid: nat)
      reads this
    {
      && before.Some? && experts.Some? && bid < |before.value| == |experts.value|
      && experts.value == before.value[bid := experts.value[bid]]
    }

    ghost predicate Remains(d: Dict<T>, full: Dict<T>, bid: nat, w: nat, x: nat) {
      forall name: Name ::
        (name in d <==> name in full && !Taken(name, bid, n, w, x)) && (name in d ==> d[name] == full[name])
    }

    ghost predicate StackOf(o: Out<T>, full: Dict<T>, bid: nat, w: Wid) {
      o.Stacked? && o.layer == bid && o.wid == w && |o.slots| == n &&
      forall i: nat | i < n :: Weight(bid, i, w) in full && o.slots[i] == full[Weight(bid, i, w)]
    }

    lemma AllTaken(full: Dict<T>, d: Dict<T>, tensors: seq<Out<T>>, bid: nat)
      requires Remains(d, full, bid, 3, 0) && |tensors| == 3
      requires forall k: nat | k < 3 :: StackOf(tensors[k], full, bid, WIDS[k])
      ensures Expected(bid, n) <= full.Keys
      ensures d == full - Expected(bid, n) && tensors == Stacks(full, bid, n)
    {
      assert StackOf(tensors[0], full, bid, W1) && StackOf(tensors[1], full, bid, W2) && StackOf(tensors[2], full, bid, W3);
      forall name: Name
        ensures name in Expected(bid, n) ==> name in full
        ensures name in Expected(bid, n) <==> Taken(name, bid, n, 3, 0)
      {
        InExpected(bid, n, name);
        if name.Weight? && name.layer == bid && name.expert < n {
          assert name == Weight(bid, name.expert, name.wid);
          assert name.wid.W1? || name.wid.W2? || name.wid.W3?;
        }
      }
      assert tensors[0].slots == Slots(full, bid, n, W1);
      assert tensors[1].slots == Slots(full, bid, n, W2);
      assert tensors[2].slots == Slots(full, bid, n, W3);
    }

    // The check after the last tensor.
    method PrepareTensors() returns (r: Result<()>)
      ensures r.Raised? <==> Unprocessed(experts)
    {
      if experts.Some? {
        var i := 0;
        while i < |experts.value|
          invariant i <= |experts.value|
          invariant forall l: nat | l < i :: experts.value[l] == map[]
        {
          if |experts.value[i]| > 0 {
            return Raised;
          }
          i := i + 1;
        }
      }
      r := Ok(());
    }
  }

  predicate Unprocessed<T>(experts: Option<seq<Dict<T>>>) {
    experts.Some? && exists l: nat | l < |experts.value| :: experts.value[l] != map[]
  }

  // ---------- whole runs ----------

  datatype History<T> = History(experts: Option<seq<Dict<T>>>, outs: seq<seq<Out<T>>>)

  // The tensors of a model, in the order in which they come.
  function FeedAll<T>(blocks: nat, n: nat, ps: seq<Piece<T>>): (r: Result<History<T>>)
    ensures r.Ok? ==> |r.value.outs| == |ps|
    decreases |ps|
  {
    if ps == [] then Ok(History(None, []))
    else
      var h :- FeedAll(blocks, n, ps[..|ps| - 1]);
      var s :- Feed(h.experts, blocks, n, ps[|ps| - 1]);
      Ok(History(s.experts, h.outs + [s.out]))
  }

  // Every piece is an expected weight of its layer and comes once.
  predicate WellNamed<T>(blocks: nat, n: nat, p: Piece<T>) {
    p.name.Plain? || (p.bid < blocks && p.name in Expected(p.bid, n))
  }

  predicate Schedule<T>(blocks: nat, n: nat, ps: seq<Piece<T>>) {
    && (forall i: nat | i < |ps| :: WellNamed(blocks, n, ps[i]))
    && (forall i: nat, k: nat | i < k < |ps| && !ps[i].name.Plain? :: ps[i].name != ps[k].name)
  }

  // The pieces of a layer that have come.
  function Arrived<T>(ps: seq<Piece<T>>, l: nat): Dict<T>
    decreases |ps|
  {
    if ps == [] then map[]
    else
      var p, d := ps[|ps| - 1], Arrived(ps[..|ps| - 1], l);
      if !p.name.Plain? && p.bid == l then d[p.name := p.data] else d
  }

  // What is kept of a layer: its pieces, until all of them are there.
  predicate IsComplete<T>(ps: seq<Piece<T>>, l: nat, n: nat) {
    Expected(l, n) <= Arrived(ps, l).Keys
  }

  function Kept<T>(ps: seq<Piece<T>>, l: nat, n: nat): Dict<T> {
    if IsComplete(ps, l, n) then map[] else Arrived(ps, l)
  }

  lemma {:induction false} ArrivedKeys<T>(blocks: nat, n: nat, ps: seq<Piece<T>>, l: nat, name: Name)
    requires Schedule(blocks, n, ps)
    ensures name in Arrived(ps, l) <==> exists i: nat | i < |ps| :: ps[i].name == name && ps[i].bid == l && !name.Plain?
    ensures name in Arrived(ps, l) ==> name in Expected(l, n)
    decreases |ps|
  {
    if ps != [] {
      var m := |ps| - 1;
      ArrivedKeys(blocks, n, ps[..m], l, name);
      assert WellNamed(blocks, n, ps[m]);
      if i: nat :| i < m && ps[..m][i].name == name && ps[..m][i].bid == l && !name.Plain? {
        assert ps[i].name == name;
      }
    }
  }

  // ---------- the state between pieces ----------

  ghost predicate Holds<T(!new)>(experts: Option<seq<Dict<T>>>, blocks: nat, n: nat, ps: seq<Piece<T>>) {
    match experts
    case None => forall l: nat :: Arrived(ps, l) == map[]
    case Some(e) => |e| == blocks && forall l: nat | l < blocks :: e[l] == Kept(ps, l, n)
  }

  // The output of the last piece.
  function OutputOf<T>(n: nat, ps: seq<Piece<T>>): seq<Out<T>>
    requires ps != []
  {
    var p := ps[|ps| - 1];
    if p.name.Plain? then [Single(p.name.text, p.data)]
    else if IsComplete(ps, p.bid, n) then Stacks(Arrived(ps, p.bid), p.bid, n)
    else []
  }

  lemma ArrivedBounded<T>(blocks: nat, n: nat, ps: seq<Piece<T>>, l: nat)
    requires Schedule(blocks, n, ps)
    ensures Arrived(ps, l).Keys <= Expected(l, n)
    ensures |Arrived(ps, l)| < 3 * n <==> !IsComplete(ps, l, n)
    ensures IsComplete(ps, l, n) ==> Arrived(ps, l).Keys == Expected(l, n)
  {
    var keys := Arrived(ps, l).Keys;
    forall name | name in keys
      ensures name in Expected(l, n)
    {
      ArrivedKeys(blocks, n, ps, l, name);
    }
    ExpectedSize(l, n);
    SubsetSizes(keys, Expected(l, n));
  }

  lemma SubsetSizes<A>(a: set<A>, b: set<A>)
    requires a <= b
    ensures |a| <= |b| && (|a| == |b| <==> a == b)
  {
    assert b == a + (b - a) && a !! (b - a);
  }

  // A piece that is still to come has not arrived.
  lemma NextIsNew<T>(blocks: nat, n: nat, ps: seq<Piece<T>>)
    requires Schedule(blocks, n, ps) && ps != [] && !ps[|ps| - 1].name.Plain?
    ensures var p := ps[|ps| - 1];
            p.name !in Arrived(ps[..|ps| - 1], p.bid) && p.name in Expected(p.bid, n) && p.bid < blocks && n > 0
  {
    var p := ps[|ps| - 1];
    assert WellNamed(blocks, n, ps[|ps| - 1]);
    ArrivedKeys(blocks, n, ps[..|ps| - 1], p.bid, p.name);
    InExpected(p.bid, n, p.name);
  }

  lemma ScheduleOfPrefix<T>(blocks: nat, n: nat, ps: seq<Piece<T>>, k: nat)
    requires Schedule(blocks, n, ps) && k <= |ps|
    ensures Schedule(blocks, n, ps[..k])
  {
    forall i: nat | i < k
      ensures WellNamed(blocks, n, ps[..k][i])
    {
      assert WellNamed(blocks, n, ps[i]);
    }
  }

  lemma OtherLayers<T>(n: nat, ps: seq<Piece<T>>, l: nat)
    requires ps != [] && (ps[|ps| - 1].name.Plain? || ps[|ps| - 1].bid != l)
    ensures Arrived(ps, l) == Arrived(ps[..|ps| - 1], l) && Kept(ps, l, n) == Kept(ps[..|ps| - 1], l, n)
  {
  }

  lemma FeedKeeps<T(!new)>(experts: Option<seq<Dict<T>>>, blocks: nat, n: nat, ps: seq<Piece<T>>)
    requires Schedule(blocks, n, ps) && ps != [] && Holds(experts, blocks, n, ps[..|ps| - 1])
    ensures var f := Feed(experts, blocks, n, ps[|ps| - 1]);
            f.Ok? && Holds(f.value.experts, blocks, n, ps) && f.value.out == OutputOf(n, ps)
  {
    var before, p := ps[..|ps| - 1], ps[|ps| - 1];
    if p.name.Plain? {
      forall l: nat
        ensures Arrived(ps, l) == Arrived(before, l) && Kept(ps, l, n) == Kept(before, l, n)
      {
        OtherLayers(n, ps, l);
      }
    } else {
      NextIsNew(blocks, n, ps);
      ArrivedBounded(blocks, n, ps, p.bid);
      var e := Started(experts, blocks);
      assert e[p.bid] == Arrived(before, p.bid);
      var d := e[p.bid][p.name := p.data];
      assert d == Arrived(ps, p.bid);
      assert d.Keys == Expected(p.bid, n) ==> d - Expected(p.bid, n) == map[];
      var f := Feed(experts, blocks, n, p);
      assert f.value.experts.value == e[p.bid := Kept(ps, p.bid, n)];
      forall l: nat | l < blocks
        ensures f.value.experts.value[l] == Kept(ps, l, n)
      {
        if l != p.bid {
          OtherLayers(n, ps, l);
        }
      }
    }
  }

  // For any interleaving of the layers and any order within them: no piece raises; a layer gives its
  // stacks when its last piece comes and nothing before; and only incomplete layers are kept.
  lemma {:induction false} RunOfSchedule<T(!new)>(blocks: nat, n: nat, ps: seq<Piece<T>>)
    requires Schedule(blocks, n, ps)
    ensures var h := FeedAll(blocks, n, ps);
            && h.Ok? && Holds(h.value.experts, blocks, n, ps)
            && forall k: nat | k < |ps| :: h.value.outs[k] == OutputOf(n, ps[..k + 1])
    decreases |ps|
  {
    if ps != [] {
      var m := |ps| - 1;
      ScheduleOfPrefix(blocks, n, ps, m);
      RunOfSchedule(blocks, n, ps[..m]);
      var h := FeedAll(blocks, n, ps[..m]).value;
      FeedKeeps(h.experts, blocks, n, ps);
      var outs := FeedAll(blocks, n, ps).value.outs;
      forall k: nat | k < |ps|
        ensures outs[k] == OutputOf(n, ps[..k + 1])
      {
        if k < m {
          assert ps[..m][..k + 1] == ps[..k + 1];
        } else {
          assert ps[..k + 1] == ps;
        }
      }
    }
  }

  // ---------- every layer once ----------

  predicate OfLayer<T>(p: Piece<T>, l: nat) {
    !p.name.Plain? && p.bid == l
  }

  function LayerStacks<T>(ps: seq<Piece<T>>, l: nat, n: nat): seq<Out<T>>
    requires IsComplete(ps, l, n)
  {
    Stacks(Arrived(ps, l), l, n)
  }

  lemma NotYetComplete<T>(blocks: nat, n: nat, ps: seq<Piece<T>>, l: nat)
    requires Schedule(blocks, n, ps) && ps != [] && OfLayer(ps[|ps| - 1], l)
    ensures !IsComplete(ps[..|ps| - 1], l, n)
  {
    NextIsNew(blocks, n, ps);
  }

  // A layer whose pieces all come gives output at its last piece, and only there.
  lemma {:induction false} LayerMergedOnce<T(!new)>(blocks: nat, n: nat, ps: seq<Piece<T>>, l: nat) returns (last: nat)
    requires Schedule(blocks, n, ps) && IsComplete(ps, l, n) && n > 0
    ensures last < |ps| && OfLayer(ps[last], l)
    ensures forall k: nat | last < k < |ps| :: !OfLayer(ps[k], l)
    ensures OutputOf(n, ps[..last + 1]) == LayerStacks(ps, l, n)
    ensures forall k: nat | k < last && OfLayer(ps[k], l) :: OutputOf(n, ps[..k + 1]) == []
    decreases |ps|
  {
    InExpected(l, n, Weight(l, 0, W1));
    var m := |ps| - 1;
    ScheduleOfPrefix(blocks, n, ps, m);
    if OfLayer(ps[m], l) {
      last := m;
      assert ps[..m + 1] == ps;
      NotYetComplete(blocks, n, ps, l);
      forall k: nat | k < m && OfLayer(ps[k], l)
        ensures OutputOf(n, ps[..k + 1]) == []
      {
        ArrivedGrows(ps, k + 1, m, l);
        assert ps[..k + 1][k] == ps[k];
      }
    } else {
      OtherLayers(n, ps, l);
      last := LayerMergedOnce(blocks, n, ps[..m], l);
      assert ps[..m][..last + 1] == ps[..last + 1];
      forall k: nat | k < last && OfLayer(ps[k], l)
        ensures OutputOf(n, ps[..k + 1]) == []
      {
        assert ps[..m][..k + 1] == ps[..k + 1] && OfLayer(ps[..m][k], l);
      }
      assert forall k: nat | last < k < m :: ps[..m][k] == ps[k];
    }
  }

  lemma {:induction false} ArrivedGrows<T>(ps: seq<Piece<T>>, i: nat, k: nat, l: nat)
    requires i <= k <= |ps|
    ensures Arrived(ps[..i], l).Keys <= Arrived(ps[..k], l).Keys
    decreases k - i
  {
    if i < k {
      ArrivedGrows(ps, i, k - 1, l);
      assert ps[..k][..k - 1] == ps[..k - 1];
    }
  }

  // Slot x of each stack has the weight of expert x.
  lemma StacksInOrder<T>(blocks: nat, n: nat, ps: seq<Piece<T>>, l: nat, i: nat)
    requires Schedule(blocks, n, ps) && IsComplete(ps, l, n) && i < |ps| && OfLayer(ps[i], l)
    ensures ps[i].name.Weight? && ps[i].name.expert < n
    ensures exists o :: o in LayerStacks(ps, l, n) && o.Stacked? && o.layer == l && o.wid == ps[i].name.wid &&
                        |o.slots| == n && o.slots[ps[i].name.expert] == ps[i].data
  {
    var p := ps[i];
    assert WellNamed(blocks, n, ps[i]);
    InExpected(l, n, p.name);
    ArrivedValue(blocks, n, ps, i);
    var w := p.name.wid;
    assert p.name == Weight(l, p.name.expert, w);
    var o := Stacked(l, w, Slots(Arrived(ps, l), l, n, w));
    var all := LayerStacks(ps, l, n);
    assert w.W1? ==> o == all[0];
    assert w.W2? ==> o == all[1];
    assert w.W3? ==> o == all[2];
  }

  lemma {:induction false} ArrivedValue<T>(blocks: nat, n: nat, ps: seq<Piece<T>>, i: nat)
    requires Schedule(blocks, n, ps) && i < |ps| && !ps[i].name.Plain?
    ensures var d := Arrived(ps, ps[i].bid); ps[i].name in d && d[ps[i].name] == ps[i].data
    decreases |ps|
  {
    var m := |ps| - 1;
    if i < m {
      ScheduleOfPrefix(blocks, n, ps, m);
      ArrivedValue(blocks, n, ps[..m], i);
    }
  }

  // ---------- order does not matter ----------

  lemma ArrivedIncluded<T>(blocks: nat, n: nat, ps: seq<Piece<T>>, qs: seq<Piece<T>>, l: nat, name: Name)
    requires Schedule(blocks, n, ps) && Schedule(blocks, n, qs) && (forall p :: p in ps ==> p in qs)
    requires name in Arrived(ps, l)
    ensures name in Arrived(qs, l) && Arrived(qs, l)[name] == Arrived(ps, l)[name]
  {
    ArrivedKeys(blocks, n, ps, l, name);
    var i: nat :| i < |ps| && ps[i].name == name && ps[i].bid == l && !name.Plain?;
    assert ps[i] in qs;
    var k: nat :| k < |qs| && qs[k] == ps[i];
    ArrivedValue(blocks, n, ps, i);
    ArrivedValue(blocks, n, qs, k);
  }

  // The same pieces in another order give the same stacks and leave the same incomplete layers.
  lemma OrderDoesNotMatter<T(!new)>(blocks: nat, n: nat, ps: seq<Piece<T>>, qs: seq<Piece<T>>, l: nat)
    requires Schedule(blocks, n, ps) && Schedule(blocks, n, qs) && multiset(ps) == multiset(qs)
    ensures IsComplete(ps, l, n) <==> IsComplete(qs, l, n)
    ensures IsComplete(ps, l, n) ==> LayerStacks(ps, l, n) == LayerStacks(qs, l, n)
    ensures Kept(ps, l, n) == Kept(qs, l, n)
  {
    forall p
      ensures p in ps <==> p in qs
    {
      assert p in ps <==> p in multiset(ps);
      assert p in qs <==> p in multiset(qs);
    }
    var a, b := Arrived(ps, l), Arrived(qs, l);
    forall name | name in a
      ensures name in b && b[name] == a[name]
    {
      ArrivedIncluded(blocks, n, ps, qs, l, name);
    }
    forall name | name in b
      ensures name in a
    {
      ArrivedIncluded(blocks, n, qs, ps, l, name);
    }
    assert a == b;
  }

  // The check at the end raises if and only if some layer has started and is not complete.
  lemma EndCheckExact<T(!new)>(blocks: nat, n: nat, ps: seq<Piece<T>>)
    requires Schedule(blocks, n, ps)
    ensures FeedAll(blocks, n, ps).Ok?
    ensures Unprocessed(FeedAll(blocks, n, ps).value.experts) <==>
            exists i: nat | i < |ps| :: !ps[i].name.Plain? && !IsComplete(ps, ps[i].bid, n)
  {
    RunOfSchedule(blocks, n, ps);
    var experts := FeedAll(blocks, n, ps).value.experts;
    if Unprocessed(experts) {
      var l: nat :| l < |experts.value| && experts.value[l] != map[];
      var name :| name in Arrived(ps, l);
      ArrivedKeys(blocks, n, ps, l, name);
      var i: nat :| i < |ps| && ps[i].name == name && ps[i].bid == l && !name.Plain?;
      assert !IsComplete(ps, ps[i].bid, n);
    }
    if i: nat :| i < |ps| && !ps[i].name.Plain? && !IsComplete(ps, ps[i].bid, n) {
      ArrivedValue(blocks, n, ps, i);
      assert WellNamed(blocks, n, ps[i]);
      assert experts.Some? && experts.value[ps[i].bid] == Kept(ps, ps[i].bid, n);
    }
  }
}
