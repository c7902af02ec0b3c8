/** `Parallel.then` when the other operand is a `Parallel` too: the wire-position map, the two
    layers it assembles and their final composition (wiring.py, lines 266-295). */
module Rebalance {
  import opened Types
  import opened Wirings

  /** The two lists the loop fills: `fs` (left layer) and `gs` (right layer). */
  datatype Layers = Layers(fs: seq<Wiring>, gs: seq<Wiring>)

  /** The number of slots a successor factor occupies: `max(len(g.dom), 1)`. */
  function SlotWidth(g: Wiring): nat
  {
    if |g.dom| > 0 then |g.dom| else 1
  }

  /** The `wires` dictionary read as a list: slot p holds the successor factor owning it. */
  function Slots(others: seq<Wiring>): seq<Wiring>
  {
    if others == [] then [] else seq(SlotWidth(others[0]), _ => others[0]) + Slots(others[1..])
  }

  lemma {:induction false} SlotsAppend(xs: seq<Wiring>, ys: seq<Wiring>)
    ensures Slots(xs + ys) == Slots(xs) + Slots(ys)
  {
    if xs == [] {
      assert xs + ys == ys;
    } else {
      assert (xs + ys)[1..] == xs[1..] + ys;
      SlotsAppend(xs[1..], ys);
    }
  }

  /** Every slot holds one of the successor factors, and there are at least as many slots as
      the successors have domain wires. */
  lemma {:induction false} SlotsCover(others: seq<Wiring>)
    ensures forall p :: 0 <= p < |Slots(others)| ==> Slots(others)[p] in others
    ensures |Slots(others)| >= |Doms(others)|
  {
    if others != [] {
      SlotsCover(others[1..]);
      var head := seq(SlotWidth(others[0]), _ => others[0]);
      forall p | 0 <= p < |Slots(others)|
        ensures Slots(others)[p] in others
      {
        if p >= |head| {
          assert Slots(others)[p] == Slots(others[1..])[p - |head|];
        }
      }
    }
  }

  /** The inner loop over the wires of an identity factor, from wire k on: each successor not
      yet in `fs` is appended to `fs`, with an identity of its codomain appended to `gs`. */
  function IdWires(acc: Layers, slots: seq<Wiring>, w: nat, k: nat, n: nat): Result<Layers>
    decreases n - k
  {
    if k >= n then Ok(acc)
    else if w + k >= |slots| then Err(KeyError)
    else
      var g := slots[w + k];
      var next := if g in acc.fs then acc else Layers(acc.fs + [g], acc.gs + [IdOn(g.cod)]);
      IdWires(next, slots, w, k + 1, n)
  }

  /** One pass of the outer loop, for the factor f whose codomain starts at wire w. */
  function Step(acc: Layers, f: Wiring, slots: seq<Wiring>, w: nat): Result<Layers>
  {
    if f.Id? then IdWires(acc, slots, w, 0, |f.cod|)
    else if w >= |slots| then Err(KeyError)
    else Ok(Layers(acc.fs + [f], if slots[w] in acc.gs then acc.gs else acc.gs + [slots[w]]))
  }

  /** The outer loop from the given factors on. */
  function LayersFrom(acc: Layers, factors: seq<Wiring>, slots: seq<Wiring>, w: nat): Result<Layers>
    decreases |factors|
  {
    if factors == [] then Ok(acc)
    else
      var next :- Step(acc, factors[0], slots, w);
      LayersFrom(next, factors[1..], slots, w + |factors[0].cod|)
  }

  /** Both layers, for the factors of `self` against the factors of `other`. */
  function Rebalanced(factors: seq<Wiring>, others: seq<Wiring>): Result<Layers>
  {
    LayersFrom(Layers([], []), factors, Slots(others), 0)
  }

  /** `Parallel.then(other)` for a `Parallel` other: type check, assemble the layers, tensor each
      from `Id(Ty())`, and sequence the two results with the base `Wiring.then`. */
  function ParallelThen(a: Wiring, b: Wiring): Result<Wiring>
    requires a.Parallel? && b.Parallel?
  {
    if a.cod != b.dom then Err(AxiomError)
    else
      var layers :- Rebalanced(a.factors, b.factors);
      BaseThen(ReduceParallel(layers.fs), ReduceParallel(layers.gs))
  }

  // ---------------------------------------------------------------------------
  // The loops, as the source runs them
  // ---------------------------------------------------------------------------

  /** The first loop: map every wire position of the other's domain to its factor, giving a
      factor with an empty domain one position of its own. */
  method BuildWires(others: seq<Wiring>) returns (wires: map<nat, Wiring>)
    ensures forall p: nat :: p in wires <==> p < |Slots(others)|
    ensures forall p: nat :: p in wires ==> wires[p] == Slots(others)[p]
  {
    wires := map[];
    var w := 0;
    var i := 0;
    while i < |others|
      invariant 0 <= i <= |others|
      invariant w == |Slots(others[..i])|
      invariant forall p: nat :: p in wires <==> p < w
      invariant forall p: nat :: p in wires ==> wires[p] == Slots(others[..i])[p]
    {
      var g := others[i];
      var gWires := if |g.dom| > 1 then |g.dom| else 1;
      ghost var prefix := Slots(others[..i]);
      wires := FillSlots(wires, prefix, w, g, gWires);
      SlotsSnoc(others, i);
      w := w + gWires;
      i := i + 1;
    }
    assert others[..i] == others;
  }

  /** The inner loop of the first loop: positions `w` to `w + n - 1` all map to `g`. */
  method FillSlots(wires: map<nat, Wiring>, ghost prefix: seq<Wiring>, w: nat, g: Wiring, n: nat)
      returns (r: map<nat, Wiring>)
    requires w == |prefix|
    requires forall p: nat :: p in wires <==> p < w
    requires forall p: nat :: p in wires ==> wires[p] == prefix[p]
    ensures forall p: nat :: p in r <==> p < w + n
    ensures forall p: nat :: p in r ==> r[p] == (prefix + seq(n, _ => g))[p]
  {
    r := wires;
    var k := 0;
    while k < n
      invariant 0 <= k <= n
      invariant forall p: nat :: p in r <==> p < w + k
      invariant forall p: nat :: p in r ==> r[p] == (prefix + seq(n, _ => g))[p]
    {
      r := r[w + k := g];
      k := k + 1;
    }
  }

  lemma SlotsSnoc(others: seq<Wiring>, i: nat)
    requires i < |others|
    ensures Slots(others[..i + 1]) == Slots(others[..i]) + seq(SlotWidth(others[i]), _ => others[i])
  {
    var g := others[i];
    assert Slots([g]) == seq(SlotWidth(g), _ => g) + Slots([]);
    assert others[..i + 1] == others[..i] + [g];
    SlotsAppend(others[..i], [g]);
  }

  /** The whole of `Parallel.then(other)` for a `Parallel` other, with the dictionary `wires`, the
      position counter `w` and the lists `fs` and `gs` updated as the source updates them. */
  method ComposeLayers(a: Wiring, b: Wiring) returns (r: Result<Wiring>)
    requires a.Parallel? && b.Parallel?
    ensures r == ParallelThen(a, b)
  {
    if a.cod != b.dom {
      return Err(AxiomError);
    }
    var wires := BuildWires(b.factors);
    var layers := RunLayers(a.factors, wires, Slots(b.factors));
    ParallelThenOf(a, b, layers);
    if layers.Err? {
      return Err(layers.error);
    }
    r := BaseThen(ReduceParallel(layers.value.fs), ReduceParallel(layers.value.gs));
  }

  /** The second loop, over the factors of `self`, with `w` the first wire of each codomain. */
  method RunLayers(factors: seq<Wiring>, wires: map<nat, Wiring>, ghost slots: seq<Wiring>) returns (r: Result<Layers>)
    requires forall p: nat :: p in wires <==> p < |slots|
    requires forall p: nat :: p in wires ==> wires[p] == slots[p]
    ensures r == LayersFrom(Layers([], []), factors, slots, 0)
  {
    var fs: seq<Wiring> := [];
    var gs: seq<Wiring> := [];
    var w: nat := 0;
    var i := 0;
    while i < |factors|
      invariant 0 <= i <= |factors|
      invariant LayersFrom(Layers(fs, gs), factors[i..], slots, w) == LayersFrom(Layers([], []), factors, slots, 0)
    {
      var f := factors[i];
      var step := StepLayers(fs, gs, f, wires, slots, w);
      if step.Err? {
        LayersFromFirst(Layers(fs, gs), factors, i, slots, w);
        return Err(step.error);
      }
      LayersFromStepOk(Layers(fs, gs), factors, i, slots, w, step.value, w + |f.cod|);
      fs, gs := step.value.fs, step.value.gs;
      w := w + |f.cod|;
      i := i + 1;
    }
    assert factors[i..] == [];
    r := Ok(Layers(fs, gs));
  }

  /** `Parallel.then(other)` once the layers (or the error assembling them) are known. */
  lemma ParallelThenOf(a: Wiring, b: Wiring, layers: Result<Layers>)
    requires a.Parallel? && b.Parallel? && a.cod == b.dom
    requires Rebalanced(a.factors, b.factors) == layers
    ensures layers.Err? ==> ParallelThen(a, b) == Err(layers.error)
    ensures layers.Ok? ==> ParallelThen(a, b) == BaseThen(ReduceParallel(layers.value.fs), ReduceParallel(layers.value.gs))
  {
  }

  /** The outer loop's unfolding at factor `i`. */
  lemma LayersFromFirst(acc: Layers, factors: seq<Wiring>, i: nat, slots: seq<Wiring>, w: nat)
    requires i < |factors|
    ensures LayersFrom(acc, factors[i..], slots, w)
         == (var next :- Step(acc, factors[i], slots, w); LayersFrom(next, factors[i + 1..], slots, w + |factors[i].cod|))
  {
    assert factors[i..][0] == factors[i];
    assert factors[i..][1..] == factors[i + 1..];
  }

  /** The body of the outer loop, for the factor `f` whose codomain starts at wire `w`: an
      identity walks its wires, any other factor joins `fs` and pulls in its first successor. */
  method StepLayers(fs: seq<Wiring>, gs: seq<Wiring>, f: Wiring, wires: map<nat, Wiring>,
                    ghost slots: seq<Wiring>, w: nat) returns (r: Result<Layers>)
    requires forall p: nat :: p in wires <==> p < |slots|
    requires forall p: nat :: p in wires ==> wires[p] == slots[p]
    ensures r == Step(Layers(fs, gs), f, slots, w)
  {
    if f.Id? {
      var fs', gs' := fs, gs;
      var k := 0;
      while k < |f.cod|
        invariant 0 <= k <= |f.cod|
        invariant IdWires(Layers(fs', gs'), slots, w, k, |f.cod|) == IdWires(Layers(fs, gs), slots, w, 0, |f.cod|)
      {
        if w + k !in wires {
          return Err(KeyError);
        }
        var g := wires[w + k];
        if g !in fs' {
          fs' := fs' + [g];
          gs' := gs' + [IdOn(g.cod)];
        }
        k := k + 1;
      }
      return Ok(Layers(fs', gs'));
    } else {
      if w !in wires {
        return Err(KeyError);
      }
      var gs' := if wires[w] in gs then gs else gs + [wires[w]];
      return Ok(Layers(fs + [f], gs'));
    }
  }

  // ---------------------------------------------------------------------------
  // What the layers look like
  // ---------------------------------------------------------------------------

  /** The factors of a list that are not identities, in order. */
  function NonIds(ws: seq<Wiring>): seq<Wiring>
  {
    if ws == [] then [] else (if ws[0].Id? then [] else [ws[0]]) + NonIds(ws[1..])
  }

  /** `Id(g.cod)` for each g, in order. */
  function IdCods(ws: seq<Wiring>): seq<Wiring>
  {
    if ws == [] then [] else IdCods(DropLast(ws)) + [IdOn(Last(ws).cod)]
  }

  /** The layers are made of the own non-identity factors, interleaved with successors pulled in
      through identity wires (`viaId`, each at most once), and on the right the identities of
      those successors' codomains, interleaved with successors added for the own factors
      (`viaBox`, each at most once); every successor comes from `pool`. */
  ghost predicate LayerShape(own: seq<Wiring>, pool: seq<Wiring>, layers: Layers, viaId: seq<Wiring>, viaBox: seq<Wiring>)
  {
    && Interleaving(own, viaId, layers.fs)
    && Interleaving(IdCods(viaId), viaBox, layers.gs)
    && Distinct(viaId)
    && Distinct(viaBox)
    && (forall x :: x in viaId ==> x in pool)
    && (forall x :: x in viaBox ==> x in pool)
  }

  lemma IdCodsSnoc(ws: seq<Wiring>, g: Wiring)
    ensures IdCods(ws + [g]) == IdCods(ws) + [IdOn(g.cod)]
  {
    assert DropLast(ws + [g]) == ws;
  }

  lemma {:induction false} IdWiresShape(acc: Layers, slots: seq<Wiring>, w: nat, k: nat, n: nat,
                                         own: seq<Wiring>, pool: seq<Wiring>, viaId: seq<Wiring>, viaBox: seq<Wiring>)
      returns (v: seq<Wiring>)
    requires forall p :: 0 <= p < |slots| ==> slots[p] in pool
    requires LayerShape(own, pool, acc, viaId, viaBox)
    requires IdWires(acc, slots, w, k, n).Ok?
    ensures LayerShape(own, pool, IdWires(acc, slots, w, k, n).value, v, viaBox)
    decreases n - k
  {
    if k < n {
      var g := slots[w + k];
      if g in acc.fs {
        v := IdWiresShape(acc, slots, w, k + 1, n, own, pool, viaId, viaBox);
      } else {
        var next := Layers(acc.fs + [g], acc.gs + [IdOn(g.cod)]);
        InterleavingMembers(own, viaId, acc.fs);
        InterleavingSnocRight(own, viaId, acc.fs, g);
        IdCodsSnoc(viaId, g);
        InterleavingSnocLeft(IdCods(viaId), viaBox, acc.gs, IdOn(g.cod));
        assert LayerShape(own, pool, next, viaId + [g], viaBox);
        v := IdWiresShape(next, slots, w, k + 1, n, own, pool, viaId + [g], viaBox);
      }
    } else {
      v := viaId;
    }
  }

  lemma {:induction false} StepShape(acc: Layers, f: Wiring, slots: seq<Wiring>, w: nat,
                                      own: seq<Wiring>, pool: seq<Wiring>, viaId: seq<Wiring>, viaBox: seq<Wiring>)
      returns (v: seq<Wiring>, b: seq<Wiring>)
    requires forall p :: 0 <= p < |slots| ==> slots[p] in pool
    requires LayerShape(own, pool, acc, viaId, viaBox)
    requires Step(acc, f, slots, w).Ok?
    ensures LayerShape(own + NonIds([f]), pool, Step(acc, f, slots, w).value, v, b)
  {
    assert NonIds([f]) == (if f.Id? then [] else [f]) + NonIds([]);
    if f.Id? {
      assert own + NonIds([f]) == own;
      v := IdWiresShape(acc, slots, w, 0, |f.cod|, own, pool, viaId, viaBox);
      b := viaBox;
    } else {
      assert NonIds([f]) == [f];
      v := viaId;
      b := BoxStepShape(acc, f, slots, w, own, pool, viaId, viaBox);
    }
  }

  /** `StepShape` for a factor that is not an identity: it joins `fs`, its successor `gs`. */
  lemma BoxStepShape(acc: Layers, f: Wiring, slots: seq<Wiring>, w: nat,
                     own: seq<Wiring>, pool: seq<Wiring>, viaId: seq<Wiring>, viaBox: seq<Wiring>)
      returns (b: seq<Wiring>)
    requires forall p :: 0 <= p < |slots| ==> slots[p] in pool
    requires LayerShape(own, pool, acc, viaId, viaBox)
    requires !f.Id? && w < |slots|
    ensures LayerShape(own + [f], pool, Step(acc, f, slots, w).value, viaId, b)
  {
    var s := slots[w];
    InterleavingSnocLeft(own, viaId, acc.fs, f);
    if s in acc.gs {
      b := viaBox;
    } else {
      InterleavingMembers(IdCods(viaId), viaBox, acc.gs);
      InterleavingSnocRight(IdCods(viaId), viaBox, acc.gs, s);
      b := viaBox + [s];
    }
  }

  /** The outer loop's unfolding at its first factor, when that step succeeds. */
  lemma LayersFromNext(acc: Layers, factors: seq<Wiring>, slots: seq<Wiring>, w: nat)
      returns (next: Layers, rest: seq<Wiring>, w': nat)
    requires factors != [] && LayersFrom(acc, factors, slots, w).Ok?
    ensures Step(acc, factors[0], slots, w) == Ok(next)
    ensures rest == factors[1..] && w' == w + |factors[0].cod|
    ensures LayersFrom(acc, factors, slots, w) == LayersFrom(next, rest, slots, w')
  {
    next := Step(acc, factors[0], slots, w).value;
    rest := factors[1..];
    w' := w + |factors[0].cod|;
  }

  lemma {:induction false} NonIdsCons(factors: seq<Wiring>)
    requires factors != []
    ensures NonIds(factors) == NonIds([factors[0]]) + NonIds(factors[1..])
  {
    var f := factors[0];
    var head: seq<Wiring> := if f.Id? then [] else [f];
    assert [f][1..] == [];
    assert NonIds([f]) == head + NonIds([]);
    assert NonIds([f]) == head;
    assert NonIds(factors) == head + NonIds(factors[1..]);
  }

  lemma {:induction false} LayersFromShape(acc: Layers, factors: seq<Wiring>, slots: seq<Wiring>, w: nat,
                                            own: seq<Wiring>, pool: seq<Wiring>, viaId: seq<Wiring>, viaBox: seq<Wiring>)
      returns (v: seq<Wiring>, b: seq<Wiring>)
    requires forall p :: 0 <= p < |slots| ==> slots[p] in pool
    requires LayerShape(own, pool, acc, viaId, viaBox)
    requires LayersFrom(acc, factors, slots, w).Ok?
    ensures LayerShape(own + NonIds(factors), pool, LayersFrom(acc, factors, slots, w).value, v, b)
    decreases |factors|
  {
    if factors == [] {
      assert own + NonIds(factors) == own;
      v, b := viaId, viaBox;
    } else {
      var next, rest, w', own', v1, b1 := LayersFromShapeStep(acc, factors, slots, w, own, pool, viaId, viaBox);
      v, b := LayersFromShape(next, rest, slots, w', own', pool, v1, b1);
    }
  }

  /** One step of `LayersFromShape`: the first factor's step keeps the shape. */
  lemma LayersFromShapeStep(acc: Layers, factors: seq<Wiring>, slots: seq<Wiring>, w: nat,
                            own: seq<Wiring>, pool: seq<Wiring>, viaId: seq<Wiring>, viaBox: seq<Wiring>)
      returns (next: Layers, rest: seq<Wiring>, w': nat, own': seq<Wiring>, v: seq<Wiring>, b: seq<Wiring>)
    requires forall p :: 0 <= p < |slots| ==> slots[p] in pool
    requires LayerShape(own, pool, acc, viaId, viaBox)
    requires factors != [] && LayersFrom(acc, factors, slots, w).Ok?
    ensures |rest| < |factors|
    ensures LayerShape(own', pool, next, v, b)
    ensures LayersFrom(next, rest, slots, w') == LayersFrom(acc, factors, slots, w)
    ensures own' + NonIds(rest) == own + NonIds(factors)
  {
    var f := factors[0];
    next, rest, w' := LayersFromNext(acc, factors, slots, w);
    v, b := StepShape(acc, f, slots, w, own, pool, viaId, viaBox);
    own' := OwnStep(own, factors);
  }

  lemma OwnStep(own: seq<Wiring>, factors: seq<Wiring>) returns (own': seq<Wiring>)
    requires factors != []
    ensures own' == own + NonIds([factors[0]])
    ensures own' + NonIds(factors[1..]) == own + NonIds(factors)
  {
    own' := own + NonIds([factors[0]]);
    NonIdsCons(factors);
    AppendAssoc(own, NonIds([factors[0]]), NonIds(factors[1..]), NonIds(factors));
  }

  /** Rebalancing puts every non-identity factor of `self` into the left layer exactly once and in
      its original order; the only other entries of the left layer are successor factors reached
      through identity wires, each at most once, and each such successor puts an identity of its
      codomain into the right layer, in the same order; the remaining entries of the right
      layer are successors of the own factors, each added at most once. */
  lemma RebalanceShape(factors: seq<Wiring>, others: seq<Wiring>)
    requires Rebalanced(factors, others).Ok?
    ensures exists viaId, viaBox :: LayerShape(NonIds(factors), others, Rebalanced(factors, others).value, viaId, viaBox)
  {
    SlotsCover(others);
    assert LayerShape([], others, Layers([], []), [], []);
    var v, b := LayersFromShape(Layers([], []), factors, Slots(others), 0, [], others, [], []);
    assert [] + NonIds(factors) == NonIds(factors);
  }

  // ---------------------------------------------------------------------------
  // When the dictionary lookups succeed
  // ---------------------------------------------------------------------------

  lemma {:induction false} IdWiresDefined(acc: Layers, slots: seq<Wiring>, w: nat, k: nat, n: nat)
    requires w + n <= |slots|
    ensures IdWires(acc, slots, w, k, n).Ok?
    decreases n - k
  {
    if k < n {
      var g := slots[w + k];
      var next := if g in acc.fs then acc else Layers(acc.fs + [g], acc.gs + [IdOn(g.cod)]);
      IdWiresDefined(next, slots, w, k + 1, n);
    }
  }

  lemma {:induction false} LayersFromDefined(acc: Layers, factors: seq<Wiring>, slots: seq<Wiring>, w: nat)
    requires w + |Cods(factors)| <= |slots|
    requires forall i :: 0 <= i < |factors| && !factors[i].Id? ==> factors[i].cod != []
    ensures LayersFrom(acc, factors, slots, w).Ok?
    decreases |factors|
  {
    if factors != [] {
      var f := factors[0];
      assert |Cods(factors)| == |f.cod| + |Cods(factors[1..])|;
      if f.Id? {
        IdWiresDefined(acc, slots, w, 0, |f.cod|);
      }
      LayersFromDefined(Step(acc, f, slots, w).value, factors[1..], slots, w + |f.cod|);
    }
  }

  /** Every dictionary lookup succeeds when both layers' recorded types agree with their factors
      and no non-identity factor of `self` has an empty codomain. */
  lemma RebalanceDefined(a: Wiring, b: Wiring)
    requires a.Parallel? && b.Parallel? && Consistent(a) && Consistent(b) && a.cod == b.dom
    requires forall i :: 0 <= i < |a.factors| && !a.factors[i].Id? ==> a.factors[i].cod != []
    ensures Rebalanced(a.factors, b.factors).Ok?
  {
    SlotsCover(b.factors);
    LayersFromDefined(Layers([], []), a.factors, Slots(b.factors), 0);
  }

  /** A factor with an empty codomain at the right end of the left layer looks up the position
      just past the last wire: `(f @ d) >> (g1 @ g2)` with a discarding `d` raises `KeyError`. */
  lemma TrailingDiscardKeyError()
    ensures
      var f := Box("f", [Named("a")], [Named("x1"), Named("x2")], NoData);
      var d := Box("d", [Named("b")], [], NoData);
      var g1 := Box("g1", [Named("x1")], [Named("z")], NoData);
      var g2 := Box("g2", [Named("x2")], [Named("z")], NoData);
      var left := Tensor(f, d);
      var right := Tensor(g1, g2);
      && left.Parallel? && right.Parallel? && left.cod == right.dom
      && ParallelThen(left, right) == Err(KeyError)
  {
    var f := Box("f", [Named("a")], [Named("x1"), Named("x2")], NoData);
    var d := Box("d", [Named("b")], [], NoData);
    var g1 := Box("g1", [Named("x1")], [Named("z")], NoData);
    var g2 := Box("g2", [Named("x2")], [Named("z")], NoData);
    FlattenFactorsKnown(f, d);
    FlattenFactorsKnown(g1, g2);
    var left := Tensor(f, d);
    var right := Tensor(g1, g2);
    assert left.factors == [f, d];
    assert right.factors == [g1, g2];
    DiscardRebalanced(f, d, g1, g2);
    ParallelThenOf(left, right, Err(KeyError));
  }

  /** The layers of that example: `f` takes both slots, and `d` then looks up slot 2. */
  lemma DiscardRebalanced(f: Wiring, d: Wiring, g1: Wiring, g2: Wiring)
    requires f == Box("f", [Named("a")], [Named("x1"), Named("x2")], NoData)
    requires d == Box("d", [Named("b")], [], NoData)
    requires g1 == Box("g1", [Named("x1")], [Named("z")], NoData)
    requires g2 == Box("g2", [Named("x2")], [Named("z")], NoData)
    ensures Rebalanced([f, d], [g1, g2]) == Err(KeyError)
  {
    assert Slots([g2]) == [g2] + Slots([]);
    assert Slots([g1, g2]) == [g1, g2];
    var none: seq<Wiring> := [];
    assert none + [f] == [f] && none + [g1] == [g1];
    assert Step(Layers(none, none), f, [g1, g2], 0) == Ok(Layers([f], [g1]));
    assert Step(Layers([f], [g1]), d, [g1, g2], 2) == Err(KeyError);
    assert [f, d][1..] == [d];
    assert LayersFrom(Layers([f], [g1]), [d], [g1, g2], 2) == Err(KeyError);
  }

  // ---------------------------------------------------------------------------
  // When the composite is built, and two ways it is not
  // ---------------------------------------------------------------------------

  /** Factor i of `self` is a box feeding exactly factor i of the other, which is a box too. */
  predicate OneToOne(fs: seq<Wiring>, gs: seq<Wiring>)
  {
    && |fs| == |gs|
    && forall i :: 0 <= i < |fs| ==> fs[i].Box? && gs[i].Box? && fs[i].cod == gs[i].dom && fs[i].cod != []
  }

  /** The slot that starts at the first position of successor i is owned by successor i. */
  lemma SlotAt(gs: seq<Wiring>, i: nat)
    requires i < |gs|
    ensures |Slots(gs[..i])| < |Slots(gs)| && Slots(gs)[|Slots(gs[..i])|] == gs[i]
  {
    assert gs == gs[..i] + gs[i..];
    SlotsAppend(gs[..i], gs[i..]);
    assert gs[i..][0] == gs[i];
  }

  /** One pass of the loop in the one-to-one case: box i joins `fs` and successor i joins `gs`. */
  lemma OneToOneStep(fs: seq<Wiring>, gs: seq<Wiring>, i: nat)
    requires OneToOne(fs, gs) && Distinct(gs) && i < |fs|
    ensures Step(Layers(fs[..i], gs[..i]), fs[i], Slots(gs), |Slots(gs[..i])|) == Ok(Layers(fs[..i + 1], gs[..i + 1]))
    ensures |Slots(gs[..i + 1])| == |Slots(gs[..i])| + |fs[i].cod|
  {
    SlotAt(gs, i);
    SlotsSnoc(gs, i);
    assert gs[i] !in gs[..i];
    assert fs[..i] + [fs[i]] == fs[..i + 1];
    assert gs[..i] + [gs[i]] == gs[..i + 1];
  }

  /** The loop from pass i on, unfolded once in the one-to-one case. */
  lemma OneToOneUnfold(fs: seq<Wiring>, gs: seq<Wiring>, i: nat)
    requires OneToOne(fs, gs) && Distinct(gs) && i < |fs|
    ensures LayersFrom(Layers(fs[..i], gs[..i]), fs[i..], Slots(gs), |Slots(gs[..i])|)
         == LayersFrom(Layers(fs[..i + 1], gs[..i + 1]), fs[i + 1..], Slots(gs), |Slots(gs[..i + 1])|)
  {
    OneToOneStep(fs, gs, i);
    LayersFromStepOk(Layers(fs[..i], gs[..i]), fs, i, Slots(gs), |Slots(gs[..i])|,
                     Layers(fs[..i + 1], gs[..i + 1]), |Slots(gs[..i + 1])|);
  }

  lemma LayersFromStepOk(acc: Layers, factors: seq<Wiring>, i: nat, slots: seq<Wiring>, w: nat, next: Layers, w': nat)
    requires i < |factors| && Step(acc, factors[i], slots, w) == Ok(next) && w' == w + |factors[i].cod|
    ensures LayersFrom(acc, factors[i..], slots, w) == LayersFrom(next, factors[i + 1..], slots, w')
  {
    LayersFromFirst(acc, factors, i, slots, w);
  }

  lemma {:induction false} OneToOneLayers(fs: seq<Wiring>, gs: seq<Wiring>, i: nat)
    requires OneToOne(fs, gs) && Distinct(gs) && i <= |fs|
    ensures LayersFrom(Layers(fs[..i], gs[..i]), fs[i..], Slots(gs), |Slots(gs[..i])|) == Ok(Layers(fs, gs))
    decreases |fs| - i
  {
    if i == |fs| {
      assert fs[i..] == [];
      assert fs[..i] == fs && gs[..i] == gs;
    } else {
      OneToOneUnfold(fs, gs, i);
      OneToOneLayers(fs, gs, i + 1);
    }
  }

  /** In the one-to-one case the layers are the two factor lists as they are. */
  lemma OneToOneRebalanced(fs: seq<Wiring>, gs: seq<Wiring>)
    requires OneToOne(fs, gs) && Distinct(gs)
    ensures Rebalanced(fs, gs) == Ok(Layers(fs, gs))
  {
    OneToOneLayers(fs, gs, 0);
    assert fs[..0] == [] && gs[..0] == [] && fs[0..] == fs;
  }

  lemma {:induction false} CodsMeetDoms(fs: seq<Wiring>, gs: seq<Wiring>)
    requires OneToOne(fs, gs)
    ensures Cods(fs) == Doms(gs)
  {
    if fs != [] {
      CodsMeetDoms(fs[1..], gs[1..]);
    }
  }

  /** `Parallel >> Parallel` succeeds when every box of `self` feeds exactly the successor at its
      own index and the successors are pairwise different: the layers are the two factor lists
      unchanged, and the composite runs from `a.dom` to `b.cod`. With two or more factors it
      is `Sequential([a, b])` itself. */
  lemma ParallelThenOneToOne(a: Wiring, b: Wiring)
    requires a.Parallel? && b.Parallel? && Consistent(a) && Consistent(b)
    requires OneToOne(a.factors, b.factors) && Distinct(b.factors)
    ensures a.cod == b.dom
    ensures Rebalanced(a.factors, b.factors) == Ok(Layers(a.factors, b.factors))
    ensures ParallelThen(a, b).Ok?
    ensures ParallelThen(a, b).value.dom == a.dom && ParallelThen(a, b).value.cod == b.cod
    ensures |a.factors| >= 2 ==> ParallelThen(a, b) == Ok(Sequential([a, b], a.dom, b.cod))
  {
    CodsMeetDoms(a.factors, b.factors);
    OneToOneRebalanced(a.factors, b.factors);
    ParallelThenOf(a, b, Ok(Layers(a.factors, b.factors)));
    if |a.factors| == 0 {
      assert ReduceParallel(a.factors) == IdOn([]) && ReduceParallel(b.factors) == IdOn([]);
    } else if |a.factors| == 1 {
      ComposeSingleLayers(a, b);
    } else {
      ComposeWholeLayers(a, b);
    }
  }

  lemma ComposeSingleLayers(a: Wiring, b: Wiring)
    requires a.Parallel? && b.Parallel? && Consistent(a) && Consistent(b)
    requires OneToOne(a.factors, b.factors) && |a.factors| == 1
    ensures BaseThen(ReduceParallel(a.factors), ReduceParallel(b.factors))
         == Ok(Sequential([a.factors[0], b.factors[0]], a.dom, b.cod))
  {
    ReduceParallelOfAtoms(a.factors);
    ReduceParallelOfAtoms(b.factors);
    SingleFactorTypes(a);
    SingleFactorTypes(b);
    ThenOfTwo(a.factors[0], b.factors[0]);
  }

  lemma SingleFactorTypes(p: Wiring)
    requires p.Parallel? && Consistent(p) && |p.factors| == 1
    ensures p.dom == p.factors[0].dom && p.cod == p.factors[0].cod
  {
    assert p.factors[1..] == [];
    assert Doms(p.factors) == p.factors[0].dom + Doms([]) == p.factors[0].dom;
    assert Cods(p.factors) == p.factors[0].cod + Cods([]) == p.factors[0].cod;
  }

  /** `Wiring.then` of two diagrams that are neither identities nor sequentials. */
  lemma ThenOfTwo(x: Wiring, y: Wiring)
    requires !x.Id? && !x.Sequential? && !y.Id? && !y.Sequential? && x.cod == y.dom
    ensures BaseThen(x, y) == Ok(Sequential([x, y], x.dom, y.cod))
  {
    assert [x, y][1..] == [y] && [y][1..] == [];
    assert FlattenArrows([x, y]) == [x] + FlattenArrows([y]);
    assert FlattenArrows([y]) == [y] + FlattenArrows([]) == [y];
    assert FlattenArrows([x, y]) == [x, y];
  }

  lemma ComposeWholeLayers(a: Wiring, b: Wiring)
    requires a.Parallel? && b.Parallel? && Consistent(a) && Consistent(b) && a.cod == b.dom
    requires OneToOne(a.factors, b.factors) && |a.factors| >= 2
    ensures BaseThen(ReduceParallel(a.factors), ReduceParallel(b.factors)) == Ok(Sequential([a, b], a.dom, b.cod))
  {
    ReduceParallelOfAtoms(a.factors);
    ReduceParallelOfAtoms(b.factors);
    ThenOfTwo(a, b);
  }

  /** A box whose codomain spans two successors pulls in only the first of them: in
      `(f @ k) >> (g1 @ g2 @ g3)`, with `f` feeding `g1` and `g2`, the layers are `[f, k]` and
      `[g1, g3]`, and the well-typed composite raises `AxiomError`. */
  lemma FanOutDropsSuccessor()
    ensures
      var f := Box("f", [Named("a")], [Named("x1"), Named("x2")], NoData);
      var k := Box("k", [Named("b")], [Named("y")], NoData);
      var g1 := Box("g1", [Named("x1")], [Named("z1")], NoData);
      var g2 := Box("g2", [Named("x2")], [Named("z2")], NoData);
      var g3 := Box("g3", [Named("y")], [Named("z3")], NoData);
      var left := ReduceParallel([f, k]);
      var right := ReduceParallel([g1, g2, g3]);
      && left.Parallel? && right.Parallel? && left.cod == right.dom
      && Rebalanced(left.factors, right.factors) == Ok(Layers([f, k], [g1, g3]))
      && ParallelThen(left, right) == Err(AxiomError)
  {
    var f := Box("f", [Named("a")], [Named("x1"), Named("x2")], NoData);
    var k := Box("k", [Named("b")], [Named("y")], NoData);
    var g1 := Box("g1", [Named("x1")], [Named("z1")], NoData);
    var g2 := Box("g2", [Named("x2")], [Named("z2")], NoData);
    var g3 := Box("g3", [Named("y")], [Named("z3")], NoData);
    FanOutTypes(f, k, g1, g2, g3);
    FanOutRebalanced(f, k, g1, g2, g3);
    LayersMismatch(ReduceParallel([f, k]), ReduceParallel([g1, g2, g3]), Layers([f, k], [g1, g3]));
  }

  /** Well-typed operands whose layers do not meet: the final `Wiring.then` rejects them. */
  lemma LayersMismatch(left: Wiring, right: Wiring, layers: Layers)
    requires left.Parallel? && right.Parallel? && left.cod == right.dom
    requires Rebalanced(left.factors, right.factors) == Ok(layers)
    requires ReduceParallel(layers.fs).cod != ReduceParallel(layers.gs).dom
    ensures ParallelThen(left, right) == Err(AxiomError)
  {
    ParallelThenOf(left, right, Ok(layers));
  }

  lemma FanOutTypes(f: Wiring, k: Wiring, g1: Wiring, g2: Wiring, g3: Wiring)
    requires f == Box("f", [Named("a")], [Named("x1"), Named("x2")], NoData)
    requires k == Box("k", [Named("b")], [Named("y")], NoData)
    requires g1 == Box("g1", [Named("x1")], [Named("z1")], NoData)
    requires g2 == Box("g2", [Named("x2")], [Named("z2")], NoData)
    requires g3 == Box("g3", [Named("y")], [Named("z3")], NoData)
    ensures ReduceParallel([f, k]) == Parallel([f, k], f.dom + k.dom, f.cod + k.cod)
    ensures ReduceParallel([g1, g2, g3]) == Parallel([g1, g2, g3], g1.dom + g2.dom + g3.dom, g1.cod + g2.cod + g3.cod)
    ensures ReduceParallel([g1, g3]).dom == g1.dom + g3.dom
  {
    ReduceParallelOfAtoms([f, k]);
    ReduceParallelOfAtoms([g1, g2, g3]);
    ReduceParallelOfAtoms([g1, g3]);
    TypesOfThree(g1, g2, g3);
    TypesOfPair(f, k);
    TypesOfPair(g1, g3);
  }

  lemma TypesOfThree(x: Wiring, y: Wiring, z: Wiring)
    ensures Doms([x, y, z]) == x.dom + y.dom + z.dom && Cods([x, y, z]) == x.cod + y.cod + z.cod
  {
    assert [x, y, z][1..] == [y, z];
    TypesOfPair(y, z);
  }

  /** Successors of one domain wire each occupy one slot each. */
  lemma {:induction false} SlotsOfSingleWires(gs: seq<Wiring>)
    requires forall i :: 0 <= i < |gs| ==> |gs[i].dom| == 1
    ensures Slots(gs) == gs
  {
    if gs != [] {
      SlotsOfSingleWires(gs[1..]);
      assert seq(SlotWidth(gs[0]), _ => gs[0]) == [gs[0]];
      assert [gs[0]] + gs[1..] == gs;
    }
  }

  lemma FanOutRebalanced(f: Wiring, k: Wiring, g1: Wiring, g2: Wiring, g3: Wiring)
    requires f == Box("f", [Named("a")], [Named("x1"), Named("x2")], NoData)
    requires k == Box("k", [Named("b")], [Named("y")], NoData)
    requires g1 == Box("g1", [Named("x1")], [Named("z1")], NoData)
    requires g2 == Box("g2", [Named("x2")], [Named("z2")], NoData)
    requires g3 == Box("g3", [Named("y")], [Named("z3")], NoData)
    ensures Rebalanced([f, k], [g1, g2, g3]) == Ok(Layers([f, k], [g1, g3]))
  {
    var slots := [g1, g2, g3];
    SlotsOfSingleWires(slots);
    var fs := [f, k];
    var none: seq<Wiring> := [];
    FanOutSteps(f, k, g1, g2, g3);
    LayersFromStepOk(Layers(none, none), fs, 0, slots, 0, Layers([f], [g1]), 2);
    LayersFromStepOk(Layers([f], [g1]), fs, 1, slots, 2, Layers([f, k], [g1, g3]), 3);
    assert fs[0..] == fs && fs[2..] == [];
  }

  lemma FanOutSteps(f: Wiring, k: Wiring, g1: Wiring, g2: Wiring, g3: Wiring)
    requires f == Box("f", [Named("a")], [Named("x1"), Named("x2")], NoData)
    requires k == Box("k", [Named("b")], [Named("y")], NoData)
    requires g1 == Box("g1", [Named("x1")], [Named("z1")], NoData)
    requires g2 == Box("g2", [Named("x2")], [Named("z2")], NoData)
    requires g3 == Box("g3", [Named("y")], [Named("z3")], NoData)
    ensures Step(Layers([], []), f, [g1, g2, g3], 0) == Ok(Layers([f], [g1]))
    ensures Step(Layers([f], [g1]), k, [g1, g2, g3], 2) == Ok(Layers([f, k], [g1, g3]))
  {
    var none: seq<Wiring> := [];
    assert none + [f] == [f] && none + [g1] == [g1] && [f] + [k] == [f, k] && [g1] + [g3] == [g1, g3];
    assert g3 !in [g1];
  }

  /** Successors are told apart by equality: in `(f @ f) >> (g @ g)` the second `g` is already
      in `gs`, so the right layer is `[g]` and the well-typed composite raises `AxiomError`. */
  lemma RepeatedSuccessorDropped()
    ensures
      var f := Box("f", [Named("a")], [Named("x")], NoData);
      var g := Box("g", [Named("x")], [Named("z")], NoData);
      var left := ReduceParallel([f, f]);
      var right := ReduceParallel([g, g]);
      && left.Parallel? && right.Parallel? && left.cod == right.dom
      && Rebalanced(left.factors, right.factors) == Ok(Layers([f, f], [g]))
      && ParallelThen(left, right) == Err(AxiomError)
  {
    var f := Box("f", [Named("a")], [Named("x")], NoData);
    var g := Box("g", [Named("x")], [Named("z")], NoData);
    ReduceParallelOfAtoms([f, f]);
    ReduceParallelOfAtoms([g, g]);
    ReduceParallelOfAtoms([g]);
    TypesOfPair(f, f);
    TypesOfPair(g, g);
    RepeatedRebalanced(f, g);
    LayersMismatch(ReduceParallel([f, f]), ReduceParallel([g, g]), Layers([f, f], [g]));
  }

  lemma RepeatedRebalanced(f: Wiring, g: Wiring)
    requires f == Box("f", [Named("a")], [Named("x")], NoData)
    requires g == Box("g", [Named("x")], [Named("z")], NoData)
    ensures Rebalanced([f, f], [g, g]) == Ok(Layers([f, f], [g]))
  {
    SlotsOfSingleWires([g, g]);
    var none: seq<Wiring> := [];
    assert none + [f] == [f] && none + [g] == [g] && [f] + [f] == [f, f];
    assert Step(Layers(none, none), f, [g, g], 0) == Ok(Layers([f], [g]));
    assert Step(Layers([f], [g]), f, [g, g], 1) == Ok(Layers([f, f], [g]));
    assert [f, f][1..] == [f] && [f][1..] == [];
    assert LayersFrom(Layers([f], [g]), [f], [g, g], 1) == Ok(Layers([f, f], [g]));
  }
}
