/** `WiringFunctor`: the functor that rebuilds a wiring diagram box by box, typed or untyped,
    and in the untyped case narrows every recorded width to the wires actually connected. */
module Functors {
  import opened Types
  import opened Wirings
  import opened Compose
  import opened Catamorphism
  import opened Merging

  /** `WiringFunctor(typed)(w)`: apply the functor; the untyped one then merges the widths of
      its result. */
  function WiringFunctor(typed: bool, w: Wiring): Result<Wiring>
  {
    var image :- ApplyFunctor(if typed then TypedAr else UntypedAr, w);
    if typed then Ok(image) else Merged(image)
  }

  /** `WiringFunctor.__call__`, running the merging pass as the source's loops. */
  method RunWiringFunctor(typed: bool, w: Wiring) returns (r: Result<Wiring>)
    ensures r == WiringFunctor(typed, w)
  {
    var image := ApplyFunctor(if typed then TypedAr else UntypedAr, w);
    if image.Err? {
      return Err(image.error);
    }
    if typed {
      return image;
    }
    r := MergeWires(image.value);
  }

  /** The typed functor is the identity on chains: every box is rebuilt as it was and the
      chain is recomposed to itself. */
  lemma TypedFunctorFixesChains(c: Wiring)
    requires IsChain(c)
    ensures WiringFunctor(true, c) == Ok(c)
  {
    TypedArIsChainMap();
    if !c.Id? {
      var m := MappedChain(TypedAr, c);
      var arrows := ArrowsOf(c);
      assert MapArrows(TypedAr, arrows) == arrows;
      ChainEnds(c);
      ChainRebuild(m);
      ChainRebuild(c);
    }
  }

  /** Whatever the untyped functor returns is the untyped image of the diagram with some widths
      narrowed (same tree, same boxes, nothing wider), and every parallel in it records the
      concatenated types of its factors. */
  lemma UntypedFunctorNarrows(w: Wiring)
    ensures WiringFunctor(false, w).Ok? ==>
      && ApplyFunctor(UntypedAr, w).Ok?
      && Narrower(WiringFunctor(false, w).value, ApplyFunctor(UntypedAr, w).value)
      && TypesAgree(WiringFunctor(false, w).value)
  {
    var image := ApplyFunctor(UntypedAr, w);
    if image.Ok? {
      MergedNarrows(image.value);
      MergedTypesAgree(image.value);
    }
  }

  // ---------------------------------------------------------------------------
  // The worked example: `(f @ g) >> h` with f, g : x -> x @ x and h : x @ x @ x @ x -> y
  // ---------------------------------------------------------------------------

  const x: Ty := [Named("x")]
  const y: Ty := [Named("y")]
  const f: Wiring := Box("f", x, x + x, NoData)
  const g: Wiring := Box("g", x, x + x, NoData)
  const h: Wiring := Box("h", x + x + x + x, y, NoData)

  /** `reduce_sequential([a, b])` of two non-identity diagrams that are not parallels and whose
      types meet: a two-arrow sequential. */
  lemma ReducePair(a: Wiring, b: Wiring)
    requires !a.Id? && !a.Sequential? && !b.Id? && !b.Sequential? && !b.Parallel? && a.cod == b.dom
    ensures Then(a, b) == Ok(Sequential([a, b], a.dom, b.cod))
    ensures ReduceSequential([a, b]) == Ok(Sequential([a, b], a.dom, b.cod))
  {
    assert [a, b][1..] == [b];
    assert [b][1..] == [];
    assert ArrowsOf(a) == [a] && ArrowsOf(b) == [b];
    assert FlattenArrows([b]) == [b] + [] == [b];
    assert FlattenArrows([a, b]) == [a] + [b] == [a, b];
    assert MakeSequential([a, b]) == Ok(Sequential([a, b], a.dom, b.cod));
    assert BaseThen(a, b) == Ok(Sequential([a, b], a.dom, b.cod));
    assert Then(a, b) == Ok(Sequential([a, b], a.dom, b.cod));
    assert ThenAll(Sequential([a, b], a.dom, b.cod), []) == Ok(Sequential([a, b], a.dom, b.cod));
    assert ThenAll(a, [b]) == Ok(Sequential([a, b], a.dom, b.cod));
  }

  /** `reduce_parallel([a, b])` of two boxes that are not degenerate. */
  lemma TensorPair(a: Wiring, b: Wiring)
    requires a.Box? && b.Box? && !Degenerate(a) && !Degenerate(b)
    ensures ReduceParallel([a, b]) == Parallel([a, b], a.dom + b.dom, a.cod + b.cod)
    ensures Tensor(a, b) == Parallel([a, b], a.dom + b.dom, a.cod + b.cod)
  {
    ReduceParallelOfAtoms([a, b]);
    TypesOfPair(a, b);
    TensorFactors(a, b);
  }

  /** The typed diagram `(f @ g) >> h`: a sequential of the parallel of f and g, then h. */
  lemma ExampleDiagram()
    ensures Tensor(f, g) == Parallel([f, g], x + x, x + x + x + x)
    ensures Then(Tensor(f, g), h) == Ok(Sequential([Tensor(f, g), h], x + x, y))
  {
    TensorPair(f, g);
    assert x + x + (x + x) == x + x + x + x;
    ReducePair(Tensor(f, g), h);
  }

  /** Its untyped image before merging: every box keeps its widths. */
  lemma ExampleImage()
    ensures ApplyFunctor(UntypedAr, Sequential([Tensor(f, g), h], x + x, y))
      == Ok(Sequential([Parallel([UntypedAr(f), UntypedAr(g)], Pro(2), Pro(4)), UntypedAr(h)], Pro(2), Pro(1)))
  {
    ExampleDiagram();
    var alg: Algebra := v => FunctorAlg(UntypedAr, v);
    var f', g', h' := UntypedAr(f), UntypedAr(g), UntypedAr(h);
    var p := Tensor(f, g);
    assert Pro(1) + Pro(1) == Pro(2);
    assert Pro(2) + Pro(2) == Pro(4);
    TensorPair(f', g');
    var p' := Parallel([f', g'], Pro(2), Pro(4));
    assert Collapse(p, alg) == Ok(p') by {
      CollapseParallel(p, alg, [f', g']);
    }
    ReducePair(p', h');
    CollapseSequential(Sequential([p, h], x + x, y), alg, [p', h']);
  }

  const f1: Wiring := Box("f", Pro(1), Pro(1), NoData)
  const g1: Wiring := Box("g", Pro(1), Pro(1), NoData)
  const h2: Wiring := Box("h", Pro(2), Pro(1), NoData)

  /** The one boundary of the image: f and g each meet h on one factor, so each keeps one
      output wire; h meets two factors, so it keeps two input wires. */
  lemma ExampleBoundary()
    ensures Boundary(Parallel([UntypedAr(f), UntypedAr(g)], Pro(2), Pro(4)), UntypedAr(h))
      == Ok((Parallel([f1, g1], Pro(2), Pro(4)), h2))
  {
    var f', g', h' := UntypedAr(f), UntypedAr(g), UntypedAr(h);
    var p' := Parallel([f', g'], Pro(2), Pro(4));
    assert CodWidths([f', g']) == [2, 2] && DomWidths([h']) == [4];
    ExampleDegrees();
    var left, right := BoundaryWidths(p', h');
    assert Narrow(f', 1, true) == Ok(f1);
    assert Narrow(g', 1, true) == Ok(g1);
    assert Narrow(h', 2, false) == Ok(h2);
    assert Layer(left) == [f1, g1];
    assert Layer(right) == [h2];
  }

  lemma ExampleDegrees()
    ensures var wires := Adjacency([2, 2], [4], 4);
      Degree(wires, 0, true) == 1 && Degree(wires, 1, true) == 1 && Degree(wires, 0, false) == 2
  {
    var wires := ExampleWires();
    assert (set e | e in wires && End(e, true) == 0) == {(0, 0)};
    assert (set e | e in wires && End(e, true) == 1) == {(1, 0)};
    assert (set e | e in wires && End(e, false) == 0) == wires;
  }

  /** Merging the image: the boundary, then each arrow; the parallel records its new types. */
  lemma ExampleMerge()
    ensures Merged(Sequential([Parallel([UntypedAr(f), UntypedAr(g)], Pro(2), Pro(4)), UntypedAr(h)], Pro(2), Pro(1)))
      == Ok(Sequential([Parallel([f1, g1], Pro(2), Pro(2)), h2], Pro(2), Pro(1)))
  {
    var p'' := Parallel([f1, g1], Pro(2), Pro(4));
    ExampleBoundaries();
    ExampleMergedParallel();
    MergedAllPair(p'', h2);
    MergedSequentialOf([Parallel([UntypedAr(f), UntypedAr(g)], Pro(2), Pro(4)), UntypedAr(h)], Pro(2), Pro(1),
      [p'', h2], [Parallel([f1, g1], Pro(2), Pro(2)), h2]);
  }

  lemma ExampleBoundaries()
    ensures Boundaries([Parallel([UntypedAr(f), UntypedAr(g)], Pro(2), Pro(4)), UntypedAr(h)])
      == Ok([Parallel([f1, g1], Pro(2), Pro(4)), h2])
  {
    var p' := Parallel([UntypedAr(f), UntypedAr(g)], Pro(2), Pro(4));
    var arrows := [p', UntypedAr(h)];
    ExampleBoundary();
    var p'' := Parallel([f1, g1], Pro(2), Pro(4));
    assert arrows[0] == p' && arrows[1] == UntypedAr(h);
    assert arrows[0 := p''][1 := h2] == [p'', h2];
    assert BoundariesFrom([p'', h2], 1) == Ok([p'', h2]);
  }

  lemma ExampleMergedParallel()
    ensures Merged(Parallel([f1, g1], Pro(2), Pro(4))) == Ok(Parallel([f1, g1], Pro(2), Pro(2)))
  {
    MergedAllPair(f1, g1);
    TypesOfPair(f1, g1);
    assert Pro(1) + Pro(1) == Pro(2);
  }

  lemma MergedSequentialOf(arrows: seq<Wiring>, d: Ty, c: Ty, narrowed: seq<Wiring>, merged: seq<Wiring>)
    requires Boundaries(arrows) == Ok(narrowed)
    requires MergedAll(narrowed) == Ok(merged)
    ensures Merged(Sequential(arrows, d, c)) == Ok(Sequential(merged, d, c))
  {
  }

  lemma MergedAllPair(a: Wiring, b: Wiring)
    ensures MergedAll([a, b]) == (var ma :- Merged(a); var mb :- Merged(b); Ok([ma, mb]))
  {
    assert [a, b] == [a] + [b];
    MergedAllAppend([a], [b]);
    match Merged(a) {
      case Err(_) =>
      case Ok(ma) =>
        match Merged(b) {
          case Err(_) =>
          case Ok(mb) => assert [ma] + [mb] == [ma, mb];
        }
    }
    MergedAllSingle(a);
    MergedAllSingle(b);
  }

  /** The wires across the example's one boundary: both f and g meet h. */
  lemma ExampleWires() returns (wires: set<(nat, nat)>)
    ensures wires == {(0, 0), (1, 0)}
    ensures Adjacency([2, 2], [4], 4) == wires
  {
    wires := {(0, 0), (1, 0)};
    var ws := [2, 2];
    assert Start(ws, 1) == 2 && Start(ws, 2) == 4;
    assert Start([4], 1) == 4;
    forall q: nat | q < 4
      ensures Owner(ws, q) == (if q < 2 then 0 else 1) && Owner([4], q) == 0
    {
      if q < 2 {
        OwnerUnique(ws, q, 0);
      } else {
        OwnerUnique(ws, q, 1);
      }
      OwnerUnique([4], q, 0);
    }
    assert (Owner(ws, 0), Owner([4], 0)) == (0, 0);
    assert (Owner(ws, 2), Owner([4], 2)) == (1, 0);
  }

  /** The untyped functor on `(f @ g) >> h`: f and g end up with one output wire each and h
      with two input wires, while the typed functor leaves the diagram as it was. */
  lemma MergeScenario()
    ensures Then(Tensor(f, g), h).Ok?
    ensures WiringFunctor(false, Then(Tensor(f, g), h).value)
      == Ok(Sequential([Parallel([f1, g1], Pro(2), Pro(2)), h2], Pro(2), Pro(1)))
    ensures WiringFunctor(true, Then(Tensor(f, g), h).value) == Then(Tensor(f, g), h)
  {
    ExampleDiagram();
    ExampleImage();
    ExampleMerge();
    TypedScenario();
  }

  lemma TypedScenario()
    ensures Then(Tensor(f, g), h).Ok?
    ensures ApplyFunctor(TypedAr, Then(Tensor(f, g), h).value) == Then(Tensor(f, g), h)
  {
    ExampleDiagram();
    var alg: Algebra := v => FunctorAlg(TypedAr, v);
    var p := Tensor(f, g);
    TensorPair(f, g);
    assert Collapse(p, alg) == Ok(p) by {
      CollapseParallel(p, alg, [f, g]);
    }
    ReducePair(p, h);
    CollapseSequential(Sequential([p, h], x + x, y), alg, [p, h]);
  }
}
