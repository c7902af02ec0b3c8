/** Sequential composition `self >> other`, dispatched on `self` as `Id.then`, `Wiring.then`
    (boxes), `Sequential.then` and `Parallel.then` dispatch it, and `reduce_sequential`. */
module Compose {
  import opened Types
  import opened Wirings
  import opened Rebalance

  /** `a >> b`. */
  function Then(a: Wiring, b: Wiring): Result<Wiring>
    decreases a
  {
    match a
    case Id(_, c) =>
      if c != b.dom then Err(AxiomError) else Ok(b)
    case Box(_, _, _, _) =>
      BaseThen(a, b)
    case Sequential(arrows, _, c) =>
      if c != b.dom then Err(AxiomError)
      else if arrows == [] then Err(IndexError)
      else
        var last :- Then(arrows[|arrows| - 1], b);
        MakeSequential(DropLast(arrows) + Spliced(last))
    case Parallel(_, _, c) =>
      if c != b.dom then Err(AxiomError)
      else if b.Parallel? then ParallelThen(a, b)
      else BaseThen(a, b)
  }

  /** `functools.reduce(lambda f, g: f >> g, arrows, acc)`. */
  function ThenAll(acc: Wiring, arrows: seq<Wiring>): Result<Wiring>
    decreases |arrows|
  {
    if arrows == [] then Ok(acc)
    else
      var next :- Then(acc, arrows[0]);
      ThenAll(next, arrows[1..])
  }

  /** `reduce_sequential(arrows)`: a reduce without a start value, so an empty list raises. */
  function ReduceSequential(arrows: seq<Wiring>): Result<Wiring>
  {
    if arrows == [] then Err(TypeError) else ThenAll(arrows[0], arrows[1..])
  }

  /** Every variant rejects a composition whose types do not meet, and builds nothing. */
  lemma ThenRejectsMismatch(a: Wiring, b: Wiring)
    requires a.cod != b.dom
    ensures Then(a, b) == Err(AxiomError)
  {
  }

  /** `Id(x) >> g` is `g` exactly when `x` is `g`'s domain, and an `AxiomError` otherwise. */
  lemma ThenLeftUnit(x: Ty, g: Wiring)
    ensures Then(IdOn(x), g) == if x == g.dom then Ok(g) else Err(AxiomError)
  {
  }

  /** The shapes `then` builds: fresh identities, boxes, flattened sequentials, parallels. */
  predicate Normal(a: Wiring)
  {
    match a
    case Id(d, c) => d == c
    case Box(_, _, _, _) => true
    case Sequential(_, _, _) => SequentialShape(a)
    case Parallel(_, _, _) => true
  }

  /** `a >> Id(a.cod) == a` for every diagram of a shape `then` builds. */
  lemma ThenRightUnit(a: Wiring)
    requires Normal(a)
    ensures Then(a, IdOn(a.cod)) == Ok(a)
  {
    if a.Sequential? {
      var arrows := a.arrows;
      var x := arrows[|arrows| - 1];
      assert Then(x, IdOn(a.cod)) == Ok(x);
      assert DropLast(arrows) + [x] == arrows;
      SequentialRebuild(a);
    }
  }

  /** `Sequential.then` splices the composed last arrow back in: with at least two arrows, the
      result keeps the leading arrows and ends with the arrows of `last >> b`. */
  lemma SequentialThenSplices(s: Wiring, b: Wiring, x: Wiring)
    requires SequentialShape(s) && |s.arrows| >= 2 && s.cod == b.dom
    requires Then(Last(s.arrows), b) == Ok(x)
    requires !x.Id? && (x.Sequential? ==> SequentialShape(x))
    ensures var arrows' := DropLast(s.arrows) + ArrowsOf(x);
      Then(s, b) == Ok(Sequential(arrows', s.dom, Last(arrows').cod))
  {
    var init := DropLast(s.arrows);
    assert Spliced(x) == ArrowsOf(x);
    ThenSequentialUnfold(s, b, x);
    var arrows' := init + ArrowsOf(x);
    FlatSplice(init, x);
    FlattenArrowsIdempotent(arrows');
    assert arrows'[0] == init[0] == s.arrows[0];
  }

  /** Splicing a flat composite onto flat leading arrows keeps the list flat. */
  lemma FlatSplice(init: seq<Wiring>, x: Wiring)
    requires FlatArrows(init) && !x.Id? && (x.Sequential? ==> SequentialShape(x))
    ensures FlatArrows(init + ArrowsOf(x))
  {
    var tail := ArrowsOf(x);
    assert FlatArrows(tail);
    forall i | 0 <= i < |init + tail|
      ensures !(init + tail)[i].Id? && !(init + tail)[i].Sequential?
    {
      if i < |init| {
        assert (init + tail)[i] == init[i];
      } else {
        assert (init + tail)[i] == tail[i - |init|];
      }
    }
  }

  // ---------------------------------------------------------------------------
  // Chains of boxes: where the category laws hold
  // ---------------------------------------------------------------------------

  /** Consecutive arrows meet. */
  predicate Composable(arrows: seq<Wiring>)
  {
    forall i :: 0 <= i < |arrows| - 1 ==> arrows[i].cod == arrows[i + 1].dom
  }

  predicate AllBoxes(arrows: seq<Wiring>)
  {
    forall i :: 0 <= i < |arrows| ==> arrows[i].Box?
  }

  /** A fresh identity, a box, or a well-typed flat sequential of at least two boxes. */
  predicate IsChain(w: Wiring)
  {
    match w
    case Id(d, c) => d == c
    case Box(_, _, _, _) => true
    case Sequential(arrows, d, c) =>
      |arrows| >= 2 && AllBoxes(arrows) && Composable(arrows) && d == arrows[0].dom && c == Last(arrows).cod
    case Parallel(_, _, _) => false
  }

  /** The diagram `then` builds from a list of boxes: an identity on `d` when there are none, the
      box itself for one, a `Sequential` otherwise. */
  function FromArrows(arrows: seq<Wiring>, d: Ty): Wiring
  {
    if arrows == [] then IdOn(d)
    else if |arrows| == 1 then arrows[0]
    else Sequential(arrows, arrows[0].dom, Last(arrows).cod)
  }

  lemma ChainEnds(w: Wiring)
    requires IsChain(w)
    ensures AllBoxes(ArrowsOf(w)) && Composable(ArrowsOf(w))
    ensures ArrowsOf(w) != [] ==> ArrowsOf(w)[0].dom == w.dom && Last(ArrowsOf(w)).cod == w.cod
    ensures ArrowsOf(w) == [] ==> w == IdOn(w.dom) && w.dom == w.cod
    ensures w.Sequential? ==> |ArrowsOf(w)| >= 2
  {
  }

  lemma ChainOfArrows(arrows: seq<Wiring>, d: Ty)
    requires AllBoxes(arrows) && Composable(arrows)
    ensures IsChain(FromArrows(arrows, d))
    ensures ArrowsOf(FromArrows(arrows, d)) == arrows
    ensures arrows != [] ==> FromArrows(arrows, d).dom == arrows[0].dom && FromArrows(arrows, d).cod == Last(arrows).cod
  {
  }

  lemma ComposableAppend(xs: seq<Wiring>, ys: seq<Wiring>)
    requires Composable(xs) && Composable(ys)
    requires xs != [] && ys != [] ==> Last(xs).cod == ys[0].dom
    ensures Composable(xs + ys)
  {
    forall i | 0 <= i < |xs + ys| - 1
      ensures (xs + ys)[i].cod == (xs + ys)[i + 1].dom
    {
      if i < |xs| - 1 {
      } else if i == |xs| - 1 {
      } else {
        assert (xs + ys)[i] == ys[i - |xs|];
      }
    }
  }

  lemma FlattenBoxes(arrows: seq<Wiring>)
    requires AllBoxes(arrows)
    ensures FlattenArrows(arrows) == arrows
  {
    FlattenArrowsIdempotent(arrows);
  }

  /** Composing two chains concatenates their boxes, drops identities and keeps the types:
      the result is a chain from `a.dom` to `b.cod`. */
  lemma ThenChains(a: Wiring, b: Wiring)
    requires IsChain(a) && IsChain(b) && a.cod == b.dom
    ensures Then(a, b) == Ok(FromArrows(ArrowsOf(a) + ArrowsOf(b), a.dom))
    ensures IsChain(Then(a, b).value)
    ensures Then(a, b).value.dom == a.dom && Then(a, b).value.cod == b.cod
    ensures ArrowsOf(Then(a, b).value) == ArrowsOf(a) + ArrowsOf(b)
  {
    var xs := ArrowsOf(a) + ArrowsOf(b);
    ChainsAppend(a, b);
    ChainOfArrows(xs, a.dom);
    ThenChainsValue(a, b);
  }

  /** The boxes of two meeting chains form one composable list with the outer types. */
  lemma ChainsAppend(a: Wiring, b: Wiring)
    requires IsChain(a) && IsChain(b) && a.cod == b.dom
    ensures var xs := ArrowsOf(a) + ArrowsOf(b);
      && AllBoxes(xs) && Composable(xs)
      && (xs != [] ==> xs[0].dom == a.dom && Last(xs).cod == b.cod)
      && (xs == [] ==> a.dom == b.cod)
  {
    ChainEnds(a);
    ChainEnds(b);
    ComposableAppend(ArrowsOf(a), ArrowsOf(b));
  }

  /** `then` on two chains, variant by variant. */
  lemma ThenChainsValue(a: Wiring, b: Wiring)
    requires IsChain(a) && IsChain(b) && a.cod == b.dom
    ensures Then(a, b) == Ok(FromArrows(ArrowsOf(a) + ArrowsOf(b), a.dom))
  {
    if a.Sequential? {
      ThenSequentialChain(a, b);
    } else if a.Box? {
      BaseThenChain(a, b);
      assert Then(a, b) == BaseThen(a, b);
    } else {
      assert ArrowsOf(a) + ArrowsOf(b) == ArrowsOf(b);
      ChainRebuild(b);
      assert Then(a, b) == Ok(b);
    }
  }

  /** One step of `Sequential.then`: compose the last arrow, then splice its arrows back in. */
  lemma ThenSequentialUnfold(a: Wiring, b: Wiring, last: Wiring)
    requires a.Sequential? && a.arrows != [] && a.cod == b.dom
    requires Then(Last(a.arrows), b) == Ok(last)
    ensures Then(a, b) == MakeSequential(DropLast(a.arrows) + Spliced(last))
  {
  }

  /** The arrows `Sequential.then` splices in for the composed last arrow. */
  function Spliced(last: Wiring): seq<Wiring>
  {
    if last.Sequential? then last.arrows else [last]
  }

  lemma ThenSequentialChain(a: Wiring, b: Wiring)
    requires a.Sequential? && IsChain(a) && IsChain(b) && a.cod == b.dom
    ensures Then(a, b) == Ok(FromArrows(a.arrows + ArrowsOf(b), a.dom))
  {
    var arrows := a.arrows;
    var xs := arrows + ArrowsOf(b);
    var x := arrows[|arrows| - 1];
    var last := BoxThenChain(x, b);
    SpliceLast(arrows, ArrowsOf(b));
    ThenSequentialUnfold(a, b, last);
    ChainEnds(b);
    AllBoxesAppend(arrows, ArrowsOf(b));
    MakeSequentialOfBoxes(xs, a.dom);
  }

  lemma SpliceLast(xs: seq<Wiring>, tail: seq<Wiring>)
    requires xs != []
    ensures DropLast(xs) + ([Last(xs)] + tail) == xs + tail
  {
    assert DropLast(xs) + [Last(xs)] == xs;
  }

  lemma AllBoxesAppend(xs: seq<Wiring>, ys: seq<Wiring>)
    requires AllBoxes(xs) && AllBoxes(ys)
    ensures AllBoxes(xs + ys)
  {
    forall i | 0 <= i < |xs + ys|
      ensures (xs + ys)[i].Box?
    {
      if i >= |xs| {
        assert (xs + ys)[i] == ys[i - |xs|];
      }
    }
  }

  /** `Sequential(boxes)` of at least two boxes is the chain of those boxes. */
  lemma MakeSequentialOfBoxes(xs: seq<Wiring>, d: Ty)
    requires AllBoxes(xs) && |xs| >= 2
    ensures MakeSequential(xs) == Ok(FromArrows(xs, d))
  {
    FlattenBoxes(xs);
  }

  /** A box followed by a chain, as the last step of `Sequential.then` sees it. */
  lemma BoxThenChain(x: Wiring, b: Wiring) returns (last: Wiring)
    requires x.Box? && IsChain(b) && x.cod == b.dom
    ensures Then(x, b) == Ok(last)
    ensures Spliced(last) == [x] + ArrowsOf(b)
  {
    BaseThenChain(x, b);
    last := BaseThen(x, b).value;
    ChainEnds(b);
    ComposableAppend([x], ArrowsOf(b));
    ChainOfArrows([x] + ArrowsOf(b), x.dom);
  }

  /** A chain is rebuilt from its own boxes. */
  lemma ChainRebuild(w: Wiring)
    requires IsChain(w)
    ensures FromArrows(ArrowsOf(w), w.dom) == w
  {
  }

  /** A box followed by a chain: the base `then` puts the box in front of the chain's boxes. */
  lemma BaseThenChain(x: Wiring, b: Wiring)
    requires x.Box? && IsChain(b) && x.cod == b.dom
    ensures BaseThen(x, b) == Ok(FromArrows([x] + ArrowsOf(b), x.dom))
  {
    ChainEnds(b);
    if !b.Id? {
      assert [x, b][1..] == [b];
      assert [b][1..] == [];
      assert FlattenArrows([b]) == ArrowsOf(b) + FlattenArrows([]);
      assert FlattenArrows([x, b]) == ArrowsOf(x) + FlattenArrows([b]);
      var xs := [x] + ArrowsOf(b);
      assert FlattenArrows([x, b]) == xs;
      assert MakeSequential([x, b]) == Ok(Sequential(xs, xs[0].dom, Last(xs).cod));
      assert |xs| >= 2;
      assert BaseThen(x, b) == MakeSequential([x, b]);
    }
  }

  /** On chains, `>>` is associative: both bracketings succeed and give the same flat diagram. */
  lemma ThenAssociative(a: Wiring, b: Wiring, c: Wiring)
    requires IsChain(a) && IsChain(b) && IsChain(c)
    requires a.cod == b.dom && b.cod == c.dom
    ensures Then(a, b).Ok? && Then(b, c).Ok?
    ensures Then(Then(a, b).value, c) == Then(a, Then(b, c).value)
  {
    var ab := ChainThen(a, b);
    var bc := ChainThen(b, c);
    var left := ChainThen(ab, c);
    var right := ChainThen(a, bc);
    AppendAssoc(ArrowsOf(a), ArrowsOf(b), ArrowsOf(c), ArrowsOf(b) + ArrowsOf(c));
    ChainRebuild(left);
    ChainRebuild(right);
    assert left == right;
  }

  /** Once parallels take part, `>>` is not associative. For boxes `f: y -> z`, `g: x -> u`,
      `h: z -> v` and `c: u @ v -> w` of single wires, `(Id(x) @ f) >> (g @ h)` is rebalanced to
      `(g @ f) >> (Id(u) @ h)`, so `((Id(x) @ f) >> (g @ h)) >> c` starts with `g @ f`, while
      `(Id(x) @ f) >> ((g @ h) >> c)` keeps `Id(x) @ f` as its first arrow. */
  lemma ThenNotAssociativeWithParallels(x: Ty, f: Wiring, g: Wiring, h: Wiring, c: Wiring)
    requires f.Box? && g.Box? && h.Box? && c.Box?
    requires |x| == 1 && g.dom == x && |f.cod| == 1 && f.dom != [] && g.cod != []
    requires h.dom == f.cod && c.dom == g.cod + h.cod
    ensures var a, b := Tensor(IdOn(x), f), Tensor(g, h);
      && a.cod == b.dom && b.cod == c.dom
      && Then(a, b).Ok? && Then(b, c).Ok?
      && Then(Then(a, b).value, c) == Ok(Sequential([MakeParallel([g, f]), MakeParallel([IdOn(g.cod), h]), c], a.dom, c.cod))
      && Then(a, Then(b, c).value) == Ok(Sequential([a, b, c], a.dom, c.cod))
      && Then(Then(a, b).value, c) != Then(a, Then(b, c).value)
  {
    var a, b := ParallelOperands(x, f, g, h);
    var p1, p2 := RebalancedOperands(x, f, g, h, a, b);
    var ab := ThenOfParallels(a, b, Layers([g, f], [IdOn(g.cod), h]), p1, p2);
    LeftBracket(ab, p1, p2, c);
    RightBracket(a, b, c);
    assert p1.factors[0] == g != IdOn(x) == a.factors[0];
  }

  /** The two operands `Id(x) @ f` and `g @ h`. */
  lemma ParallelOperands(x: Ty, f: Wiring, g: Wiring, h: Wiring) returns (a: Wiring, b: Wiring)
    requires f.Box? && g.Box? && h.Box? && x != [] && f.cod != [] && g.dom != [] && h.dom != []
    ensures a == Tensor(IdOn(x), f) && b == Tensor(g, h)
    ensures a == Parallel([IdOn(x), f], x + f.dom, x + f.cod)
    ensures b == Parallel([g, h], g.dom + h.dom, g.cod + h.cod)
  {
    FlattenFactorsKnown(IdOn(x), f);
    FlattenFactorsKnown(g, h);
    TypesOfPair(IdOn(x), f);
    TypesOfPair(g, h);
    a, b := Tensor(IdOn(x), f), Tensor(g, h);
  }

  /** The layers of `(Id(x) @ f) >> (g @ h)`: the identity pulls in `g`, and `f` pulls in `h`. */
  lemma RebalancedOperands(x: Ty, f: Wiring, g: Wiring, h: Wiring, a: Wiring, b: Wiring)
      returns (p1: Wiring, p2: Wiring)
    requires f.Box? && g.Box? && h.Box?
    requires |x| == 1 && g.dom == x && |f.cod| == 1 && f.dom != [] && g.cod != [] && h.dom == f.cod
    requires a == Parallel([IdOn(x), f], x + f.dom, x + f.cod)
    requires b == Parallel([g, h], g.dom + h.dom, g.cod + h.cod)
    ensures Rebalanced(a.factors, b.factors) == Ok(Layers([g, f], [IdOn(g.cod), h]))
    ensures p1 == ReduceParallel([g, f]) == MakeParallel([g, f]) == Parallel([g, f], g.dom + f.dom, g.cod + f.cod)
    ensures p2 == ReduceParallel([IdOn(g.cod), h]) == MakeParallel([IdOn(g.cod), h])
    ensures p2 == Parallel([IdOn(g.cod), h], g.cod + h.dom, g.cod + h.cod)
  {
    IdFirstLayers(x, f, g, h);
    ReduceParallelOfAtoms([g, f]);
    TypesOfPair(g, f);
    FlattenFactorsKnown(g, f);
    p1 := ReduceParallel([g, f]);
    p2 := ReduceIdThenBox(IdOn(g.cod), h);
  }

  lemma IdFirstLayers(x: Ty, f: Wiring, g: Wiring, h: Wiring)
    requires f.Box? && g.Box? && h.Box?
    requires |x| == 1 && g.dom == x && |f.cod| == 1 && h.dom == f.cod
    ensures Rebalanced([IdOn(x), f], [g, h]) == Ok(Layers([g, f], [IdOn(g.cod), h]))
  {
    var slots := [g, h];
    SlotsOfSingleWires(slots);
    var fs := [IdOn(x), f];
    var none: seq<Wiring> := [];
    IdFirstSteps(x, f, g, h);
    LayersFromStepOk(Layers(none, none), fs, 0, slots, 0, Layers([g], [IdOn(g.cod)]), 1);
    LayersFromStepOk(Layers([g], [IdOn(g.cod)]), fs, 1, slots, 1, Layers([g, f], [IdOn(g.cod), h]), 2);
    assert fs[0..] == fs && fs[2..] == [];
  }

  lemma IdFirstSteps(x: Ty, f: Wiring, g: Wiring, h: Wiring)
    requires f.Box? && g.Box? && h.Box? && |x| == 1
    ensures Step(Layers([], []), IdOn(x), [g, h], 0) == Ok(Layers([g], [IdOn(g.cod)]))
    ensures Step(Layers([g], [IdOn(g.cod)]), f, [g, h], 1) == Ok(Layers([g, f], [IdOn(g.cod), h]))
  {
    var none: seq<Wiring> := [];
    assert none + [g] == [g] && none + [IdOn(g.cod)] == [IdOn(g.cod)];
    assert IdWires(Layers([g], [IdOn(g.cod)]), [g, h], 0, 1, 1) == Ok(Layers([g], [IdOn(g.cod)]));
    assert h !in [IdOn(g.cod)];
    assert [g] + [f] == [g, f] && [IdOn(g.cod)] + [h] == [IdOn(g.cod), h];
  }

  /** `reduce_parallel([Id(u), h])`: the empty unit vanishes and the identity stays a factor. */
  lemma ReduceIdThenBox(i: Wiring, h: Wiring) returns (p: Wiring)
    requires i.Id? && i.dom == i.cod && i.dom != [] && h.Box? && h.dom != []
    ensures p == ReduceParallel([i, h]) == MakeParallel([i, h]) == Parallel([i, h], i.dom + h.dom, i.cod + h.cod)
  {
    assert [i, h][1..] == [h] && [h][1..] == [];
    assert Tensor(IdOn([]), i) == i;
    assert ReduceParallel([i, h]) == TensorAll(i, [h]);
    assert TensorAll(i, [h]) == TensorAll(Tensor(i, h), []) == Tensor(i, h);
    assert Tensor(i, h) == MakeParallel([i, h]);
    FlattenFactorsKnown(i, h);
    TypesOfPair(i, h);
    p := MakeParallel([i, h]);
  }

  /** `Parallel.then` on the two operands, once the layers are known. */
  lemma ThenOfParallels(a: Wiring, b: Wiring, layers: Layers, p1: Wiring, p2: Wiring) returns (ab: Wiring)
    requires a.Parallel? && b.Parallel? && a.cod == b.dom && p1.Parallel? && p2.Parallel? && p1.cod == p2.dom
    requires Rebalanced(a.factors, b.factors) == Ok(layers)
    requires ReduceParallel(layers.fs) == p1 && ReduceParallel(layers.gs) == p2
    ensures Then(a, b) == Ok(ab) && ab == Sequential([p1, p2], p1.dom, p2.cod)
  {
    ParallelThenOf(a, b, Ok(layers));
    ThenOfTwo(p1, p2);
    ab := Sequential([p1, p2], p1.dom, p2.cod);
  }

  /** `((Id(x) @ f) >> (g @ h)) >> c`: `c` is composed with the last arrow and spliced in. */
  lemma LeftBracket(ab: Wiring, p1: Wiring, p2: Wiring, c: Wiring)
    requires ab == Sequential([p1, p2], p1.dom, p2.cod) && p1.Parallel? && p2.Parallel? && c.Box?
    requires p2.cod == c.dom
    ensures Then(ab, c) == Ok(Sequential([p1, p2, c], p1.dom, c.cod))
  {
    ThenOfTwo(p2, c);
    var last := Sequential([p2, c], p2.dom, c.cod);
    ThenSequentialUnfold(ab, c, last);
    assert DropLast(ab.arrows) + Spliced(last) == [p1, p2, c];
    FlattenArrowsIdempotent([p1, p2, c]);
  }

  /** `(Id(x) @ f) >> ((g @ h) >> c)`: the base `then` splices the sequential after `a`. */
  lemma RightBracket(a: Wiring, b: Wiring, c: Wiring)
    requires a.Parallel? && b.Parallel? && c.Box? && a.cod == b.dom && b.cod == c.dom
    ensures Then(b, c) == Ok(Sequential([b, c], b.dom, c.cod))
    ensures Then(a, Sequential([b, c], b.dom, c.cod)) == Ok(Sequential([a, b, c], a.dom, c.cod))
  {
    ThenOfTwo(b, c);
    var bc := Sequential([b, c], b.dom, c.cod);
    assert FlattenArrows([a, bc]) == [a] + FlattenArrows([bc]);
    assert FlattenArrows([bc]) == [b, c] + FlattenArrows([]);
    assert [a] + ([b, c] + []) == [a, b, c];
    assert BaseThen(a, bc) == MakeSequential([a, bc]);
  }

  /** `ThenChains`, with the composite named. */
  lemma ChainThen(a: Wiring, b: Wiring) returns (r: Wiring)
    requires IsChain(a) && IsChain(b) && a.cod == b.dom
    ensures Then(a, b) == Ok(r)
    ensures IsChain(r) && r.dom == a.dom && r.cod == b.cod
    ensures ArrowsOf(r) == ArrowsOf(a) + ArrowsOf(b)
  {
    ThenChains(a, b);
    r := Then(a, b).value;
  }

  /** `reduce_sequential` over a composable list of boxes is the chain of those boxes. */
  lemma ReduceSequentialChain(arrows: seq<Wiring>)
    requires arrows != [] && AllBoxes(arrows) && Composable(arrows)
    ensures ReduceSequential(arrows) == Ok(FromArrows(arrows, arrows[0].dom))
  {
    ThenAllChain(arrows[0], arrows[1..]);
    assert ArrowsOf(arrows[0]) + arrows[1..] == arrows;
  }

  lemma {:induction false} ThenAllChain(acc: Wiring, rest: seq<Wiring>)
    requires IsChain(acc) && AllBoxes(rest) && Composable(rest)
    requires rest != [] ==> acc.cod == rest[0].dom
    ensures ThenAll(acc, rest) == Ok(FromArrows(ArrowsOf(acc) + rest, acc.dom))
    decreases |rest|
  {
    if rest == [] {
      assert ArrowsOf(acc) + rest == ArrowsOf(acc);
      ChainRebuild(acc);
    } else {
      var next := ThenBox(acc, rest[0]);
      ThenAllUnfold(acc, rest, next);
      assert rest[1..] != [] ==> next.cod == rest[1..][0].dom;
      ThenAllChain(next, rest[1..]);
      FromArrowsSplice(ArrowsOf(acc), rest, ArrowsOf(next), next.dom, acc.dom);
    }
  }

  /** Moving the first of `rest` onto `xs` leaves the built chain unchanged. */
  lemma FromArrowsSplice(xs: seq<Wiring>, rest: seq<Wiring>, ys: seq<Wiring>, d1: Ty, d2: Ty)
    requires rest != [] && ys == xs + [rest[0]]
    ensures FromArrows(ys + rest[1..], d1) == FromArrows(xs + rest, d2)
  {
    assert ys + rest[1..] == xs + rest;
  }

  /** One step of the reduction: a chain followed by a box it meets. */
  lemma ThenBox(acc: Wiring, b: Wiring) returns (next: Wiring)
    requires IsChain(acc) && b.Box? && acc.cod == b.dom
    ensures Then(acc, b) == Ok(next)
    ensures IsChain(next) && next.dom == acc.dom && next.cod == b.cod
    ensures ArrowsOf(next) == ArrowsOf(acc) + [b]
  {
    ThenChains(acc, b);
    assert ArrowsOf(b) == [b];
    next := Then(acc, b).value;
  }

  lemma ThenAllUnfold(acc: Wiring, rest: seq<Wiring>, next: Wiring)
    requires rest != [] && Then(acc, rest[0]) == Ok(next)
    ensures ThenAll(acc, rest) == ThenAll(next, rest[1..])
  {
  }
}
