/** The wiring-diagram tree, its two normalising constructors and the operators that need
    no rebalancing: `Wiring.then`, `Wiring.tensor`, `Id.tensor` and `reduce_parallel`. */
module Wirings {
  import opened Types

  /** A wiring diagram. Every variant records its own domain and codomain: the width-merging
      pass rewrites them, and for `Id` it rewrites only the domain. */
  datatype Wiring =
    | Id(dom: Ty, cod: Ty)
    | Box(name: string, dom: Ty, cod: Ty, data: Data)
    | Sequential(arrows: seq<Wiring>, dom: Ty, cod: Ty)
    | Parallel(factors: seq<Wiring>, dom: Ty, cod: Ty)

  /** `Id(dom)`: a freshly built identity, with equal domain and codomain. */
  function IdOn(t: Ty): Wiring
  {
    Id(t, t)
  }

  /** Number of nodes; the width-merging pass keeps it, which is what its termination rests on. */
  function Size(w: Wiring): (s: nat)
    ensures s >= 1
  {
    match w
    case Id(_, _) => 1
    case Box(_, _, _, _) => 1
    case Sequential(arrows, _, _) => 1 + SizeAll(arrows)
    case Parallel(factors, _, _) => 1 + SizeAll(factors)
  }

  function SizeAll(ws: seq<Wiring>): nat
  {
    if ws == [] then 0 else Size(ws[0]) + SizeAll(ws[1..])
  }

  lemma {:induction false} SizeAllBound(ws: seq<Wiring>, i: nat)
    requires i < |ws|
    ensures Size(ws[i]) <= SizeAll(ws)
  {
    if i > 0 {
      SizeAllBound(ws[1..], i - 1);
    }
  }

  // ---------------------------------------------------------------------------
  // Sequential construction: `_flatten_arrows` and `Sequential.__init__`
  // ---------------------------------------------------------------------------

  /** What `_flatten_arrows` yields for one arrow: nothing for an identity, the arrows of a
      `Sequential` spliced in (one level, as they are), the arrow itself otherwise. */
  function ArrowsOf(w: Wiring): seq<Wiring>
  {
    match w
    case Id(_, _) => []
    case Sequential(arrows, _, _) => arrows
    case _ => [w]
  }

  function FlattenArrows(arrows: seq<Wiring>): seq<Wiring>
  {
    if arrows == [] then [] else ArrowsOf(arrows[0]) + FlattenArrows(arrows[1..])
  }

  /** The flattening invariant: no identity and no nested `Sequential`. */
  predicate FlatArrows(arrows: seq<Wiring>)
  {
    forall i :: 0 <= i < |arrows| ==> !arrows[i].Id? && !arrows[i].Sequential?
  }

  /** `Sequential(arrows)`: flatten, then take dom from the first arrow and cod from the last.
      An empty flattened list makes `self.arrows[0]` raise. */
  function MakeSequential(arrows: seq<Wiring>): Result<Wiring>
  {
    var flat := FlattenArrows(arrows);
    if flat == [] then Err(IndexError)
    else Ok(Sequential(flat, flat[0].dom, Last(flat).cod))
  }

  /** The shape every `Sequential` built by `MakeSequential` from flat parts has. */
  predicate SequentialShape(s: Wiring)
  {
    && s.Sequential?
    && s.arrows != []
    && FlatArrows(s.arrows)
    && s.dom == s.arrows[0].dom
    && s.cod == Last(s.arrows).cod
  }

  lemma {:induction false} FlattenArrowsAppend(xs: seq<Wiring>, ys: seq<Wiring>)
    ensures FlattenArrows(xs + ys) == FlattenArrows(xs) + FlattenArrows(ys)
  {
    if xs == [] {
      assert xs + ys == ys;
    } else {
      assert (xs + ys)[1..] == xs[1..] + ys;
      FlattenArrowsAppend(xs[1..], ys);
    }
  }

  /** Flattening leaves an already flat list alone. */
  lemma {:induction false} FlattenArrowsIdempotent(arrows: seq<Wiring>)
    requires FlatArrows(arrows)
    ensures FlattenArrows(arrows) == arrows
  {
    if arrows != [] {
      FlattenArrowsIdempotent(arrows[1..]);
    }
  }

  /** Flattening removes every identity and every nested `Sequential`, provided the
      `Sequential`s it splices are themselves flat (as every one built here is). */
  lemma {:induction false} FlattenArrowsIsFlat(arrows: seq<Wiring>)
    requires forall i :: 0 <= i < |arrows| && arrows[i].Sequential? ==> FlatArrows(arrows[i].arrows)
    ensures FlatArrows(FlattenArrows(arrows))
  {
    if arrows != [] {
      FlattenArrowsIsFlat(arrows[1..]);
    }
  }

  /** `Sequential(arrows)` fails exactly when nothing but identities (or empty sequentials) is
      passed; otherwise it is flat and its dom and cod are those of its first and last arrow. */
  lemma SequentialConstruction(arrows: seq<Wiring>)
    requires forall i :: 0 <= i < |arrows| && arrows[i].Sequential? ==> FlatArrows(arrows[i].arrows)
    ensures MakeSequential(arrows).Err? <==> forall i :: 0 <= i < |arrows| ==> ArrowsOf(arrows[i]) == []
    ensures MakeSequential(arrows).Ok? ==> SequentialShape(MakeSequential(arrows).value)
  {
    FlattenArrowsIsFlat(arrows);
    FlattenArrowsEmpty(arrows);
  }

  lemma {:induction false} FlattenArrowsEmpty(arrows: seq<Wiring>)
    ensures FlattenArrows(arrows) == [] <==> forall i :: 0 <= i < |arrows| ==> ArrowsOf(arrows[i]) == []
  {
    if arrows != [] {
      FlattenArrowsEmpty(arrows[1..]);
      assert forall i :: 1 <= i < |arrows| ==> arrows[i] == arrows[1..][i - 1];
    }
  }

  /** Rebuilding a `Sequential` from its own (flat) arrows gives it back unchanged. */
  lemma SequentialRebuild(s: Wiring)
    requires SequentialShape(s)
    ensures MakeSequential(s.arrows) == Ok(s)
  {
    FlattenArrowsIdempotent(s.arrows);
  }

  // ---------------------------------------------------------------------------
  // Parallel construction: `_flatten_factors` and `Parallel.__init__`
  // ---------------------------------------------------------------------------

  /** What `_flatten_factors` yields for one factor: nothing for an identity with an empty
      domain, the factors of a `Parallel` spliced in, the factor itself otherwise. */
  function FactorsOf(w: Wiring): seq<Wiring>
  {
    match w
    case Id(d, _) => if d == [] then [] else [w]
    case Parallel(factors, _, _) => factors
    case _ => [w]
  }

  function FlattenFactors(factors: seq<Wiring>): seq<Wiring>
  {
    if factors == [] then [] else FactorsOf(factors[0]) + FlattenFactors(factors[1..])
  }

  /** The flattening invariant: no nested `Parallel` and no empty identity. */
  predicate FlatFactors(factors: seq<Wiring>)
  {
    forall i :: 0 <= i < |factors| ==> !factors[i].Parallel? && !(factors[i].Id? && factors[i].dom == [])
  }

  /** `reduce_parallel` over the domains (codomains) of a list, starting from `Ty()`. */
  function Doms(ws: seq<Wiring>): Ty
  {
    if ws == [] then [] else ws[0].dom + Doms(ws[1..])
  }

  function Cods(ws: seq<Wiring>): Ty
  {
    if ws == [] then [] else ws[0].cod + Cods(ws[1..])
  }

  /** `Parallel(factors)`: flatten, then concatenate the factors' domains and codomains. */
  function MakeParallel(factors: seq<Wiring>): Wiring
  {
    var flat := FlattenFactors(factors);
    Parallel(flat, Doms(flat), Cods(flat))
  }

  /** A node whose recorded types agree with its parts at the top: identities have equal dom
      and cod, a `Parallel` records the concatenation of its factors' types, recursively. */
  predicate Consistent(w: Wiring)
  {
    match w
    case Id(d, c) => d == c
    case Box(_, _, _, _) => true
    case Sequential(_, _, _) => true
    case Parallel(factors, d, c) =>
      d == Doms(factors) && c == Cods(factors) && forall i :: 0 <= i < |factors| ==> Consistent(factors[i])
  }

  lemma {:induction false} DomsAppend(xs: seq<Wiring>, ys: seq<Wiring>)
    ensures Doms(xs + ys) == Doms(xs) + Doms(ys)
    ensures Cods(xs + ys) == Cods(xs) + Cods(ys)
  {
    if xs == [] {
      assert xs + ys == ys;
    } else {
      assert (xs + ys)[1..] == xs[1..] + ys;
      DomsAppend(xs[1..], ys);
    }
  }

  lemma {:induction false} FlattenFactorsAppend(xs: seq<Wiring>, ys: seq<Wiring>)
    ensures FlattenFactors(xs + ys) == FlattenFactors(xs) + FlattenFactors(ys)
  {
    if xs == [] {
      assert xs + ys == ys;
    } else {
      assert (xs + ys)[1..] == xs[1..] + ys;
      FlattenFactorsAppend(xs[1..], ys);
    }
  }

  /** Flattening factors removes every nested `Parallel` and every empty identity, provided
      the `Parallel`s it splices are themselves flat. */
  lemma {:induction false} FlattenFactorsIsFlat(factors: seq<Wiring>)
    requires forall i :: 0 <= i < |factors| && factors[i].Parallel? ==> FlatFactors(factors[i].factors)
    ensures FlatFactors(FlattenFactors(factors))
  {
    if factors != [] {
      FlattenFactorsIsFlat(factors[1..]);
    }
  }

  lemma {:induction false} FlattenFactorsIdempotent(factors: seq<Wiring>)
    requires FlatFactors(factors)
    ensures FlattenFactors(factors) == factors
  {
    if factors != [] {
      FlattenFactorsIdempotent(factors[1..]);
    }
  }

  /** Flattening keeps the concatenated types of consistent factors. */
  lemma {:induction false} FlattenFactorsTypes(factors: seq<Wiring>)
    requires forall i :: 0 <= i < |factors| ==> Consistent(factors[i])
    ensures Doms(FlattenFactors(factors)) == Doms(factors)
    ensures Cods(FlattenFactors(factors)) == Cods(factors)
    ensures forall i :: 0 <= i < |FlattenFactors(factors)| ==> Consistent(FlattenFactors(factors)[i])
  {
    if factors != [] {
      var f := factors[0];
      FlattenFactorsTypes(factors[1..]);
      DomsAppend(FactorsOf(f), FlattenFactors(factors[1..]));
      assert FlattenFactors(factors) == FactorsOf(f) + FlattenFactors(factors[1..]);
      if f.Id? && f.dom == [] {
        assert FactorsOf(f) == [];
      } else if !f.Parallel? {
        assert FactorsOf(f) == [f];
        assert Doms([f]) == f.dom && Cods([f]) == f.cod;
      }
    }
  }

  /** `Parallel(factors)` on consistent factors: its dom and cod are the in-order concatenation of
      the factors' dom and cod, it is flat when the spliced parallels are, and it is consistent. */
  lemma ParallelConstruction(factors: seq<Wiring>)
    requires forall i :: 0 <= i < |factors| ==> Consistent(factors[i])
    requires forall i :: 0 <= i < |factors| && factors[i].Parallel? ==> FlatFactors(factors[i].factors)
    ensures MakeParallel(factors).dom == Doms(factors)
    ensures MakeParallel(factors).cod == Cods(factors)
    ensures FlatFactors(MakeParallel(factors).factors)
    ensures Consistent(MakeParallel(factors))
  {
    FlattenFactorsTypes(factors);
    FlattenFactorsIsFlat(factors);
  }

  /** Rebuilding a consistent flat `Parallel` from its own factors gives it back unchanged. */
  lemma ParallelRebuild(p: Wiring)
    requires p.Parallel? && Consistent(p) && FlatFactors(p.factors)
    ensures MakeParallel(p.factors) == p
  {
    FlattenFactorsIdempotent(p.factors);
  }

  // ---------------------------------------------------------------------------
  // `Wiring.then`: the base sequential composition (no rebalancing)
  // ---------------------------------------------------------------------------

  /** `Wiring.then(self, other)`: reject mismatched types, drop identity operands, and build a
      `Sequential` only when two arrows remain. */
  function BaseThen(a: Wiring, b: Wiring): Result<Wiring>
  {
    if a.cod != b.dom then Err(AxiomError)
    else if a.Id? && b.Id? then Ok(IdOn(a.dom))
    else if b.Id? then Ok(a)
    else if a.Id? then Ok(b)
    else MakeSequential([a, b])
  }

  // ---------------------------------------------------------------------------
  // `Wiring.tensor`, `Id.tensor` and `reduce_parallel`
  // ---------------------------------------------------------------------------

  /** A factor `Wiring.tensor` drops: empty dom and empty cod. */
  predicate Degenerate(w: Wiring)
  {
    w.dom == [] && w.cod == []
  }

  /** `Wiring.tensor(self, other)`: drop degenerate factors, return a lone survivor unchanged,
      otherwise build a flattened `Parallel`. */
  function BaseTensor(a: Wiring, b: Wiring): Wiring
  {
    if Degenerate(a) && Degenerate(b) then IdOn([])
    else if Degenerate(b) then a
    else if Degenerate(a) then b
    else MakeParallel([a, b])
  }

  /** `self @ other`, dispatched on `self`: `Id` overrides `tensor`, the others inherit it. */
  function Tensor(a: Wiring, b: Wiring): Wiring
  {
    if a.Id? then
      if a.dom == [] then b
      else if b.Id? then IdOn(a.dom + b.dom)
      else BaseTensor(a, b)
    else BaseTensor(a, b)
  }

  /** `functools.reduce(lambda x, y: x @ y, factors, acc)`. */
  function TensorAll(acc: Wiring, factors: seq<Wiring>): Wiring
    decreases |factors|
  {
    if factors == [] then acc else TensorAll(Tensor(acc, factors[0]), factors[1..])
  }

  /** `reduce_parallel(factors)` with its default unit `Id(Ty())`. */
  function ReduceParallel(factors: seq<Wiring>): Wiring
  {
    TensorAll(IdOn([]), factors)
  }

  /** The empty identity is a left unit of `@`, and a right unit for every diagram that is not a
      degenerate non-identity (those are dropped and leave the empty identity behind). */
  lemma TensorUnits(g: Wiring)
    requires g.Id? ==> g.dom == g.cod
    ensures Tensor(IdOn([]), g) == g
    ensures Tensor(g, IdOn([])) == g <==> (g.Id? || !Degenerate(g))
  {
  }

  /** `Id(x) @ Id(y) == Id(x @ y)`: two identities merge instead of forming a `Parallel`. */
  lemma TensorOfIds(x: Ty, y: Ty)
    ensures Tensor(IdOn(x), IdOn(y)) == IdOn(x + y)
  {
  }

  /** When neither operand is an identity and neither is degenerate, `a @ b` is the
      `Parallel` of their spliced factors, typed by the concatenation of their types. */
  lemma TensorFactors(a: Wiring, b: Wiring)
    requires !a.Id? && !b.Id? && !Degenerate(a) && !Degenerate(b)
    ensures Tensor(a, b) == MakeParallel([a, b])
    ensures Tensor(a, b).factors == FactorsOf(a) + FactorsOf(b)
  {
    assert FlattenFactors([a, b]) == FactorsOf(a) + FlattenFactors([b]);
    assert FlattenFactors([b]) == FactorsOf(b) + FlattenFactors([]);
  }

  /** A tensor operand that associativity can be stated for: a box, a sequential, or a
      consistent flat parallel, none of them degenerate. */
  predicate TensorOperand(w: Wiring)
  {
    && !w.Id?
    && !Degenerate(w)
    && (w.Parallel? ==> Consistent(w) && FlatFactors(w.factors))
  }

  lemma {:induction false} FlatFactorsFactorsOf(w: Wiring)
    requires TensorOperand(w)
    ensures FlatFactors(FactorsOf(w)) || !w.Parallel?
    ensures w.Parallel? ==> Doms(FactorsOf(w)) == w.dom && Cods(FactorsOf(w)) == w.cod
    ensures !w.Parallel? ==> FactorsOf(w) == [w]
  {
  }

  /** `@` is associative on non-identity operands: both bracketings give the one flat
      `Parallel` of all factors in order. */
  lemma TensorAssociative(a: Wiring, b: Wiring, c: Wiring)
    requires TensorOperand(a) && TensorOperand(b) && TensorOperand(c)
    ensures Tensor(Tensor(a, b), c) == Tensor(a, Tensor(b, c))
    ensures Tensor(Tensor(a, b), c).factors == FactorsOf(a) + FactorsOf(b) + FactorsOf(c)
  {
    var ab := TensorPair(a, b);
    var bc := TensorPair(b, c);
    var all := FactorsOf(a) + FactorsOf(b) + FactorsOf(c);
    TensorOfKnownFactors(ab, c, all);
    AppendAssoc(FactorsOf(a), FactorsOf(b), FactorsOf(c), FactorsOf(bc));
    TensorOfKnownFactors(a, bc, all);
  }

  /** The tensor of two operands is a non-degenerate `Parallel` whose factors are theirs. */
  lemma TensorPair(a: Wiring, b: Wiring) returns (ab: Wiring)
    requires TensorOperand(a) && TensorOperand(b)
    ensures Tensor(a, b) == ab
    ensures !ab.Id? && !Degenerate(ab) && FactorsOf(ab) == FactorsOf(a) + FactorsOf(b)
  {
    TensorFactors(a, b);
    TypesOfFactors(a);
    TypesOfFactors(b);
    DomsAppend(FactorsOf(a), FactorsOf(b));
    ab := Tensor(a, b);
  }

  /** A tensor of non-degenerate non-identities is the `Parallel` typed by its factor list. */
  lemma TensorOfKnownFactors(a: Wiring, b: Wiring, fs: seq<Wiring>)
    requires !a.Id? && !b.Id? && !Degenerate(a) && !Degenerate(b)
    requires FactorsOf(a) + FactorsOf(b) == fs
    ensures Tensor(a, b) == Parallel(fs, Doms(fs), Cods(fs))
  {
    TensorFactors(a, b);
  }

  lemma FlattenFactorsKnown(a: Wiring, b: Wiring)
    ensures FlattenFactors([a, b]) == FactorsOf(a) + FactorsOf(b)
  {
    assert FlattenFactors([a, b]) == FactorsOf(a) + FlattenFactors([b]);
    assert FlattenFactors([b]) == FactorsOf(b) + FlattenFactors([]);
  }

  /** The concatenated types of a list of two. */
  lemma TypesOfPair(a: Wiring, b: Wiring)
    ensures Doms([a, b]) == a.dom + b.dom && Cods([a, b]) == a.cod + b.cod
  {
    assert [a, b][1..] == [b] && [b][1..] == [];
    assert Doms([b]) == b.dom + Doms([]) == b.dom;
    assert Cods([b]) == b.cod + Cods([]) == b.cod;
  }

  lemma TypesOfFactors(w: Wiring)
    requires TensorOperand(w)
    ensures Doms(FactorsOf(w)) == w.dom && Cods(FactorsOf(w)) == w.cod
  {
    if !w.Parallel? {
      assert FactorsOf(w) == [w];
      assert Doms([w]) == w.dom + Doms([]);
      assert Cods([w]) == w.cod + Cods([]);
    }
  }

  /** `@` is not associative once identities take part: `Id(x) @ Id(y)` merges into one identity
      first on the left, but stays two factors when the box comes first on the right. */
  lemma TensorNotAssociativeWithIds()
    ensures var x, y, b := [Named("x")], [Named("y")], Box("f", [Named("z")], [Named("z")], NoData);
      && Tensor(Tensor(IdOn(x), IdOn(y)), b).factors == [IdOn(x + y), b]
      && Tensor(IdOn(x), Tensor(IdOn(y), b)).factors == [IdOn(x), IdOn(y), b]
  {
    var x, y, b := [Named("x")], [Named("y")], Box("f", [Named("z")], [Named("z")], NoData);
    FlattenFactorsKnown(IdOn(x + y), b);
    FlattenFactorsKnown(IdOn(y), b);
    var yb := Tensor(IdOn(y), b);
    assert yb.factors == [IdOn(y), b];
    FlattenFactorsKnown(IdOn(x), yb);
  }

  /** Folding `@` over non-identity, non-degenerate, non-parallel diagrams: none gives the
      empty identity, one gives itself, more give the `Parallel` of them all, in order. */
  lemma {:induction false} ReduceParallelOfAtoms(factors: seq<Wiring>)
    requires forall i :: 0 <= i < |factors| ==> !factors[i].Id? && !factors[i].Parallel? && !Degenerate(factors[i])
    ensures factors == [] ==> ReduceParallel(factors) == IdOn([])
    ensures |factors| == 1 ==> ReduceParallel(factors) == factors[0]
    ensures |factors| >= 2 ==> ReduceParallel(factors) == Parallel(factors, Doms(factors), Cods(factors))
  {
    if |factors| >= 2 {
      TensorAllOfAtoms(factors[0], factors[1..]);
      assert [factors[0]] + factors[1..] == factors;
    } else if |factors| == 1 {
      assert TensorAll(IdOn([]), factors) == TensorAll(factors[0], factors[1..]);
    }
  }

  lemma {:induction false} TensorAllOfAtoms(first: Wiring, rest: seq<Wiring>)
    requires !first.Id? && !first.Parallel? && !Degenerate(first)
    requires rest != []
    requires forall i :: 0 <= i < |rest| ==> !rest[i].Id? && !rest[i].Parallel? && !Degenerate(rest[i])
    ensures TensorAll(first, rest) == Parallel([first] + rest, Doms([first] + rest), Cods([first] + rest))
  {
    var p := Tensor(first, rest[0]);
    FlattenFactorsKnown(first, rest[0]);
    assert p == Parallel([first, rest[0]], Doms([first, rest[0]]), Cods([first, rest[0]]));
    TensorAllParallel([first, rest[0]], rest[1..]);
    assert [first, rest[0]] + rest[1..] == [first] + rest;
  }

  lemma {:induction false} TensorAllParallel(done: seq<Wiring>, rest: seq<Wiring>)
    requires |done| >= 2
    requires forall i :: 0 <= i < |done| ==> !done[i].Id? && !done[i].Parallel? && !Degenerate(done[i])
    requires forall i :: 0 <= i < |rest| ==> !rest[i].Id? && !rest[i].Parallel? && !Degenerate(rest[i])
    ensures TensorAll(Parallel(done, Doms(done), Cods(done)), rest)
         == Parallel(done + rest, Doms(done + rest), Cods(done + rest))
    decreases |rest|
  {
    var p := Parallel(done, Doms(done), Cods(done));
    if rest == [] {
      assert done + rest == done;
    } else {
      var g := rest[0];
      TensorParallelStep(done, g);
      TensorAllParallel(done + [g], rest[1..]);
      AppendCons(done, rest);
    }
  }

  /** A flat `Parallel` tensored with one more atom takes it as its last factor. */
  lemma TensorParallelStep(done: seq<Wiring>, g: Wiring)
    requires done != [] && !Degenerate(done[0])
    requires !g.Id? && !g.Parallel? && !Degenerate(g)
    ensures Tensor(Parallel(done, Doms(done), Cods(done)), g)
         == Parallel(done + [g], Doms(done + [g]), Cods(done + [g]))
  {
    var p := Parallel(done, Doms(done), Cods(done));
    assert !Degenerate(p) by {
      DomsAppend([done[0]], done[1..]);
      assert [done[0]] + done[1..] == done;
      assert Doms([done[0]]) == done[0].dom + Doms([]);
      assert Cods([done[0]]) == done[0].cod + Cods([]);
    }
    FlattenFactorsKnown(p, g);
    assert FlattenFactors([p, g]) == done + [g];
  }

  lemma AppendCons(xs: seq<Wiring>, ys: seq<Wiring>)
    requires ys != []
    ensures xs + [ys[0]] + ys[1..] == xs + ys
  {
    assert [ys[0]] + ys[1..] == ys;
  }
}
