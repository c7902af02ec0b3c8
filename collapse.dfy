/** `collapse`: the bottom-up fold that `dagger` and every `Functor` are built from, with the
    dagger algebra `_dagger_falg` and the functor algebra `Functor.__functor_falg__`. */
module Catamorphism {
  import opened Types
  import opened Wirings
  import opened Compose

  /** What `collapse` applies to a node once its children have been collapsed and recombined. */
  type Algebra = Wiring -> Result<Wiring>

  /** `w.collapse(falg)`. A leaf goes to the algebra as it is. A `Sequential` collapses its arrows
      one at a time and composes them with `>>` in their original order (`reduce_sequential`, so
      an empty list raises); a `Parallel` collapses its factors and tensors them onto `Id(Ty())`
      (`reduce_parallel`). The algebra then sees the recombined diagram. */
  function Collapse(w: Wiring, alg: Algebra): Result<Wiring>
    decreases w, 1, 0
  {
    match w
    case Id(_, _) => alg(w)
    case Box(_, _, _, _) => alg(w)
    case Sequential(arrows, _, _) =>
      if arrows == [] then Err(TypeError)
      else
        var first :- Collapse(arrows[0], alg);
        var folded :- CollapseArrows(w, alg, first, 1);
        alg(folded)
    case Parallel(_, _, _) =>
      var folded :- CollapseFactors(w, alg, IdOn([]), 0);
      alg(folded)
  }

  /** The `reduce_sequential` over the lazily collapsed arrows `i..` of `w`, onto `acc`. */
  function CollapseArrows(w: Wiring, alg: Algebra, acc: Wiring, i: nat): Result<Wiring>
    requires w.Sequential? && i <= |w.arrows|
    decreases w, 0, |w.arrows| - i
  {
    if i == |w.arrows| then Ok(acc)
    else
      var next :- Collapse(w.arrows[i], alg);
      var acc' :- Then(acc, next);
      CollapseArrows(w, alg, acc', i + 1)
  }

  /** The `reduce_parallel` over the lazily collapsed factors `i..` of `w`, onto `acc`. */
  function CollapseFactors(w: Wiring, alg: Algebra, acc: Wiring, i: nat): Result<Wiring>
    requires w.Parallel? && i <= |w.factors|
    decreases w, 0, |w.factors| - i
  {
    if i == |w.factors| then Ok(acc)
    else
      var next :- Collapse(w.factors[i], alg);
      CollapseFactors(w, alg, Tensor(acc, next), i + 1)
  }

  /** Once every arrow from `i` on collapses, the fold is `reduce_sequential` over the images. */
  lemma {:induction false} CollapseArrowsFold(w: Wiring, alg: Algebra, acc: Wiring, i: nat, images: seq<Wiring>)
    requires w.Sequential? && i <= |w.arrows| && |images| == |w.arrows|
    requires forall j :: i <= j < |w.arrows| ==> Collapse(w.arrows[j], alg) == Ok(images[j])
    ensures CollapseArrows(w, alg, acc, i) == ThenAll(acc, images[i..])
    decreases |w.arrows| - i
  {
    if i < |w.arrows| {
      match Then(acc, images[i])
      case Err(_) =>
      case Ok(acc') =>
        CollapseArrowsFold(w, alg, acc', i + 1, images);
        assert images[i..][1..] == images[i + 1..];
    }
  }

  /** Once every factor from `i` on collapses, the fold is `reduce_parallel` over the images. */
  lemma {:induction false} CollapseFactorsFold(w: Wiring, alg: Algebra, acc: Wiring, i: nat, images: seq<Wiring>)
    requires w.Parallel? && i <= |w.factors| && |images| == |w.factors|
    requires forall j :: i <= j < |w.factors| ==> Collapse(w.factors[j], alg) == Ok(images[j])
    ensures CollapseFactors(w, alg, acc, i) == Ok(TensorAll(acc, images[i..]))
    decreases |w.factors| - i
  {
    if i < |w.factors| {
      CollapseFactorsFold(w, alg, Tensor(acc, images[i]), i + 1, images);
      assert images[i..][1..] == images[i + 1..];
    }
  }

  /** `collapse` of a `Sequential` whose arrows all collapse: the algebra applied to
      `reduce_sequential` of the images, in the original order. */
  lemma CollapseSequential(w: Wiring, alg: Algebra, images: seq<Wiring>)
    requires w.Sequential? && w.arrows != [] && |images| == |w.arrows|
    requires forall j :: 0 <= j < |w.arrows| ==> Collapse(w.arrows[j], alg) == Ok(images[j])
    ensures Collapse(w, alg) == (var r :- ReduceSequential(images); alg(r))
  {
    CollapseArrowsFold(w, alg, images[0], 1, images);
  }

  /** `collapse` of a `Parallel` whose factors all collapse: the algebra applied to
      `reduce_parallel` of the images, in the original order. */
  lemma CollapseParallel(w: Wiring, alg: Algebra, images: seq<Wiring>)
    requires w.Parallel? && |images| == |w.factors|
    requires forall j :: 0 <= j < |w.factors| ==> Collapse(w.factors[j], alg) == Ok(images[j])
    ensures Collapse(w, alg) == alg(ReduceParallel(images))
  {
    CollapseFactorsFold(w, alg, IdOn([]), 0, images);
    assert images[0..] == images;
  }

  // ---------------------------------------------------------------------------
  // The dagger: `Wiring.dagger` is `collapse(_dagger_falg)`
  // ---------------------------------------------------------------------------

  /** Toggle the trailing adjoint marker of a box name. */
  function DaggerName(name: string): string
    requires name != []
  {
    if Last(name) == '†' then DropLast(name) else name + "†"
  }

  /** `_dagger_falg`: a box is renamed and turned around (indexing `name[-1]`, so an empty name
      raises), a sequential is recomposed in reverse order, anything else is kept. */
  function DaggerAlg(w: Wiring): Result<Wiring>
  {
    match w
    case Box(name, d, c, data) =>
      if name == [] then Err(IndexError) else Ok(Box(DaggerName(name), c, d, data))
    case Sequential(arrows, _, _) => ReduceSequential(Reverse(arrows))
    case _ => Ok(w)
  }

  /** `w.dagger()`. */
  function Dagger(w: Wiring): Result<Wiring>
  {
    Collapse(w, DaggerAlg)
  }

  /** A box's dagger exists exactly when its name is non-empty; it swaps dom and cod, keeps the
      data and toggles the trailing marker: strips it when present, appends it otherwise. */
  lemma BoxDagger(b: Wiring)
    requires b.Box?
    ensures Dagger(b).Ok? <==> b.name != []
    ensures Dagger(b).Ok? ==> var d := Dagger(b).value;
      && d.Box? && d.dom == b.cod && d.cod == b.dom && d.data == b.data
      && (if Last(b.name) == '†' then d.name + "†" == b.name else d.name == b.name + "†")
  {
    if b.name != [] && Last(b.name) == '†' {
      assert DropLast(b.name) + "†" == b.name;
    }
  }

  /** Daggering a box twice gives it back exactly when the name is non-empty, is not the bare
      marker (whose dagger has an empty name) and does not end in two markers (the first dagger
      strips one, the second strips another). */
  lemma BoxDaggerTwice(b: Wiring)
    requires b.Box?
    ensures (Dagger(b).Ok? && Dagger(Dagger(b).value) == Ok(b))
        <==> (b.name != [] && b.name != "†" && !(|b.name| >= 2 && b.name[|b.name| - 2..] == "††"))
  {
    var n := b.name;
    if n != [] {
      var n1 := DaggerName(n);
      if Last(n) == '†' {
        if n != "†" {
          assert n1 != [];
          if |n| >= 2 && n[|n| - 2..] == "††" {
            assert Last(n1) == '†';
            assert |DaggerName(n1)| < |n|;
          } else {
            assert Last(n1) != '†' by {
              assert n[|n| - 2..] == [n[|n| - 2], n[|n| - 1]];
            }
            assert n1 + "†" == n;
          }
        } else {
          assert n1 == [];
        }
      } else {
        assert Last(n1) == '†';
        assert DropLast(n1) == n;
        if |n| >= 2 {
          assert n[|n| - 2..][1] == Last(n);
        }
      }
    }
  }

  /** A box turned around: the dagger of a box with a non-empty name. */
  function BoxDaggered(b: Wiring): Wiring
    requires b.Box? && b.name != []
  {
    Box(DaggerName(b.name), b.cod, b.dom, b.data)
  }

  predicate DaggerableAtom(w: Wiring)
  {
    w.Box? && w.name != [] && !Degenerate(w)
  }

  lemma {:induction false} DomsCodsOfDaggered(fs: seq<Wiring>, ds: seq<Wiring>)
    requires |ds| == |fs|
    requires forall i :: 0 <= i < |fs| ==> DaggerableAtom(fs[i]) && ds[i] == BoxDaggered(fs[i])
    ensures Doms(ds) == Cods(fs) && Cods(ds) == Doms(fs)
  {
    if fs != [] {
      DomsCodsOfDaggered(fs[1..], ds[1..]);
    }
  }

  /** The dagger of a parallel of boxes keeps the factor order: factor `i` of the result is the
      dagger of factor `i`, and the result runs from the original cod to the original dom. */
  lemma DaggerParallelKeepsOrder(p: Wiring)
    requires p.Parallel? && |p.factors| >= 2
    requires forall i :: 0 <= i < |p.factors| ==> DaggerableAtom(p.factors[i])
    ensures Dagger(p).Ok? && Dagger(p).value.Parallel?
    ensures var d := Dagger(p).value;
      && |d.factors| == |p.factors|
      && (forall i :: 0 <= i < |p.factors| ==> Dagger(p.factors[i]) == Ok(d.factors[i]))
      && d.dom == Cods(p.factors) && d.cod == Doms(p.factors)
  {
    var fs := p.factors;
    var ds := seq(|fs|, i requires 0 <= i < |fs| => BoxDaggered(fs[i]));
    forall j | 0 <= j < |fs|
      ensures Collapse(fs[j], DaggerAlg) == Ok(ds[j])
    {
    }
    CollapseParallel(p, DaggerAlg, ds);
    ReduceParallelOfAtoms(ds);
    DomsCodsOfDaggered(fs, ds);
  }

  /** The dagger of `f >> g` for two boxes: `collapse` first composes `f†` with `g†` in the
      original order, which type-checks only when `f` starts where `g` ends; only then does the
      algebra reverse the pair into `g† >> f†`. */
  lemma DaggerSequentialPair(f: Wiring, g: Wiring)
    requires f.Box? && g.Box? && f.name != [] && g.name != [] && f.cod == g.dom
    ensures Dagger(Sequential([f, g], f.dom, g.cod))
         == if f.dom == g.cod then Ok(Sequential([BoxDaggered(g), BoxDaggered(f)], g.cod, f.dom))
            else Err(AxiomError)
  {
    var s := Sequential([f, g], f.dom, g.cod);
    var fd, gd := BoxDaggered(f), BoxDaggered(g);
    assert Collapse(f, DaggerAlg) == Ok(fd);
    assert Collapse(g, DaggerAlg) == Ok(gd);
    CollapseSequential(s, DaggerAlg, [fd, gd]);
    if f.dom == g.cod {
      ReduceSequentialChain([fd, gd]);
      assert Reverse([fd, gd]) == [gd, fd];
      ReduceSequentialChain([gd, fd]);
    } else {
      assert [gd][1..] == [];
      assert ReduceSequential([fd, gd]) == Err(AxiomError);
    }
  }

  /** A concrete `f: x -> y`, `g: y -> z` whose composite has no dagger. */
  lemma DaggerOfCompositeFails()
    ensures var f, g := Box("f", [Named("x")], [Named("y")], NoData), Box("g", [Named("y")], [Named("z")], NoData);
      Dagger(Sequential([f, g], f.dom, g.cod)) == Err(AxiomError)
  {
    var f, g := Box("f", [Named("x")], [Named("y")], NoData), Box("g", [Named("y")], [Named("z")], NoData);
    DaggerSequentialPair(f, g);
  }

  // ---------------------------------------------------------------------------
  // The dagger a free dagger PROP calls for: children reversed before they are composed
  // ---------------------------------------------------------------------------

  /** The children a composite hands to `collapse`. */
  function Children(w: Wiring): seq<Wiring>
    requires w.Sequential? || w.Parallel?
  {
    if w.Sequential? then w.arrows else w.factors
  }

  /** `collapse` with a `Sequential` handing the algebra its collapsed arrows as an uncomposed
      node, so that the algebra decides the order they are composed in. */
  function IntendedCollapse(w: Wiring, alg: Algebra): Result<Wiring>
    decreases w, 1, 0
  {
    match w
    case Id(_, _) => alg(w)
    case Box(_, _, _, _) => alg(w)
    case Sequential(_, _, _) =>
      var images :- IntendedImages(w, alg, 0);
      var node :- MakeSequential(images);
      alg(node)
    case Parallel(_, _, _) =>
      var images :- IntendedImages(w, alg, 0);
      alg(ReduceParallel(images))
  }

  /** The collapsed children `i..` of a composite, in order, stopping at the first failure. */
  function IntendedImages(w: Wiring, alg: Algebra, i: nat): (r: Result<seq<Wiring>>)
    requires (w.Sequential? || w.Parallel?) && i <= |Children(w)|
    ensures r.Ok? ==> |r.value| == |Children(w)| - i
    decreases w, 0, |Children(w)| - i
  {
    if i == |Children(w)| then Ok([])
    else
      var x :- IntendedCollapse(if w.Sequential? then w.arrows[i] else w.factors[i], alg);
      var rest :- IntendedImages(w, alg, i + 1);
      Ok([x] + rest)
  }

  lemma {:induction false} IntendedImagesAll(w: Wiring, alg: Algebra, i: nat, images: seq<Wiring>)
    requires (w.Sequential? || w.Parallel?) && i <= |Children(w)| && |images| == |Children(w)|
    requires forall j :: i <= j < |images| ==> IntendedCollapse(Children(w)[j], alg) == Ok(images[j])
    ensures IntendedImages(w, alg, i) == Ok(images[i..])
    decreases |Children(w)| - i
  {
    if i < |Children(w)| {
      var child := if w.Sequential? then w.arrows[i] else w.factors[i];
      assert Children(w)[i] == child;
      assert IntendedCollapse(child, alg) == Ok(images[i]);
      IntendedImagesAll(w, alg, i + 1, images);
      assert images[i..] == [images[i]] + images[i + 1..];
      assert IntendedImages(w, alg, i) == Ok([images[i]] + images[i + 1..]);
    } else {
      assert images[i..] == [];
    }
  }

  /** The dagger with the children reversed before they are composed. */
  function IntendedDagger(w: Wiring): Result<Wiring>
  {
    IntendedCollapse(w, DaggerAlg)
  }

  /** The boxes of a chain, each turned around, in the reverse order. */
  function DaggeredReversed(arrows: seq<Wiring>): (r: seq<Wiring>)
    requires forall i :: 0 <= i < |arrows| ==> arrows[i].Box? && arrows[i].name != []
    ensures |r| == |arrows|
    ensures forall i :: 0 <= i < |arrows| ==> r[i] == BoxDaggered(arrows[|arrows| - 1 - i])
  {
    seq(|arrows|, i requires 0 <= i < |arrows| => BoxDaggered(arrows[|arrows| - 1 - i]))
  }

  /** Every box of `w` has a non-empty name. */
  predicate NamedBoxes(w: Wiring)
  {
    forall i :: 0 <= i < |ArrowsOf(w)| ==> ArrowsOf(w)[i].Box? && ArrowsOf(w)[i].name != []
  }

  /** The intended dagger of a chain of named boxes is the chain of the daggered boxes in the
      reverse order, from the original codomain to the original domain. */
  lemma IntendedDaggerOfChain(c: Wiring) returns (d: Wiring)
    requires IsChain(c) && NamedBoxes(c)
    ensures IntendedDagger(c) == Ok(d)
    ensures IsChain(d) && d.dom == c.cod && d.cod == c.dom
    ensures ArrowsOf(d) == DaggeredReversed(ArrowsOf(c))
  {
    ChainEnds(c);
    var rev := DaggeredReversed(ArrowsOf(c));
    DaggeredReversedChain(ArrowsOf(c));
    ChainOfArrows(rev, c.cod);
    d := FromArrows(rev, c.cod);
    if c.Sequential? {
      IntendedDaggerOfSequential(c);
    }
  }

  /** Turned around and reversed, composable boxes stay composable, with the ends swapped. */
  lemma DaggeredReversedChain(arrows: seq<Wiring>)
    requires AllBoxes(arrows) && Composable(arrows)
    requires forall i :: 0 <= i < |arrows| ==> arrows[i].name != []
    ensures var rev := DaggeredReversed(arrows);
      && AllBoxes(rev) && Composable(rev)
      && (rev != [] ==> rev[0].dom == Last(arrows).cod && Last(rev).cod == arrows[0].dom)
  {
    var rev := DaggeredReversed(arrows);
    forall i | 0 <= i < |rev| - 1 ensures rev[i].cod == rev[i + 1].dom {
      assert arrows[|arrows| - 2 - i].cod == arrows[|arrows| - 1 - i].dom;
    }
  }

  /** A sequential chain: its images are the daggered boxes in order, and the dagger algebra
      composes them reversed. */
  lemma IntendedDaggerOfSequential(c: Wiring)
    requires c.Sequential? && IsChain(c) && NamedBoxes(c)
    ensures IntendedDagger(c) == Ok(FromArrows(DaggeredReversed(ArrowsOf(c)), c.cod))
  {
    var images := DaggerImages(c);
    var node := Sequential(images, images[0].dom, Last(images).cod);
    FlattenBoxes(images);
    IntendedCollapseSequential(c, DaggerAlg, images, node);
    ChainEnds(c);
    DaggeredReversedChain(ArrowsOf(c));
    ReduceSequentialChain(DaggeredReversed(ArrowsOf(c)));
  }

  /** The collapsed arrows of a sequential chain under the dagger algebra: each box turned
      around, in the original order. */
  lemma DaggerImages(c: Wiring) returns (images: seq<Wiring>)
    requires c.Sequential? && IsChain(c) && NamedBoxes(c)
    ensures IntendedImages(c, DaggerAlg, 0) == Ok(images)
    ensures AllBoxes(images) && |images| >= 2
    ensures Reverse(images) == DaggeredReversed(ArrowsOf(c))
  {
    var arrows := ArrowsOf(c);
    images := seq(|arrows|, i requires 0 <= i < |arrows| => BoxDaggered(arrows[i]));
    IntendedImagesAll(c, DaggerAlg, 0, images);
    assert images[0..] == images;
  }

  /** One unfolding of the intended collapse of a sequential whose images are known. */
  lemma IntendedCollapseSequential(w: Wiring, alg: Algebra, images: seq<Wiring>, node: Wiring)
    requires w.Sequential? && IntendedImages(w, alg, 0) == Ok(images) && MakeSequential(images) == Ok(node)
    ensures IntendedCollapse(w, alg) == alg(node)
  {
  }

  /** A name two daggers give back: non-empty, not the bare marker, not ending in two markers. */
  predicate Restorable(name: string)
  {
    name != [] && name != "†" && !(|name| >= 2 && name[|name| - 2..] == "††")
  }

  /** The intended dagger is an involution on chains whose box names two daggers give back. */
  lemma IntendedDaggerInvolutive(c: Wiring)
    requires IsChain(c)
    requires forall i :: 0 <= i < |ArrowsOf(c)| ==> ArrowsOf(c)[i].Box? && Restorable(ArrowsOf(c)[i].name)
    ensures IntendedDagger(c).Ok? && IntendedDagger(IntendedDagger(c).value) == Ok(c)
  {
    var d := IntendedDaggerOfChain(c);
    DaggeredReversedTwice(ArrowsOf(c));
    var e := IntendedDaggerOfChain(d);
    ChainRebuild(e);
    ChainRebuild(c);
  }

  lemma DaggeredReversedTwice(arrows: seq<Wiring>)
    requires forall i :: 0 <= i < |arrows| ==> arrows[i].Box? && arrows[i].name != []
    requires forall i :: 0 <= i < |arrows| ==> Restorable(arrows[i].name)
    ensures var rev := DaggeredReversed(arrows);
      && (forall i :: 0 <= i < |rev| ==> rev[i].Box? && rev[i].name != [])
      && DaggeredReversed(rev) == arrows
  {
    forall i | 0 <= i < |arrows|
      ensures BoxDaggered(arrows[i]).name != [] && BoxDaggered(BoxDaggered(arrows[i])) == arrows[i]
    {
      BoxDaggerTwice(arrows[i]);
    }
  }

  /** For the `f: x -> y`, `g: y -> z` whose composite has no dagger as written, the intended
      dagger is `g† >> f†`. */
  lemma IntendedDaggerOfComposite()
    ensures var f, g := Box("f", [Named("x")], [Named("y")], NoData), Box("g", [Named("y")], [Named("z")], NoData);
      IntendedDagger(Sequential([f, g], f.dom, g.cod))
        == Ok(Sequential([Box("g†", g.cod, g.dom, NoData), Box("f†", f.cod, f.dom, NoData)], g.cod, f.dom))
  {
    var f, g := Box("f", [Named("x")], [Named("y")], NoData), Box("g", [Named("y")], [Named("z")], NoData);
    var c := Sequential([f, g], f.dom, g.cod);
    assert ArrowsOf(c) == [f, g];
    assert IsChain(c) && NamedBoxes(c);
    var d := IntendedDaggerOfChain(c);
    DaggeredPair(f, g);
    ChainRebuild(d);
  }

  lemma DaggeredPair(f: Wiring, g: Wiring)
    requires f == Box("f", [Named("x")], [Named("y")], NoData) && g == Box("g", [Named("y")], [Named("z")], NoData)
    ensures DaggeredReversed([f, g]) == [Box("g†", g.cod, g.dom, NoData), Box("f†", f.cod, f.dom, NoData)]
  {
    assert BoxDaggered(g) == Box("g†", g.cod, g.dom, NoData);
    assert BoxDaggered(f) == Box("f†", f.cod, f.dom, NoData);
  }

  // ---------------------------------------------------------------------------
  // Functors: `Functor.__functor_falg__` and the two `WiringFunctor` arrow maps
  // ---------------------------------------------------------------------------

  /** `__functor_falg__` with the arrow map `ar`: an identity becomes a fresh `Id` on its own
      domain (the object map is not applied), a box is sent through `ar`, and composites are
      recombined with `reduce_sequential` and `reduce_parallel`. */
  function FunctorAlg(ar: Wiring -> Wiring, w: Wiring): Result<Wiring>
  {
    match w
    case Id(d, _) => Ok(IdOn(d))
    case Box(_, _, _, _) => Ok(ar(w))
    case Sequential(arrows, _, _) => ReduceSequential(arrows)
    case Parallel(factors, _, _) => Ok(ReduceParallel(factors))
  }

  /** `Functor(ob, ar)(w)` on a wiring diagram. */
  function ApplyFunctor(ar: Wiring -> Wiring, w: Wiring): Result<Wiring>
  {
    Collapse(w, v => FunctorAlg(ar, v))
  }

  /** The arrow map of `WiringFunctor(typed=True)`: a box is rebuilt as it is. */
  function TypedAr(f: Wiring): Wiring
  {
    match f
    case Box(name, d, c, data) => Box(name, d, c, data)
    case _ => f
  }

  /** The arrow map of `WiringFunctor(typed=False)`: a box keeps its name and data and gets the
      untyped types of the same widths. */
  function UntypedAr(f: Wiring): Wiring
  {
    match f
    case Box(name, d, c, data) => Box(name, Pro(|d|), Pro(|c|), data)
    case _ => f
  }

  /** An arrow map a functor on chains needs: boxes go to boxes and meeting boxes still meet. */
  ghost predicate ChainMap(ar: Wiring -> Wiring)
  {
    && (forall x: Wiring :: x.Box? ==> ar(x).Box?)
    && (forall x: Wiring, y: Wiring :: x.Box? && y.Box? && x.cod == y.dom ==> ar(x).cod == ar(y).dom)
  }

  lemma TypedArIsChainMap()
    ensures ChainMap(TypedAr)
    ensures forall x: Wiring :: x.Box? ==> TypedAr(x) == x
  {
  }

  lemma UntypedArIsChainMap()
    ensures ChainMap(UntypedAr)
    ensures forall x: Wiring :: x.Box? ==>
      && UntypedAr(x).name == x.name && UntypedAr(x).data == x.data
      && UntypedAr(x).dom == Pro(|x.dom|) && UntypedAr(x).cod == Pro(|x.cod|)
  {
    forall x: Wiring | x.Box?
      ensures UntypedAr(x).Box?
      ensures UntypedAr(x).name == x.name && UntypedAr(x).data == x.data
      ensures UntypedAr(x).dom == Pro(|x.dom|) && UntypedAr(x).cod == Pro(|x.cod|)
    {
      UntypedBox(x);
    }
    forall x: Wiring, y: Wiring | x.Box? && y.Box? && x.cod == y.dom
      ensures UntypedAr(x).cod == UntypedAr(y).dom
    {
      UntypedBox(x);
      UntypedBox(y);
    }
  }

  lemma UntypedBox(x: Wiring)
    requires x.Box?
    ensures UntypedAr(x) == Box(x.name, Pro(|x.dom|), Pro(|x.cod|), x.data)
  {
  }

  function MapArrows(ar: Wiring -> Wiring, arrows: seq<Wiring>): (r: seq<Wiring>)
    ensures |r| == |arrows| && forall i :: 0 <= i < |arrows| ==> r[i] == ar(arrows[i])
  {
    seq(|arrows|, i requires 0 <= i < |arrows| => ar(arrows[i]))
  }

  /** A functor sends a chain of boxes to the chain of the boxes' images, so it preserves
      `>>` on chains: the image of `f1 >> ... >> fn` is `ar(f1) >> ... >> ar(fn)`. An identity
      chain goes to a fresh identity on the same domain. */
  lemma FunctorOnChain(ar: Wiring -> Wiring, c: Wiring)
    requires ChainMap(ar) && IsChain(c)
    ensures ApplyFunctor(ar, c) == Ok(if c.Id? then c else FromArrows(MapArrows(ar, ArrowsOf(c)), ar(ArrowsOf(c)[0]).dom))
  {
    var alg: Algebra := v => FunctorAlg(ar, v);
    if c.Sequential? {
      var arrows := c.arrows;
      var images := MapArrows(ar, arrows);
      forall j | 0 <= j < |arrows|
        ensures Collapse(arrows[j], alg) == Ok(images[j])
      {
      }
      assert AllBoxes(images);
      assert Composable(images);
      CollapseSequential(c, alg, images);
      ReduceSequentialChain(images);
      var r := FromArrows(images, images[0].dom);
      assert r == Sequential(images, images[0].dom, Last(images).cod);
      ReduceSequentialChain(r.arrows);
    }
  }

  /** Functoriality on chains without identities: the image of a composite is the composite of
      the images. */
  lemma FunctorPreservesThen(ar: Wiring -> Wiring, a: Wiring, b: Wiring)
    requires ChainMap(ar) && IsChain(a) && IsChain(b) && !a.Id? && !b.Id? && a.cod == b.dom
    ensures Then(a, b).Ok? && ApplyFunctor(ar, a).Ok? && ApplyFunctor(ar, b).Ok?
    ensures ApplyFunctor(ar, Then(a, b).value) == Then(ApplyFunctor(ar, a).value, ApplyFunctor(ar, b).value)
  {
    var ab := ChainThen(a, b);
    var ma := MappedChain(ar, a);
    var mb := MappedChain(ar, b);
    var mab := MappedChain(ar, ab);
    var xs, ys := ArrowsOf(a), ArrowsOf(b);
    ChainEnds(a);
    ChainEnds(b);
    assert ar(Last(xs)).cod == ar(ys[0]).dom;
    var r := ChainThen(ma, mb);
    assert (xs + ys)[0] == xs[0];
    MapArrowsAppend(ar, xs, ys);
    ChainRebuild(r);
    ChainRebuild(mab);
  }

  /** Mapping the arrows of a concatenation maps each part. */
  lemma MapArrowsAppend(ar: Wiring -> Wiring, xs: seq<Wiring>, ys: seq<Wiring>)
    ensures MapArrows(ar, xs + ys) == MapArrows(ar, xs) + MapArrows(ar, ys)
  {
  }

  /** `FunctorOnChain` for a chain with at least one box, with the image named. */
  lemma MappedChain(ar: Wiring -> Wiring, c: Wiring) returns (m: Wiring)
    requires ChainMap(ar) && IsChain(c) && !c.Id?
    ensures ApplyFunctor(ar, c) == Ok(m)
    ensures IsChain(m) && ArrowsOf(m) == MapArrows(ar, ArrowsOf(c))
    ensures m.dom == ar(ArrowsOf(c)[0]).dom && m.cod == ar(Last(ArrowsOf(c))).cod
  {
    FunctorOnChain(ar, c);
    ChainEnds(c);
    var images := MapArrows(ar, ArrowsOf(c));
    assert AllBoxes(images);
    assert Composable(images);
    ChainOfArrows(images, ar(ArrowsOf(c)[0]).dom);
    m := FromArrows(images, ar(ArrowsOf(c)[0]).dom);
  }

  /** The functor keeps an identity's own domain instead of mapping it, so the untyped functor
      leaves a typed identity typed, and composing its image with an untyped box fails. */
  lemma UntypedFunctorKeepsIdTypes()
    ensures var x := [Named("x")];
      var f := Box("f", x, x, NoData);
      && ApplyFunctor(UntypedAr, IdOn(x)) == Ok(IdOn(x))
      && ApplyFunctor(UntypedAr, f) == Ok(Box("f", Pro(1), Pro(1), NoData))
      && Then(ApplyFunctor(UntypedAr, IdOn(x)).value, ApplyFunctor(UntypedAr, f).value) == Err(AxiomError)
  {
    var x := [Named("x")];
    assert Pro(1) == [Unit];
  }
}
