# Wiring diagrams in a free dagger PROP

This project models `discopy/wiring.py` in Dafny and proves properties of the model. The
file implements wiring diagrams: typed trees of four kinds.

- `Id`: an identity on a wire type.
- `Box`: a named generator with a domain, a codomain and an opaque payload.
- `Sequential`: a flat list of arrows composed one after another.
- `Parallel`: a flat list of factors side by side.

It also covers the operations built on those trees:

- sequential composition `then` (`>>`), with its type check and its flattening;
- parallel composition `tensor` (`@`), which drops degenerate factors;
- the rebalancing of `Parallel >> Parallel` into a left and a right layer;
- the catamorphism `collapse`, and the two algebras built on it: the dagger and the functor;
- the untyped `WiringFunctor`, which relabels every box with untyped wires. Its `merge_wires`
  pass then walks each sequential boundary with two cursors and narrows each leaf to the number
  of distinct factors it touches across the boundary.

Diagrams are values (`datatype Wiring`).

- A wire type is a `seq<Ob>`. `PRO(n)` is `n` copies of the atom `Unit`.
- Errors are a `Result` carrying the kind the Python code would raise: `AxiomError`,
  `TypeError`, `IndexError`, `KeyError`, `AssertionError` or `AttributeError`.
- The loops of the source are methods proved equal to the pure functions that specify them:
  - `Rebalance.BuildWires`, `Rebalance.FillSlots`, `Rebalance.RunLayers`,
    `Rebalance.StepLayers` and `Rebalance.ComposeLayers` for the loops of `Parallel.then`;
  - `Merging.AdjacencyWalk` for the cursor loop;
  - `Merging.MergeLayer`, `Merging.MergeBoundary`, `Merging.MergeBoundaries`, `Merging.MergeSequential`,
    `Merging.MergeParallel` and `Merging.MergeWires` for `merge_wires`.
- The properties are lemmas about those functions.

Modules, one per file:

| file | module | contents |
|---|---|---|
| `types.dfy` | `Types` | atoms, `PRO`, payloads, error kinds, `Result`, sequence helpers |
| `wiring.dfy` | `Wirings` | the tree, `_flatten_arrows`, `_flatten_factors`, the constructors, `tensor`, `reduce_parallel` |
| `rebalance.dfy` | `Rebalance` | `Parallel.then` against a `Parallel` |
| `compose.dfy` | `Compose` | `then` in all four variants, `reduce_sequential`, the category laws on chains of boxes |
| `collapse.dfy` | `Catamorphism` | `collapse`, `_dagger_falg`, `__functor_falg__`, the dagger with children reversed first |
| `merge.dfy` | `Merging` | the boundary walk, degrees, `merge_dom`/`merge_cod`, `merge_wires` |
| `functor.dfy` | `Functors` | `WiringFunctor`, and the worked example `(f @ g) >> h` |

Behaviour of the code worth knowing:

- `_flatten_factors` drops only identities with an empty domain (discopy/wiring.py:233-240).
  A multi-wire `Id` stays one factor of a `Parallel`. `Merging.IdNarrowedTwice` uses such a
  factor.
- `merge_wires` narrows each leaf to the number of distinct factors it meets across a boundary
  (discopy/wiring.py:206-231). This count is not its number of wires. In `(f @ g) >> h`, with
  `f, g : x -> x @ x` and `h : x @ x @ x @ x -> y`, the untyped functor leaves `f` and `g` one
  output wire each and `h` two input wires (`Functors.MergeScenario`).
- `Id.merge_cod` narrows the domain (discopy/wiring.py:140-141). An identity between two
  boundaries is checked twice against its narrowed domain. The second check can fail
  (`Merging.IdNarrowedTwice`).
- A box's dagger toggles a trailing `†` (discopy/wiring.py:24-28). Daggering twice gives the box
  back exactly when its name is not empty, is not `†`, and does not end in `††`
  (`Catamorphism.BoxDaggerTwice`).
- `Sequential.collapse` composes the daggered arrows before `_dagger_falg` reverses them
  (discopy/wiring.py:190-191). The dagger of a composite therefore fails in most cases (see
  Findings).
- `Parallel >> Parallel` builds its composite when every box of `self` feeds exactly the
  successor at its own index. The composite then runs from `self.dom` to `other.cod`
  (discopy/wiring.py:266-295, `Rebalance.ParallelThenOneToOne`).
- A box of `self` pulls in only the successor at its first wire (discopy/wiring.py:288-290).
  If it feeds two successors, the second is dropped from the right layer, and a well-typed
  composition raises `AxiomError` at discopy/wiring.py:295 (`Rebalance.FanOutDropsSuccessor`).
  Successors that are equal as values are pulled in once, with the same effect
  (`Rebalance.RepeatedSuccessorDropped`).
- A last factor of `self` with an empty codomain looks up `wires[w]` one position past the last
  slot and raises `KeyError` (discopy/wiring.py:289, `Rebalance.TrailingDiscardKeyError`).
- Once parallels take part, `>>` is not associative. The rebalancing gives the two bracketings
  different first layers (`Compose.ThenNotAssociativeWithParallels`).

## Model

| member | source | states |
|---|---|---|
| `Wirings.SequentialConstruction` | discopy/wiring.py:168-185 | `Sequential(arrows)` raises `IndexError` exactly when only identities are given. Otherwise its arrows contain no `Id` and no nested `Sequential`, and its dom and cod are those of its first and last arrow. |
| `Wirings.FlattenArrowsIdempotent` | discopy/wiring.py:168-175 | Flattening an already flat list of arrows changes nothing. |
| `Wirings.FlattenArrowsIsFlat` | discopy/wiring.py:168-175 | After flattening, no arrow is an identity or a `Sequential`. |
| `Wirings.SequentialRebuild` | discopy/wiring.py:177-185 | Rebuilding a `Sequential` from its own arrows gives back the same diagram. |
| `Wirings.FlattenFactorsIsFlat` | discopy/wiring.py:233-240 | After factor flattening, no factor is a `Parallel` or an empty identity. |
| `Wirings.FlattenFactorsTypes` | discopy/wiring.py:233-240 | Factor flattening keeps the concatenated domains and codomains. |
| `Wirings.ParallelConstruction` | discopy/wiring.py:242-250 | `Parallel(factors)` has as dom and cod the in-order concatenation of the factors' dom and cod. It is flat and consistent. |
| `Wirings.ParallelRebuild` | discopy/wiring.py:242-250 | Rebuilding a consistent flat `Parallel` from its factors gives it back. |
| `Wirings.TensorUnits` | discopy/wiring.py:123-134 | `Id(Ty()) @ g == g` for every `g`. `g @ Id(Ty()) == g` exactly when `g` is an identity or is not degenerate. |
| `Wirings.TensorOfIds` | discopy/wiring.py:130-133 | `Id(x) @ Id(y) == Id(x @ y)`. |
| `Wirings.TensorFactors` | discopy/wiring.py:68-83 | For two non-identity, non-degenerate operands, `a @ b` is the `Parallel` of their factors spliced in order. |
| `Wirings.TensorAssociative` | discopy/wiring.py:68-83 | `@` is associative on non-identity operands. Both bracketings give the flat `Parallel` of all factors. |
| `Wirings.TensorNotAssociativeWithIds` | discopy/wiring.py:123-134 | A concrete `Id(x)`, `Id(y)` and box whose two bracketings under `@` differ. |
| `Wirings.ReduceParallelOfAtoms` | discopy/wiring.py:17-20 | `reduce_parallel` of atoms gives `Id(Ty())` for none, the atom itself for one, and the `Parallel` of all of them, in order, for more. |
| `Compose.ThenRejectsMismatch` | discopy/wiring.py:58-59 | Every variant of `then` raises `AxiomError` when `a.cod != b.dom`. |
| `Compose.ThenLeftUnit` | discopy/wiring.py:114-121 | `Id(x) >> g` is `g` when `x == g.dom`, and `AxiomError` otherwise. |
| `Compose.ThenRightUnit` | discopy/wiring.py:61-66 | `a >> Id(a.cod) == a` for every diagram of a shape `then` builds. |
| `Compose.SequentialThenSplices` | discopy/wiring.py:202-204 | `Sequential.then` keeps the leading arrows and splices in the arrows of `last >> b`. |
| `Compose.ThenChains` | discopy/wiring.py:49-66 | Composing two chains of boxes concatenates their boxes, drops identities, and runs from `a.dom` to `b.cod`. |
| `Compose.ThenAssociative` | discopy/wiring.py:193-204 | On chains of boxes, `(a >> b) >> c == a >> (b >> c)`, and both sides are defined. |
| `Compose.ThenNotAssociativeWithParallels` | discopy/wiring.py:193-204 | For boxes `f: y -> z`, `g: x -> u`, `h: z -> v` and `c: u @ v -> w`, with `x` and `z` one wire each and `y`, `u` not empty, `((Id(x) @ f) >> (g @ h)) >> c` starts with the rebalanced layer `g @ f`, and `(Id(x) @ f) >> ((g @ h) >> c)` keeps `Id(x) @ f` as its first arrow. Both are defined and they differ. |
| `Compose.ReduceSequentialChain` | discopy/wiring.py:14-15 | `reduce_sequential` over composable boxes is the chain of those boxes. |
| `Rebalance.BuildWires` | discopy/wiring.py:267-275 | The loop that fills `wires` maps exactly the slot positions to the successor factor each one belongs to. A factor with an empty domain gets one slot. |
| `Rebalance.FillSlots` | discopy/wiring.py:272-273 | The inner loop maps positions `w` up to `w + g_wires - 1` to `g` and leaves the earlier positions as they were. |
| `Rebalance.SlotsCover` | discopy/wiring.py:270-275 | Every slot holds a successor factor, and there are at least as many slots as domain wires. |
| `Rebalance.ComposeLayers` | discopy/wiring.py:266-295 | The imperative `Parallel.then(Parallel)` (dictionary, counter, list appends) equals the functional rebalancing. |
| `Rebalance.RunLayers` | discopy/wiring.py:277-291 | The loop over the factors of `self`, with its counter `w`, equals the functional rebalancing from empty layers. |
| `Rebalance.StepLayers` | discopy/wiring.py:281-291 | One pass of that loop equals one step of the rebalancing: an `Id` walks its wires, and any other factor joins `fs` and pulls in its first successor. A missing position is a `KeyError`. |
| `Rebalance.RebalanceShape` | discopy/wiring.py:278-291 | The left layer interleaves every non-`Id` factor of `self`, once each and in order, with successors pulled in through `Id` wires, each at most once. The right layer interleaves the `Id`s of those successors' codomains, in the same order, with successors added for the own factors, each at most once. |
| `Rebalance.RebalanceDefined` | discopy/wiring.py:280-291 | Every lookup in `wires` succeeds when both sides are consistent and no non-`Id` factor has an empty codomain. |
| `Rebalance.TrailingDiscardKeyError` | discopy/wiring.py:284-290 | A concrete `(f @ d) >> (g1 @ g2)`, with a trailing discarding `d`, raises `KeyError`. |
| `Rebalance.ParallelThenOneToOne` | discopy/wiring.py:266-295 | When box `i` of `self` feeds exactly box `i` of `other`, the successors differ and no codomain is empty, the layers are the two factor lists unchanged. `Parallel >> Parallel` then succeeds, from `self.dom` to `other.cod`, and with two or more factors it is `Sequential([self, other])`. |
| `Rebalance.FanOutDropsSuccessor` | discopy/wiring.py:286-295 | In a concrete `(f @ k) >> (g1 @ g2 @ g3)` where `f` feeds `g1` and `g2`, the layers are `[f, k]` and `[g1, g3]`, and the well-typed composition raises `AxiomError`. |
| `Rebalance.RepeatedSuccessorDropped` | discopy/wiring.py:288-295 | In a concrete `(f @ f) >> (g @ g)` the second `g` is found already in `gs`, so the right layer is `[g]` and the well-typed composition raises `AxiomError`. |
| `Catamorphism.CollapseSequential` | discopy/wiring.py:190-191 | When every arrow of a `Sequential` collapses, the result is the algebra applied to `reduce_sequential` of the images, in their original order. |
| `Catamorphism.CollapseParallel` | discopy/wiring.py:255-256 | When every factor collapses, the result is the algebra applied to `reduce_parallel` of the images, in order. |
| `Catamorphism.BoxDagger` | discopy/wiring.py:22-28 | A box's dagger exists exactly when its name is non-empty. It swaps dom and cod, keeps the data, and strips or appends the trailing `†`. |
| `Catamorphism.BoxDaggerTwice` | discopy/wiring.py:22-28 | Daggering a box twice gives it back exactly when its name is non-empty, is not `†`, and does not end in `††`. |
| `Catamorphism.DaggerParallelKeepsOrder` | discopy/wiring.py:29-31 | The dagger of a parallel of named boxes keeps the factor order. Factor `i` is the dagger of factor `i`, and the result runs from the original codomain to the original domain. |
| `Catamorphism.DaggerSequentialPair` | discopy/wiring.py:29-30 | For boxes `f >> g`, the dagger is `g† >> f†` exactly when `f.dom == g.cod`, and `AxiomError` otherwise. |
| `Catamorphism.DaggerOfCompositeFails` | discopy/wiring.py:190-191 | For concrete `f: x -> y` and `g: y -> z`, the dagger of `f >> g` raises `AxiomError`. |
| `Catamorphism.IntendedDaggerOfChain` | discopy/wiring.py:29-30 | With children reversed before they are composed, the dagger of a chain of named boxes is the chain of daggered boxes in reverse order, from the original codomain to the original domain. |
| `Catamorphism.IntendedDaggerInvolutive` | discopy/wiring.py:88-89 | That dagger is an involution on chains whose box names two daggers restore. |
| `Catamorphism.IntendedDaggerOfComposite` | discopy/wiring.py:190-191 | For the same `f`, `g`, that dagger is `g† >> f†`. |
| `Catamorphism.TypedArIsChainMap` | discopy/wiring.py:332-334 | The typed arrow map rebuilds every box as it was. |
| `Catamorphism.UntypedArIsChainMap` | discopy/wiring.py:336-338 | The untyped arrow map keeps name and data, gives `PRO` types of the same widths, and keeps meeting boxes meeting. |
| `Catamorphism.FunctorOnChain` | discopy/wiring.py:313-322 | The functor sends a chain of boxes to the chain of the boxes' images, and an identity to a fresh identity on its own domain. |
| `Catamorphism.FunctorPreservesThen` | discopy/wiring.py:313-322 | On chains of boxes, the image of `a >> b` is the image of `a` composed with the image of `b`. |
| `Catamorphism.UntypedFunctorKeepsIdTypes` | discopy/wiring.py:315 | The functor maps an `Id` via its own `dom`, so the untyped image of a typed identity stays typed and does not compose with an untyped box. |
| `Merging.AdjacencyWalk` | discopy/wiring.py:211-223 | The cursor loop computes the recursive walk. With positive widths and enough wires on both sides, the result is one (left owner, right owner) pair per wire. |
| `Merging.WalkIsAdjacency` | discopy/wiring.py:214-223 | The walk equals the adjacency set when every factor is at least one wire wide. |
| `Merging.ZeroWidthMisattributed` | discopy/wiring.py:215-220 | With left widths `[0, 0, 1]`, the cursor credits the wire to factor 1, although factor 2 owns it. |
| `Merging.DegreeBound` | discopy/wiring.py:225-228 | The number of distinct neighbours of a factor is at most its width. It is at least one when the boundary covers the whole layer. |
| `Merging.NarrowLeaf` | discopy/wiring.py:136-166 | `merge_cod`/`merge_dom` succeed exactly on a box whose checked width is at least the new one, or on an identity whose domain is that wide. They set exactly that width to `PRO(k)`; `Id.merge_cod` narrows the domain. Otherwise they raise `AssertionError`, or `AttributeError` on a composite. |
| `Merging.NarrowLayerSpec` | discopy/wiring.py:225-228 | A layer merge succeeds exactly when every factor's merge does. Factor `k` is then merged with its own degree. |
| `Merging.MergeLayer` | discopy/wiring.py:225-228 | The `enumerate` loop equals the layer merge. |
| `Merging.Boundary` | discopy/wiring.py:207-228 | Merging one boundary only narrows both sides and keeps their size. |
| `Merging.MergeBoundary` | discopy/wiring.py:207-228 | The walk followed by both layer loops equals the boundary merge. |
| `Merging.BoundaryWidths` | discopy/wiring.py:207-228 | At a boundary of boxes and identities with positive widths, the merge succeeds. Each left factor's codomain becomes its number of distinct right neighbours, and each right factor's domain its number of distinct left neighbours. No width grows, and each is at least one when the walk covers that layer. |
| `Merging.IdNarrowedTwice` | discopy/wiring.py:136-141 | In `Sequential([a, Id(PRO(2)) @ k, c @ d @ e])`, the first boundary narrows the identity's domain to one wire. At the second boundary its `merge_cod` assert checks that narrowed domain against a degree of two and fails, so `merge_wires` raises `AssertionError`. Only the constructor builds this diagram: `>>` would rebalance its last two arrows. |
| `Merging.BoundariesFrom` | discopy/wiring.py:207-228 | Merging the boundaries from the m-th on, in order, only narrows the arrows. |
| `Merging.MergeBoundaries` | discopy/wiring.py:207-228 | The `zip` loop over adjacent arrows equals the functional boundary merge, and fails with that merge's error. |
| `Merging.Boundaries` | discopy/wiring.py:207-228 | The boundaries merged in order keep the list's length. Every arrow is only narrowed and keeps its size. |
| `Merging.MergedNarrows` | discopy/wiring.py:206-231 | `merge_wires` keeps the tree, the boxes and the sequentials' types, and makes no leaf width larger. |
| `Merging.MergedTypesAgree` | discopy/wiring.py:299-307 | After `merge_wires`, every parallel at every depth records the concatenated types of its merged factors. |
| `Merging.MergeSequential` | discopy/wiring.py:206-231 | The boundary loop followed by the per-arrow recursion equals the functional merge. |
| `Merging.MergeParallel` | discopy/wiring.py:299-307 | The loop that merges every factor and accumulates `dom` and `cod` equals the functional merge. |
| `Merging.MergeWires` | discopy/wiring.py:206-231 | The recursive in-place pass equals the functional merge on every diagram. |
| `Functors.RunWiringFunctor` | discopy/wiring.py:341-345 | `WiringFunctor.__call__` with `merge_wires` as loops equals the functional definition. |
| `Functors.TypedFunctorFixesChains` | discopy/wiring.py:329-333 | The typed functor is the identity on chains of boxes. |
| `Functors.UntypedFunctorNarrows` | discopy/wiring.py:341-345 | The untyped functor's result narrows the untyped image, and every parallel in it records its factors' types. |
| `Functors.MergeScenario` | discopy/wiring.py:334-345 | On `(f @ g) >> h`, the untyped functor gives `f` and `g` one output wire each and `h` two input wires. The typed functor returns the diagram unchanged. |

## Findings

| source | as written | input that shows it | evidently intended | confidence | as-written member | corrected member |
|---|---|---|---|---|---|---|
| discopy/wiring.py:190-191 | `Sequential.collapse` composes the daggered arrows in their original order before `_dagger_falg` reverses them | `f: x -> y`, `g: y -> z`: `(f >> g).dagger()` composes `f† : y -> x` with `g† : z -> y` and raises `AxiomError` | the dagger of `f >> g` is `g† >> f†`, and the dagger is an involution (the reversal at lines 29-30) | not executed | `Catamorphism.DaggerOfCompositeFails` | `Catamorphism.IntendedDaggerInvolutive` |

`Catamorphism.DaggerSequentialPair` gives the general pattern of the as-written behaviour. It
succeeds only when the daggered children happen to compose.

The corrected collapse is `Catamorphism.IntendedCollapse`. It hands the algebra the collapsed
arrows as an uncomposed `Sequential`. `Catamorphism.IntendedDaggerOfChain` and
`Catamorphism.IntendedDaggerOfComposite` state its result. The rest of the model keeps the
as-written `Catamorphism.Dagger`.

## Left out

- Drawing (`Wiring.draw` and its drawing functor): this is rendering.
- The `Sum` and multi-argument branches of `then` and `tensor`: they delegate to
  `monoidal.Diagram`, which is not part of this model.
- The `TypeError` raised for a non-`Wiring` operand: every operand here is a `Wiring` by type.
- The `monoidal.Functor` machinery (`ob`, `ob_factory`, `ar_factory`, `super().__call__`): the
  functor algebra takes its arrow map as a function parameter, and its target is `Wiring`
  itself. The object map is never applied to a `Wiring`, so it is not modelled.
- Error messages: only the kind of each error is modelled.
- `monoidal.Box` storage and equality: a box is a value, and equality is structural on name,
  dom, cod and payload.
- In-place mutation and aliasing in `merge_wires`: the pass returns a new tree instead of writing
  `_dom`/`_cod`. A leaf object shared between two places in a diagram would be narrowed twice
  in Python; here each occurrence is narrowed on its own.
- Compose.ThenAssociative: stated for chains of boxes only. Parallels go through rebalancing,
  which is not associative (`Compose.ThenNotAssociativeWithParallels`).
- Catamorphism.FunctorPreservesThen: stated for chains of boxes without identities only.
- Merging.BoundaryWidths: requires factors at least one wire wide, and left identities with
  equal dom and cod. Zero-width factors are shown misattributed instead
  (`Merging.ZeroWidthMisattributed`), and narrowed identities fail (`Merging.IdNarrowedTwice`).
- Merging.MergedNarrows: leaves a parallel's own recorded types free; `Merging.MergedTypesAgree`
  states what they become.
