/** The width-merging pass: `Sequential.merge_wires` (the cursor walk that finds which factors
    of two abutting layers share a wire, then `merge_cod`/`merge_dom` on both layers),
    `Parallel.merge_wires`, and the leaf merges of `Id` and `Box`. */
module Merging {
  import opened Types
  import opened Wirings

  // ---------------------------------------------------------------------------
  // Wire positions: which factor of a layer owns a wire
  // ---------------------------------------------------------------------------

  /** The first wire position of factor `k` in a layer of the given widths. */
  function Start(ws: seq<nat>, k: nat): nat
    requires k <= |ws|
  {
    if k == 0 then 0 else Start(ws, k - 1) + ws[k - 1]
  }

  /** Total number of wires of a layer. */
  function Total(ws: seq<nat>): nat
  {
    Start(ws, |ws|)
  }

  lemma {:induction false} StartMonotone(ws: seq<nat>, a: nat, b: nat)
    requires a <= b <= |ws|
    ensures Start(ws, a) <= Start(ws, b)
    decreases b - a
  {
    if a < b {
      StartMonotone(ws, a, b - 1);
    }
  }

  function OwnerFrom(ws: seq<nat>, q: nat, k: nat): (o: nat)
    requires k <= |ws| && Start(ws, k) <= q < Total(ws)
    ensures k <= o < |ws| && Start(ws, o) <= q < Start(ws, o + 1)
    decreases |ws| - k
  {
    if q < Start(ws, k + 1) then k else OwnerFrom(ws, q, k + 1)
  }

  /** The factor whose wires include position `q` (factors of width zero own nothing). */
  function Owner(ws: seq<nat>, q: nat): (o: nat)
    requires q < Total(ws)
    ensures o < |ws| && Start(ws, o) <= q < Start(ws, o + 1)
  {
    OwnerFrom(ws, q, 0)
  }

  /** A wire position has exactly one owner. */
  lemma OwnerUnique(ws: seq<nat>, q: nat, k: nat)
    requires k < |ws| && Start(ws, k) <= q < Start(ws, k + 1)
    ensures q < Total(ws) && Owner(ws, q) == k
  {
    StartMonotone(ws, k + 1, |ws|);
    var o := Owner(ws, q);
    if o < k {
      StartMonotone(ws, o + 1, k);
    } else if o > k {
      StartMonotone(ws, k + 1, o);
    }
  }

  /** The adjacency of a boundary with `n` wires: one pair (left owner, right owner) per wire,
      as a set, so a pair of factors sharing several wires is recorded once. */
  function Adjacency(fw: seq<nat>, gw: seq<nat>, n: nat): set<(nat, nat)>
  {
    set q: nat | q < n && q < Total(fw) && q < Total(gw) :: (Owner(fw, q), Owner(gw, q))
  }

  // ---------------------------------------------------------------------------
  // The cursor walk of `Sequential.merge_wires`
  // ---------------------------------------------------------------------------

  /** The walk over the remaining `n` wires, with left cursor (factor `l`, wires used `i`), right
      cursor (`r`, `j`) and the pairs found so far. Before each wire a cursor whose factor is used
      up moves to the next factor (one step only); indexing past the last factor raises. */
  function Walk(fw: seq<nat>, gw: seq<nat>, n: nat, l: nat, r: nat, i: nat, j: nat, acc: set<(nat, nat)>)
    : Result<set<(nat, nat)>>
    decreases n
  {
    if n == 0 then Ok(acc)
    else if l >= |fw| then Err(IndexError)
    else
      var l' := if i >= fw[l] then l + 1 else l;
      var i' := if i >= fw[l] then 0 else i;
      if r >= |gw| then Err(IndexError)
      else
        var r' := if j >= gw[r] then r + 1 else r;
        var j' := if j >= gw[r] then 0 else j;
        Walk(fw, gw, n - 1, l', r', i' + 1, j' + 1, acc + {(l', r')})
  }

  /** The walk as the source runs it: a loop over the wires of the left diagram's codomain. */
  method AdjacencyWalk(fw: seq<nat>, gw: seq<nat>, n: nat) returns (res: Result<set<(nat, nat)>>)
    ensures res == Walk(fw, gw, n, 0, 0, 0, 0, {})
    ensures AllPositive(fw) && AllPositive(gw) && n <= Total(fw) && n <= Total(gw)
      ==> res == Ok(Adjacency(fw, gw, n))
  {
    if AllPositive(fw) && AllPositive(gw) && n <= Total(fw) && n <= Total(gw) {
      WalkIsAdjacency(fw, gw, n);
    }
    var l, r, i, j := 0, 0, 0, 0;
    var wires: set<(nat, nat)> := {};
    var k := 0;
    while k < n
      invariant k <= n
      invariant Walk(fw, gw, n, 0, 0, 0, 0, {}) == Walk(fw, gw, n - k, l, r, i, j, wires)
    {
      if l >= |fw| {
        return Err(IndexError);
      }
      if i >= fw[l] {
        l, i := l + 1, 0;
      }
      if r >= |gw| {
        return Err(IndexError);
      }
      if j >= gw[r] {
        r, j := r + 1, 0;
      }
      wires := wires + {(l, r)};
      i, j := i + 1, j + 1;
      k := k + 1;
    }
    res := Ok(wires);
  }

  /** A cursor (factor `l`, wires used `i`) that has consumed the first `p` wires of a layer. */
  predicate CursorAt(ws: seq<nat>, p: nat, l: nat, i: nat)
  {
    l < |ws| && Start(ws, l) <= p <= Start(ws, l + 1) && i == p - Start(ws, l)
  }

  /** One cursor step: with positive widths, the cursor lands on the owner of the next wire. */
  lemma CursorStep(ws: seq<nat>, p: nat, l: nat, i: nat)
    requires AllPositive(ws) && CursorAt(ws, p, l, i) && p < Total(ws)
    ensures var l' := if i >= ws[l] then l + 1 else l;
      var i' := if i >= ws[l] then 0 else i;
      && l' < |ws| && Owner(ws, p) == l' && CursorAt(ws, p + 1, l', i' + 1)
  {
    if i >= ws[l] {
      if l + 1 == |ws| {
        assert false;
      }
      assert Start(ws, l + 2) == Start(ws, l + 1) + ws[l + 1];
      OwnerUnique(ws, p, l + 1);
    } else {
      OwnerUnique(ws, p, l);
    }
  }

  lemma AdjacencyStep(fw: seq<nat>, gw: seq<nat>, p: nat)
    requires p < Total(fw) && p < Total(gw)
    ensures Adjacency(fw, gw, p + 1) == Adjacency(fw, gw, p) + {(Owner(fw, p), Owner(gw, p))}
  {
  }

  lemma {:induction false} WalkFrom(fw: seq<nat>, gw: seq<nat>, n: nat, p: nat, l: nat, r: nat, i: nat, j: nat,
                                     m: nat, acc: set<(nat, nat)>)
    requires AllPositive(fw) && AllPositive(gw) && n <= Total(fw) && n <= Total(gw)
    requires p + m == n && (m > 0 ==> CursorAt(fw, p, l, i) && CursorAt(gw, p, r, j))
    requires acc == Adjacency(fw, gw, p)
    ensures Walk(fw, gw, m, l, r, i, j, acc) == Ok(Adjacency(fw, gw, n))
    decreases m
  {
    if m > 0 {
      var l', i', r', j', acc' := WalkFromStep(fw, gw, n, p, l, r, i, j, m, acc);
      WalkFrom(fw, gw, n, p + 1, l', r', i' + 1, j' + 1, m - 1, acc');
    } else {
      WalkDone(fw, gw, m, l, r, i, j, acc);
    }
  }

  /** One wire of the walk: both cursors land on the wire's owners, and the pair found extends
      the adjacency by that wire. */
  lemma WalkFromStep(fw: seq<nat>, gw: seq<nat>, n: nat, p: nat, l: nat, r: nat, i: nat, j: nat,
                     m: nat, acc: set<(nat, nat)>)
      returns (l': nat, i': nat, r': nat, j': nat, acc': set<(nat, nat)>)
    requires AllPositive(fw) && AllPositive(gw) && n <= Total(fw) && n <= Total(gw)
    requires p + m == n && m > 0 && CursorAt(fw, p, l, i) && CursorAt(gw, p, r, j)
    requires acc == Adjacency(fw, gw, p)
    ensures Walk(fw, gw, m, l, r, i, j, acc) == Walk(fw, gw, m - 1, l', r', i' + 1, j' + 1, acc')
    ensures CursorAt(fw, p + 1, l', i' + 1) && CursorAt(gw, p + 1, r', j' + 1)
    ensures acc' == Adjacency(fw, gw, p + 1)
  {
    l', i' := CursorNext(fw, p, l, i);
    r', j' := CursorNext(gw, p, r, j);
    AdjacencyNext(fw, gw, p, acc, l', r');
    WalkStep(fw, gw, m, l, r, i, j, acc, l', i', r', j');
    acc' := acc + {(l', r')};
  }

  /** The pairs found so far, extended by the owners of wire `p`. */
  lemma AdjacencyNext(fw: seq<nat>, gw: seq<nat>, p: nat, acc: set<(nat, nat)>, l: nat, r: nat)
    requires p < Total(fw) && p < Total(gw) && acc == Adjacency(fw, gw, p)
    requires l == Owner(fw, p) && r == Owner(gw, p)
    ensures acc + {(l, r)} == Adjacency(fw, gw, p + 1)
  {
    AdjacencyStep(fw, gw, p);
  }

  lemma WalkDone(fw: seq<nat>, gw: seq<nat>, n: nat, l: nat, r: nat, i: nat, j: nat, acc: set<(nat, nat)>)
    requires n == 0
    ensures Walk(fw, gw, n, l, r, i, j, acc) == Ok(acc)
  {
  }

  /** `CursorStep`, with the moved cursor named. */
  lemma CursorNext(ws: seq<nat>, p: nat, l: nat, i: nat) returns (l': nat, i': nat)
    requires AllPositive(ws) && CursorAt(ws, p, l, i) && p < Total(ws)
    ensures l' == (if i >= ws[l] then l + 1 else l) && i' == (if i >= ws[l] then 0 else i)
    ensures Owner(ws, p) == l' && CursorAt(ws, p + 1, l', i' + 1)
  {
    CursorStep(ws, p, l, i);
    l' := if i >= ws[l] then l + 1 else l;
    i' := if i >= ws[l] then 0 else i;
  }

  /** `WalkUnfold`, with both moved cursors named. */
  lemma WalkStep(fw: seq<nat>, gw: seq<nat>, n: nat, l: nat, r: nat, i: nat, j: nat, acc: set<(nat, nat)>,
                 l': nat, i': nat, r': nat, j': nat)
    requires n > 0 && l < |fw| && r < |gw|
    requires l' == (if i >= fw[l] then l + 1 else l) && i' == (if i >= fw[l] then 0 else i)
    requires r' == (if j >= gw[r] then r + 1 else r) && j' == (if j >= gw[r] then 0 else j)
    ensures Walk(fw, gw, n, l, r, i, j, acc) == Walk(fw, gw, n - 1, l', r', i' + 1, j' + 1, acc + {(l', r')})
  {
    WalkUnfold(fw, gw, n, l, r, i, j, acc);
  }

  lemma WalkUnfold(fw: seq<nat>, gw: seq<nat>, n: nat, l: nat, r: nat, i: nat, j: nat, acc: set<(nat, nat)>)
    requires n > 0 && l < |fw| && r < |gw|
    ensures var l' := if i >= fw[l] then l + 1 else l;
      var i' := if i >= fw[l] then 0 else i;
      var r' := if j >= gw[r] then r + 1 else r;
      var j' := if j >= gw[r] then 0 else j;
      Walk(fw, gw, n, l, r, i, j, acc) == Walk(fw, gw, n - 1, l', r', i' + 1, j' + 1, acc + {(l', r')})
  {
  }

  /** With every factor at least one wire wide and enough wires on both sides, the walk pairs
      each wire's left owner with its right owner: its result is exactly the adjacency. */
  lemma WalkIsAdjacency(fw: seq<nat>, gw: seq<nat>, n: nat)
    requires AllPositive(fw) && AllPositive(gw) && n <= Total(fw) && n <= Total(gw)
    ensures Walk(fw, gw, n, 0, 0, 0, 0, {}) == Ok(Adjacency(fw, gw, n))
  {
    assert Adjacency(fw, gw, 0) == {};
    if n > 0 {
      assert fw != [] && gw != [];
    }
    WalkFrom(fw, gw, n, 0, 0, 0, 0, 0, n, {});
  }

  /** A factor of width zero is skipped only one step at a time: with left widths `[0, 0, 1]` the
      one wire is credited to factor 1 although it belongs to factor 2. */
  lemma ZeroWidthMisattributed()
    ensures Walk([0, 0, 1], [1], 1, 0, 0, 0, 0, {}) == Ok({(1, 0)})
    ensures Owner([0, 0, 1], 0) == 2
  {
    OwnerUnique([0, 0, 1], 0, 2);
    var none: set<(nat, nat)> := {};
    assert none + {(1, 0)} == {(1, 0)};
    WalkUnfold([0, 0, 1], [1], 1, 0, 0, 0, 0, none);
  }

  // ---------------------------------------------------------------------------
  // Degrees: how many factors across the boundary each factor touches
  // ---------------------------------------------------------------------------

  /** The left end (`left`) or the right end of a pair of factors. */
  function End(e: (nat, nat), left: bool): nat
  {
    if left then e.0 else e.1
  }

  /** `len({(x, y) for x, y in wires if x == k})` for the left layer, and with `y == k` for the
      right layer: the number of distinct factors across the boundary that factor `k` touches. */
  function Degree(wires: set<(nat, nat)>, k: nat, left: bool): nat
  {
    |set e | e in wires && End(e, left) == k|
  }

  /** How many of the first `n` wire positions factor `k` owns. */
  function OwnedCount(ws: seq<nat>, k: nat, n: nat): nat
    requires n <= Total(ws)
  {
    if n == 0 then 0 else OwnedCount(ws, k, n - 1) + (if Owner(ws, n - 1) == k then 1 else 0)
  }

  lemma {:induction false} OwnedCountIsOverlap(ws: seq<nat>, k: nat, n: nat)
    requires k < |ws| && n <= Total(ws)
    ensures OwnedCount(ws, k, n)
         == if n <= Start(ws, k) then 0 else if n <= Start(ws, k + 1) then n - Start(ws, k) else ws[k]
  {
    if n > 0 {
      OwnedCountIsOverlap(ws, k, n - 1);
      var q := n - 1;
      if Start(ws, k) <= q < Start(ws, k + 1) {
        OwnerUnique(ws, q, k);
      } else {
        assert Owner(ws, q) != k;
      }
    }
  }

  lemma {:induction false} DegreeAtMostOwned(fw: seq<nat>, gw: seq<nat>, n: nat, k: nat, left: bool)
    requires n <= Total(fw) && n <= Total(gw)
    ensures Degree(Adjacency(fw, gw, n), k, left) <= OwnedCount(if left then fw else gw, k, n)
  {
    if n > 0 {
      DegreeAtMostOwned(fw, gw, n - 1, k, left);
      DegreeStep(fw, gw, n - 1, k, left);
    }
  }

  /** One more wire raises a factor's degree by at most one, and only if the factor owns it. */
  lemma DegreeStep(fw: seq<nat>, gw: seq<nat>, p: nat, k: nat, left: bool)
    requires p < Total(fw) && p < Total(gw)
    ensures Degree(Adjacency(fw, gw, p + 1), k, left)
         <= Degree(Adjacency(fw, gw, p), k, left) + (if Owner(if left then fw else gw, p) == k then 1 else 0)
  {
    AdjacencyStep(fw, gw, p);
    DegreeAdd(Adjacency(fw, gw, p), (Owner(fw, p), Owner(gw, p)), k, left);
  }

  lemma DegreeAdd(wires: set<(nat, nat)>, e: (nat, nat), k: nat, left: bool)
    ensures Degree(wires + {e}, k, left) <= Degree(wires, k, left) + (if End(e, left) == k then 1 else 0)
  {
    var before := set x | x in wires && End(x, left) == k;
    var after := set x | x in wires + {e} && End(x, left) == k;
    if End(e, left) == k {
      assert after == before + {e};
    } else {
      assert after == before;
    }
  }

  /** The cardinalities the merge asserts: a factor touches no more factors across the boundary
      than it has wires there, and at least one when it has a wire and the walk covers its layer. */
  lemma DegreeBound(fw: seq<nat>, gw: seq<nat>, n: nat, k: nat, left: bool)
    requires n <= Total(fw) && n <= Total(gw)
    requires k < |if left then fw else gw|
    ensures Degree(Adjacency(fw, gw, n), k, left) <= (if left then fw else gw)[k]
    ensures var ws := if left then fw else gw;
      n == Total(ws) && ws[k] > 0 ==> Degree(Adjacency(fw, gw, n), k, left) >= 1
  {
    var ws := if left then fw else gw;
    DegreeAtMostOwned(fw, gw, n, k, left);
    OwnedCountIsOverlap(ws, k, n);
    StartMonotone(ws, k + 1, |ws|);
    if n == Total(ws) && ws[k] > 0 {
      var q := Start(ws, k);
      OwnerUnique(ws, q, k);
      var e := (Owner(fw, q), Owner(gw, q));
      assert e in Adjacency(fw, gw, n);
      var touching := set x | x in Adjacency(fw, gw, n) && End(x, left) == k;
      assert e in touching;
      assert touching != {};
    }
  }

  // ---------------------------------------------------------------------------
  // Leaf merges: `merge_cod` and `merge_dom` of `Box` and `Id`
  // ---------------------------------------------------------------------------

  /** `x.merge_cod(k)`: a box asserts `k <= len(cod)` and takes `PRO(k)` as its codomain; an
      identity delegates to `merge_dom`, so it narrows (and checks) its domain; a composite
      has no such method. */
  function MergeCod(x: Wiring, k: nat): Result<Wiring>
  {
    match x
    case Box(name, d, c, data) => if k <= |c| then Ok(Box(name, d, Pro(k), data)) else Err(AssertionError)
    case Id(_, _) => MergeDom(x, k)
    case _ => Err(AttributeError)
  }

  /** `x.merge_dom(k)`: assert `k <= len(dom)` and take `PRO(k)` as the domain. */
  function MergeDom(x: Wiring, k: nat): Result<Wiring>
  {
    match x
    case Box(name, d, c, data) => if k <= |d| then Ok(Box(name, Pro(k), c, data)) else Err(AssertionError)
    case Id(d, c) => if k <= |d| then Ok(Id(Pro(k), c)) else Err(AssertionError)
    case _ => Err(AttributeError)
  }

  /** The codomain merge on the left layer, the domain merge on the right layer. */
  function Narrow(x: Wiring, k: nat, left: bool): Result<Wiring>
  {
    if left then MergeCod(x, k) else MergeDom(x, k)
  }

  /** `a` is `b` with some leaf widths reduced: same tree, same boxes, same identities, and no
      recorded width larger than before. An identity's codomain and a sequential's own types never
      change; a parallel's own types are left free here (they are recomputed after its factors). */
  predicate Narrower(a: Wiring, b: Wiring)
    decreases b
  {
    match b
    case Id(d, c) => a.Id? && |a.dom| <= |d| && a.cod == c
    case Box(name, d, c, data) =>
      a.Box? && a.name == name && a.data == data && |a.dom| <= |d| && |a.cod| <= |c|
    case Sequential(arrows, d, c) =>
      && a.Sequential? && a.dom == d && a.cod == c && |a.arrows| == |arrows|
      && forall k :: 0 <= k < |arrows| ==> Narrower(a.arrows[k], arrows[k])
    case Parallel(factors, _, _) =>
      && a.Parallel? && |a.factors| == |factors|
      && forall k :: 0 <= k < |factors| ==> Narrower(a.factors[k], factors[k])
  }

  lemma {:induction false} NarrowerReflexive(w: Wiring)
    ensures Narrower(w, w)
    decreases w
  {
    match w
    case Sequential(arrows, _, _) =>
      forall k | 0 <= k < |arrows| ensures Narrower(arrows[k], arrows[k]) {
        NarrowerReflexive(arrows[k]);
      }
    case Parallel(factors, _, _) =>
      forall k | 0 <= k < |factors| ensures Narrower(factors[k], factors[k]) {
        NarrowerReflexive(factors[k]);
      }
    case _ =>
  }

  lemma {:induction false} NarrowerTransitive(a: Wiring, b: Wiring, c: Wiring)
    requires Narrower(a, b) && Narrower(b, c)
    ensures Narrower(a, c)
    decreases c
  {
    match c
    case Sequential(arrows, _, _) =>
      forall k | 0 <= k < |arrows| ensures Narrower(a.arrows[k], arrows[k]) {
        NarrowerTransitive(a.arrows[k], b.arrows[k], arrows[k]);
      }
    case Parallel(factors, _, _) =>
      forall k | 0 <= k < |factors| ensures Narrower(a.factors[k], factors[k]) {
        NarrowerTransitive(a.factors[k], b.factors[k], factors[k]);
      }
    case _ =>
  }

  /** A leaf merge succeeds exactly on a box or an identity whose checked width is at least the
      new one; it then narrows just that width, to the untyped type of the new width. */
  lemma NarrowLeaf(x: Wiring, k: nat, left: bool)
    ensures Narrow(x, k, left).Ok?
        <==> (x.Box? && k <= |if left then x.cod else x.dom|) || (x.Id? && k <= |x.dom|)
    ensures Narrow(x, k, left).Err? ==>
      Narrow(x, k, left).error == if x.Box? || x.Id? then AssertionError else AttributeError
    ensures Narrow(x, k, left).Ok? ==> var y := Narrow(x, k, left).value;
      && Narrower(y, x) && Size(y) == Size(x) == 1
      && if x.Box? && left then y == Box(x.name, x.dom, Pro(k), x.data)
         else if x.Box? then y == Box(x.name, Pro(k), x.cod, x.data)
         else y == Id(Pro(k), x.cod)
  {
  }

  // ---------------------------------------------------------------------------
  // One boundary of `Sequential.merge_wires`
  // ---------------------------------------------------------------------------

  /** The factors a boundary sees on one side: a parallel's factors, or the diagram alone. */
  function Layer(f: Wiring): seq<Wiring>
  {
    if f.Parallel? then f.factors else [f]
  }

  function CodWidths(fs: seq<Wiring>): (ws: seq<nat>)
    ensures |ws| == |fs| && forall k :: 0 <= k < |fs| ==> ws[k] == |fs[k].cod|
  {
    seq(|fs|, k requires 0 <= k < |fs| => |fs[k].cod|)
  }

  function DomWidths(gs: seq<Wiring>): (ws: seq<nat>)
    ensures |ws| == |gs| && forall k :: 0 <= k < |gs| ==> ws[k] == |gs[k].dom|
  {
    seq(|gs|, k requires 0 <= k < |gs| => |gs[k].dom|)
  }

  /** `for k, factor in enumerate(fs): factor.merge_cod(...)` (or `merge_dom`), over the first
      `m` factors; the first failing factor raises. */
  function NarrowLayer(fs: seq<Wiring>, wires: set<(nat, nat)>, left: bool, m: nat): (r: Result<seq<Wiring>>)
    requires m <= |fs|
    ensures r.Ok? ==> |r.value| == m
    decreases m
  {
    if m == 0 then Ok([])
    else
      var done :- NarrowLayer(fs, wires, left, m - 1);
      var x :- Narrow(fs[m - 1], Degree(wires, m - 1, left), left);
      Ok(done + [x])
  }

  /** A layer merge succeeds exactly when every factor's merge does, and then factor `k` is
      merged with its own degree. */
  lemma {:induction false} NarrowLayerSpec(fs: seq<Wiring>, wires: set<(nat, nat)>, left: bool, m: nat)
    requires m <= |fs|
    ensures NarrowLayer(fs, wires, left, m).Ok?
        <==> forall k :: 0 <= k < m ==> Narrow(fs[k], Degree(wires, k, left), left).Ok?
    ensures NarrowLayer(fs, wires, left, m).Ok? ==>
      forall k :: 0 <= k < m ==> Narrow(fs[k], Degree(wires, k, left), left) == Ok(NarrowLayer(fs, wires, left, m).value[k])
    decreases m
  {
    if m > 0 {
      NarrowLayerSpec(fs, wires, left, m - 1);
    }
  }

  /** Put a merged layer back: a parallel keeps its own recorded types, a lone diagram is
      replaced by its merged self. */
  function WithLayer(f: Wiring, xs: seq<Wiring>): Wiring
    requires |xs| == |Layer(f)|
  {
    if f.Parallel? then Parallel(xs, f.dom, f.cod) else xs[0]
  }

  /** The boundary between `f` and `g`: walk the `len(f.cod)` wires, then merge the codomains of
      `f`'s layer and the domains of `g`'s layer with their degrees. */
  function Boundary(f: Wiring, g: Wiring): (r: Result<(Wiring, Wiring)>)
    ensures r.Ok? ==> Narrower(r.value.0, f) && Narrower(r.value.1, g)
    ensures r.Ok? ==> Size(r.value.0) == Size(f) && Size(r.value.1) == Size(g)
  {
    var fs, gs := Layer(f), Layer(g);
    var wires :- Walk(CodWidths(fs), DomWidths(gs), |f.cod|, 0, 0, 0, 0, {});
    var fs' :- NarrowLayer(fs, wires, true, |fs|);
    var gs' :- NarrowLayer(gs, wires, false, |gs|);
    LayerPutBack(f, wires, true);
    LayerPutBack(g, wires, false);
    Ok((WithLayer(f, fs'), WithLayer(g, gs')))
  }

  lemma LayerPutBack(f: Wiring, wires: set<(nat, nat)>, left: bool)
    ensures var r := NarrowLayer(Layer(f), wires, left, |Layer(f)|);
      r.Ok? ==> Narrower(WithLayer(f, r.value), f) && Size(WithLayer(f, r.value)) == Size(f)
  {
    var fs := Layer(f);
    var r := NarrowLayer(fs, wires, left, |fs|);
    NarrowLayerSpec(fs, wires, left, |fs|);
    if r.Ok? {
      var xs := r.value;
      forall k | 0 <= k < |fs|
        ensures Narrower(xs[k], fs[k]) && Size(xs[k]) == Size(fs[k]) == 1
      {
        NarrowLeaf(fs[k], Degree(wires, k, left), left);
      }
      if f.Parallel? {
        SizeAllOfLeaves(xs);
        SizeAllOfLeaves(fs);
      }
    }
  }

  lemma {:induction false} SizeAllOfLeaves(ws: seq<Wiring>)
    requires forall k :: 0 <= k < |ws| ==> Size(ws[k]) == 1
    ensures SizeAll(ws) == |ws|
  {
    if ws != [] {
      SizeAllOfLeaves(ws[1..]);
    }
  }

  /** The boundary merge, as the source runs it: the walk, then one loop per layer. */
  method MergeBoundary(f: Wiring, g: Wiring) returns (r: Result<(Wiring, Wiring)>)
    ensures r == Boundary(f, g)
  {
    var fs, gs := Layer(f), Layer(g);
    var walked := AdjacencyWalk(CodWidths(fs), DomWidths(gs), |f.cod|);
    if walked.Err? {
      return Err(walked.error);
    }
    var wires := walked.value;
    var fs' := MergeLayer(fs, wires, true);
    if fs'.Err? {
      return Err(fs'.error);
    }
    var gs' := MergeLayer(gs, wires, false);
    if gs'.Err? {
      return Err(gs'.error);
    }
    r := Ok((WithLayer(f, fs'.value), WithLayer(g, gs'.value)));
  }

  /** `for k, factor in enumerate(layer): factor.merge_cod(len({... if x == k}))` (or the
      `merge_dom` loop on the right layer). */
  method MergeLayer(fs: seq<Wiring>, wires: set<(nat, nat)>, left: bool) returns (r: Result<seq<Wiring>>)
    ensures r == NarrowLayer(fs, wires, left, |fs|)
  {
    var done: seq<Wiring> := [];
    var k := 0;
    while k < |fs|
      invariant k <= |fs|
      invariant NarrowLayer(fs, wires, left, k) == Ok(done)
    {
      var degree := |set e | e in wires && End(e, left) == k|;
      var x := Narrow(fs[k], degree, left);
      if x.Err? {
        NarrowLayerFails(fs, wires, left, k + 1, |fs|);
        return Err(x.error);
      }
      done := done + [x.value];
      k := k + 1;
    }
    r := Ok(done);
  }

  /** Once a factor's merge fails, the whole layer merge fails with its error. */
  lemma {:induction false} NarrowLayerFails(fs: seq<Wiring>, wires: set<(nat, nat)>, left: bool, m: nat, m': nat)
    requires m <= m' <= |fs| && NarrowLayer(fs, wires, left, m).Err?
    ensures NarrowLayer(fs, wires, left, m') == NarrowLayer(fs, wires, left, m)
    decreases m' - m
  {
    if m < m' {
      NarrowLayerFails(fs, wires, left, m, m' - 1);
    }
  }

  /** At a boundary whose left factors are boxes or fresh identities, whose right factors are
      boxes or identities, whose factors are all at least one wire wide, and which has no more
      wires than either layer: the merge succeeds, keeps both layers' lengths, and merges every
      factor with its degree, which never exceeds the factor's own width on that side (so the
      asserts hold) and is at least one when the walk covers the factor's layer. */
  lemma BoundaryWidths(f: Wiring, g: Wiring) returns (f': Wiring, g': Wiring)
    requires forall k :: 0 <= k < |Layer(f)| ==> Layer(f)[k].Box? || (Layer(f)[k].Id? && Layer(f)[k].dom == Layer(f)[k].cod)
    requires forall k :: 0 <= k < |Layer(g)| ==> Layer(g)[k].Box? || Layer(g)[k].Id?
    requires AllPositive(CodWidths(Layer(f))) && AllPositive(DomWidths(Layer(g)))
    requires |f.cod| <= Total(CodWidths(Layer(f))) && |f.cod| <= Total(DomWidths(Layer(g)))
    ensures Boundary(f, g) == Ok((f', g'))
    ensures f' == WithLayer(f, Layer(f')) && g' == WithLayer(g, Layer(g'))
    ensures var adj := Adjacency(CodWidths(Layer(f)), DomWidths(Layer(g)), |f.cod|);
      SideMerged(Layer(f), Layer(f'), adj, true) && SideMerged(Layer(g), Layer(g'), adj, false)
    ensures |f.cod| == Total(CodWidths(Layer(f))) ==>
      SideCovered(Layer(f), Adjacency(CodWidths(Layer(f)), DomWidths(Layer(g)), |f.cod|), true)
    ensures |f.cod| == Total(DomWidths(Layer(g))) ==>
      SideCovered(Layer(g), Adjacency(CodWidths(Layer(f)), DomWidths(Layer(g)), |f.cod|), false)
  {
    var fs, gs := Layer(f), Layer(g);
    var fw, gw := CodWidths(fs), DomWidths(gs);
    var n := |f.cod|;
    WalkIsAdjacency(fw, gw, n);
    var adj := Adjacency(fw, gw, n);
    SideMerges(fw, gw, n, fs, true);
    SideMerges(fw, gw, n, gs, false);
    var fs' := NarrowLayer(fs, adj, true, |fs|).value;
    var gs' := NarrowLayer(gs, adj, false, |gs|).value;
    LayerOfLeaves(f, fs', adj, true);
    LayerOfLeaves(g, gs', adj, false);
    f', g' := WithLayer(f, fs'), WithLayer(g, gs');
    BoundaryUnfold(f, g, adj, fs', gs');
  }

  lemma BoundaryUnfold(f: Wiring, g: Wiring, wires: set<(nat, nat)>, fs': seq<Wiring>, gs': seq<Wiring>)
    requires Walk(CodWidths(Layer(f)), DomWidths(Layer(g)), |f.cod|, 0, 0, 0, 0, {}) == Ok(wires)
    requires NarrowLayer(Layer(f), wires, true, |Layer(f)|) == Ok(fs')
    requires NarrowLayer(Layer(g), wires, false, |Layer(g)|) == Ok(gs')
    ensures Boundary(f, g) == Ok((WithLayer(f, fs'), WithLayer(g, gs')))
  {
  }

  /** Every factor of one layer was merged with its degree, which is at most its width on
      that side. */
  predicate SideMerged(xs: seq<Wiring>, xs': seq<Wiring>, wires: set<(nat, nat)>, left: bool)
  {
    && |xs'| == |xs|
    && forall k :: 0 <= k < |xs| ==>
         && Narrow(xs[k], Degree(wires, k, left), left) == Ok(xs'[k])
         && Degree(wires, k, left) <= |if left then xs[k].cod else xs[k].dom|
  }

  /** Every factor of one layer meets at least one factor across the boundary. */
  predicate SideCovered(xs: seq<Wiring>, wires: set<(nat, nat)>, left: bool)
  {
    forall k :: 0 <= k < |xs| ==> Degree(wires, k, left) >= 1
  }

  /** One side of `BoundaryWidths`. */
  lemma SideMerges(fw: seq<nat>, gw: seq<nat>, n: nat, xs: seq<Wiring>, left: bool)
    requires n <= Total(fw) && n <= Total(gw)
    requires if left then fw == CodWidths(xs) else gw == DomWidths(xs)
    requires AllPositive(if left then fw else gw)
    requires forall k :: 0 <= k < |xs| ==> xs[k].Box? || (xs[k].Id? && (left ==> xs[k].dom == xs[k].cod))
    ensures var adj := Adjacency(fw, gw, n);
      var r := NarrowLayer(xs, adj, left, |xs|);
      && r.Ok?
      && SideMerged(xs, r.value, adj, left)
      && (n == Total(if left then fw else gw) ==> SideCovered(xs, adj, left))
  {
    var adj := Adjacency(fw, gw, n);
    var ws := if left then fw else gw;
    forall k | 0 <= k < |xs|
      ensures Degree(adj, k, left) <= ws[k] && (n == Total(ws) ==> Degree(adj, k, left) >= 1)
      ensures Narrow(xs[k], Degree(adj, k, left), left).Ok?
    {
      DegreeBound(fw, gw, n, k, left);
      NarrowLeaf(xs[k], Degree(adj, k, left), left);
    }
    NarrowLayerSpec(xs, adj, left, |xs|);
  }

  lemma LayerOfLeaves(f: Wiring, xs: seq<Wiring>, wires: set<(nat, nat)>, left: bool)
    requires |xs| == |Layer(f)|
    requires forall k :: 0 <= k < |xs| ==> Narrow(Layer(f)[k], Degree(wires, k, left), left) == Ok(xs[k])
    ensures Layer(WithLayer(f, xs)) == xs
  {
    if !f.Parallel? {
      NarrowLeaf(f, Degree(wires, 0, left), left);
    }
  }

  // ---------------------------------------------------------------------------
  // `Sequential.merge_wires` and `Parallel.merge_wires`
  // ---------------------------------------------------------------------------

  /** `zip(arrows, arrows[1:])`: the number of boundaries of a list of arrows. */
  function BoundaryCount(arrows: seq<Wiring>): nat
  {
    if arrows == [] then 0 else |arrows| - 1
  }

  /** Arrow by arrow, `xs` is narrower than `ys` and of the same size. */
  predicate NarrowsAll(xs: seq<Wiring>, ys: seq<Wiring>)
  {
    |xs| == |ys| && forall k :: 0 <= k < |xs| ==> Narrower(xs[k], ys[k]) && Size(xs[k]) == Size(ys[k])
  }

  /** The boundary loop from boundary `m` on: each boundary sees the arrows as the previous
      boundaries left them, and the first failing boundary ends the pass with its error. */
  function BoundariesFrom(cur: seq<Wiring>, m: nat): (r: Result<seq<Wiring>>)
    requires m <= BoundaryCount(cur)
    ensures r.Ok? ==> NarrowsAll(r.value, cur)
    decreases BoundaryCount(cur) - m
  {
    if m == BoundaryCount(cur) then
      NarrowsAllReflexive(cur);
      Ok(cur)
    else
      var pair :- Boundary(cur[m], cur[m + 1]);
      var next := cur[m := pair.0][m + 1 := pair.1];
      BoundaryUpdate(cur, m, pair.0, pair.1);
      var r :- BoundariesFrom(next, m + 1);
      NarrowsAllTransitive(r, next, cur);
      Ok(r)
  }

  /** All boundaries of a list of arrows, in order. */
  function Boundaries(arrows: seq<Wiring>): (r: Result<seq<Wiring>>)
    ensures r.Ok? ==> NarrowsAll(r.value, arrows)
  {
    BoundariesFrom(arrows, 0)
  }

  /** The loop's step: replacing two neighbouring arrows by narrower ones of the same size. */
  lemma BoundaryUpdate(cur: seq<Wiring>, m: nat, a: Wiring, b: Wiring)
    requires m + 1 < |cur|
    requires Narrower(a, cur[m]) && Size(a) == Size(cur[m])
    requires Narrower(b, cur[m + 1]) && Size(b) == Size(cur[m + 1])
    ensures NarrowsAll(cur[m := a][m + 1 := b], cur)
  {
    var next := cur[m := a][m + 1 := b];
    forall k | 0 <= k < |cur|
      ensures Narrower(next[k], cur[k]) && Size(next[k]) == Size(cur[k])
    {
      if k != m && k != m + 1 {
        NarrowerReflexive(cur[k]);
      }
    }
  }

  lemma NarrowsAllReflexive(ws: seq<Wiring>)
    ensures NarrowsAll(ws, ws)
  {
    NarrowerAllReflexive(ws);
  }

  lemma NarrowsAllTransitive(xs: seq<Wiring>, ys: seq<Wiring>, zs: seq<Wiring>)
    requires NarrowsAll(xs, ys) && NarrowsAll(ys, zs)
    ensures NarrowsAll(xs, zs)
  {
    forall k | 0 <= k < |xs|
      ensures Narrower(xs[k], zs[k])
    {
      NarrowerTransitive(xs[k], ys[k], zs[k]);
    }
  }

  lemma NarrowerAllReflexive(ws: seq<Wiring>)
    ensures forall k :: 0 <= k < |ws| ==> Narrower(ws[k], ws[k])
  {
    forall k | 0 <= k < |ws| ensures Narrower(ws[k], ws[k]) {
      NarrowerReflexive(ws[k]);
    }
  }

  lemma {:induction false} SizeAllPointwise(xs: seq<Wiring>, ys: seq<Wiring>)
    requires |xs| == |ys| && forall k :: 0 <= k < |xs| ==> Size(xs[k]) == Size(ys[k])
    ensures SizeAll(xs) == SizeAll(ys)
  {
    if xs != [] {
      SizeAllPointwise(xs[1..], ys[1..]);
    }
  }

  /** `w.merge_wires()`: a leaf is left alone; a sequential merges every boundary in order, then
      each arrow, and keeps its own recorded types; a parallel merges each factor and records the
      concatenation of the merged factors' types. */
  function Merged(w: Wiring): Result<Wiring>
    decreases Size(w), 0
  {
    match w
    case Id(_, _) => Ok(w)
    case Box(_, _, _, _) => Ok(w)
    case Sequential(arrows, d, c) =>
      var narrowed :- Boundaries(arrows);
      SizeAllPointwise(narrowed, arrows);
      var merged :- MergedAll(narrowed);
      Ok(Sequential(merged, d, c))
    case Parallel(factors, _, _) =>
      var merged :- MergedAll(factors);
      Ok(Parallel(merged, Doms(merged), Cods(merged)))
  }

  /** `for f in ws: f.merge_wires()`, stopping at the first failure. */
  function MergedAll(ws: seq<Wiring>): (r: Result<seq<Wiring>>)
    ensures r.Ok? ==> |r.value| == |ws|
    decreases SizeAll(ws), 1
  {
    if ws == [] then Ok([])
    else
      var x :- Merged(ws[0]);
      var rest :- MergedAll(ws[1..]);
      Ok([x] + rest)
  }

  lemma {:induction false} MergedAllAppend(xs: seq<Wiring>, ys: seq<Wiring>)
    ensures MergedAll(xs + ys) == (var a :- MergedAll(xs); var b :- MergedAll(ys); Ok(a + b))
  {
    if xs == [] {
      assert xs + ys == ys;
      match MergedAll(ys) {
        case Err(_) =>
        case Ok(b) => assert [] + b == b;
      }
    } else {
      assert (xs + ys)[0] == xs[0];
      assert (xs + ys)[1..] == xs[1..] + ys;
      MergedAllAppend(xs[1..], ys);
      match Merged(xs[0]) {
        case Err(_) =>
        case Ok(x) =>
          match MergedAll(xs[1..]) {
            case Err(_) =>
            case Ok(a) =>
              match MergedAll(ys) {
                case Err(_) =>
                case Ok(b) =>
                  assert [x] + (a + b) == ([x] + a) + b;
              }
          }
      }
    }
  }

  lemma MergedAllSingle(x: Wiring)
    ensures MergedAll([x]) == (var m :- Merged(x); Ok([m]))
  {
    assert [x][0] == x;
    assert [x][1..] == [];
    match Merged(x) {
      case Err(_) =>
      case Ok(m) => assert [m] + [] == [m];
    }
  }

  /** `merge_wires` only narrows: the merged diagram has the same tree, the same boxes in the
      same places, and no recorded leaf width larger than before. */
  lemma {:induction false} MergedNarrows(w: Wiring)
    ensures Merged(w).Ok? ==> Narrower(Merged(w).value, w)
    decreases Size(w), 0
  {
    match w
    case Id(_, _) => NarrowerReflexive(w);
    case Box(_, _, _, _) => NarrowerReflexive(w);
    case Sequential(arrows, _, _) =>
      var narrowed := Boundaries(arrows);
      if narrowed.Ok? {
        SizeAllPointwise(narrowed.value, arrows);
        MergedAllNarrows(narrowed.value);
        if MergedAll(narrowed.value).Ok? {
          var merged := MergedAll(narrowed.value).value;
          forall k | 0 <= k < |arrows| ensures Narrower(merged[k], arrows[k]) {
            NarrowerTransitive(merged[k], narrowed.value[k], arrows[k]);
          }
        }
      }
    case Parallel(factors, _, _) =>
      MergedAllNarrows(factors);
  }

  lemma {:induction false} MergedAllNarrows(ws: seq<Wiring>)
    ensures MergedAll(ws).Ok? ==> forall k :: 0 <= k < |ws| ==> Narrower(MergedAll(ws).value[k], ws[k])
    decreases SizeAll(ws), 1
  {
    if ws != [] {
      MergedNarrows(ws[0]);
      MergedAllNarrows(ws[1..]);
      if MergedAll(ws).Ok? {
        forall k | 0 <= k < |ws| ensures Narrower(MergedAll(ws).value[k], ws[k]) {
          if k > 0 {
            assert ws[k] == ws[1..][k - 1];
          }
        }
      }
    }
  }

  /** Every parallel records the concatenation of its factors' types, at every depth. */
  predicate TypesAgree(w: Wiring)
    decreases w
  {
    match w
    case Sequential(arrows, _, _) => forall k :: 0 <= k < |arrows| ==> TypesAgree(arrows[k])
    case Parallel(factors, d, c) =>
      d == Doms(factors) && c == Cods(factors) && forall k :: 0 <= k < |factors| ==> TypesAgree(factors[k])
    case _ => true
  }

  /** After `merge_wires`, every parallel, however deep, records the merged types of its factors
      (whatever it recorded before, and whatever the boundaries did to its factors). */
  lemma {:induction false} MergedTypesAgree(w: Wiring)
    ensures Merged(w).Ok? ==> TypesAgree(Merged(w).value)
    decreases Size(w), 0
  {
    match w
    case Id(_, _) =>
    case Box(_, _, _, _) =>
    case Sequential(arrows, _, _) =>
      var narrowed := Boundaries(arrows);
      if narrowed.Ok? {
        SizeAllPointwise(narrowed.value, arrows);
        MergedAllTypesAgree(narrowed.value);
      }
    case Parallel(factors, _, _) =>
      MergedAllTypesAgree(factors);
  }

  lemma {:induction false} MergedAllTypesAgree(ws: seq<Wiring>)
    ensures MergedAll(ws).Ok? ==> forall k :: 0 <= k < |ws| ==> TypesAgree(MergedAll(ws).value[k])
    decreases SizeAll(ws), 1
  {
    if ws != [] {
      MergedTypesAgree(ws[0]);
      MergedAllTypesAgree(ws[1..]);
    }
  }

  /** A failing element fails the whole `MergedAll`, with its own error. */
  lemma MergedAllStops(ws: seq<Wiring>, k: nat, done: seq<Wiring>)
    requires k < |ws| && MergedAll(ws[..k]) == Ok(done) && Merged(ws[k]).Err?
    ensures MergedAll(ws) == Err(Merged(ws[k]).error)
  {
    assert ws == ws[..k] + ws[k..];
    MergedAllAppend(ws[..k], ws[k..]);
    assert ws[k..][0] == ws[k];
  }

  /** Extending a successful `MergedAll` by one more merged element. */
  lemma MergedAllExtend(ws: seq<Wiring>, k: nat, done: seq<Wiring>, m: Wiring)
    requires k < |ws| && MergedAll(ws[..k]) == Ok(done) && Merged(ws[k]) == Ok(m)
    ensures MergedAll(ws[..k + 1]) == Ok(done + [m])
  {
    assert ws[..k + 1] == ws[..k] + [ws[k]];
    MergedAllAppend(ws[..k], [ws[k]]);
    MergedAllSingle(ws[k]);
  }

  /** `merge_wires()`, recursively: the boundary loop, then each arrow (or factor) in turn. */
  method MergeWires(w: Wiring) returns (r: Result<Wiring>)
    ensures r == Merged(w)
    decreases Size(w), 2
  {
    match w
    case Id(_, _) =>
      return Ok(w);
    case Box(_, _, _, _) =>
      return Ok(w);
    case Sequential(arrows, d, c) =>
      r := MergeSequential(arrows, d, c);
    case Parallel(factors, d, c) =>
      r := MergeParallel(factors, d, c);
  }

  /** `Sequential.merge_wires`: merge every boundary, in order, then every arrow. */
  method MergeSequential(arrows: seq<Wiring>, d: Ty, c: Ty) returns (r: Result<Wiring>)
    ensures r == Merged(Sequential(arrows, d, c))
    decreases Size(Sequential(arrows, d, c)), 1
  {
    var narrowed := MergeBoundaries(arrows);
    if narrowed.Err? {
      return Err(narrowed.error);
    }
    var cur := narrowed.value;
    SizeAllPointwise(cur, arrows);
    var merged := MergeEach(cur, Size(Sequential(arrows, d, c)));
    if merged.Err? {
      return Err(merged.error);
    }
    return Ok(Sequential(merged.value, d, c));
  }

  /** The boundary loop of `Sequential.merge_wires`: every boundary, in order, on the arrows as
      the previous boundaries left them. */
  method MergeBoundaries(arrows: seq<Wiring>) returns (r: Result<seq<Wiring>>)
    ensures r == Boundaries(arrows)
  {
    var cur := arrows;
    var m := 0;
    while m < BoundaryCount(arrows)
      invariant |cur| == |arrows| && m <= BoundaryCount(arrows)
      invariant BoundariesFrom(cur, m) == Boundaries(arrows)
    {
      var pair := MergeBoundary(cur[m], cur[m + 1]);
      BoundariesFromStep(cur, m, pair);
      if pair.Err? {
        return Err(pair.error);
      }
      cur := cur[m := pair.value.0][m + 1 := pair.value.1];
      m := m + 1;
    }
    return Ok(cur);
  }

  /** One boundary of the loop: its failure ends the pass, its success moves on to the next. */
  lemma BoundariesFromStep(cur: seq<Wiring>, m: nat, pair: Result<(Wiring, Wiring)>)
    requires m < BoundaryCount(cur) && pair == Boundary(cur[m], cur[m + 1])
    ensures pair.Err? ==> BoundariesFrom(cur, m) == Err(pair.error)
    ensures pair.Ok? ==> var next := cur[m := pair.value.0][m + 1 := pair.value.1];
      && BoundaryCount(next) == BoundaryCount(cur)
      && BoundariesFrom(cur, m) == BoundariesFrom(next, m + 1)
  {
  }

  /** `Parallel.merge_wires`: merge every factor, then record the concatenated types. */
  method MergeParallel(factors: seq<Wiring>, d: Ty, c: Ty) returns (r: Result<Wiring>)
    ensures r == Merged(Parallel(factors, d, c))
    decreases Size(Parallel(factors, d, c)), 1
  {
    var merged := MergeEach(factors, Size(Parallel(factors, d, c)));
    if merged.Err? {
      return Err(merged.error);
    }
    var ms := merged.value;
    var dom: Ty, cod: Ty := [], [];
    var k := 0;
    while k < |ms|
      invariant k <= |ms|
      invariant dom == Doms(ms[..k]) && cod == Cods(ms[..k])
    {
      DomsAppend(ms[..k], [ms[k]]);
      assert ms[..k + 1] == ms[..k] + [ms[k]];
      assert Doms([ms[k]]) == ms[k].dom && Cods([ms[k]]) == ms[k].cod;
      dom, cod := dom + ms[k].dom, cod + ms[k].cod;
      k := k + 1;
    }
    assert ms[..k] == ms;
    return Ok(Parallel(ms, dom, cod));
  }

  /** `for f in ws: f.merge_wires()`; `bound` is the size of the enclosing diagram. */
  method MergeEach(ws: seq<Wiring>, bound: nat) returns (r: Result<seq<Wiring>>)
    requires SizeAll(ws) < bound
    ensures r == MergedAll(ws)
    decreases bound, 0
  {
    var done: seq<Wiring> := [];
    var k := 0;
    while k < |ws|
      invariant k <= |ws|
      invariant MergedAll(ws[..k]) == Ok(done)
    {
      SizeAllBound(ws, k);
      var x := MergeWires(ws[k]);
      if x.Err? {
        MergedAllStops(ws, k, done);
        return Err(x.error);
      }
      MergedAllExtend(ws, k, done, x.value);
      done := done + [x.value];
      k := k + 1;
    }
    assert ws[..k] == ws;
    r := Ok(done);
  }

  /** `Id.merge_cod` narrows the domain. In `Sequential([a, Id(PRO(2)) @ k, c @ d @ e])`, with
      `a` of three output wires and `k`, `c`, `d`, `e` of one wire each, the identity is a factor
      of the middle arrow. Only the constructor builds this diagram: `>>` would rebalance its last
      two arrows, since both are parallels. The first boundary narrows the identity's domain to
      the one factor it meets, `a`. At the second boundary it meets `c` and `d`, and its codomain
      merge checks that narrowed domain against a degree of two and fails, so the whole pass
      fails. */
  lemma IdNarrowedTwice()
    ensures var a, k := Box("a", [], Pro(3), NoData), Box("k", Pro(1), Pro(1), NoData);
      var c, d, e := Box("c", Pro(1), Pro(1), NoData), Box("d", Pro(1), Pro(1), NoData), Box("e", Pro(1), Pro(1), NoData);
      var m, r := Tensor(IdOn(Pro(2)), k), Parallel([c, d, e], Pro(3), Pro(3));
      && m == Parallel([IdOn(Pro(2)), k], Pro(3), Pro(3))
      && MakeSequential([a, m, r]) == Ok(Sequential([a, m, r], [], Pro(3)))
      && Boundary(a, m) == Ok((Box("a", [], Pro(2), NoData), Parallel([Id(Pro(1), Pro(2)), k], Pro(3), Pro(3))))
      && Boundary(Parallel([Id(Pro(1), Pro(2)), k], Pro(3), Pro(3)), r) == Err(AssertionError)
      && Merged(Sequential([a, m, r], [], Pro(3))) == Err(AssertionError)
  {
    var a, k := Box("a", [], Pro(3), NoData), Box("k", Pro(1), Pro(1), NoData);
    var c, d, e := Box("c", Pro(1), Pro(1), NoData), Box("d", Pro(1), Pro(1), NoData), Box("e", Pro(1), Pro(1), NoData);
    var m := MiddleArrow(k);
    var r := Parallel([c, d, e], Pro(3), Pro(3));
    var m' := Parallel([Id(Pro(1), Pro(2)), k], Pro(3), Pro(3));
    FlatThreeArrows(a, m, r);
    IdNarrowedOnce(a, k, m);
    NarrowedIdFails(k, c, d, e, m', r);
    PassFails([a, m, r], Box("a", [], Pro(2), NoData), m', [], Pro(3));
  }

  /** Three arrows that are neither identities nor sequentials are kept as they are. */
  lemma FlatThreeArrows(a: Wiring, m: Wiring, r: Wiring)
    requires a.Box? && m.Parallel? && r.Parallel?
    ensures MakeSequential([a, m, r]) == Ok(Sequential([a, m, r], a.dom, r.cod))
  {
    FlattenArrowsIdempotent([a, m, r]);
  }

  /** When the second boundary of three arrows fails, so does the whole pass. */
  lemma PassFails(arrows: seq<Wiring>, a': Wiring, m': Wiring, dom: Ty, cod: Ty)
    requires |arrows| == 3 && Boundary(arrows[0], arrows[1]) == Ok((a', m'))
    requires Boundary(m', arrows[2]) == Err(AssertionError)
    ensures Merged(Sequential(arrows, dom, cod)) == Err(AssertionError)
  {
    var next := arrows[0 := a'][1 := m'];
    assert next[1] == m' && next[2] == arrows[2];
    assert BoundariesFrom(next, 1) == Err(AssertionError);
    assert Boundaries(arrows) == Err(AssertionError);
  }

  /** `Id(PRO(2)) @ k` keeps the identity as a factor of its own. */
  lemma MiddleArrow(k: Wiring) returns (m: Wiring)
    requires k == Box("k", Pro(1), Pro(1), NoData)
    ensures m == Tensor(IdOn(Pro(2)), k) == Parallel([IdOn(Pro(2)), k], Pro(3), Pro(3))
  {
    FlattenFactorsKnown(IdOn(Pro(2)), k);
    TypesOfPair(IdOn(Pro(2)), k);
    assert Pro(2) + Pro(1) == Pro(3);
    m := Tensor(IdOn(Pro(2)), k);
  }

  /** The first boundary: `a` meets both factors, the identity and `k` each meet `a` alone. */
  lemma IdNarrowedOnce(a: Wiring, k: Wiring, m: Wiring)
    requires a == Box("a", [], Pro(3), NoData) && k == Box("k", Pro(1), Pro(1), NoData)
    requires m == Parallel([IdOn(Pro(2)), k], Pro(3), Pro(3))
    ensures Boundary(a, m) == Ok((Box("a", [], Pro(2), NoData), Parallel([Id(Pro(1), Pro(2)), k], Pro(3), Pro(3))))
  {
    var none: set<(nat, nat)> := {};
    var first: set<(nat, nat)> := {(0, 0)};
    var wires: set<(nat, nat)> := {(0, 0), (0, 1)};
    assert none + {(0, 0)} == first && first + {(0, 0)} == first && first + {(0, 1)} == wires;
    assert CodWidths([a]) == [3] && DomWidths([IdOn(Pro(2)), k]) == [2, 1];
    WalkUnfold([3], [2, 1], 3, 0, 0, 0, 0, {});
    WalkUnfold([3], [2, 1], 2, 0, 0, 1, 1, first);
    WalkUnfold([3], [2, 1], 1, 0, 0, 2, 2, first);
    assert Walk([3], [2, 1], 3, 0, 0, 0, 0, {}) == Ok(wires);
    assert (set x | x in wires && End(x, true) == 0) == wires;
    assert (set x | x in wires && End(x, false) == 0) == first;
    assert (set x | x in wires && End(x, false) == 1) == {(0, 1)};
    assert Degree(wires, 0, true) == 2 && Degree(wires, 0, false) == 1 && Degree(wires, 1, false) == 1;
    var none': seq<Wiring> := [];
    assert none' + [Box("a", [], Pro(2), NoData)] == [Box("a", [], Pro(2), NoData)];
    assert NarrowLayer([a], wires, true, 1) == Ok([Box("a", [], Pro(2), NoData)]);
    assert none' + [Id(Pro(1), Pro(2))] == [Id(Pro(1), Pro(2))];
    assert NarrowLayer([IdOn(Pro(2)), k], wires, false, 1) == Ok([Id(Pro(1), Pro(2))]);
    assert Narrow(k, 1, false) == Ok(k);
    assert [Id(Pro(1), Pro(2))] + [k] == [Id(Pro(1), Pro(2)), k];
    assert NarrowLayer([IdOn(Pro(2)), k], wires, false, 2) == Ok([Id(Pro(1), Pro(2)), k]);
  }

  /** The second boundary: the narrowed identity meets `c` and `d` and fails its assert. */
  lemma NarrowedIdFails(k: Wiring, c: Wiring, d: Wiring, e: Wiring, m': Wiring, r: Wiring)
    requires k == Box("k", Pro(1), Pro(1), NoData)
    requires c == Box("c", Pro(1), Pro(1), NoData) && d == Box("d", Pro(1), Pro(1), NoData)
    requires e == Box("e", Pro(1), Pro(1), NoData)
    requires m' == Parallel([Id(Pro(1), Pro(2)), k], Pro(3), Pro(3)) && r == Parallel([c, d, e], Pro(3), Pro(3))
    ensures Boundary(m', r) == Err(AssertionError)
  {
    var wires := SecondWalk();
    assert CodWidths([Id(Pro(1), Pro(2)), k]) == [2, 1] && DomWidths([c, d, e]) == [1, 1, 1];
    assert (set x | x in wires && End(x, true) == 0) == {(0, 0), (0, 1)};
    assert Degree(wires, 0, true) == 2;
    assert NarrowLayer([Id(Pro(1), Pro(2)), k], wires, true, 1) == Err(AssertionError);
    NarrowLayerFails([Id(Pro(1), Pro(2)), k], wires, true, 1, 2);
  }

  /** The walk of the second boundary: the identity meets `c` and `d`, and `k` meets `e`. */
  lemma SecondWalk() returns (wires: set<(nat, nat)>)
    ensures wires == {(0, 0), (0, 1), (1, 2)}
    ensures Walk([2, 1], [1, 1, 1], 3, 0, 0, 0, 0, {}) == Ok(wires)
  {
    var none: set<(nat, nat)> := {};
    var first: set<(nat, nat)> := {(0, 0)};
    var second: set<(nat, nat)> := {(0, 0), (0, 1)};
    wires := {(0, 0), (0, 1), (1, 2)};
    assert none + {(0, 0)} == first && first + {(0, 1)} == second && second + {(1, 2)} == wires;
    WalkUnfold([2, 1], [1, 1, 1], 3, 0, 0, 0, 0, {});
    WalkUnfold([2, 1], [1, 1, 1], 2, 0, 0, 1, 1, first);
    WalkUnfold([2, 1], [1, 1, 1], 1, 0, 1, 2, 1, second);
  }
}
