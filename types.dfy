/** Wire types, payloads, error kinds and small sequence helpers shared by every module. */
module Types {

  /** An atomic wire label. `Unit` is the one atom of the untyped category PRO. */
  datatype Ob = Unit | Named(text: string)

  /** A wire type: an ordered sequence of atoms; `@` on types is concatenation. */
  type Ty = seq<Ob>

  /** `PRO(n)`: n untyped wires. */
  function Pro(n: nat): (t: Ty)
    ensures |t| == n
    ensures forall i :: 0 <= i < n ==> t[i] == Unit
  {
    seq(n, _ => Unit)
  }

  /** True when every atom of `t` is the untyped wire, i.e. `t == PRO(len(t))`. */
  predicate IsPro(t: Ty)
  {
    forall i :: 0 <= i < |t| ==> t[i] == Unit
  }

  /** The opaque payload a box carries through every transformation. */
  datatype Data = NoData | Payload(tag: nat)

  /** The exceptions the modelled code can raise, by kind only. */
  datatype Error =
    | AxiomError      // `cat.AxiomError`: the types do not compose
    | TypeError       // `functools.reduce` over an empty sequence
    | IndexError      // indexing past the end of a list or a string
    | KeyError        // a wire position missing from the `wires` dictionary
    | AssertionError  // a failed `assert` in `merge_dom` / `merge_cod`
    | AttributeError  // `merge_dom` / `merge_cod` called on a composite diagram

  datatype Result<+T> = Ok(value: T) | Err(error: Error)
  {
    predicate IsFailure() { Err? }

    function PropagateFailure<U>(): Result<U>
      requires Err?
    {
      Err(error)
    }

    function Extract(): T
      requires Ok?
    {
      value
    }
  }

  function Last<T>(s: seq<T>): T
    requires s != []
  {
    s[|s| - 1]
  }

  function DropLast<T>(s: seq<T>): seq<T>
    requires s != []
  {
    s[..|s| - 1]
  }

  function Reverse<T>(s: seq<T>): (r: seq<T>)
    ensures |r| == |s|
    ensures forall i :: 0 <= i < |s| ==> r[i] == s[|s| - 1 - i]
  {
    if s == [] then [] else Reverse(s[1..]) + [s[0]]
  }

  /** Concatenation is associative, with the right-hand pair already joined. */
  lemma AppendAssoc<T>(xs: seq<T>, ys: seq<T>, zs: seq<T>, yz: seq<T>)
    requires yz == ys + zs
    ensures xs + yz == xs + ys + zs
  {
  }

  /** No element occurs twice. */
  predicate Distinct<T(==)>(s: seq<T>)
  {
    forall i, j :: 0 <= i < j < |s| ==> s[i] != s[j]
  }

  predicate AllPositive(ws: seq<nat>)
  {
    forall i :: 0 <= i < |ws| ==> ws[i] > 0
  }

  /** `zs` is an interleaving of `xs` and `ys`: both occur in `zs` in order, and nothing else. */
  predicate Interleaving<T(==)>(xs: seq<T>, ys: seq<T>, zs: seq<T>)
    decreases |zs|
  {
    if zs == [] then xs == [] && ys == []
    else
      || (xs != [] && Last(xs) == Last(zs) && Interleaving(DropLast(xs), ys, DropLast(zs)))
      || (ys != [] && Last(ys) == Last(zs) && Interleaving(xs, DropLast(ys), DropLast(zs)))
  }

  lemma InterleavingSnocLeft<T>(xs: seq<T>, ys: seq<T>, zs: seq<T>, x: T)
    requires Interleaving(xs, ys, zs)
    ensures Interleaving(xs + [x], ys, zs + [x])
  {
    assert DropLast(xs + [x]) == xs;
    assert DropLast(zs + [x]) == zs;
  }

  lemma InterleavingSnocRight<T>(xs: seq<T>, ys: seq<T>, zs: seq<T>, y: T)
    requires Interleaving(xs, ys, zs)
    ensures Interleaving(xs, ys + [y], zs + [y])
  {
    assert DropLast(ys + [y]) == ys;
    assert DropLast(zs + [y]) == zs;
  }

  /** Everything interleaved occurs in the result. */
  lemma {:induction false} InterleavingMembers<T>(xs: seq<T>, ys: seq<T>, zs: seq<T>)
    requires Interleaving(xs, ys, zs)
    ensures forall x :: x in xs ==> x in zs
    ensures forall y :: y in ys ==> y in zs
    decreases |zs|
  {
    if zs != [] {
      if xs != [] && Last(xs) == Last(zs) && Interleaving(DropLast(xs), ys, DropLast(zs)) {
        InterleavingMembers(DropLast(xs), ys, DropLast(zs));
        assert xs == DropLast(xs) + [Last(xs)];
        assert zs == DropLast(zs) + [Last(zs)];
      } else {
        InterleavingMembers(xs, DropLast(ys), DropLast(zs));
        assert ys == DropLast(ys) + [Last(ys)];
        assert zs == DropLast(zs) + [Last(zs)];
      }
    }
  }
}
