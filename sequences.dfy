/**
 * The two generic slice helpers of the service: `Filter` keeps the elements a
 * predicate accepts, `Map` applies a function to every element.
 */
module Sequences {

  /** The elements of `vs` that `f` accepts, in their original order. */
  function Filtered<T>(vs: seq<T>, f: T -> bool): (kept: seq<T>)
  {
    if vs == [] then []
    else Filtered(vs[..|vs| - 1], f) + (if f(vs[|vs| - 1]) then [vs[|vs| - 1]] else [])
  }

  /** Filter appends each accepted element to a growing result, front to back. */
  method Filter<T>(vs: seq<T>, f: T -> bool) returns (vsm: seq<T>)
    ensures vsm == Filtered(vs, f)
    ensures |vsm| <= |vs|
    ensures forall v :: v in vsm <==> v in vs && f(v)
  {
    vsm := [];
    for i := 0 to |vs|
      invariant vsm == Filtered(vs[..i], f)
    {
      assert vs[..i + 1][..i] == vs[..i];
      if f(vs[i]) {
        vsm := vsm + [vs[i]];
      }
    }
    assert vs[..|vs|] == vs;
    FilteredLength(vs, f);
    forall v ensures v in vsm <==> v in vs && f(v) {
      FilteredMembers(vs, f, v);
    }
  }

  /** Filtering never lengthens a sequence. */
  lemma {:induction false} FilteredLength<T>(vs: seq<T>, f: T -> bool)
    ensures |Filtered(vs, f)| <= |vs|
  {
    if vs != [] {
      FilteredLength(vs[..|vs| - 1], f);
    }
  }

  /** An element is kept exactly when it occurs in the input and is accepted. */
  lemma {:induction false} FilteredMembers<T>(vs: seq<T>, f: T -> bool, v: T)
    ensures v in Filtered(vs, f) <==> v in vs && f(v)
  {
    if vs != [] {
      var init := vs[..|vs| - 1];
      FilteredMembers(init, f, v);
      assert vs == init + [vs[|vs| - 1]];
    }
  }

  /** Every accepted element keeps its multiplicity; every rejected one disappears. */
  lemma {:induction false} FilteredCounts<T>(vs: seq<T>, f: T -> bool, v: T)
    ensures multiset(Filtered(vs, f))[v] == if f(v) then multiset(vs)[v] else 0
  {
    if vs != [] {
      var init := vs[..|vs| - 1];
      FilteredCounts(init, f, v);
      assert vs == init + [vs[|vs| - 1]];
    }
  }

  /**
   * Filtering commutes with concatenation: what is kept from a prefix comes
   * before what is kept from the rest, so the relative order is preserved.
   */
  lemma {:induction false} FilteredAppend<T>(a: seq<T>, b: seq<T>, f: T -> bool)
    ensures Filtered(a + b, f) == Filtered(a, f) + Filtered(b, f)
  {
    if b == [] {
      assert a + b == a;
    } else {
      var init := b[..|b| - 1];
      FilteredAppend(a, init, f);
      assert (a + b)[..|a + b| - 1] == a + init;
    }
  }

  /** Map writes f(vs[i]) into slot i of a zero-initialised result of the same length. */
  method Map<T, U(0)>(vs: seq<T>, f: T -> U) returns (vsm: seq<U>)
    ensures |vsm| == |vs|
    ensures forall i :: 0 <= i < |vs| ==> vsm[i] == f(vs[i])
  {
    var out := new U[|vs|];
    for i := 0 to |vs|
      invariant forall k :: 0 <= k < i ==> out[k] == f(vs[k])
    {
      out[i] := f(vs[i]);
    }
    vsm := out[..];
  }
}
