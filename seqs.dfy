/** A filter-map over sequences: the shape of the address loader's loop, which
    keeps or drops each row in turn and keeps the order of what it keeps. */
module Seqs {

  datatype Option<+T> = None | Some(value: T)

  /** The values `f` gives to the elements of `xs`, in order, skipping `None`. */
  function FilterMap<T, U>(xs: seq<T>, f: T -> Option<U>): seq<U> {
    if xs == [] then []
    else FilterMap(xs[..|xs| - 1], f) + (if f(xs[|xs| - 1]).Some? then [f(xs[|xs| - 1]).value] else [])
  }

  /** The positions in `xs` whose element `f` keeps, in increasing order. */
  function Kept<T, U>(xs: seq<T>, f: T -> Option<U>): seq<nat> {
    if xs == [] then []
    else Kept(xs[..|xs| - 1], f) + (if f(xs[|xs| - 1]).Some? then [|xs| - 1] else [])
  }

  lemma {:induction false} FilterMapAppend<T, U>(a: seq<T>, b: seq<T>, f: T -> Option<U>)
    ensures FilterMap(a + b, f) == FilterMap(a, f) + FilterMap(b, f)
  {
    if b == [] {
      assert a + b == a;
    } else {
      var b' := b[..|b| - 1];
      assert (a + b)[..|a + b| - 1] == a + b';
      FilterMapAppend(a, b', f);
    }
  }

  lemma FilterMapOne<T, U>(x: T, f: T -> Option<U>)
    ensures FilterMap([x], f) == if f(x).Some? then [f(x).value] else []
  {
  }

  lemma {:induction false} KeptLength<T, U>(xs: seq<T>, f: T -> Option<U>)
    ensures |Kept(xs, f)| == |FilterMap(xs, f)| <= |xs|
    ensures forall k :: 0 <= k < |Kept(xs, f)| ==> Kept(xs, f)[k] < |xs|
  {
    if xs != [] {
      KeptLength(xs[..|xs| - 1], f);
    }
  }

  /** The `k`-th value kept is what `f` gives to the element at the `k`-th kept position. */
  lemma {:induction false} FilterMapAt<T, U>(xs: seq<T>, f: T -> Option<U>, k: nat)
    requires k < |FilterMap(xs, f)|
    ensures |Kept(xs, f)| == |FilterMap(xs, f)|
    ensures Kept(xs, f)[k] < |xs| && f(xs[Kept(xs, f)[k]]) == Some(FilterMap(xs, f)[k])
  {
    var n := |xs|;
    var init := xs[..n - 1];
    KeptLength(xs, f);
    KeptLength(init, f);
    if k < |FilterMap(init, f)| {
      FilterMapAt(init, f, k);
      assert xs[Kept(init, f)[k]] == init[Kept(init, f)[k]];
    }
  }

  lemma {:induction false} KeptIncreasing<T, U>(xs: seq<T>, f: T -> Option<U>)
    ensures forall k, l :: 0 <= k < l < |Kept(xs, f)| ==> Kept(xs, f)[k] < Kept(xs, f)[l]
  {
    if xs != [] {
      var n := |xs|;
      var init := xs[..n - 1];
      KeptIncreasing(init, f);
      KeptLength(init, f);
      var o, o0 := Kept(xs, f), Kept(init, f);
      forall k, l | 0 <= k < l < |o| ensures o[k] < o[l] {
        if l < |o0| {
          assert o[k] == o0[k] && o[l] == o0[l];
        } else {
          assert o[k] == o0[k] < n - 1;
        }
      }
    }
  }

  /** A position is kept exactly when `f` keeps its element. */
  lemma {:induction false} KeptMember<T, U>(xs: seq<T>, f: T -> Option<U>, i: nat)
    requires i < |xs|
    ensures i in Kept(xs, f) <==> f(xs[i]).Some?
  {
    var n := |xs|;
    var init := xs[..n - 1];
    KeptLength(init, f);
    if i < n - 1 {
      KeptMember(init, f, i);
      assert xs[i] == init[i];
    } else {
      assert n - 1 !in Kept(init, f);
    }
  }
}
