/** Rust's Option and Result, as the core uses them. */
module Wrappers {

  datatype Option<+T> = None | Some(value: T) {
    /** Option::unwrap_or */
    function UnwrapOr(default: T): T {
      match this
      case Some(v) => v
      case None => default
    }

    /** The value, if any, as a sequence of at most one element. */
    function ToSeq(): seq<T> {
      match this
      case Some(v) => [v]
      case None => []
    }
  }

  datatype Result<+T, +E> = Ok(value: T) | Err(error: E) {
    /** Result::unwrap_or */
    function UnwrapOr(default: T): T {
      match this
      case Ok(v) => v
      case Err(_) => default
    }
  }

  // Filtering and mapping a sequence, as `Iterator::filter_map` does.

  /** The `Some` values of `f` over `xs`, in order. */
  function FilterMap<T, U>(xs: seq<T>, f: T -> Option<U>): (ys: seq<U>)
    ensures |ys| <= |xs|
    decreases |xs|
  {
    if xs == [] then []
    else FilterMap(xs[..|xs| - 1], f) + (if f(xs[|xs| - 1]).Some? then [f(xs[|xs| - 1]).value] else [])
  }

  /** Two runs of inputs give their outputs one after the other. */
  lemma {:induction false} FilterMapAppend<T, U>(a: seq<T>, b: seq<T>, f: T -> Option<U>)
    ensures FilterMap(a + b, f) == FilterMap(a, f) + FilterMap(b, f)
    decreases |b|
  {
    if b == [] {
      assert a + b == a;
    } else {
      var init := b[..|b| - 1];
      assert (a + b)[..|a + b| - 1] == a + init;
      assert (a + b)[|a + b| - 1] == b[|b| - 1];
      FilterMapAppend(a, init, f);
    }
  }

  /** The first input contributes its output, if any, ahead of the rest. */
  lemma FilterMapCons<T, U>(x: T, rest: seq<T>, f: T -> Option<U>)
    ensures FilterMap([x] + rest, f) == (if f(x).Some? then [f(x).value] else []) + FilterMap(rest, f)
  {
    FilterMapAppend([x], rest, f);
    assert [x][..0] == [];
  }

  /** Filtering one more element of a prefix appends its value, if any. */
  lemma FilterMapStep<T, U>(xs: seq<T>, i: nat, f: T -> Option<U>, r: Option<U>)
    requires i < |xs| && r == f(xs[i])
    ensures FilterMap(xs[..i + 1], f) == FilterMap(xs[..i], f) + r.ToSeq()
  {
    assert xs[..i + 1][..i] == xs[..i];
  }
}
